/**
 The resumable upload protocol: init_upload, upload_chunk and complete_upload over the job table and
 the archive files, with requests handled one after another. The SHA-256 of a file is an arbitrary
 function of its bytes.
 */
module Upload {
  import opened Wrappers
  import opened Text
  import P = IngestProtocol
  import opened Counting
  import opened Sequences

  type Byte = n: int | 0 <= n < 256
  type Bytes = seq<Byte>
  type Digest = Bytes -> string
  type JobId = nat
  // upload_dir()/<uuid>/<file name>
  datatype Path = Path(dir: JobId, name: string)

  datatype JobRow = JobRow(
    source: string, fileHash: string, status: P.Status, eventsCount: nat,
    fileSize: nat, bytesReceived: nat, archivePath: Option<Path>)

  datatype Store = Store(jobs: map<JobId, JobRow>, files: map<Path, Bytes>)

  // The write of a body and the progress update after it. When one of the two fails, some bytes may have reached the
  // file: a part of the body, or all of it.
  datatype Outcome = Recorded | Torn(written: nat)

  datatype Request =
    // `newId` is the UUID drawn by this call, `stored` the number of events ClickHouse holds for the source
    | Init(newId: JobId, source: string, fileName: string, fileSize: int, fileHash: string, stored: nat)
    | Chunk(id: JobId, offset: Option<int>, body: Bytes, outcome: Outcome)
    | Complete(id: JobId, maxQueue: nat)
    // the worker side: a claim, and a finish that stores events or fails
    | WorkerClaim(id: JobId)
    | WorkerFinish(id: JobId, events: Option<nat>)

  datatype Reply =
    | Created(id: JobId)
    | Deduplicated(id: JobId)
    | Accepted(received: nat)
    | Queued
    | QueueFull(pending: nat)
    | HashMismatch
    | BadRequest
    | NotFound
    | Conflict
    | InternalError
    // the same HTTP status, sent after bytes had reached the file
    | ProgressLost
    | WorkerDone

  // ----- Pieces of the handlers

  function SafeChar(c: char): char {
    if 'a' <= c <= 'z' || 'A' <= c <= 'Z' || '0' <= c <= '9' || c == '.' || c == '-' || c == '_' then c else '_'
  }

  function SafeName(name: string): string {
    seq(|name|, i requires 0 <= i < |name| => SafeChar(name[i]))
  }

  function ArchivePathFor(id: JobId, name: string): Path {
    Path(id, SafeName(name))
  }

  predicate IsDigestText(h: string) {
    |h| == 64 && forall c | c in h :: IsHexDigit(c)
  }

  predicate ValidInit(r: Request)
    requires r.Init?
  {
    !IsBlank(r.source) && r.fileSize > 0 && IsDigestText(r.fileHash)
  }

  // (source, file_hash) is unique in the table.
  predicate SameUpload(row: JobRow, source: string, hash: string) {
    row.source == source && row.fileHash == hash
  }

  predicate UniqueUploads(jobs: map<JobId, JobRow>) {
    forall a, b | a in jobs && b in jobs && SameUpload(jobs[a], jobs[b].source, jobs[b].fileHash) :: a == b
  }

  function Lookup(jobs: map<JobId, JobRow>, source: string, hash: string): (r: Option<JobId>)
    requires UniqueUploads(jobs)
    ensures r.Some? ==> r.value in jobs && SameUpload(jobs[r.value], source, hash)
    ensures r.None? ==> forall id | id in jobs :: !SameUpload(jobs[id], source, hash)
  {
    if exists id :: id in jobs && SameUpload(jobs[id], source, hash)
    then var id :| id in jobs && SameUpload(jobs[id], source, hash); Some(id)
    else None
  }

  predicate IsPendingRow(row: JobRow) { row.status == P.Pending }

  function PendingCount(jobs: map<JobId, JobRow>): nat {
    CountWhere(jobs, IsPendingRow)
  }

  // ----- One request

  predicate FreshId(s: Store, id: JobId) {
    && id !in s.jobs
    && (forall k | k in s.jobs :: s.jobs[k].archivePath.Some? ==> s.jobs[k].archivePath.value.dir != id)
    && (forall p | p in s.files :: p.dir != id)
  }

  predicate Allowed(s: Store, r: Request) {
    UniqueUploads(s.jobs) && (r.Init? ==> FreshId(s, r.newId))
  }

  function SetStatus(s: Store, id: JobId, status: P.Status): Store
    requires id in s.jobs
  {
    s.(jobs := s.jobs[id := s.jobs[id].(status := status)])
  }

  function HandleInit(s: Store, r: Request): (Store, Reply)
    requires r.Init? && Allowed(s, r)
  {
    if !ValidInit(r) then (s, BadRequest)
    else
      var existing := Lookup(s.jobs, r.source, r.fileHash);
      if existing.Some? && s.jobs[existing.value].status == P.Done
         && s.jobs[existing.value].eventsCount > 0 && r.stored > 0
      then (s, Deduplicated(existing.value))
      else if existing.Some? && s.jobs[existing.value].status in {P.Uploading, P.Running, P.Pending}
      then (s, Conflict)
      else
        var dir := if existing.Some? && s.jobs[existing.value].status == P.Failed then existing.value else r.newId;
        var path := ArchivePathFor(dir, r.fileName);
        var row := JobRow(r.source, r.fileHash, P.Uploading, 0, r.fileSize, 0, Some(path));
        var id := if existing.Some? then existing.value else dir;
        (Store(s.jobs[id := row], s.files[path := []]), Created(id))
  }

  // The bytes that reach the file.
  function WrittenPart(body: Bytes, outcome: Outcome): (r: Bytes)
    ensures r <= body && (outcome.Recorded? ==> r == body)
  {
    if outcome.Torn? && outcome.written < |body| then body[..outcome.written] else body
  }

  function HandleChunk(s: Store, r: Request): (Store, Reply)
    requires r.Chunk?
  {
    if r.offset.None? then (s, BadRequest)
    else if r.id !in s.jobs then (s, NotFound)
    else
      var job := s.jobs[r.id];
      if job.status != P.Uploading then (s, Conflict)
      else if r.offset.value != job.bytesReceived then (s, Conflict)
      else if job.bytesReceived + |r.body| > job.fileSize then (s, BadRequest)
      else if job.archivePath.None? || job.archivePath.value !in s.files then (s, InternalError)
      else
        var path := job.archivePath.value;
        var written := s.(files := s.files[path := s.files[path] + WrittenPart(r.body, r.outcome)]);
        var received := job.bytesReceived + |r.body|;
        if r.outcome.Recorded?
        then (written.(jobs := s.jobs[r.id := job.(bytesReceived := received)]), Accepted(received))
        else (written, ProgressLost)
  }

  function HandleComplete(s: Store, r: Request, hash: Digest): (Store, Reply)
    requires r.Complete?
  {
    if r.id !in s.jobs then (s, NotFound)
    else
      var job := s.jobs[r.id];
      if job.status != P.Uploading then (s, Conflict)
      else if job.bytesReceived != job.fileSize then (s, BadRequest)
      else if job.archivePath.None? || job.archivePath.value !in s.files then (s, InternalError)
      else if hash(s.files[job.archivePath.value]) != job.fileHash
      then (SetStatus(s, r.id, P.Failed), HashMismatch)
      else if P.QueueIsSaturated(PendingCount(s.jobs), r.maxQueue) then (s, QueueFull(PendingCount(s.jobs)))
      else (SetStatus(s, r.id, P.Pending), Queued)
  }

  function HandleWorker(s: Store, r: Request): (Store, Reply)
    requires r.WorkerClaim? || r.WorkerFinish?
  {
    if r.id !in s.jobs then (s, WorkerDone)
    else
      var job := s.jobs[r.id];
      if r.WorkerClaim? then
        (if job.status == P.Pending then s.(jobs := s.jobs[r.id := job.(status := P.Running, eventsCount := 0)]) else s,
         WorkerDone)
      else if job.status != P.Running then (s, WorkerDone)
      else match r.events
        case Some(n) =>
          (Store(s.jobs[r.id := job.(status := P.Done, eventsCount := n)],
                 if job.archivePath.Some? then s.files - {job.archivePath.value} else s.files), WorkerDone)
        case None => (s.(jobs := s.jobs[r.id := job.(status := P.Failed, eventsCount := 0)]), WorkerDone)
  }

  function Handle(s: Store, r: Request, hash: Digest): (Store, Reply)
    requires Allowed(s, r)
  {
    match r
    case Init(_, _, _, _, _, _) => HandleInit(s, r)
    case Chunk(_, _, _, _) => HandleChunk(s, r)
    case Complete(_, _) => HandleComplete(s, r, hash)
    case _ => HandleWorker(s, r)
  }

  // ----- What a client can see: the bodies written since the last init of a job, with their replies

  datatype Entry = Entry(body: Bytes, acknowledged: bool)

  function Written(log: seq<Entry>): Bytes {
    if log == [] then [] else Written(log[..|log| - 1]) + log[|log| - 1].body
  }

  function Acknowledged(log: seq<Entry>): nat {
    if log == [] then 0
    else Acknowledged(log[..|log| - 1]) + if log[|log| - 1].acknowledged then |log[|log| - 1].body| else 0
  }

  predicate AllAcknowledged(log: seq<Entry>) {
    forall e | e in log :: e.acknowledged
  }

  lemma {:induction false} AcknowledgedLength(log: seq<Entry>)
    ensures Acknowledged(log) <= |Written(log)|
    ensures AllAcknowledged(log) ==> Acknowledged(log) == |Written(log)|
  {
    if log != [] {
      AcknowledgedLength(log[..|log| - 1]);
      assert AllAcknowledged(log) ==> AllAcknowledged(log[..|log| - 1]) && log[|log| - 1].acknowledged;
    }
  }

  datatype Session = Session(store: Store, log: map<JobId, seq<Entry>>)

  function Next(t: Session, r: Request, hash: Digest): Session
    requires Allowed(t.store, r)
  {
    var (store, reply) := Handle(t.store, r, hash);
    Session(store,
      match r
      case Init(_, _, _, _, _, _) => if reply.Created? then t.log[reply.id := []] else t.log
      case Chunk(id, _, body, outcome) =>
        if reply.Accepted? || reply.ProgressLost?
        then t.log[id := (if id in t.log then t.log[id] else []) + [Entry(WrittenPart(body, outcome), reply.Accepted?)]]
        else t.log
      case _ => t.log)
  }

  // ts[i] is the session before request i.
  ghost predicate Served(ts: seq<Session>, rs: seq<Request>, hash: Digest) {
    && |ts| == |rs| + 1
    && forall i | 0 <= i < |rs| :: Allowed(ts[i].store, rs[i]) && ts[i + 1] == Next(ts[i], rs[i], hash)
  }

  const Empty := Session(Store(map[], map[]), map[])

  // ----- The invariant

  // No two jobs share a directory, and no job's archive lies in a directory named after another job.
  predicate ApartPaths(jobs: map<JobId, JobRow>) {
    && (forall a | a in jobs :: jobs[a].archivePath.Some?)
    && (forall a, b | a in jobs && b in jobs && a != b ::
          jobs[a].archivePath.value.dir != b && jobs[a].archivePath.value.dir != jobs[b].archivePath.value.dir)
  }

  predicate Tracked(t: Session, id: JobId)
    requires id in t.store.jobs && t.store.jobs[id].archivePath.Some?
  {
    var job := t.store.jobs[id];
    var path := job.archivePath.value;
    && id in t.log && path in t.store.files
    && t.store.files[path] == Written(t.log[id])
    && job.bytesReceived == Acknowledged(t.log[id]) <= job.fileSize
  }

  predicate Verified(t: Session, id: JobId, hash: Digest)
    requires id in t.store.jobs && t.store.jobs[id].archivePath.Some?
  {
    var job := t.store.jobs[id];
    && job.archivePath.value in t.store.files
    && job.bytesReceived == job.fileSize
    && hash(t.store.files[job.archivePath.value]) == job.fileHash
  }

  predicate Valid(t: Session, hash: Digest) {
    && UniqueUploads(t.store.jobs)
    && ApartPaths(t.store.jobs)
    && (forall id | id in t.store.jobs && t.store.jobs[id].status != P.Done :: Tracked(t, id))
    && (forall id | id in t.store.jobs && t.store.jobs[id].status in {P.Pending, P.Running} :: Verified(t, id, hash))
  }

  lemma WrittenAppend(log: seq<Entry>, e: Entry)
    ensures Written(log + [e]) == Written(log) + e.body
    ensures Acknowledged(log + [e]) == Acknowledged(log) + if e.acknowledged then |e.body| else 0
  {
    assert (log + [e])[..|log|] == log;
  }

  // No other row has this key, and no other archive lies near this directory or in one named after the job.
  predicate IsApart(jobs: map<JobId, JobRow>, id: JobId, row: JobRow) {
    && row.archivePath.Some?
    && forall k | k in jobs && k != id ::
         && jobs[k].archivePath.Some? && !SameUpload(jobs[k], row.source, row.fileHash)
         && jobs[k].archivePath.value.dir != row.archivePath.value.dir
         && jobs[k].archivePath.value.dir != id && row.archivePath.value.dir != k
  }

  // An accepted init writes one fresh row and one empty file.
  lemma InitCreates(s: Store, r: Request) returns (row: JobRow)
    requires r.Init? && Allowed(s, r) && ApartPaths(s.jobs) && HandleInit(s, r).1.Created?
    ensures IsApart(s.jobs, HandleInit(s, r).1.id, row)
    ensures row.status == P.Uploading && row.bytesReceived == 0
    ensures HandleInit(s, r).0 == Store(s.jobs[HandleInit(s, r).1.id := row], s.files[row.archivePath.value := []])
  {
    var existing := Lookup(s.jobs, r.source, r.fileHash);
    var dir := if existing.Some? && s.jobs[existing.value].status == P.Failed then existing.value else r.newId;
    hide IsDigestText, Lookup;
    row := JobRow(r.source, r.fileHash, P.Uploading, 0, r.fileSize, 0, Some(ArchivePathFor(dir, r.fileName)));
  }

  lemma ApartStays(jobs: map<JobId, JobRow>, id: JobId, row: JobRow)
    requires UniqueUploads(jobs) && ApartPaths(jobs) && IsApart(jobs, id, row)
    ensures UniqueUploads(jobs[id := row]) && ApartPaths(jobs[id := row])
  {
  }

  lemma EmptyIsTracked(t: Session, id: JobId)
    requires id in t.store.jobs && t.store.jobs[id].archivePath.Some? && t.store.jobs[id].bytesReceived == 0
    requires id in t.log && t.log[id] == []
    requires t.store.jobs[id].archivePath.value in t.store.files
    requires t.store.files[t.store.jobs[id].archivePath.value] == []
    ensures Tracked(t, id)
  {
  }

  lemma OthersStayTracked(t: Session, t': Session, id: JobId, row: JobRow, k: JobId, hash: Digest)
    requires IsApart(t.store.jobs, id, row) && k in t.store.jobs && k != id
    requires t'.store == Store(t.store.jobs[id := row], t.store.files[row.archivePath.value := []])
    requires t'.log == t.log[id := []]
    ensures k in t'.store.jobs && t'.store.jobs[k] == t.store.jobs[k]
    ensures Tracked(t, k) ==> Tracked(t', k)
    ensures Verified(t, k, hash) ==> Verified(t', k, hash)
  {
    assert t.store.jobs[k].archivePath.value != row.archivePath.value;
    hide Written, Acknowledged;
  }

  lemma RefusedChangesNothing(s: Store, r: Request)
    requires r.Init? && Allowed(s, r) && !HandleInit(s, r).1.Created?
    ensures HandleInit(s, r).0 == s
  {
  }

  lemma InitKeepsValid(t: Session, r: Request, hash: Digest)
    requires Valid(t, hash) && r.Init? && Allowed(t.store, r)
    ensures Valid(Next(t, r, hash), hash)
  {
    hide HandleInit, Tracked, Verified, UniqueUploads, ApartPaths, IsApart, Lookup;
    if HandleInit(t.store, r).1.Created? {
      var t', id := Next(t, r, hash), HandleInit(t.store, r).1.id;
      var row := InitCreates(t.store, r);
      ApartStays(t.store.jobs, id, row);
      RowIsThere(t.store.jobs, id, row);
      EmptyIsTracked(t', id);
      forall k | k in t'.store.jobs && k != id
        ensures k in t.store.jobs && t'.store.jobs[k] == t.store.jobs[k] && t.store.jobs[k].archivePath.Some?
        ensures Tracked(t, k) ==> Tracked(t', k)
        ensures Verified(t, k, hash) ==> Verified(t', k, hash)
      {
        PathIsThere(t.store.jobs, k);
        OthersStayTracked(t, t', id, row, k, hash);
      }
    } else {
      RefusedChangesNothing(t.store, r);
    }
  }

  lemma RowIsThere(jobs: map<JobId, JobRow>, id: JobId, row: JobRow)
    requires IsApart(jobs, id, row)
    ensures row.archivePath.Some?
  {
  }

  lemma PathIsThere(jobs: map<JobId, JobRow>, k: JobId)
    requires ApartPaths(jobs) && k in jobs
    ensures jobs[k].archivePath.Some?
  {
  }

  // Only job `id` changes: its row keeps its key and path, and no other file or log entry is touched.
  predicate OnlyJob(t: Session, t': Session, id: JobId) {
    && id in t.store.jobs && id in t'.store.jobs
    && t'.store.jobs == t.store.jobs[id := t'.store.jobs[id]]
    && var row, row' := t.store.jobs[id], t'.store.jobs[id];
    && SameUpload(row', row.source, row.fileHash)
    && row.archivePath.Some? && row'.archivePath == row.archivePath
    && (forall p | p in t.store.files && p != row.archivePath.value ::
          p in t'.store.files && t'.store.files[p] == t.store.files[p])
    && (forall k | k in t.log && k != id :: k in t'.log && t'.log[k] == t.log[k])
  }

  lemma OthersStayValid(t: Session, t': Session, id: JobId, hash: Digest)
    requires Valid(t, hash) && OnlyJob(t, t', id)
    requires t'.store.jobs[id].status != P.Done ==> Tracked(t', id)
    requires t'.store.jobs[id].status in {P.Pending, P.Running} ==> Verified(t', id, hash)
    ensures Valid(t', hash)
  {
    forall k | k in t'.store.jobs && k != id
      ensures t'.store.jobs[k] == t.store.jobs[k]
      ensures t.store.jobs[k].status != P.Done ==> Tracked(t', k)
      ensures t.store.jobs[k].status in {P.Pending, P.Running} ==> Verified(t', k, hash)
    {
      assert t.store.jobs[k].status != P.Done ==> Tracked(t, k);
      assert t.store.jobs[k].status in {P.Pending, P.Running} ==> Verified(t, k, hash);
      assert t.store.jobs[k].archivePath.value != t.store.jobs[id].archivePath.value;
    }
    assert UniqueUploads(t'.store.jobs);
    assert ApartPaths(t'.store.jobs);
  }

  predicate ReadyToAppend(t: Session, id: JobId) {
    && id in t.store.jobs && id in t.log
    && t.store.jobs[id].archivePath.Some? && t.store.jobs[id].archivePath.value in t.store.files
  }

  // The effect of a chunk that reaches the file.
  function Append(t: Session, id: JobId, body: Bytes, outcome: Outcome): Session
    requires ReadyToAppend(t, id)
  {
    var job, part := t.store.jobs[id], WrittenPart(body, outcome);
    var path := job.archivePath.value;
    var jobs :=
      if outcome.Recorded? then t.store.jobs[id := job.(bytesReceived := job.bytesReceived + |body|)] else t.store.jobs;
    Session(Store(jobs, t.store.files[path := t.store.files[path] + part]),
            t.log[id := t.log[id] + [Entry(part, outcome.Recorded?)]])
  }

  lemma UploadingIsReady(t: Session, id: JobId, hash: Digest)
    requires Valid(t, hash) && id in t.store.jobs && t.store.jobs[id].status == P.Uploading
    ensures ReadyToAppend(t, id)
  {
    assert Tracked(t, id);
  }

  // A chunk either appends or changes nothing.
  lemma ChunkAppends(t: Session, r: Request, hash: Digest)
    requires Valid(t, hash) && r.Chunk?
    ensures var reply := HandleChunk(t.store, r).1;
            if reply.Accepted? || reply.ProgressLost?
            then ReadyToAppend(t, r.id) && t.store.jobs[r.id].status == P.Uploading
                 && t.store.jobs[r.id].bytesReceived + |r.body| <= t.store.jobs[r.id].fileSize
                 && Next(t, r, hash) == Append(t, r.id, r.body, r.outcome)
            else Next(t, r, hash) == t
  {
    if r.id in t.store.jobs && t.store.jobs[r.id].status == P.Uploading {
      UploadingIsReady(t, r.id, hash);
    }
    hide Tracked, Verified, UniqueUploads, ApartPaths, WrittenPart, Written, Acknowledged;
  }

  lemma AppendKeepsValid(t: Session, id: JobId, body: Bytes, outcome: Outcome, hash: Digest)
    requires Valid(t, hash) && ReadyToAppend(t, id) && t.store.jobs[id].status == P.Uploading
    requires t.store.jobs[id].bytesReceived + |body| <= t.store.jobs[id].fileSize
    ensures Valid(Append(t, id, body, outcome), hash)
  {
    assert Tracked(t, id);
    WrittenAppend(t.log[id], Entry(WrittenPart(body, outcome), outcome.Recorded?));
    OthersStayValid(t, Append(t, id, body, outcome), id, hash);
  }

  lemma ChunkKeepsValid(t: Session, r: Request, hash: Digest)
    requires Valid(t, hash) && r.Chunk?
    ensures Valid(Next(t, r, hash), hash)
  {
    ChunkAppends(t, r, hash);
    var reply := HandleChunk(t.store, r).1;
    if reply.Accepted? || reply.ProgressLost? {
      AppendKeepsValid(t, r.id, r.body, r.outcome, hash);
    }
  }

  // A new status for one job, with its bytes and its file left alone.
  lemma StatusKeepsValid(t: Session, id: JobId, status: P.Status, events: nat, hash: Digest)
    requires Valid(t, hash) && id in t.store.jobs && t.store.jobs[id].status != P.Done && status != P.Done
    requires status in {P.Pending, P.Running} ==> Verified(t, id, hash)
    ensures var row := t.store.jobs[id].(status := status, eventsCount := events);
            Valid(t.(store := t.store.(jobs := t.store.jobs[id := row])), hash)
  {
    var row := t.store.jobs[id].(status := status, eventsCount := events);
    var t' := t.(store := t.store.(jobs := t.store.jobs[id := row]));
    assert Tracked(t, id);
    OthersStayValid(t, t', id, hash);
  }

  lemma CompleteKeepsValid(t: Session, r: Request, hash: Digest)
    requires Valid(t, hash) && r.Complete?
    ensures Valid(Next(t, r, hash), hash)
  {
    var reply := HandleComplete(t.store, r, hash).1;
    if reply.Queued? || reply.HashMismatch? {
      var job := t.store.jobs[r.id];
      StatusKeepsValid(t, r.id, if reply.Queued? then P.Pending else P.Failed, job.eventsCount, hash);
    }
  }

  lemma WorkerKeepsValid(t: Session, r: Request, hash: Digest)
    requires Valid(t, hash) && (r.WorkerClaim? || r.WorkerFinish?)
    ensures Valid(Next(t, r, hash), hash)
  {
    if r.id in t.store.jobs {
      var job := t.store.jobs[r.id];
      if r.WorkerClaim? && job.status == P.Pending {
        assert Verified(t, r.id, hash);
        StatusKeepsValid(t, r.id, P.Running, 0, hash);
      } else if r.WorkerFinish? && job.status == P.Running {
        if r.events.None? {
          StatusKeepsValid(t, r.id, P.Failed, 0, hash);
        } else {
          OthersStayValid(t, Next(t, r, hash), r.id, hash);
        }
      }
    }
  }

  lemma NextKeepsValid(t: Session, r: Request, hash: Digest)
    requires Valid(t, hash) && Allowed(t.store, r)
    ensures Valid(Next(t, r, hash), hash)
  {
    match r
    case Init(_, _, _, _, _, _) => InitKeepsValid(t, r, hash);
    case Chunk(_, _, _, _) => ChunkKeepsValid(t, r, hash);
    case Complete(_, _) => CompleteKeepsValid(t, r, hash);
    case _ => WorkerKeepsValid(t, r, hash);
  }

  lemma {:induction false} ServedKeepsValid(ts: seq<Session>, rs: seq<Request>, hash: Digest, n: nat)
    requires Served(ts, rs, hash) && Valid(ts[0], hash) && n < |ts|
    ensures Valid(ts[n], hash)
  {
    if n > 0 {
      ServedKeepsValid(ts, rs, hash, n - 1);
      NextKeepsValid(ts[n - 1], rs[n - 1], hash);
    }
  }

  // ----- Main results

  // After any sequence of requests: the file of a job being uploaded is the concatenation of the bodies written
  // since its init; bytes_received counts the acknowledged ones and stays within file_size; the two lengths agree
  // when every body written was acknowledged.
  lemma FileIsWhatWasAccepted(ts: seq<Session>, rs: seq<Request>, hash: Digest, n: nat, id: JobId)
    requires Served(ts, rs, hash) && ts[0] == Empty && n < |ts|
    requires id in ts[n].store.jobs && ts[n].store.jobs[id].status == P.Uploading
    ensures var t := ts[n];
            var job := t.store.jobs[id];
            && id in t.log && job.archivePath.Some? && job.archivePath.value in t.store.files
            && t.store.files[job.archivePath.value] == Written(t.log[id])
            && job.bytesReceived == Acknowledged(t.log[id]) <= job.fileSize
            && job.bytesReceived <= |t.store.files[job.archivePath.value]|
            && (AllAcknowledged(t.log[id]) ==> job.bytesReceived == |t.store.files[job.archivePath.value]|)
  {
    ServedKeepsValid(ts, rs, hash, n);
    assert Tracked(ts[n], id);
    AcknowledgedLength(ts[n].log[id]);
  }

  // After any sequence of requests, a job that is queued or being processed has an archive whose digest is the
  // declared one, and all of whose declared bytes were acknowledged.
  lemma QueuedMeansVerified(ts: seq<Session>, rs: seq<Request>, hash: Digest, n: nat, id: JobId)
    requires Served(ts, rs, hash) && ts[0] == Empty && n < |ts|
    requires id in ts[n].store.jobs && ts[n].store.jobs[id].status in {P.Pending, P.Running}
    ensures var t := ts[n];
            var job := t.store.jobs[id];
            && id in t.log && job.archivePath.Some? && job.archivePath.value in t.store.files
            && hash(t.store.files[job.archivePath.value]) == job.fileHash
            && t.store.files[job.archivePath.value] == Written(t.log[id])
            && Acknowledged(t.log[id]) == job.fileSize
            && (AllAcknowledged(t.log[id]) ==> |t.store.files[job.archivePath.value]| == job.fileSize)
  {
    ServedKeepsValid(ts, rs, hash, n);
    assert Tracked(ts[n], id) && Verified(ts[n], id, hash);
    AcknowledgedLength(ts[n].log[id]);
  }

  // The digest is printed in lower case but the declared one may be in upper case: such an upload is never queued.
  lemma UpperCaseHashIsNeverQueued(ts: seq<Session>, rs: seq<Request>, hash: Digest, n: nat, id: JobId, c: char)
    requires Served(ts, rs, hash) && ts[0] == Empty && n < |ts|
    requires forall b, d | d in hash(b) :: !('A' <= d <= 'F')
    requires id in ts[n].store.jobs && c in ts[n].store.jobs[id].fileHash && 'A' <= c <= 'F'
    ensures ts[n].store.jobs[id].status !in {P.Pending, P.Running}
  {
    if ts[n].store.jobs[id].status in {P.Pending, P.Running} {
      QueuedMeansVerified(ts, rs, hash, n, id);
    }
  }

  // complete_upload queues a job exactly when the upload is complete, its digest is right and the queue has room;
  // in that case only the status of that job changes, and a full queue changes nothing at all.
  lemma CompleteQueuesExactlyWhen(t: Session, id: JobId, maxQueue: nat, hash: Digest)
    requires Valid(t, hash)
    ensures var s := t.store;
            var (s', reply) := Handle(s, Complete(id, maxQueue), hash);
            && (reply == Queued <==>
                  && id in s.jobs && s.jobs[id].status == P.Uploading
                  && Acknowledged(t.log[id]) == s.jobs[id].fileSize
                  && hash(Written(t.log[id])) == s.jobs[id].fileHash
                  && !P.QueueIsSaturated(PendingCount(s.jobs), maxQueue))
            && (reply == Queued ==>
                  && s'.files == s.files && s'.jobs.Keys == s.jobs.Keys && s'.jobs[id].status == P.Pending
                  && forall k | k in s.jobs && k != id :: s'.jobs[k] == s.jobs[k])
            && (reply.QueueFull? ==> s' == s)
  {
    if id in t.store.jobs && t.store.jobs[id].status == P.Uploading {
      assert Tracked(t, id);
    }
  }

  // ----- Any way of cutting the archive into bodies delivers it

  function ChunkRequests(id: JobId, offset: nat, bodies: seq<Bytes>): seq<Request>
    decreases |bodies|
  {
    if bodies == [] then []
    else [Chunk(id, Some(offset), bodies[0], Recorded)] + ChunkRequests(id, offset + |bodies[0]|, bodies[1..])
  }

  lemma AppendDelivers(t: Session, id: JobId, body: Bytes)
    requires ReadyToAppend(t, id)
    ensures Delivered(t, Append(t, id, body, Recorded), id, [body])
  {
    WrittenAppend(t.log[id], Entry(body, true));
    FlattenOne(body);
    hide Written, Acknowledged, Flatten;
  }

  lemma ChunkAccepted(t: Session, id: JobId, body: Bytes)
    requires id in t.store.jobs && t.store.jobs[id].status == P.Uploading && ReadyToAppend(t, id)
    requires t.store.jobs[id].bytesReceived + |body| <= t.store.jobs[id].fileSize
    ensures HandleChunk(t.store, Chunk(id, Some(t.store.jobs[id].bytesReceived), body, Recorded)).1.Accepted?
  {
  }

  lemma ChunkDelivers(t: Session, id: JobId, body: Bytes, hash: Digest)
    requires Valid(t, hash) && id in t.store.jobs && t.store.jobs[id].status == P.Uploading
    requires t.store.jobs[id].bytesReceived + |body| <= t.store.jobs[id].fileSize
    ensures ReadyToAppend(t, id)
    ensures Allowed(t.store, Chunk(id, Some(t.store.jobs[id].bytesReceived), body, Recorded))
    ensures var t1 := Append(t, id, body, Recorded);
            && Next(t, Chunk(id, Some(t.store.jobs[id].bytesReceived), body, Recorded), hash) == t1
            && Valid(t1, hash) && Delivered(t, t1, id, [body])
  {
    assert Tracked(t, id);
    assert ReadyToAppend(t, id);
    hide Next, HandleChunk, Append, Delivered, Tracked, Verified;
    ChunkAccepted(t, id, body);
    ChunkAppends(t, Chunk(id, Some(t.store.jobs[id].bytesReceived), body, Recorded), hash);
    AppendKeepsValid(t, id, body, Recorded, hash);
    AppendDelivers(t, id, body);
  }

  // The session after sending the bodies one after another, each at the offset the server expects.
  ghost predicate Delivered(t: Session, t': Session, id: JobId, bodies: seq<Bytes>)
    requires id in t.store.jobs
  {
    var row := t.store.jobs[id];
    && t'.store.jobs == t.store.jobs[id := row.(bytesReceived := row.bytesReceived + |Flatten(bodies)|)]
    && id in t.log && id in t'.log
    && Written(t'.log[id]) == Written(t.log[id]) + Flatten(bodies)
  }

  lemma DeliveredCons(t: Session, t1: Session, t': Session, id: JobId, bodies: seq<Bytes>)
    requires bodies != [] && id in t.store.jobs && id in t1.store.jobs
    requires Delivered(t, t1, id, [bodies[0]]) && Delivered(t1, t', id, bodies[1..])
    ensures Delivered(t, t', id, bodies)
  {
    FlattenOne(bodies[0]);
    FlattenFirst(bodies);
    assert (Written(t.log[id]) + bodies[0]) + Flatten(bodies[1..]) == Written(t.log[id]) + Flatten(bodies);
  }

  lemma ServedCons(t: Session, r: Request, ts: seq<Session>, rs: seq<Request>, hash: Digest)
    requires Allowed(t.store, r) && Served(ts, rs, hash) && ts[0] == Next(t, r, hash)
    ensures Served([t] + ts, [r] + rs, hash)
  {
    var us, qs := [t] + ts, [r] + rs;
    forall i | 0 <= i < |qs|
      ensures Allowed(us[i].store, qs[i]) && us[i + 1] == Next(us[i], qs[i], hash)
    {
      assert i > 0 ==> us[i] == ts[i - 1] && qs[i] == rs[i - 1] && us[i + 1] == ts[i - 1 + 1];
    }
  }

  lemma NothingDelivered(t: Session, id: JobId, hash: Digest)
    requires Valid(t, hash) && id in t.store.jobs && t.store.jobs[id].status == P.Uploading
    ensures Served([t], [], hash) && Delivered(t, t, id, [])
  {
    assert Tracked(t, id);
    assert Written(t.log[id]) + [] == Written(t.log[id]);
  }

  lemma FirstDelivered(t: Session, t1: Session, id: JobId, body: Bytes)
    requires id in t.store.jobs && Delivered(t, t1, id, [body])
    ensures id in t1.store.jobs && t1.store.jobs[id].status == t.store.jobs[id].status
    ensures t1.store.jobs[id].fileSize == t.store.jobs[id].fileSize
    ensures t1.store.jobs[id].bytesReceived == t.store.jobs[id].bytesReceived + |body|
  {
    FlattenOne(body);
  }

  // Sending the bodies in order, each at the offset the server expects, appends them all.
  lemma {:induction false} ChunksDeliver(t: Session, id: JobId, bodies: seq<Bytes>, hash: Digest)
    returns (ts: seq<Session>)
    requires Valid(t, hash) && id in t.store.jobs && t.store.jobs[id].status == P.Uploading
    requires t.store.jobs[id].bytesReceived + |Flatten(bodies)| <= t.store.jobs[id].fileSize
    ensures Served(ts, ChunkRequests(id, t.store.jobs[id].bytesReceived, bodies), hash) && ts[0] == t
    ensures Valid(ts[|ts| - 1], hash) && Delivered(t, ts[|ts| - 1], id, bodies)
    decreases |bodies|
  {
    hide Valid, Delivered, Handle, Next, Append, Flatten, Written, ReadyToAppend, UniqueUploads;
    if bodies == [] {
      NothingDelivered(t, id, hash);
      ts := [t];
    } else {
      var offset := t.store.jobs[id].bytesReceived;
      FlattenFirst(bodies);
      ChunkDelivers(t, id, bodies[0], hash);
      var t1 := Append(t, id, bodies[0], Recorded);
      FirstDelivered(t, t1, id, bodies[0]);
      var rest := ChunksDeliver(t1, id, bodies[1..], hash);
      DeliveredCons(t, t1, rest[|rest| - 1], id, bodies);
      ServedCons(t, Chunk(id, Some(offset), bodies[0], Recorded), rest,
        ChunkRequests(id, offset + |bodies[0]|, bodies[1..]), hash);
      ts := [t] + rest;
    }
  }

  // Whatever the cut, an upload of the whole archive ends with the archive itself as the file, and is queued exactly
  // when the declared digest is that of the archive and the queue has room.
  lemma AnyChunkingUploads(t: Session, id: JobId, bodies: seq<Bytes>, maxQueue: nat, hash: Digest)
    returns (ts: seq<Session>)
    requires Valid(t, hash) && id in t.store.jobs && t.store.jobs[id].status == P.Uploading
    requires id in t.log && t.log[id] == [] && t.store.jobs[id].fileSize == |Flatten(bodies)|
    ensures Served(ts, ChunkRequests(id, 0, bodies), hash) && ts[0] == t
    ensures var t' := ts[|ts| - 1];
            && Valid(t', hash) && id in t'.store.jobs && t'.store.jobs[id].archivePath.Some?
            && t'.store.jobs[id].archivePath.value in t'.store.files
            && t'.store.files[t'.store.jobs[id].archivePath.value] == Flatten(bodies)
            && (Handle(t'.store, Complete(id, maxQueue), hash).1 == Queued <==>
                  hash(Flatten(bodies)) == t.store.jobs[id].fileHash
                  && !P.QueueIsSaturated(PendingCount(t'.store.jobs), maxQueue))
  {
    assert Tracked(t, id);
    ts := ChunksDeliver(t, id, bodies, hash);
    var t' := ts[|ts| - 1];
    assert Tracked(t', id);
    assert [] + Flatten(bodies) == Flatten(bodies);
    CompleteQueuesExactlyWhen(t', id, maxQueue, hash);
  }
}
