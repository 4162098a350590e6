/**
 What a client and a worker can rely on over every run of requests: which chunks are taken, where their bytes end up,
 how a job ends, and what the next init of the same archive is answered.
 */
module UploadRuns {
  import opened Wrappers
  import opened Text
  import opened Upload
  import P = IngestProtocol

  // ----- One request

  // The chunk belongs to an uploading job, starts where the acknowledged bytes end, and fits the declared size.
  predicate Continues(t: Session, r: Request)
    requires r.Chunk?
  {
    && r.id in t.store.jobs && t.store.jobs[r.id].status == P.Uploading && r.id in t.log
    && r.offset == Some(Acknowledged(t.log[r.id]))
    && Acknowledged(t.log[r.id]) + |r.body| <= t.store.jobs[r.id].fileSize
  }

  // upload_chunk takes exactly the chunks that continue the upload; any other offset of an uploading job is a
  // conflict, and what is not taken changes nothing.
  lemma OffsetDecides(t: Session, r: Request, hash: Digest)
    requires Valid(t, hash) && r.Chunk?
    ensures var reply := Handle(t.store, r, hash).1;
      && (reply.Accepted? <==> Continues(t, r) && r.outcome.Recorded?)
      && (reply.ProgressLost? <==> Continues(t, r) && r.outcome.Torn?)
      && (reply.Accepted? ==> reply.received == r.offset.value + |r.body|)
      && (!Continues(t, r) ==> Next(t, r, hash) == t)
      && (r.offset.None? ==> reply == BadRequest)
      && (r.offset.Some? && r.id !in t.store.jobs ==> reply == NotFound)
      && (r.offset.Some? && r.id in t.store.jobs && t.store.jobs[r.id].status != P.Uploading ==> reply == Conflict)
      && (r.offset.Some? && r.id in t.store.jobs && t.store.jobs[r.id].status == P.Uploading ==>
            && r.id in t.log
            && (reply == Conflict <==> r.offset.value != Acknowledged(t.log[r.id])))
  {
    if r.id in t.store.jobs && t.store.jobs[r.id].status == P.Uploading {
      assert Tracked(t, r.id);
    }
    ChunkAppends(t, r, hash);
    hide Written, Acknowledged, UniqueUploads, ApartPaths, Verified, Append, WrittenPart, Next;
  }

  // Digits and letters of a SHA-256 digest, in either case.
  predicate IsHexText(h: string) {
    |h| == 64 && forall i | 0 <= i < |h| :: '0' <= h[i] <= '9' || 'a' <= h[i] <= 'f' || 'A' <= h[i] <= 'F'
  }

  // Letters, digits, dots, hyphens and underscores of a file name are kept, the rest is replaced.
  predicate IsSafeCopy(name: string, original: string) {
    && |name| == |original|
    && forall i | 0 <= i < |name| ::
         var c := original[i];
         name[i] == if 'a' <= c <= 'z' || 'A' <= c <= 'Z' || '0' <= c <= '9' || c in ".-_" then c else '_'
  }

  predicate IsWellFormed(r: Request)
    requires r.Init?
  {
    (exists c :: c in r.source && !IsWhitespace(c)) && r.fileSize > 0 && IsHexText(r.fileHash)
  }

  lemma WellFormedIsValid(r: Request)
    requires r.Init?
    ensures IsWellFormed(r) <==> ValidInit(r)
  {
    if IsHexText(r.fileHash) {
      forall c | c in r.fileHash ensures IsHexDigit(c) {
      }
    }
    if IsDigestText(r.fileHash) {
      assert forall i | 0 <= i < |r.fileHash| :: r.fileHash[i] in r.fileHash;
    }
    hide IsWhitespace;
  }

  // What an init of a source and digest is answered, by the row that already has them.
  lemma InitDecides(s: Store, r: Request, hash: Digest, id: JobId)
    requires r.Init? && Allowed(s, r) && IsWellFormed(r)
    requires id in s.jobs && s.jobs[id].source == r.source && s.jobs[id].fileHash == r.fileHash
    ensures var reply, row := Handle(s, r, hash).1, s.jobs[id];
      match row.status
      case Uploading => reply == Conflict
      case Pending => reply == Conflict
      case Running => reply == Conflict
      case Failed => reply == Created(id)
      case Done => reply == if row.eventsCount > 0 && r.stored > 0 then Deduplicated(id) else Created(id)
  {
    WellFormedIsValid(r);
    assert Lookup(s.jobs, r.source, r.fileHash) == Some(id);
    hide IsWellFormed, ValidInit, Lookup, UniqueUploads, FreshId;
  }

  lemma InitIsNew(s: Store, r: Request, hash: Digest)
    requires r.Init? && Allowed(s, r) && IsWellFormed(r)
    requires forall id | id in s.jobs :: !(s.jobs[id].source == r.source && s.jobs[id].fileHash == r.fileHash)
    ensures Handle(s, r, hash).1 == Created(r.newId)
  {
    WellFormedIsValid(r);
    hide IsWellFormed, ValidInit;
  }

  // The row that an init opens.
  predicate IsOpened(row: JobRow, r: Request)
    requires r.Init?
  {
    && row.source == r.source && row.fileHash == r.fileHash && row.status == P.Uploading
    && row.fileSize == r.fileSize && row.bytesReceived == 0 && row.eventsCount == 0
    && row.archivePath.Some? && IsSafeCopy(row.archivePath.value.name, r.fileName)
  }

  // An accepted init opens one row with an empty file, in the job's own directory when it had failed and in a new one
  // otherwise; a refused init changes nothing, and a malformed one is a bad request.
  lemma InitOpens(s: Store, r: Request, hash: Digest)
    requires r.Init? && Allowed(s, r)
    ensures var (s', reply) := Handle(s, r, hash);
      && (reply == BadRequest <==> !IsWellFormed(r))
      && (!reply.Created? ==> s' == s)
      && (reply.Created? ==>
            && reply.id in s'.jobs && IsOpened(s'.jobs[reply.id], r)
            && var row := s'.jobs[reply.id];
               && s'.jobs == s.jobs[reply.id := row]
               && s'.files == s.files[row.archivePath.value := []]
               && row.archivePath.value.dir
                  == if reply.id in s.jobs && s.jobs[reply.id].status == P.Failed then reply.id else r.newId)
  {
    WellFormedIsValid(r);
    hide IsWellFormed, ValidInit;
  }

  // complete_upload queues a complete and verified upload when the limit is 0, whatever the backlog; with a limit m > 0
  // and a backlog that fits in 32 bits, exactly when fewer than m jobs are pending.
  lemma RoomInTheQueue(t: Session, id: JobId, maxQueue: nat, hash: Digest)
    requires Valid(t, hash) && (maxQueue == 0 || PendingCount(t.store.jobs) < P.U32_SIZE)
    ensures Handle(t.store, Complete(id, maxQueue), hash).1 == Queued <==>
      && id in t.store.jobs && t.store.jobs[id].status == P.Uploading
      && Acknowledged(t.log[id]) == t.store.jobs[id].fileSize
      && hash(Written(t.log[id])) == t.store.jobs[id].fileHash
      && (maxQueue == 0 || PendingCount(t.store.jobs) < maxQueue)
  {
    CompleteQueuesExactlyWhen(t, id, maxQueue, hash);
    hide Valid, Handle, Written, Acknowledged, PendingCount;
  }

  // The backlog is counted in 32 bits: one of k * 2^32 + j jobs is as full as one of j.
  lemma BacklogWraps(t: Session, id: JobId, maxQueue: nat, hash: Digest, k: nat, j: nat)
    requires Valid(t, hash) && PendingCount(t.store.jobs) == k * P.U32_SIZE + j && j < P.U32_SIZE
    requires id in t.store.jobs && t.store.jobs[id].status == P.Uploading
    requires Acknowledged(t.log[id]) == t.store.jobs[id].fileSize
    requires hash(Written(t.log[id])) == t.store.jobs[id].fileHash
    ensures Handle(t.store, Complete(id, maxQueue), hash).1
         == if maxQueue == 0 || j < maxQueue then Queued else QueueFull(k * P.U32_SIZE + j)
  {
    assert (k * P.U32_SIZE + j) % P.U32_SIZE == j;
    assert Tracked(t, id);
    hide Valid, Written, Acknowledged, PendingCount, UniqueUploads, ApartPaths;
  }

  // The errors of complete_upload: only a wrong digest changes something, and then only the status of that job.
  lemma CompleteRefuses(t: Session, id: JobId, maxQueue: nat, hash: Digest)
    requires Valid(t, hash)
    ensures var (s', reply) := Handle(t.store, Complete(id, maxQueue), hash);
      && (reply == NotFound <==> id !in t.store.jobs)
      && (id in t.store.jobs ==>
            && (reply == Conflict <==> t.store.jobs[id].status != P.Uploading)
            && (t.store.jobs[id].status == P.Uploading ==>
                  && id in t.log
                  && (reply == BadRequest <==> Acknowledged(t.log[id]) != t.store.jobs[id].fileSize)
                  && (reply == HashMismatch <==>
                        && Acknowledged(t.log[id]) == t.store.jobs[id].fileSize
                        && hash(Written(t.log[id])) != t.store.jobs[id].fileHash)))
      && (reply == HashMismatch ==>
            s' == t.store.(jobs := t.store.jobs[id := t.store.jobs[id].(status := P.Failed)]))
      && (reply != HashMismatch && reply != Queued ==> s' == t.store)
  {
    if id in t.store.jobs && t.store.jobs[id].status == P.Uploading {
      assert Tracked(t, id);
    }
    hide Valid, Written, Acknowledged, PendingCount, UniqueUploads, ApartPaths, P.QueueIsSaturated;
  }

  // ----- Runs

  function ReplyAt(ts: seq<Session>, rs: seq<Request>, hash: Digest, i: nat): Reply
    requires Served(ts, rs, hash) && i < |rs|
  {
    Handle(ts[i].store, rs[i], hash).1
  }

  // No init from request m up to request n opened the job.
  ghost predicate NotOpened(ts: seq<Session>, rs: seq<Request>, hash: Digest, id: JobId, m: nat, n: nat)
    requires Served(ts, rs, hash) && n <= |rs|
  {
    forall i | m <= i < n :: ReplyAt(ts, rs, hash, i) != Created(id)
  }

  lemma WrittenPrefix(log: seq<Entry>, log': seq<Entry>)
    requires log <= log'
    ensures Written(log) <= Written(log') && Acknowledged(log) <= Acknowledged(log')
    ensures AllAcknowledged(log') ==> AllAcknowledged(log)
    decreases |log'|
  {
    if log == log' {
    } else {
      var init := log'[..|log'| - 1];
      assert init[..|log|] == log;
      WrittenPrefix(log, init);
      assert forall e | e in init :: e in log';
    }
  }

  // One request leaves the bodies of a job in place, unless it opens the job.
  lemma LogStep(t: Session, r: Request, hash: Digest, id: JobId)
    requires Allowed(t.store, r) && id in t.store.jobs && id in t.log && Handle(t.store, r, hash).1 != Created(id)
    ensures var t' := Next(t, r, hash); id in t'.store.jobs && id in t'.log && t.log[id] <= t'.log[id]
  {
    hide UniqueUploads, FreshId, ValidInit, Lookup, WrittenPart, PendingCount;
  }

  lemma {:induction false} LogGrows(ts: seq<Session>, rs: seq<Request>, hash: Digest, id: JobId, m: nat, n: nat)
    requires Served(ts, rs, hash) && m <= n <= |rs| && NotOpened(ts, rs, hash, id, m, n)
    requires id in ts[m].store.jobs && id in ts[m].log
    ensures id in ts[n].store.jobs && id in ts[n].log && ts[m].log[id] <= ts[n].log[id]
    decreases n
  {
    if m < n {
      LogGrows(ts, rs, hash, id, m, n - 1);
      assert ReplyAt(ts, rs, hash, n - 1) != Created(id);
      LogStep(ts[n - 1], rs[n - 1], hash, id);
    }
  }

  // What an accepted chunk adds to the log.
  lemma AcceptedIsLogged(ts: seq<Session>, rs: seq<Request>, hash: Digest, k: nat)
    requires Served(ts, rs, hash) && ts[0] == Empty && k < |rs|
    requires rs[k].Chunk? && ReplyAt(ts, rs, hash, k).Accepted?
    ensures Continues(ts[k], rs[k]) && rs[k].id in ts[k + 1].store.jobs && rs[k].id in ts[k + 1].log
    ensures ts[k + 1].log[rs[k].id] == ts[k].log[rs[k].id] + [Entry(rs[k].body, true)]
  {
    ServedKeepsValid(ts, rs, hash, k);
    OffsetDecides(ts[k], rs[k], hash);
    ChunkAppends(ts[k], rs[k], hash);
    hide Valid, HandleChunk, Next, Acknowledged;
  }

  lemma AcceptedStaysLogged(ts: seq<Session>, rs: seq<Request>, hash: Digest, k: nat, n: nat)
    requires Served(ts, rs, hash) && ts[0] == Empty && k < n <= |rs|
    requires rs[k].Chunk? && ReplyAt(ts, rs, hash, k).Accepted?
    requires NotOpened(ts, rs, hash, rs[k].id, k + 1, n)
    ensures var id := rs[k].id;
      && id in ts[k].log && id in ts[n].log && ts[k].log[id] + [Entry(rs[k].body, true)] <= ts[n].log[id]
      && rs[k].offset == Some(Acknowledged(ts[k].log[id]))
  {
    AcceptedIsLogged(ts, rs, hash, k);
    hide Served, NotOpened, Acknowledged, HandleChunk, ReplyAt;
    LogGrows(ts, rs, hash, rs[k].id, k + 1, n);
  }

  // A body that was written and acknowledged lies behind everything written before it.
  lemma BodyIsIn(before: seq<Entry>, body: Bytes, log: seq<Entry>)
    requires before + [Entry(body, true)] <= log
    ensures var at := |Written(before)|;
      && at + |body| <= |Written(log)| && Written(log)[at..at + |body|] == body
      && (AllAcknowledged(log) ==> at == Acknowledged(before))
  {
    WrittenAppend(before, Entry(body, true));
    WrittenPrefix(before + [Entry(body, true)], log);
    WrittenPrefix(before, log);
    AcknowledgedLength(before);
    hide Written, Acknowledged, AllAcknowledged;
    var w := Written(before) + body;
    assert w == Written(log)[..|w|];
    assert w[|Written(before)|..] == body;
  }

  lemma FileIsTracked(t: Session, id: JobId, hash: Digest)
    requires Valid(t, hash) && id in t.store.jobs && t.store.jobs[id].status != P.Done
    ensures t.store.jobs[id].archivePath.Some? && t.store.jobs[id].archivePath.value in t.store.files
    ensures id in t.log && t.store.files[t.store.jobs[id].archivePath.value] == Written(t.log[id])
  {
    assert Tracked(t, id);
  }

  // Main result: the bytes of an accepted chunk stay where they were put as long as no init opens the job again, and
  // they are at the offset that the client gave when every body written so far was acknowledged.
  lemma AcceptedStaysPut(ts: seq<Session>, rs: seq<Request>, hash: Digest, k: nat, n: nat)
    requires Served(ts, rs, hash) && ts[0] == Empty && k < n <= |rs|
    requires rs[k].Chunk? && ReplyAt(ts, rs, hash, k).Accepted?
    requires NotOpened(ts, rs, hash, rs[k].id, k + 1, n)
    requires rs[k].id in ts[n].store.jobs && ts[n].store.jobs[rs[k].id].status != P.Done
    ensures var id, t := rs[k].id, ts[n];
      && id in ts[k].log && id in t.log && rs[k].offset.Some?
      && t.store.jobs[id].archivePath.Some? && t.store.jobs[id].archivePath.value in t.store.files
      && var file, at := t.store.files[t.store.jobs[id].archivePath.value], |Written(ts[k].log[id])|;
         && at + |rs[k].body| <= |file| && file[at..at + |rs[k].body|] == rs[k].body
         && (AllAcknowledged(ts[n].log[id]) ==> at == rs[k].offset.value)
  {
    AcceptedStaysLogged(ts, rs, hash, k, n);
    ServedKeepsValid(ts, rs, hash, n);
    FileIsTracked(ts[n], rs[k].id, hash);
    hide *;
    BodyIsIn(ts[k].log[rs[k].id], rs[k].body, ts[n].log[rs[k].id]);
  }

  // Main result: once a chunk was accepted, a chunk that starts before its end is refused and changes nothing, whatever
  // it holds, until an init opens the job again. In particular a resent chunk is not appended a second time.
  lemma ResendIsRefused(ts: seq<Session>, rs: seq<Request>, hash: Digest, k: nat, n: nat)
    requires Served(ts, rs, hash) && ts[0] == Empty && k < n < |rs|
    requires rs[k].Chunk? && ReplyAt(ts, rs, hash, k).Accepted? && rs[k].offset.Some?
    requires NotOpened(ts, rs, hash, rs[k].id, k + 1, n)
    requires rs[n].Chunk? && rs[n].id == rs[k].id && rs[n].offset.Some?
    requires rs[n].offset.value < rs[k].offset.value + |rs[k].body|
    ensures ReplyAt(ts, rs, hash, n) == Conflict && ts[n + 1] == ts[n]
  {
    var id := rs[k].id;
    AcceptedIsLogged(ts, rs, hash, k);
    LogGrows(ts, rs, hash, id, k + 1, n);
    WrittenAppend(ts[k].log[id], Entry(rs[k].body, true));
    WrittenPrefix(ts[k + 1].log[id], ts[n].log[id]);
    ServedKeepsValid(ts, rs, hash, n);
    OffsetDecides(ts[n], rs[n], hash);
    hide Valid, HandleChunk, Next, Acknowledged, Written;
  }

  // ----- How a job ends, and what its archive's next init is answered

  // A worker claims a pending job and ends a running one: done with the events it stored and the archive removed, or
  // failed with none and the archive kept. Nothing else moves, and a job in another state is left alone.
  lemma WorkerEnds(s: Store, id: JobId, events: Option<nat>, hash: Digest)
    requires UniqueUploads(s.jobs) && id in s.jobs
    ensures var claimed, ended := Handle(s, WorkerClaim(id), hash).0, Handle(s, WorkerFinish(id, events), hash).0;
      && (s.jobs[id].status == P.Pending ==>
            claimed == Store(s.jobs[id := s.jobs[id].(status := P.Running, eventsCount := 0)], s.files))
      && (s.jobs[id].status != P.Pending ==> claimed == s)
      && (s.jobs[id].status == P.Running && events.Some? ==>
            && ended.jobs == s.jobs[id := s.jobs[id].(status := P.Done, eventsCount := events.value)]
            && forall p :: p in ended.files <==> p in s.files && s.jobs[id].archivePath != Some(p))
      && (s.jobs[id].status == P.Running && events.None? ==>
            ended == Store(s.jobs[id := s.jobs[id].(status := P.Failed, eventsCount := 0)], s.files))
      && (s.jobs[id].status != P.Running ==> ended == s)
  {
    hide UniqueUploads;
  }

  predicate IsEnded(row: JobRow) {
    row.status == P.Done || row.status == P.Failed
  }

  // No request changes the source and digest of a row, and only an init that opens it changes an ended one.
  lemma RowStep(t: Session, r: Request, hash: Digest, id: JobId)
    requires Allowed(t.store, r) && id in t.store.jobs
    ensures var t' := Next(t, r, hash);
      && id in t'.store.jobs
      && t'.store.jobs[id].source == t.store.jobs[id].source && t'.store.jobs[id].fileHash == t.store.jobs[id].fileHash
      && (IsEnded(t.store.jobs[id]) && Handle(t.store, r, hash).1 != Created(id) ==>
            t'.store.jobs[id] == t.store.jobs[id])
  {
    hide UniqueUploads, ValidInit, WrittenPart, PendingCount, P.QueueIsSaturated, SafeName;
  }

  lemma {:induction false} RowStays(ts: seq<Session>, rs: seq<Request>, hash: Digest, id: JobId, m: nat, n: nat)
    requires Served(ts, rs, hash) && m <= n <= |rs| && id in ts[m].store.jobs
    ensures id in ts[n].store.jobs
    ensures ts[n].store.jobs[id].source == ts[m].store.jobs[id].source
    ensures ts[n].store.jobs[id].fileHash == ts[m].store.jobs[id].fileHash
    ensures IsEnded(ts[m].store.jobs[id]) && NotOpened(ts, rs, hash, id, m, n) ==>
      ts[n].store.jobs[id] == ts[m].store.jobs[id]
    decreases n
  {
    if m < n {
      RowStays(ts, rs, hash, id, m, n - 1);
      RowStep(ts[n - 1], rs[n - 1], hash, id);
      assert NotOpened(ts, rs, hash, id, m, n) ==>
        NotOpened(ts, rs, hash, id, m, n - 1) && ReplyAt(ts, rs, hash, n - 1) != Created(id);
    }
  }

  // Main result: what a worker's finish of job `id` means for the next upload of the same archive. After events were
  // stored it is answered with that job as long as the event table still holds some; in every other case it opens the
  // job again under its id, after a failure in the job's own directory.
  lemma InitAfterFinish(ts: seq<Session>, rs: seq<Request>, hash: Digest, k: nat, n: nat, id: JobId, events: Option<nat>)
    requires Served(ts, rs, hash) && k < n < |rs| && rs[k] == WorkerFinish(id, events)
    requires id in ts[k].store.jobs && ts[k].store.jobs[id].status == P.Running
    requires NotOpened(ts, rs, hash, id, k + 1, n)
    requires rs[n].Init? && IsWellFormed(rs[n])
    requires rs[n].source == ts[k].store.jobs[id].source && rs[n].fileHash == ts[k].store.jobs[id].fileHash
    ensures ReplyAt(ts, rs, hash, n)
         == if events.Some? && events.value > 0 && rs[n].stored > 0 then Deduplicated(id) else Created(id)
    ensures events.None? ==>
      && id in ts[n + 1].store.jobs && ts[n + 1].store.jobs[id].archivePath.Some?
      && ts[n + 1].store.jobs[id].archivePath.value.dir == id
  {
    WorkerEnds(ts[k].store, id, events, hash);
    RowStays(ts, rs, hash, id, k + 1, n);
    hide HandleWorker, HandleInit, IsWellFormed, UniqueUploads, FreshId, NotOpened;
    InitDecides(ts[n].store, rs[n], hash, id);
    InitOpens(ts[n].store, rs[n], hash);
  }

  // Every row was opened by a well-formed init.
  predicate IsRow(row: JobRow) {
    (exists c :: c in row.source && !IsWhitespace(c)) && row.fileSize > 0 && IsHexText(row.fileHash)
  }

  lemma RowsStep(t: Session, r: Request, hash: Digest)
    requires Allowed(t.store, r) && forall id | id in t.store.jobs :: IsRow(t.store.jobs[id])
    ensures forall id | id in Next(t, r, hash).store.jobs :: IsRow(Next(t, r, hash).store.jobs[id])
  {
    hide UniqueUploads, ValidInit, FreshId, WrittenPart, PendingCount, P.QueueIsSaturated, SafeName, IsWhitespace, IsHexText,
         HandleInit, IsSafeCopy;
    if r.Init? {
      InitOpens(t.store, r, hash);
    } else {
      KeysStay(t, r, hash);
    }
  }

  // Only an init writes the source, the digest and the declared size of a row.
  lemma KeysStay(t: Session, r: Request, hash: Digest)
    requires Allowed(t.store, r) && !r.Init?
    ensures var s, s' := t.store, Next(t, r, hash).store;
      forall id | id in s'.jobs ::
        && id in s.jobs && s'.jobs[id].source == s.jobs[id].source && s'.jobs[id].fileHash == s.jobs[id].fileHash
        && s'.jobs[id].fileSize == s.jobs[id].fileSize
  {
    hide UniqueUploads, WrittenPart, PendingCount, P.QueueIsSaturated;
  }

  lemma {:induction false} RowsAreWellFormed(ts: seq<Session>, rs: seq<Request>, hash: Digest, n: nat)
    requires Served(ts, rs, hash) && ts[0] == Empty && n < |ts|
    ensures forall id | id in ts[n].store.jobs :: IsRow(ts[n].store.jobs[id])
  {
    if n > 0 {
      RowsAreWellFormed(ts, rs, hash, n - 1);
      RowsStep(ts[n - 1], rs[n - 1], hash);
    }
  }
}
