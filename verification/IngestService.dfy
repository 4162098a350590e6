/** The upload handlers as they run: tables and files changed in place, step by step, with early exits. */
module IngestService {
  import opened Wrappers
  import opened Text
  import opened Counting
  import opened Upload
  import opened IngestPool
  import P = IngestProtocol

  lemma KeepsUnique(jobs: map<JobId, JobRow>, id: JobId, row: JobRow)
    requires UniqueUploads(jobs) && id in jobs && SameUpload(row, jobs[id].source, jobs[id].fileHash)
    ensures UniqueUploads(jobs[id := row])
  {
  }

  class IngestService {
    var jobs: map<JobId, JobRow>
    var files: map<Path, Bytes>
    const hash: Digest
    const pool: IngestWorkerPool

    function View(): Store
      reads this
    {
      Store(jobs, files)
    }

    ghost predicate Valid()
      reads this, pool
    {
      pool.Valid() && UniqueUploads(jobs)
    }

    constructor (hash: Digest, pool: IngestWorkerPool)
      requires pool.Valid()
      ensures Valid() && View() == Empty.store && this.hash == hash && this.pool == pool
    {
      this.jobs := map[];
      this.files := map[];
      this.hash := hash;
      this.pool := pool;
    }

    method InitUpload(newId: JobId, source: string, fileName: string, fileSize: int, fileHash: string, stored: nat)
      returns (reply: Reply)
      requires Valid() && FreshId(View(), newId)
      modifies this
      ensures Valid()
      ensures (View(), reply) == Handle(old(View()), Init(newId, source, fileName, fileSize, fileHash, stored), hash)
    {
      if IsBlank(source) || fileSize <= 0 || !IsDigestText(fileHash) {
        return BadRequest;
      }
      var jobId := newId;
      var rowId := newId;
      var existing := Lookup(jobs, source, fileHash);
      if existing.Some? {
        var row := jobs[existing.value];
        rowId := existing.value;
        if row.status == P.Done && row.eventsCount > 0 && stored > 0 {
          return Deduplicated(existing.value);
        }
        if row.status == P.Uploading || row.status == P.Running || row.status == P.Pending {
          return Conflict;
        }
        if row.status == P.Failed {
          jobId := existing.value;
        }
      }
      var path := ArchivePathFor(jobId, fileName);
      files := files[path := []];
      jobs := jobs[rowId := JobRow(source, fileHash, P.Uploading, 0, fileSize, 0, Some(path))];
      reply := Created(rowId);
    }

    // `outcome` is that of the write and of the progress update that follows it.
    method UploadChunk(id: JobId, offset: Option<int>, body: Bytes, outcome: Outcome) returns (reply: Reply)
      requires Valid()
      modifies this
      ensures Valid()
      ensures (View(), reply) == Handle(old(View()), Chunk(id, offset, body, outcome), hash)
    {
      if offset.None? {
        return BadRequest;
      }
      if id !in jobs {
        return NotFound;
      }
      var job := jobs[id];
      if job.status != P.Uploading || offset.value != job.bytesReceived {
        return Conflict;
      }
      if job.bytesReceived + |body| > job.fileSize {
        return BadRequest;
      }
      if job.archivePath.None? || job.archivePath.value !in files {
        return InternalError;
      }
      var path := job.archivePath.value;
      files := files[path := files[path] + WrittenPart(body, outcome)];
      if outcome.Torn? {
        return ProgressLost;
      }
      var received := job.bytesReceived + |body|;
      jobs := jobs[id := job.(bytesReceived := received)];
      reply := Accepted(received);
    }

    method CompleteUpload(id: JobId) returns (reply: Reply)
      requires Valid() && PendingCount(jobs) <= P.USIZE_MAX
      modifies this, pool
      ensures Valid()
      ensures (View(), reply) == Handle(old(View()), Complete(id, old(pool.maxQueue)), hash)
      ensures pool.View() == old(pool.View())
      ensures reply == Reply.Queued || reply.QueueFull? ==> pool.queued == PendingCount(jobs) % (P.USIZE_MAX + 1)
    {
      hide IsCheck, UniqueUploads;
      if id !in jobs {
        return NotFound;
      }
      var job := jobs[id];
      if job.status != P.Uploading {
        return Conflict;
      }
      if job.bytesReceived != job.fileSize {
        return BadRequest;
      }
      if job.archivePath.None? || job.archivePath.value !in files {
        return InternalError;
      }
      if hash(files[job.archivePath.value]) != job.fileHash {
        KeepsUnique(jobs, id, job.(status := P.Failed));
        jobs := jobs[id := job.(status := P.Failed)];
        return HashMismatch;
      }
      var pending := PendingCount(jobs);
      var admitted := pool.TryReserve(Some(pending));
      if admitted.Saturated? {
        return QueueFull(pending);
      }
      KeepsUnique(jobs, id, job.(status := P.Pending));
      CountUpdate(jobs, id, job.(status := P.Pending), IsPendingRow);
      jobs := jobs[id := job.(status := P.Pending)];
      pool.Submit();
      reply := Reply.Queued;
    }

    // process_ingest_job on a job that this worker has claimed; `materialized` and `events` are what reading the
    // archive and parsing it give.
    method ProcessIngestJob(id: JobId, materialized: bool, events: Option<nat>) returns (finished: bool)
      requires Valid()
      modifies this
      ensures Valid()
      ensures finished <==> id in old(jobs) && old(jobs[id]).status in {P.Pending, P.Running}
      ensures !finished ==> View() == old(View())
      ensures finished ==>
        var row := old(jobs[id]);
        if row.archivePath.Some? && materialized && events.Some?
        then jobs == old(jobs)[id := row.(status := P.Done, eventsCount := events.value)]
             && files == old(files) - {row.archivePath.value}
        else jobs == old(jobs)[id := row.(status := P.Failed, eventsCount := 0)] && files == old(files)
      ensures finished && old(jobs[id]).archivePath.Some? && materialized ==>
                View() == HandleWorker(HandleWorker(old(View()), WorkerClaim(id)).0, WorkerFinish(id, events)).0
      ensures finished && (old(jobs[id]).archivePath.None? || !materialized) ==>
                View() == HandleWorker(HandleWorker(old(View()), WorkerClaim(id)).0, WorkerFinish(id, None)).0
    {
      finished := false;
      if id !in jobs {
        return;
      }
      var job := jobs[id];
      if job.status == P.Done || job.status == P.Failed {
        return;
      }
      if job.status == P.Pending {
        job := job.(status := P.Running, eventsCount := 0);
        jobs := jobs[id := job];
      } else if job.status != P.Running {
        return;
      }
      finished := true;
      if job.archivePath.None? || !materialized || events.None? {
        jobs := jobs[id := job.(status := P.Failed, eventsCount := 0)];
        return;
      }
      jobs := jobs[id := job.(status := P.Done, eventsCount := events.value)];
      files := files - {job.archivePath.value};
    }
  }
}
