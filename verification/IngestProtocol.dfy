/**
 The ingest queue as a state machine: worker tasks of any number of processes, upload handlers,
 the start-up recovery pass, and the job table they share. Every step is one atomic action of the
 program: one load, one compare-and-swap, one repository call.
 */
module IngestProtocol {
  import opened Arithmetic
  import opened Counting

  const MAX_INGEST_WORKERS: nat := 16
  const MAX_QUEUE_LIMIT: nat := 10_000
  const U32_SIZE: nat := 0x1_0000_0000
  const USIZE_MAX: nat := 0xFFFF_FFFF_FFFF_FFFF

  type PoolId = nat
  type WorkerId = nat
  type HandlerId = nat
  // One row of ingest_jobs; a (source, file_hash) pair has one row.
  type JobId = nat

  datatype Status = Uploading | Pending | Running | Done | Failed

  datatype Pool = Pool(configured: nat, active: nat, maxQueue: nat)

  datatype Outcome = NoJob | Skipped(job: JobId) | Lost(job: JobId) | Finished(job: JobId)

  // Where one waiter task stands in its loop.
  datatype Pc =
    | Idle
    | SawLimit(max: nat)
    | SawActive(max: nat, cur: nat)
    | Slot
    | Committed(job: JobId)
    | Claimed(job: JobId)
    | SawPending(job: JobId)
    | Processing(job: JobId)
    | Releasing(outcome: Outcome)

  datatype Worker = Worker(pool: PoolId, pc: Pc)

  // A request in flight, or the recovery pass of a starting process.
  datatype Handler =
    | CompleteRead(pool: PoolId, job: JobId)
    | CompleteMismatch(pool: PoolId, job: JobId)
    | CompleteVerified(pool: PoolId, job: JobId)
    | CompleteCounted(pool: PoolId, job: JobId, pending: nat)
    | CompleteReserved(pool: PoolId, job: JobId)
    | InitRead(job: JobId)
    | Recovering(todo: set<JobId>)

  datatype State = State(
    pools: map<PoolId, Pool>,
    workers: map<WorkerId, Worker>,
    jobs: map<JobId, Status>,
    handlers: map<HandlerId, Handler>)

  datatype Step =
    // the waiter loop
    | LoadLimit(w: WorkerId)
    | LoadActive(w: WorkerId)
    | CompareExchange(w: WorkerId)
    | ClaimNone(w: WorkerId)
    | ClaimCommit(w: WorkerId, job: JobId)
    | ClaimRead(w: WorkerId, ok: bool)
    | Recheck(w: WorkerId, ok: bool)
    | TryClaim(w: WorkerId, ok: bool)
    | Finish(w: WorkerId, success: bool)
    | FinishError(w: WorkerId)
    | Release(w: WorkerId)
    // settings
    | Resize(p: PoolId, workers: nat)
    | SetMaxQueue(p: PoolId, limit: nat)
    // complete_upload
    | CompleteStart(h: HandlerId, p: PoolId, job: JobId)
    | CompleteHash(h: HandlerId, matches: bool)
    | CompleteFail(h: HandlerId)
    | CompleteCount(h: HandlerId)
    | CompleteEvaluate(h: HandlerId)
    | CompleteMark(h: HandlerId)
    // init_upload
    | InitStart(h: HandlerId, job: JobId)
    | InitBegin(h: HandlerId)
    // recover_interrupted
    | RecoverList(h: HandlerId, todo: set<JobId>)
    | RecoverMark(h: HandlerId, job: JobId)
    // a handler that returns early: an error reply, or the end of recovery
    | Leave(h: HandlerId)

  // ----- Pure pieces shared with the pool object

  function ClampWorkers(workers: nat): nat {
    Clamp(workers, 1, MAX_INGEST_WORKERS)
  }

  function ClampQueue(limit: nat): nat {
    if limit > MAX_QUEUE_LIMIT then MAX_QUEUE_LIMIT else limit
  }

  // `pending as u32 >= max_queue`: the cast keeps the low 32 bits.
  predicate QueueIsSaturated(pending: nat, maxQueue: nat) {
    maxQueue > 0 && pending % U32_SIZE >= maxQueue
  }

  // fetch_sub(1) on a usize.
  function FetchSub(active: nat): nat {
    if active == 0 then USIZE_MAX else active - 1
  }

  // ----- Steps

  predicate HasSlot(pc: Pc) {
    !pc.Idle? && !pc.SawLimit? && !pc.SawActive?
  }

  // The worker has taken the job from the queue and has not yet let go of it.
  predicate Working(pc: Pc, j: JobId) {
    match pc
    case Committed(k) => k == j
    case Claimed(k) => k == j
    case SawPending(k) => k == j
    case Processing(k) => k == j
    case _ => false
  }

  predicate Holds(s: State, w: WorkerId, j: JobId) {
    w in s.workers && Working(s.workers[w].pc, j)
  }

  ghost predicate Held(s: State, j: JobId) {
    exists w :: Holds(s, w, j)
  }

  predicate IsPending(st: Status) { st == Pending }

  function PendingCount(jobs: map<JobId, Status>): nat {
    CountWhere(jobs, IsPending)
  }

  function SetPc(s: State, w: WorkerId, pc: Pc): State
    requires w in s.workers
  {
    s.(workers := s.workers[w := s.workers[w].(pc := pc)])
  }

  function SetHandler(s: State, h: HandlerId, x: Handler): State {
    s.(handlers := s.handlers[h := x])
  }

  function DropHandler(s: State, h: HandlerId): State {
    s.(handlers := s.handlers - {h})
  }

  function SetJob(s: State, j: JobId, st: Status): State {
    s.(jobs := s.jobs[j := st])
  }

  function SetActive(s: State, p: PoolId, active: nat): State
    requires p in s.pools
  {
    s.(pools := s.pools[p := s.pools[p].(active := active)])
  }

  predicate WorkerEnabled(s: State, w: WorkerId, e: Step) {
    && w in s.workers
    && s.workers[w].pool in s.pools
    && var pc := s.workers[w].pc;
       match e
       case LoadLimit(_) => pc.Idle?
       case LoadActive(_) => pc.SawLimit?
       case CompareExchange(_) => pc.SawActive?
       case ClaimNone(_) => pc.Slot?
       case ClaimCommit(_, j) => pc.Slot? && j in s.jobs && s.jobs[j] == Pending
       case ClaimRead(_, _) => pc.Committed?
       case Recheck(_, ok) => pc.Claimed? && (ok ==> pc.job in s.jobs)
       case TryClaim(_, ok) => pc.SawPending? && (ok ==> pc.job in s.jobs)
       case Finish(_, _) => pc.Processing? && pc.job in s.jobs
       case FinishError(_) => pc.Processing?
       case Release(_) => pc.Releasing?
       case _ => false
  }

  predicate HandlerEnabled(s: State, e: Step) {
    match e
    case CompleteStart(h, p, j) =>
      h !in s.handlers && p in s.pools && j in s.jobs && s.jobs[j] == Uploading
    case CompleteHash(h, _) => h in s.handlers && s.handlers[h].CompleteRead?
    case CompleteFail(h) => h in s.handlers && s.handlers[h].CompleteMismatch?
    case CompleteCount(h) => h in s.handlers && s.handlers[h].CompleteVerified?
    case CompleteEvaluate(h) => h in s.handlers && s.handlers[h].CompleteCounted? && s.handlers[h].pool in s.pools
    case CompleteMark(h) => h in s.handlers && s.handlers[h].CompleteReserved?
    case InitStart(h, j) => h !in s.handlers && (j in s.jobs ==> s.jobs[j] == Failed || s.jobs[j] == Done)
    case InitBegin(h) => h in s.handlers && s.handlers[h].InitRead?
    case RecoverList(h, todo) => h !in s.handlers && (forall j | j in todo :: j in s.jobs && s.jobs[j] == Running)
    case RecoverMark(h, j) => h in s.handlers && s.handlers[h].Recovering? && j in s.handlers[h].todo
    case Leave(h) => h in s.handlers
    case Resize(p, _) => p in s.pools
    case SetMaxQueue(p, _) => p in s.pools
    case _ => false
  }

  predicate IsWorkerStep(e: Step) {
    e.LoadLimit? || e.LoadActive? || e.CompareExchange? || e.ClaimNone? || e.ClaimCommit? || e.ClaimRead?
    || e.Recheck? || e.TryClaim? || e.Finish? || e.FinishError? || e.Release?
  }

  predicate Enabled(s: State, e: Step) {
    if IsWorkerStep(e) then WorkerEnabled(s, e.w, e) else HandlerEnabled(s, e)
  }

  function ApplyWorker(s: State, w: WorkerId, e: Step): State
    requires IsWorkerStep(e) && WorkerEnabled(s, w, e)
  {
    var p := s.workers[w].pool;
    var pool := s.pools[p];
    var pc := s.workers[w].pc;
    match e
    case LoadLimit(_) =>
      SetPc(s, w, SawLimit(if pool.configured < 1 then 1 else pool.configured))
    case LoadActive(_) =>
      SetPc(s, w, SawActive(pc.max, pool.active))
    case CompareExchange(_) =>
      if pc.cur < pc.max && pool.active == pc.cur
      then SetActive(SetPc(s, w, Slot), p, pc.cur + 1)
      else SetPc(s, w, Idle)
    case ClaimNone(_) =>
      SetPc(s, w, Releasing(NoJob))
    case ClaimCommit(_, j) =>
      SetJob(SetPc(s, w, Committed(j)), j, Running)
    case ClaimRead(_, ok) =>
      SetPc(s, w, if ok then Claimed(pc.job) else Releasing(Lost(pc.job)))
    case Recheck(_, ok) =>
      SetPc(s, w,
        if !ok then Releasing(Lost(pc.job))
        else match s.jobs[pc.job]
          case Pending => SawPending(pc.job)
          case Running => Processing(pc.job)
          case _ => Releasing(Skipped(pc.job)))
    case TryClaim(_, ok) =>
      if !ok then SetPc(s, w, Releasing(Lost(pc.job)))
      else if s.jobs[pc.job] == Pending
      then SetJob(SetPc(s, w, Processing(pc.job)), pc.job, Running)
      else SetPc(s, w, Releasing(Skipped(pc.job)))
    case Finish(_, success) =>
      SetJob(SetPc(s, w, Releasing(Finished(pc.job))), pc.job, if success then Done else Failed)
    case FinishError(_) =>
      SetPc(s, w, Releasing(Lost(pc.job)))
    case Release(_) =>
      SetActive(SetPc(s, w, Idle), p, FetchSub(pool.active))
  }

  function ApplyHandler(s: State, e: Step): State
    requires HandlerEnabled(s, e)
  {
    match e
    case CompleteStart(h, p, j) => SetHandler(s, h, CompleteRead(p, j))
    case CompleteHash(h, matches) =>
      var x := s.handlers[h];
      SetHandler(s, h, if matches then CompleteVerified(x.pool, x.job) else CompleteMismatch(x.pool, x.job))
    case CompleteFail(h) => SetJob(DropHandler(s, h), s.handlers[h].job, Failed)
    case CompleteCount(h) =>
      var x := s.handlers[h];
      SetHandler(s, h, CompleteCounted(x.pool, x.job, PendingCount(s.jobs)))
    case CompleteEvaluate(h) =>
      var x := s.handlers[h];
      if QueueIsSaturated(x.pending, s.pools[x.pool].maxQueue)
      then DropHandler(s, h)
      else SetHandler(s, h, CompleteReserved(x.pool, x.job))
    case CompleteMark(h) => SetJob(DropHandler(s, h), s.handlers[h].job, Pending)
    case InitStart(h, j) => SetHandler(s, h, InitRead(j))
    case InitBegin(h) => SetJob(DropHandler(s, h), s.handlers[h].job, Uploading)
    case RecoverList(h, todo) => SetHandler(s, h, Recovering(todo))
    case RecoverMark(h, j) => SetJob(SetHandler(s, h, Recovering(s.handlers[h].todo - {j})), j, Pending)
    case Leave(h) => DropHandler(s, h)
    case Resize(p, n) => s.(pools := s.pools[p := s.pools[p].(configured := ClampWorkers(n))])
    case SetMaxQueue(p, n) => s.(pools := s.pools[p := s.pools[p].(maxQueue := ClampQueue(n))])
  }

  function Apply(s: State, e: Step): State
    requires Enabled(s, e)
  {
    if IsWorkerStep(e) then ApplyWorker(s, e.w, e) else ApplyHandler(s, e)
  }

  // ----- Runs

  // Fresh pools, idle waiters, no request in flight. The job table outlives the processes, so it is arbitrary.
  predicate Init(s: State) {
    && (forall p | p in s.pools :: 1 <= s.pools[p].configured <= MAX_INGEST_WORKERS && s.pools[p].active == 0)
    && (forall w | w in s.workers :: s.workers[w].pool in s.pools && s.workers[w].pc == Idle)
    && s.handlers == map[]
  }

  ghost predicate Run(ss: seq<State>, es: seq<Step>) {
    && |ss| == |es| + 1
    && Init(ss[0])
    && forall i | 0 <= i < |es| :: Enabled(ss[i], es[i]) && ss[i + 1] == Apply(ss[i], es[i])
  }
}
