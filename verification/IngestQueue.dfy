/** The cap on waiting jobs: a check-then-act test that several upload requests can pass at once. */
module IngestQueue {
  import opened Counting
  import opened Sets
  import opened IngestProtocol
  import opened IngestOwnership

  predicate IsReserved(x: Handler) {
    x.CompleteReserved?
  }

  // A complete_upload request that has not been answered yet.
  predicate InFlight(x: Handler) {
    !x.InitRead? && !x.Recovering?
  }

  // A request that will be, or has been, let through by the count it has read.
  function Admitted(limit: nat): Handler -> bool {
    (x: Handler) => x.CompleteReserved? || (x.CompleteCounted? && !QueueIsSaturated(x.pending, limit))
  }

  // Jobs waiting, plus requests that will still add one.
  ghost function Promised(s: State, limit: nat): nat {
    PendingCount(s.jobs) + CountWhere(s.handlers, Admitted(limit))
  }

  ghost predicate LimitIs(s: State, limit: nat) {
    forall p | p in s.pools :: s.pools[p].maxQueue == limit
  }

  lemma CountMonotone<K, V(!new)>(m: map<K, V>, p: V -> bool, q: V -> bool)
    requires forall v | p(v) :: q(v)
    ensures CountWhere(m, p) <= CountWhere(m, q)
  {
    SubsetSize(Matching(m, p), Matching(m, q));
  }

  lemma SetJobCount(s: State, j: JobId, st: Status)
    ensures PendingCount(SetJob(s, j, st).jobs) + (if j in s.jobs && s.jobs[j] == Pending then 1 else 0)
         == PendingCount(s.jobs) + (if st == Pending then 1 else 0)
  {
    CountUpdate(s.jobs, j, st, IsPending);
  }

  lemma WorkersDrain(s: State, e: Step)
    requires Enabled(s, e) && IsWorkerStep(e)
    ensures PendingCount(Apply(s, e).jobs) <= PendingCount(s.jobs)
    ensures Apply(s, e).handlers == s.handlers
  {
    var pc := s.workers[e.w].pc;
    match e
    case ClaimCommit(_, j) => SetJobCount(s, j, Running);
    case TryClaim(_, _) => SetJobCount(s, pc.job, Running);
    case Finish(_, success) => SetJobCount(s, pc.job, if success then Done else Failed);
    case _ =>
  }

  // One step: what is promised grows only when a request reads a count below the limit, and then it is still small.
  lemma {:induction false} PromisedStep(s: State, e: Step, limit: nat, n: nat, bound: nat)
    requires Enabled(s, e) && !e.RecoverMark? && limit > 0
    requires LimitIs(s, limit) && CountWhere(Apply(s, e).handlers, InFlight) <= n
    requires limit - 1 + n <= bound < U32_SIZE && Promised(s, limit) <= bound
    ensures Promised(Apply(s, e), limit) <= bound
  {
    var t := Apply(s, e);
    var q := Admitted(limit);
    if IsWorkerStep(e) {
      WorkersDrain(s, e);
    } else if e.CompleteCount? {
      CountMonotone(t.handlers, q, InFlight);
      CountUpdate(s.handlers, e.h, t.handlers[e.h], q);
    } else if e.CompleteFail? || e.CompleteMark? || e.InitBegin? {
      CountRemove(s.handlers, e.h, q);
      SetJobCount(s, s.handlers[e.h].job, if e.CompleteFail? then Failed else if e.CompleteMark? then Pending else Uploading);
    } else if e.Leave? {
      CountRemove(s.handlers, e.h, q);
    } else if e.CompleteEvaluate? {
      if e.h in t.handlers {
        CountUpdate(s.handlers, e.h, t.handlers[e.h], q);
      } else {
        CountRemove(s.handlers, e.h, q);
      }
    } else if e.CompleteStart? || e.CompleteHash? || e.InitStart? || e.RecoverList? {
      CountUpdate(s.handlers, e.h, t.handlers[e.h], q);
    }
  }

  ghost predicate CappedRun(ss: seq<State>, es: seq<Step>, limit: nat, n: nat) {
    && Run(ss, es) && limit > 0
    && (forall i | 0 <= i < |ss| :: LimitIs(ss[i], limit) && CountWhere(ss[i].handlers, InFlight) <= n)
    && (forall i | 0 <= i < |es| :: !es[i].RecoverMark?)
  }

  lemma {:induction false} PromisedPrefix(
    ss: seq<State>, es: seq<Step>, limit: nat, n: nat, bound: nat, i: nat)
    requires CappedRun(ss, es, limit, n) && i < |ss|
    requires limit - 1 + n <= bound < U32_SIZE && PendingCount(ss[0].jobs) <= bound
    ensures Promised(ss[i], limit) <= bound
  {
    if i == 0 {
      assert Matching(ss[0].handlers, Admitted(limit)) == {};
    } else {
      PromisedPrefix(ss, es, limit, n, bound, i - 1);
      assert LimitIs(ss[i - 1], limit) && CountWhere(ss[i].handlers, InFlight) <= n;
      PromisedStep(ss[i - 1], es[i - 1], limit, n, bound);
    }
  }

  // With the limit fixed at m > 0, at most n complete_upload requests in flight and no job put back by recovery,
  // waiting jobs and reserved places never exceed m - 1 + n, or the backlog found at start-up if that is larger.
  lemma QueueCap(ss: seq<State>, es: seq<Step>, limit: nat, n: nat, i: nat)
    requires CappedRun(ss, es, limit, n) && i < |ss|
    requires limit - 1 + n < U32_SIZE && PendingCount(ss[0].jobs) < U32_SIZE
    ensures var backlog := PendingCount(ss[0].jobs);
            PendingCount(ss[i].jobs) + CountWhere(ss[i].handlers, IsReserved)
              <= if backlog > limit - 1 + n then backlog else limit - 1 + n
  {
    var backlog := PendingCount(ss[0].jobs);
    PromisedPrefix(ss, es, limit, n, if backlog > limit - 1 + n then backlog else limit - 1 + n, i);
    CountMonotone(ss[i].handlers, IsReserved, Admitted(limit));
  }

  // One request at a time keeps the queue at or below its limit.
  lemma OneRequestAtATime(ss: seq<State>, es: seq<Step>, limit: nat, i: nat)
    requires CappedRun(ss, es, limit, 1) && i < |ss|
    requires limit < U32_SIZE && PendingCount(ss[0].jobs) <= limit
    ensures PendingCount(ss[i].jobs) <= limit
  {
    QueueCap(ss, es, limit, 1, i);
  }

  // The check of a request that has counted n pending jobs: the limit 0 lets every request through, whatever the
  // backlog; a limit m lets it through exactly when the low 32 bits of n are below m. Else the request is answered.
  lemma CountDecides(s: State, h: HandlerId)
    requires h in s.handlers && s.handlers[h].CompleteCounted? && s.handlers[h].pool in s.pools
    ensures var n, m := s.handlers[h].pending, s.pools[s.handlers[h].pool].maxQueue;
      && Enabled(s, CompleteEvaluate(h))
      && Apply(s, CompleteEvaluate(h)) == s.(handlers :=
           if m == 0 || n % U32_SIZE < m
           then s.handlers[h := CompleteReserved(s.handlers[h].pool, s.handlers[h].job)]
           else s.handlers - {h})
  {
  }

  // With the limit 0 a request whose archive is verified reserves a place from every state.
  lemma UnlimitedReserves(s: State, h: HandlerId, p: PoolId, j: JobId) returns (t: State)
    requires h !in s.handlers && p in s.pools && j in s.jobs && s.jobs[j] == Uploading && s.pools[p].maxQueue == 0
    ensures Trace(s, Admission(h, p, j), t)
    ensures t == s.(handlers := s.handlers[h := CompleteReserved(p, j)])
  {
    t := AdmissionReserves(s, h, p, j);
  }

  // Two at a time do not: from any state with one place left, both pass the check and both mark their job.
  lemma TwoRequestsPassTheCap(s: State, p: PoolId, h: HandlerId, h': HandlerId, j: JobId, j': JobId)
    returns (t: State)
    requires h != h' && h !in s.handlers && h' !in s.handlers && j != j'
    requires p in s.pools && 0 < s.pools[p].maxQueue < U32_SIZE
    requires PendingCount(s.jobs) == s.pools[p].maxQueue - 1
    requires j in s.jobs && s.jobs[j] == Uploading && j' in s.jobs && s.jobs[j'] == Uploading
    ensures Trace(s, Admission(h, p, j) + Admission(h', p, j') + [CompleteMark(h), CompleteMark(h')], t)
    ensures PendingCount(t.jobs) == s.pools[p].maxQueue + 1
  {
    assert !QueueIsSaturated(PendingCount(s.jobs), s.pools[p].maxQueue);
    hide Enabled, Apply, Trace, PendingCount, QueueIsSaturated, Admission;
    var m1 := AdmissionReserves(s, h, p, j);
    var m2 := AdmissionReserves(m1, h', p, j');
    TraceAppend(s, Admission(h, p, j), m1, Admission(h', p, j'), m2);
    var e, e' := CompleteMark(h), CompleteMark(h');
    MarkStep(m2, h);
    MarkStep(Apply(m2, e), h');
    var m3 := Apply(m2, e);
    t := Apply(m3, e');
    SetJobCount(m2, j, Pending);
    SetJobCount(m3, j', Pending);
    TraceStep(m3, e', [], t);
    TraceStep(m2, e, [e'], t);
    assert [e'] + [] == [e'] && [e] + [e'] == [e, e'];
    TraceAppend(s, Admission(h, p, j) + Admission(h', p, j'), m2, [e, e'], t);
  }
}
