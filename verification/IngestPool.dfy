/** The pool object of one process: atomics that settings, upload handlers and waiter tasks update in place. */
module IngestPool {
  import opened Arithmetic
  import opened Wrappers
  import P = IngestProtocol

  const MIN_CHUNK: nat := 1_000
  const MAX_CHUNK: nat := 500_000

  datatype SubmitResult =
    | Queued
    | Saturated(workers: nat, queued: nat, active: nat, maxQueue: nat)

  // In every state where step e is enabled and pool p is `before`, the protocol turns it into `after`, and leaves the
  // other pools alone.
  ghost predicate IsPoolStep(e: P.Step, p: P.PoolId, before: P.Pool, after: P.Pool) {
    forall s: P.State | P.Enabled(s, e) && p in s.pools && s.pools[p] == before && StepPool(s, e) == p ::
      P.Apply(s, e).pools == s.pools[p := after]
  }

  // The pool that a step works on.
  function StepPool(s: P.State, e: P.Step): P.PoolId
    requires P.Enabled(s, e)
  {
    if P.IsWorkerStep(e) then s.workers[e.w].pool
    else if e.Resize? || e.SetMaxQueue? then e.p
    else if e.CompleteEvaluate? then s.handlers[e.h].pool
    else 0
  }

  // The three steps of an uncontended turn of waiter w leave its pool as `after`.
  ghost predicate TurnEnds(s: P.State, w: P.WorkerId, p: P.PoolId, after: P.Pool, taken: bool) {
    && P.Enabled(s, P.LoadLimit(w))
    && var s1 := P.Apply(s, P.LoadLimit(w));
    && P.Enabled(s1, P.LoadActive(w))
    && var s2 := P.Apply(s1, P.LoadActive(w));
    && P.Enabled(s2, P.CompareExchange(w))
    && var s3 := P.Apply(s2, P.CompareExchange(w));
    && s3.pools == s.pools[p := after] && s3.workers == s.workers[w := P.Worker(p, if taken then P.Slot else P.Idle)]
  }

  ghost predicate IsTurn(p: P.PoolId, before: P.Pool, after: P.Pool, taken: bool) {
    forall s: P.State, w: P.WorkerId |
      p in s.pools && s.pools[p] == before && w in s.workers && s.workers[w] == P.Worker(p, P.Idle) ::
      TurnEnds(s, w, p, after, taken)
  }

  lemma LimitLoaded(s: P.State, w: P.WorkerId)
    requires w in s.workers && s.workers[w].pc.Idle? && s.workers[w].pool in s.pools
    ensures P.Enabled(s, P.LoadLimit(w))
    ensures var max := s.pools[s.workers[w].pool].configured;
      P.Apply(s, P.LoadLimit(w)) == P.SetPc(s, w, P.SawLimit(if max < 1 then 1 else max))
  {
  }

  lemma ActiveLoaded(s: P.State, w: P.WorkerId)
    requires w in s.workers && s.workers[w].pc.SawLimit? && s.workers[w].pool in s.pools
    ensures P.Enabled(s, P.LoadActive(w))
    ensures P.Apply(s, P.LoadActive(w)) ==
      P.SetPc(s, w, P.SawActive(s.workers[w].pc.max, s.pools[s.workers[w].pool].active))
  {
  }

  lemma Exchanged(s: P.State, w: P.WorkerId)
    requires w in s.workers && s.workers[w].pc.SawActive? && s.workers[w].pool in s.pools
    requires s.pools[s.workers[w].pool].active == s.workers[w].pc.cur
    ensures P.Enabled(s, P.CompareExchange(w))
    ensures var pc, p := s.workers[w].pc, s.workers[w].pool;
      P.Apply(s, P.CompareExchange(w)) ==
        if pc.cur < pc.max then P.SetActive(P.SetPc(s, w, P.Slot), p, pc.cur + 1) else P.SetPc(s, w, P.Idle)
  {
  }

  lemma TurnTakes(p: P.PoolId, before: P.Pool, after: P.Pool, taken: bool)
    requires before.configured >= 1 && (taken <==> before.active < before.configured)
    requires after == before.(active := if taken then before.active + 1 else before.active)
    ensures IsTurn(p, before, after, taken)
  {
    hide P.Enabled, P.Apply;
    forall s: P.State, w: P.WorkerId |
      p in s.pools && s.pools[p] == before && w in s.workers && s.workers[w] == P.Worker(p, P.Idle)
      ensures TurnEnds(s, w, p, after, taken)
    {
      LimitLoaded(s, w);
      var s1 := P.Apply(s, P.LoadLimit(w));
      ActiveLoaded(s1, w);
      Exchanged(P.Apply(s1, P.LoadActive(w)), w);
    }
  }

  // The queue check of a request that has counted the pending jobs.
  ghost predicate IsCheck(before: P.Pool, pending: nat, admitted: bool) {
    forall s: P.State, h: P.HandlerId |
      && h in s.handlers && s.handlers[h].CompleteCounted? && s.handlers[h].pending == pending
      && s.handlers[h].pool in s.pools && s.pools[s.handlers[h].pool] == before ::
      && P.Enabled(s, P.CompleteEvaluate(h))
      && (h in P.Apply(s, P.CompleteEvaluate(h)).handlers <==> admitted)
  }

  class IngestWorkerPool {
    var configured: nat
    var maxQueue: nat
    var insertChunkSize: nat
    var queued: nat
    var active: nat

    ghost predicate Valid()
      reads this
    {
      && 1 <= configured <= P.MAX_INGEST_WORKERS
      && maxQueue <= P.MAX_QUEUE_LIMIT
      && MIN_CHUNK <= insertChunkSize <= MAX_CHUNK
      && queued <= P.USIZE_MAX && active <= P.USIZE_MAX
    }

    // The part of the object that the protocol sees.
    function View(): P.Pool
      reads this
    {
      P.Pool(configured, active, maxQueue)
    }

    constructor (workers: nat, maxQueue: nat, insertChunkSize: nat)
      ensures Valid()
      ensures View() == P.Pool(P.ClampWorkers(workers), 0, P.ClampQueue(maxQueue))
      ensures this.insertChunkSize == Clamp(insertChunkSize, MIN_CHUNK, MAX_CHUNK)
      ensures queued == 0
    {
      this.configured := P.ClampWorkers(workers);
      this.maxQueue := P.ClampQueue(maxQueue);
      this.insertChunkSize := Clamp(insertChunkSize, MIN_CHUNK, MAX_CHUNK);
      this.queued := 0;
      this.active := 0;
    }

    method ApplyConfig(workers: nat, maxQueue: nat, insertChunkSize: nat)
      requires Valid()
      modifies this
      ensures Valid()
      ensures View() == P.Pool(P.ClampWorkers(workers), old(active), P.ClampQueue(maxQueue))
      ensures this.insertChunkSize == Clamp(insertChunkSize, MIN_CHUNK, MAX_CHUNK)
      ensures queued == old(queued)
      ensures 1 <= workers <= 16 ==> configured == workers
      ensures maxQueue <= 10_000 ==> this.maxQueue == maxQueue
      ensures 1_000 <= insertChunkSize <= 500_000 ==> this.insertChunkSize == insertChunkSize
    {
      var _ := Resize(workers);
      SetMaxQueue(maxQueue);
      this.insertChunkSize := Clamp(insertChunkSize, MIN_CHUNK, MAX_CHUNK);
    }

    // `woken` tells whether the waiters were notified: only when the limit really changes.
    method Resize(workers: nat) returns (woken: bool)
      requires Valid()
      modifies this`configured
      ensures Valid()
      ensures View() == old(View()).(configured := P.ClampWorkers(workers))
      ensures configured == if workers == 0 then 1 else if workers <= 16 then workers else 16
      ensures woken <==> configured != old(configured)
      ensures forall p :: IsPoolStep(P.Resize(p, workers), p, old(View()), View())
    {
      var n := P.ClampWorkers(workers);
      var prev := configured;
      configured := n;
      woken := prev != n;
    }

    method SetMaxQueue(limit: nat)
      requires Valid()
      modifies this`maxQueue
      ensures Valid()
      ensures View() == old(View()).(maxQueue := P.ClampQueue(limit))
      ensures maxQueue == if limit <= 10_000 then limit else 10_000
      ensures forall p :: IsPoolStep(P.SetMaxQueue(p, limit), p, old(View()), View())
    {
      maxQueue := P.ClampQueue(limit);
    }

    method EvaluatePending(pending: nat) returns (r: SubmitResult)
      ensures r == Queued <==> !P.QueueIsSaturated(pending, maxQueue)
      ensures r == Queued <==> maxQueue == 0 || pending % 0x1_0000_0000 < maxQueue
      ensures r.Saturated? ==> r == Saturated(configured, pending, active, maxQueue)
      ensures IsCheck(View(), pending, r == Queued)
    {
      if P.QueueIsSaturated(pending, maxQueue) {
        r := Saturated(configured, pending, active, maxQueue);
      } else {
        r := Queued;
      }
    }

    // `count` is the answer of count_pending; when the query fails the last known number is used instead.
    method TryReserve(count: Option<int>) returns (r: SubmitResult)
      requires Valid() && (count.Some? ==> count.value <= P.USIZE_MAX)
      modifies this`queued
      ensures Valid()
      ensures queued == match count { case Some(n) => if n < 0 then 0 else n case None => old(queued) }
      ensures r == Queued <==> !P.QueueIsSaturated(queued, maxQueue)
      ensures r == Queued <==> maxQueue == 0 || queued % 0x1_0000_0000 < maxQueue
      ensures IsCheck(View(), queued, r == Queued)
    {
      var pending := match count { case Some(n) => if n < 0 then 0 else n case None => queued };
      queued := pending;
      r := EvaluatePending(pending);
    }

    // The estimate counts the job that the caller has just made pending.
    method Submit()
      requires Valid()
      modifies this`queued
      ensures Valid()
      ensures queued == (old(queued) + 1) % (P.USIZE_MAX + 1)
    {
      queued := (queued + 1) % (P.USIZE_MAX + 1);
    }

    // ----- The three atomic accesses of the slot loop, and the release

    method LoadLimit() returns (max: nat)
      ensures max == if configured < 1 then 1 else configured
    {
      max := if configured < 1 then 1 else configured;
    }

    method CompareExchangeActive(expected: nat, desired: nat) returns (ok: bool)
      requires Valid() && desired <= P.USIZE_MAX
      modifies this`active
      ensures Valid()
      ensures ok <==> old(active) == expected
      ensures active == if ok then desired else old(active)
    {
      ok := active == expected;
      if ok {
        active := desired;
      }
    }

    // One turn of the slot loop when no other task runs in between: it takes a slot exactly when one is free.
    method TryAcquire() returns (taken: bool)
      requires Valid()
      modifies this`active
      ensures Valid()
      ensures taken <==> old(active) < configured
      ensures View() == old(View()).(active := if taken then old(active) + 1 else old(active))
      ensures forall p :: IsTurn(p, old(View()), View(), taken)
    {
      hide IsTurn;
      ghost var before := View();
      var max := LoadLimit();
      var cur := active;
      taken := false;
      if cur < max {
        taken := CompareExchangeActive(cur, cur + 1);
      }
      ghost var after := View();
      forall p ensures IsTurn(p, before, after, taken) {
        TurnTakes(p, before, after, taken);
      }
    }

    method Release()
      requires Valid()
      modifies this`active
      ensures Valid()
      ensures View() == old(View()).(active := P.FetchSub(old(active)))
      ensures active == (old(active) + 0xFFFF_FFFF_FFFF_FFFF) % 0x1_0000_0000_0000_0000
      ensures forall w, p :: IsPoolStep(P.Release(w), p, old(View()), View())
    {
      active := P.FetchSub(active);
    }
  }
}
