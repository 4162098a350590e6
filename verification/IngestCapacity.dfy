/** How many workers run at once, and how many jobs can wait: the two limits of the ingest pool. */
module IngestCapacity {
  import opened Counting
  import opened IngestProtocol

  // ----- What a step can do to the slots

  // One worker moves; its slot and the counter of its process change together.
  predicate WorkerMoves(s: State, t: State, w: WorkerId) {
    && w in s.workers && s.workers[w].pool in s.pools
    && w in t.workers && t.workers == s.workers[w := t.workers[w]]
    && var p := s.workers[w].pool;
    && var pc := s.workers[w].pc;
    && var pc' := t.workers[w].pc;
    && t.workers[w].pool == p
    && p in t.pools && t.pools == s.pools[p := s.pools[p].(active := t.pools[p].active)]
    && t.pools[p].active == (if HasSlot(pc) == HasSlot(pc') then s.pools[p].active
                             else if HasSlot(pc') then s.pools[p].active + 1
                             else FetchSub(s.pools[p].active))
    && (HasSlot(pc') && !HasSlot(pc) ==> pc.SawActive? && s.pools[p].active == pc.cur < pc.max)
    && (pc'.SawLimit? ==> pc'.max <= s.pools[p].configured || pc'.max == 1)
    && (pc'.SawActive? ==> pc.SawLimit? && pc.max == pc'.max)
  }

  // No worker moves, no counter changes; a limit may be set, to a value between 1 and 16.
  predicate SettingsMove(s: State, t: State) {
    && t.workers == s.workers
    && t.pools.Keys == s.pools.Keys
    && forall p | p in s.pools ::
         && t.pools[p].active == s.pools[p].active
         && (t.pools[p].configured == s.pools[p].configured || 1 <= t.pools[p].configured <= MAX_INGEST_WORKERS)
  }

  ghost predicate Moves(s: State, t: State) {
    SettingsMove(s, t) || exists w :: WorkerMoves(s, t, w)
  }

  lemma StepMoves(s: State, e: Step)
    requires Enabled(s, e)
    ensures Moves(s, Apply(s, e))
    ensures e.Release? ==> WorkerMoves(s, Apply(s, e), e.w)
  {
    if IsWorkerStep(e) {
      WorkerStepMoves(s, e);
    } else {
      assert SettingsMove(s, Apply(s, e));
    }
  }

  // The pools after a worker step: at most the counter of the worker's own pool differs.
  lemma WorkerStepPools(s: State, e: Step)
    requires Enabled(s, e) && IsWorkerStep(e)
    ensures var t, p := Apply(s, e), s.workers[e.w].pool;
      p in t.pools && t.pools == s.pools[p := s.pools[p].(active := t.pools[p].active)]
  {
    var t, p := Apply(s, e), s.workers[e.w].pool;
    match e
    case CompareExchange(w) => assert t.pools == s.pools[p := s.pools[p].(active := t.pools[p].active)];
    case Release(w) => assert t.pools == s.pools[p := s.pools[p].(active := t.pools[p].active)];
    case _ => assert t.pools == s.pools && s.pools == s.pools[p := s.pools[p].(active := t.pools[p].active)];
  }

  lemma {:induction false} WorkerStepMoves(s: State, e: Step)
    requires Enabled(s, e) && IsWorkerStep(e)
    ensures WorkerMoves(s, Apply(s, e), e.w)
  {
    WorkerStepPools(s, e);
  }

  ghost predicate MovingRun(ss: seq<State>) {
    && |ss| > 0 && Init(ss[0])
    && forall i | 0 <= i < |ss| - 1 :: Moves(ss[i], ss[i + 1])
  }

  lemma RunMoves(ss: seq<State>, es: seq<Step>)
    requires Run(ss, es)
    ensures MovingRun(ss)
  {
    forall i | 0 <= i < |ss| - 1
      ensures Moves(ss[i], ss[i + 1])
    {
      StepMoves(ss[i], es[i]);
    }
  }

  // ----- Slot accounting

  function SlotIn(p: PoolId): Worker -> bool {
    (x: Worker) => x.pool == p && HasSlot(x.pc)
  }

  ghost function SlotCount(s: State, p: PoolId): nat {
    CountWhere(s.workers, SlotIn(p))
  }

  // The counter of every process is the number of its workers that hold a slot.
  ghost predicate Accounted(s: State) {
    && (forall w | w in s.workers :: s.workers[w].pool in s.pools)
    && (forall p | p in s.pools :: s.pools[p].active == SlotCount(s, p))
  }

  lemma SlotInUse(s: State, w: WorkerId)
    requires Accounted(s) && w in s.workers && HasSlot(s.workers[w].pc)
    ensures s.pools[s.workers[w].pool].active > 0
  {
    CountPositive(s.workers, w, SlotIn(s.workers[w].pool));
  }

  lemma WorkerMoveKeepsAccounted(s: State, t: State, w: WorkerId)
    requires Accounted(s) && WorkerMoves(s, t, w)
    ensures Accounted(t)
  {
    forall p | p in t.pools
      ensures t.pools[p].active == SlotCount(t, p)
    {
      CountUpdate(s.workers, w, t.workers[w], SlotIn(p));
      if HasSlot(s.workers[w].pc) {
        SlotInUse(s, w);
      }
    }
  }

  lemma MoveKeepsAccounted(s: State, t: State)
    requires Accounted(s) && Moves(s, t)
    ensures Accounted(t)
  {
    if SettingsMove(s, t) {
      assert forall p :: SlotCount(t, p) == SlotCount(s, p);
    } else {
      var w :| WorkerMoves(s, t, w);
      WorkerMoveKeepsAccounted(s, t, w);
    }
  }

  lemma InitAccounted(s: State)
    requires Init(s)
    ensures Accounted(s)
  {
    forall p | p in s.pools
      ensures SlotCount(s, p) == 0
    {
      assert Matching(s.workers, SlotIn(p)) == {};
    }
  }

  lemma {:induction false} AccountedPrefix(ss: seq<State>, n: nat)
    requires MovingRun(ss) && n < |ss|
    ensures Accounted(ss[n])
  {
    if n == 0 {
      InitAccounted(ss[0]);
    } else {
      AccountedPrefix(ss, n - 1);
      assert Moves(ss[n - 1], ss[n - 1 + 1]);
      MoveKeepsAccounted(ss[n - 1], ss[n]);
    }
  }

  // In every state of every run the counter equals the number of slots held, so a release never underflows it.
  lemma SlotAccounting(ss: seq<State>, es: seq<Step>, n: nat)
    requires Run(ss, es) && n < |ss|
    ensures forall p | p in ss[n].pools :: ss[n].pools[p].active == SlotCount(ss[n], p)
    ensures n < |es| && es[n].Release? ==>
              var w := es[n].w;
              && w in ss[n].workers && ss[n].workers[w].pool in ss[n].pools
              && ss[n].pools[ss[n].workers[w].pool].active > 0
  {
    RunMoves(ss, es);
    AccountedPrefix(ss, n);
    if n < |es| && es[n].Release? {
      assert Enabled(ss[n], es[n]);
      SlotInUse(ss[n], es[n].w);
    }
  }

  // ----- The concurrency limit

  // No waiter of p remembers a limit above `top`.
  predicate NoStaleRead(s: State, p: PoolId, top: nat) {
    forall w | w in s.workers && s.workers[w].pool == p ::
      match s.workers[w].pc
      case SawLimit(max) => max <= top
      case SawActive(max, _) => max <= top
      case _ => true
  }

  lemma MoveKeepsReads(s: State, t: State, p: PoolId, top: nat)
    requires Accounted(s) && Moves(s, t) && p in s.pools
    requires 1 <= top && s.pools[p].configured <= top && NoStaleRead(s, p, top)
    ensures p in t.pools && NoStaleRead(t, p, top)
    ensures t.pools[p].active <= s.pools[p].active || t.pools[p].active == s.pools[p].active + 1 <= top
    ensures t.pools[p].configured == s.pools[p].configured || 1 <= t.pools[p].configured <= MAX_INGEST_WORKERS
  {
    if !SettingsMove(s, t) {
      var w :| WorkerMoves(s, t, w);
      if HasSlot(s.workers[w].pc) {
        SlotInUse(s, w);
      }
      assert s.workers[w].pool == p && s.workers[w].pc.SawActive? ==> s.workers[w].pc.max <= top;
      assert s.workers[w].pool == p && s.workers[w].pc.SawLimit? ==> s.workers[w].pc.max <= top;
    }
  }

  // The largest limit process p has had up to state n.
  ghost function Peak(ss: seq<State>, n: nat, p: PoolId): nat
    requires n < |ss|
  {
    var here := if p in ss[n].pools then ss[n].pools[p].configured else 0;
    if n == 0 then here
    else var before := Peak(ss, n - 1, p); if here > before then here else before
  }

  lemma {:induction false} PeakBounds(ss: seq<State>, n: nat, p: PoolId)
    requires MovingRun(ss) && n < |ss| && p in ss[0].pools
    ensures p in ss[n].pools
    ensures 1 <= ss[n].pools[p].configured <= Peak(ss, n, p) <= MAX_INGEST_WORKERS
    ensures NoStaleRead(ss[n], p, Peak(ss, n, p))
    ensures ss[n].pools[p].active <= Peak(ss, n, p)
  {
    if n > 0 {
      PeakBounds(ss, n - 1, p);
      AccountedPrefix(ss, n - 1);
      assert Moves(ss[n - 1], ss[n - 1 + 1]);
      MoveKeepsReads(ss[n - 1], ss[n], p, Peak(ss, n - 1, p));
    }
  }

  // A process never runs more jobs at once than the largest limit it has been given, which is at most 16:
  // stale reads by waiting workers do not get past it.
  lemma ActiveNeverExceedsPeak(ss: seq<State>, es: seq<Step>, n: nat, p: PoolId)
    requires Run(ss, es) && n < |ss| && p in ss[0].pools
    ensures p in ss[n].pools
    ensures SlotCount(ss[n], p) == ss[n].pools[p].active <= Peak(ss, n, p) <= MAX_INGEST_WORKERS
  {
    RunMoves(ss, es);
    AccountedPrefix(ss, n);
    PeakBounds(ss, n, p);
  }

  // ----- After a resize

  // From state k on the limit of p is n, and no waiter remembers a larger one.
  ghost predicate Settled(ss: seq<State>, k: nat, p: PoolId, n: nat) {
    && k < |ss| && n >= 1
    && (forall i | k <= i < |ss| :: p in ss[i].pools && ss[i].pools[p].configured == n)
    && NoStaleRead(ss[k], p, n)
  }

  lemma {:induction false} SettledPrefix(ss: seq<State>, k: nat, i: nat, p: PoolId, n: nat)
    requires MovingRun(ss) && Settled(ss, k, p, n) && k <= i < |ss|
    ensures NoStaleRead(ss[i], p, n)
    ensures ss[i].pools[p].active <= (if ss[k].pools[p].active > n then ss[k].pools[p].active else n)
  {
    hide Moves, Accounted, NoStaleRead, Init;
    if i > k {
      SettledPrefix(ss, k, i - 1, p, n);
      AccountedPrefix(ss, i - 1);
      assert Moves(ss[i - 1], ss[i - 1 + 1]);
      MoveKeepsReads(ss[i - 1], ss[i], p, n);
    }
  }

  // After the last resize to n, once no stale read is left: the number of running jobs cannot rise while it is at
  // or above n, and once it is at or below n it stays there.
  lemma ResizeTakesEffect(ss: seq<State>, es: seq<Step>, k: nat, i: nat, m: nat, p: PoolId, n: nat)
    requires Run(ss, es) && Settled(ss, k, p, n) && k <= i <= m < |ss|
    ensures i < |es| && ss[i].pools[p].active >= n ==> ss[i + 1].pools[p].active <= ss[i].pools[p].active
    ensures ss[i].pools[p].active <= n ==> ss[m].pools[p].active <= n
  {
    RunMoves(ss, es);
    hide Moves, Accounted, NoStaleRead, Init, Enabled, Apply;
    SettledPrefix(ss, k, i, p, n);
    if i < |es| {
      AccountedPrefix(ss, i);
      assert Moves(ss[i], ss[i + 1]);
      MoveKeepsReads(ss[i], ss[i + 1], p, n);
    }
    assert Settled(ss, i, p, n);
    SettledPrefix(ss, i, m, p, n);
  }
}
