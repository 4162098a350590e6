/** Who owns a claimed job: exclusive ownership over every interleaving, and exactly when it fails. */
module IngestOwnership {
  import opened Counting
  import opened IngestProtocol

  // Every job a worker is busy with is running in the table, and no other worker is busy with it.
  ghost predicate Owned(s: State) {
    && (forall w, j | Holds(s, w, j) ::
          j in s.jobs && s.jobs[j] == Running && !s.workers[w].pc.SawPending?)
    && (forall w, w', j | Holds(s, w, j) && Holds(s, w', j) :: w == w')
  }

  // A status write that does not look at the status it replaces: mark_pending, begin_upload, and finish
  // when it is called by an upload handler.
  predicate BlindWrite(s: State, e: Step, j: JobId) {
    match e
    case CompleteFail(h) => h in s.handlers && s.handlers[h].CompleteMismatch? && s.handlers[h].job == j
    case CompleteMark(h) => h in s.handlers && s.handlers[h].CompleteReserved? && s.handlers[h].job == j
    case InitBegin(h) => h in s.handlers && s.handlers[h].InitRead? && s.handlers[h].job == j
    case RecoverMark(_, k) => k == j
    case _ => false
  }

  // No blind write of this step lands on a job that a worker is busy with.
  ghost predicate Respects(s: State, e: Step) {
    forall j | BlindWrite(s, e, j) :: !Held(s, j)
  }

  lemma OtherWorkersStay(s: State, e: Step)
    requires Enabled(s, e) && IsWorkerStep(e)
    ensures var t := Apply(s, e);
      e.w in t.workers && t.workers == s.workers[e.w := t.workers[e.w]] && t.handlers == s.handlers
  {
  }

  // A worker takes only pending jobs, and lets go of a job before it writes another status than running.
  lemma OwnWorkerStays(s: State, e: Step, j: JobId)
    requires Owned(s) && Enabled(s, e) && IsWorkerStep(e) && Working(Apply(s, e).workers[e.w].pc, j)
    ensures var t := Apply(s, e);
      && j in t.jobs && t.jobs[j] == Running && !t.workers[e.w].pc.SawPending?
      && (Holds(s, e.w, j) || !Held(s, j))
  {
    assert Working(s.workers[e.w].pc, j) ==> Holds(s, e.w, j);
  }

  // A worker writes only to a job that is pending or that it is busy with.
  lemma WorkerWrites(s: State, e: Step, j: JobId)
    requires Owned(s) && Enabled(s, e) && IsWorkerStep(e)
    ensures var t := Apply(s, e);
      && (j in t.jobs <==> j in s.jobs)
      && (j in s.jobs && t.jobs[j] != s.jobs[j] ==> s.jobs[j] == Pending || (s.jobs[j] == Running && Holds(s, e.w, j)))
  {
    assert Working(s.workers[e.w].pc, j) ==> Holds(s, e.w, j);
  }

  lemma OtherHolderStays(s: State, e: Step, w: WorkerId, j: JobId)
    requires Owned(s) && Enabled(s, e) && IsWorkerStep(e) && w != e.w && Holds(s, w, j)
    ensures var t := Apply(s, e);
      Holds(t, w, j) && j in t.jobs && t.jobs[j] == Running && !t.workers[w].pc.SawPending?
  {
    hide Apply, Enabled, Working;
    OtherWorkersStay(s, e);
    WorkerWrites(s, e, j);
  }

  lemma WorkerStepKeepsOwned(s: State, e: Step)
    requires Owned(s) && Enabled(s, e) && IsWorkerStep(e)
    ensures Owned(Apply(s, e))
  {
    var t := Apply(s, e);
    OtherWorkersStay(s, e);
    hide Apply, Enabled, Working;
    forall w, j | Holds(t, w, j)
      ensures j in t.jobs && t.jobs[j] == Running && !t.workers[w].pc.SawPending?
      ensures w == e.w || Holds(s, w, j)
      ensures w == e.w ==> Holds(s, w, j) || !Held(s, j)
    {
      if w == e.w {
        OwnWorkerStays(s, e, j);
      } else {
        OtherHolderStays(s, e, w, j);
      }
    }
    forall w, w', j | Holds(t, w, j) && Holds(t, w', j)
      ensures w == w'
    {
      assert Holds(s, w, j) || Holds(s, w', j) ==> Held(s, j);
    }
  }

  lemma HandlerStepOwnership(s: State, e: Step)
    requires Owned(s) && Enabled(s, e) && !IsWorkerStep(e)
    ensures Owned(Apply(s, e)) <==> Respects(s, e)
  {
    var t := Apply(s, e);
    assert t.workers == s.workers;
    assert forall w, j :: Holds(t, w, j) <==> Holds(s, w, j);
    forall j | BlindWrite(s, e, j) && Held(s, j)
      ensures !Owned(t)
    {
      var w :| Holds(s, w, j);
      assert Holds(t, w, j) && t.jobs[j] != Running;
    }
    if Respects(s, e) {
      forall w, j | Holds(t, w, j)
        ensures j in t.jobs && t.jobs[j] == Running
      {
        assert Held(s, j);
        assert !BlindWrite(s, e, j);
      }
    }
  }

  // One step keeps ownership exactly when its blind write, if it makes one, misses every held job.
  lemma OwnershipStep(s: State, e: Step)
    requires Owned(s) && Enabled(s, e)
    ensures Owned(Apply(s, e)) <==> Respects(s, e)
  {
    if IsWorkerStep(e) {
      WorkerStepKeepsOwned(s, e);
    } else {
      HandlerStepOwnership(s, e);
    }
  }

  lemma OwnedPrefix(ss: seq<State>, es: seq<Step>, n: nat)
    requires Run(ss, es) && n <= |es|
    requires forall i | 0 <= i < n :: Respects(ss[i], es[i])
    ensures forall i | 0 <= i <= n :: Owned(ss[i])
  {
    if n > 0 {
      OwnedPrefix(ss, es, n - 1);
      OwnershipStep(ss[n - 1], es[n - 1]);
    }
  }

  // Over whole runs, any number of processes: ownership holds in every state if and only if no step of the
  // run writes a status blindly over a job that some worker is busy with.
  lemma OwnershipOverRuns(ss: seq<State>, es: seq<Step>)
    requires Run(ss, es)
    ensures (forall i | 0 <= i < |ss| :: Owned(ss[i]))
       <==> (forall i | 0 <= i < |es| :: Respects(ss[i], es[i]))
  {
    if forall i | 0 <= i < |es| :: Respects(ss[i], es[i]) {
      OwnedPrefix(ss, es, |es|);
    }
    if forall i | 0 <= i < |ss| :: Owned(ss[i]) {
      forall i | 0 <= i < |es|
        ensures Respects(ss[i], es[i])
      {
        OwnershipStep(ss[i], es[i]);
        assert Owned(ss[i + 1]);
      }
    }
  }

  // ----- A discipline that a deployment can follow

  predicate Concerns(x: Handler, j: JobId) {
    if x.Recovering? then j in x.todo else x.job == j
  }

  // No recovery pass, and never two requests in flight for one job.
  ghost predicate Disciplined(s: State) {
    && (forall h | h in s.handlers :: !s.handlers[h].Recovering?)
    && (forall h, h', j | h in s.handlers && h' in s.handlers
          && Concerns(s.handlers[h], j) && Concerns(s.handlers[h'], j) :: h == h')
  }

  // What the handler read about its job is still true.
  predicate Fresh(s: State, x: Handler) {
    match x
    case InitRead(j) => j in s.jobs ==> s.jobs[j] == Failed || s.jobs[j] == Done
    case Recovering(_) => true
    case _ => x.job in s.jobs && s.jobs[x.job] == Uploading
  }

  ghost predicate AllFresh(s: State) {
    forall h | h in s.handlers :: Fresh(s, s.handlers[h])
  }

  lemma FreshRespects(s: State, e: Step)
    requires Owned(s) && Disciplined(s) && AllFresh(s) && Enabled(s, e)
    ensures Respects(s, e)
  {
    forall j | BlindWrite(s, e, j)
      ensures !Held(s, j)
    {
      assert Fresh(s, s.handlers[e.h]);
    }
  }

  lemma FreshWorkerStep(s: State, e: Step)
    requires Owned(s) && AllFresh(s) && Enabled(s, e) && IsWorkerStep(e)
    ensures AllFresh(Apply(s, e))
  {
    var t := Apply(s, e);
    OtherWorkersStay(s, e);
    hide Apply, Enabled, Owned;
    forall h | h in t.handlers
      ensures Fresh(t, t.handlers[h])
    {
      var x := s.handlers[h];
      assert Fresh(s, x);
      if !x.Recovering? {
        WorkerWrites(s, e, x.job);
      }
    }
  }

  // A handler step changes a status only blindly, and no handler but its own.
  lemma HandlerWrites(s: State, e: Step, j: JobId)
    requires Enabled(s, e) && !IsWorkerStep(e)
    ensures j in s.jobs ==> j in Apply(s, e).jobs
    ensures j in Apply(s, e).jobs && !(j in s.jobs && Apply(s, e).jobs[j] == s.jobs[j]) ==> BlindWrite(s, e, j)
  {
  }

  // The handler of a step has read what it knows from the table.
  lemma OwnHandlerFresh(s: State, e: Step, h: HandlerId)
    requires AllFresh(s) && Enabled(s, e) && !IsWorkerStep(e) && h in Apply(s, e).handlers
    requires !(h in s.handlers && Apply(s, e).handlers[h] == s.handlers[h])
    ensures Fresh(Apply(s, e), Apply(s, e).handlers[h])
  {
    assert h in s.handlers ==> Fresh(s, s.handlers[h]);
  }

  // Only the handler of a step for a job writes the status of that job, and then it is gone.
  lemma BlindWriterLeaves(s: State, e: Step, h: HandlerId, j: JobId)
    requires Disciplined(s) && Enabled(s, e) && !IsWorkerStep(e) && BlindWrite(s, e, j)
    requires h in s.handlers && Concerns(s.handlers[h], j)
    ensures h !in Apply(s, e).handlers
  {
    assert Concerns(s.handlers[e.h], j);
  }

  lemma FreshHandlerStep(s: State, e: Step)
    requires Disciplined(s) && AllFresh(s) && Enabled(s, e) && !IsWorkerStep(e) && Disciplined(Apply(s, e))
    ensures AllFresh(Apply(s, e))
  {
    var t := Apply(s, e);
    hide Apply, Enabled, Disciplined, BlindWrite;
    forall h | h in t.handlers
      ensures Fresh(t, t.handlers[h])
    {
      if h in s.handlers && t.handlers[h] == s.handlers[h] {
        var x := s.handlers[h];
        assert Fresh(s, x);
        if !x.Recovering? {
          HandlerWrites(s, e, x.job);
          if BlindWrite(s, e, x.job) {
            BlindWriterLeaves(s, e, h, x.job);
          }
        }
      } else {
        OwnHandlerFresh(s, e, h);
      }
    }
  }

  lemma FreshStep(s: State, e: Step)
    requires Owned(s) && Disciplined(s) && AllFresh(s) && Enabled(s, e) && Disciplined(Apply(s, e))
    ensures AllFresh(Apply(s, e))
  {
    if IsWorkerStep(e) {
      FreshWorkerStep(s, e);
    } else {
      FreshHandlerStep(s, e);
    }
  }

  // Exclusive ownership: with no recovery pass and at most one request in flight per job, every job claimed
  // from the queue is held by exactly one worker, in every state of every run.
  lemma ExclusiveOwnership(ss: seq<State>, es: seq<Step>)
    requires Run(ss, es)
    requires forall i | 0 <= i < |ss| :: Disciplined(ss[i])
    ensures forall i | 0 <= i < |ss| :: Owned(ss[i])
    ensures forall i | 0 <= i < |es| :: Respects(ss[i], es[i])
  {
    DisciplinedPrefix(ss, es, |es|);
    OwnershipOverRuns(ss, es);
  }

  lemma DisciplinedPrefix(ss: seq<State>, es: seq<Step>, n: nat)
    requires Run(ss, es) && n <= |es|
    requires forall i | 0 <= i < |ss| :: Disciplined(ss[i])
    ensures forall i | 0 <= i <= n :: Owned(ss[i]) && AllFresh(ss[i])
  {
    if n > 0 {
      DisciplinedPrefix(ss, es, n - 1);
      FreshRespects(ss[n - 1], es[n - 1]);
      OwnershipStep(ss[n - 1], es[n - 1]);
      assert Disciplined(ss[n - 1]) && Disciplined(ss[n]);
      FreshStep(ss[n - 1], es[n - 1]);
    }
  }

  // ----- One claim, one finish

  // A repository call that fails after this worker has claimed a job.
  predicate RepositoryFailure(e: Step, w: WorkerId) {
    e == ClaimRead(w, false) || e == Recheck(w, false) || e == TryClaim(w, false) || e == FinishError(w)
  }

  predicate Ends(e: Step, w: WorkerId) {
    (e.Finish? && e.w == w) || RepositoryFailure(e, w)
  }

  ghost predicate SoleHolder(s: State, w: WorkerId, j: JobId) {
    && j in s.jobs && s.jobs[j] == Running
    && forall w' :: Holds(s, w', j) <==> w' == w
  }

  // The steps between a claim and the end of one turn of the same worker.
  ghost predicate Turn(ss: seq<State>, es: seq<Step>, a: nat, b: nat, w: WorkerId, j: JobId) {
    && Run(ss, es)
    && (forall i | 0 <= i < |ss| :: Owned(ss[i]))
    && a < b <= |es|
    && es[a] == ClaimCommit(w, j)
    && (forall i | a < i < b :: es[i] != Release(w))
  }

  // A busy worker stays busy with its job until one of its own steps ends the claim.
  lemma {:induction false} BusyStep(s: State, e: Step, w: WorkerId, j: JobId)
    requires Owned(s) && Holds(s, w, j) && Enabled(s, e)
    ensures w in Apply(s, e).workers
    ensures !Ends(e, w) ==> Holds(Apply(s, e), w, j)
    ensures Ends(e, w) ==> Apply(s, e).workers[w].pc == Releasing(if e.Finish? then Finished(j) else Lost(j))
  {
    if IsWorkerStep(e) && e.w == w {
      var pc := s.workers[w].pc;
      assert pc == Committed(j) || pc == Claimed(j) || pc == Processing(j);
      assert s.jobs[j] == Running;
    } else {
      assert Apply(s, e).workers[w] == s.workers[w];
    }
  }

  lemma {:induction false} ReleasingStep(s: State, e: Step, w: WorkerId)
    requires w in s.workers && s.workers[w].pc.Releasing? && Enabled(s, e) && e != Release(w)
    ensures w in Apply(s, e).workers && Apply(s, e).workers[w] == s.workers[w] && !Ends(e, w)
  {
    assert IsWorkerStep(e) ==> e.w != w;
    if IsWorkerStep(e) {
      assert Apply(s, e).workers == s.workers[e.w := Apply(s, e).workers[e.w]];
    }
  }

  predicate EndedBy(s: State, e: Step, w: WorkerId, j: JobId) {
    && Ends(e, w) && w in s.workers
    && s.workers[w].pc == Releasing(if e.Finish? then Finished(j) else Lost(j))
  }

  // What one step does to worker w, seen only through its job: busy, ended, or past the end.
  ghost predicate TurnStep(s: State, e: Step, t: State, w: WorkerId, j: JobId) {
    && (Holds(s, w, j) ==> if Ends(e, w) then EndedBy(t, e, w, j) else Holds(t, w, j))
    && (w in s.workers && s.workers[w].pc.Releasing? && e != Release(w) ==>
          w in t.workers && t.workers[w] == s.workers[w] && !Ends(e, w))
  }

  lemma TurnSteps(ss: seq<State>, es: seq<Step>, a: nat, b: nat, w: WorkerId, j: JobId)
    requires Turn(ss, es, a, b, w, j)
    ensures Holds(ss[a + 1], w, j)
    ensures forall i | a < i < b :: TurnStep(ss[i], es[i], ss[i + 1], w, j)
  {
    assert Enabled(ss[a], es[a]);
    forall i | a < i < b
      ensures TurnStep(ss[i], es[i], ss[i + 1], w, j)
    {
      assert Enabled(ss[i], es[i]) && Owned(ss[i]);
      if Holds(ss[i], w, j) {
        BusyStep(ss[i], es[i], w, j);
      } else if w in ss[i].workers && ss[i].workers[w].pc.Releasing? {
        ReleasingStep(ss[i], es[i], w);
      }
    }
  }

  // The index k of the step that ends the claim, or k == b while the worker is still busy.
  lemma {:induction false} TurnSoFar(ss: seq<State>, es: seq<Step>, a: nat, b: nat, w: WorkerId, j: JobId)
    returns (k: nat)
    requires a < b < |ss| && b <= |es|
    requires Holds(ss[a + 1], w, j)
    requires forall i | a < i < b :: TurnStep(ss[i], es[i], ss[i + 1], w, j) && es[i] != Release(w)
    ensures a < k <= b
    ensures forall m | a < m <= k :: Holds(ss[m], w, j)
    ensures forall m | a < m < b && m != k :: !Ends(es[m], w)
    ensures k < b ==> EndedBy(ss[b], es[k], w, j)
  {
    if b == a + 1 {
      k := b;
    } else {
      k := TurnSoFar(ss, es, a, b - 1, w, j);
      assert TurnStep(ss[b - 1], es[b - 1], ss[b - 1 + 1], w, j);
      if k == b - 1 && !Ends(es[b - 1], w) {
        k := b;
      }
    }
  }

  // The step that ends the claim of a sole holder leaves the job with nobody.
  lemma NobodyHoldsAfter(s: State, e: Step, w: WorkerId, j: JobId)
    requires Owned(s) && SoleHolder(s, w, j) && Enabled(s, e) && Ends(e, w)
    ensures !Held(Apply(s, e), j)
    ensures e.Finish? ==> j in Apply(s, e).jobs && Apply(s, e).jobs[j] == if e.success then Done else Failed
  {
    BusyStep(s, e, w, j);
    var t := Apply(s, e);
    forall w'
      ensures !Holds(t, w', j)
    {
      assert Holds(s, w', j) <==> w' == w;
      assert w' != w ==> w' in s.workers <==> w' in t.workers;
    }
  }

  lemma OwnerIsSoleHolder(s: State, w: WorkerId, j: JobId)
    requires Owned(s) && Holds(s, w, j)
    ensures SoleHolder(s, w, j)
  {
  }

  // A turn that ends with the release of the slot has ended its claim before, once.
  lemma ClaimEnds(ss: seq<State>, es: seq<Step>, a: nat, b: nat, w: WorkerId, j: JobId)
    returns (k: nat)
    requires Turn(ss, es, a, b, w, j)
    requires b < |es| && es[b] == Release(w)
    ensures a < k < b
    ensures forall m | a < m <= k :: SoleHolder(ss[m], w, j)
    ensures forall m | a < m < b :: Ends(es[m], w) <==> m == k
  {
    ReleasesNothing(ss, es, a, b, w, j);
    hide Enabled, Apply, TurnStep, Holds, SoleHolder, Ends, Init, EndedBy;
    TurnSteps(ss, es, a, b, w, j);
    k := TurnSoFar(ss, es, a, b, w, j);
    forall m | a < m <= k
      ensures SoleHolder(ss[m], w, j)
    {
      OwnerIsSoleHolder(ss[m], w, j);
    }
  }

  // A worker that gives its slot back is not busy.
  lemma ReleasesNothing(ss: seq<State>, es: seq<Step>, a: nat, b: nat, w: WorkerId, j: JobId)
    requires Turn(ss, es, a, b, w, j) && b < |es| && es[b] == Release(w)
    ensures !Holds(ss[b], w, j)
  {
    assert Enabled(ss[b], es[b]);
  }

  // A claimed job stays running under its one holder until a single step of that worker ends the claim; it is a
  // Finish, which leaves the job done or failed, unless a repository call of the turn failed.
  lemma ClaimedJobFinishesOnce(ss: seq<State>, es: seq<Step>, a: nat, b: nat, w: WorkerId, j: JobId)
    returns (k: nat)
    requires Turn(ss, es, a, b, w, j)
    requires b < |es| && es[b] == Release(w)
    ensures a < k < b
    ensures forall m | a < m <= k :: SoleHolder(ss[m], w, j)
    ensures forall m | a < m < b :: Ends(es[m], w) <==> m == k
    ensures es[k].Finish? ==> j in ss[k + 1].jobs && ss[k + 1].jobs[j] == if es[k].success then Done else Failed
    ensures (forall m | a < m < b :: !RepositoryFailure(es[m], w)) ==> es[k].Finish?
    ensures !Held(ss[k + 1], j)
  {
    k := ClaimEnds(ss, es, a, b, w, j);
    assert Ends(es[k], w) && Owned(ss[k]) && SoleHolder(ss[k], w, j);
    assert Enabled(ss[k], es[k]) && ss[k + 1] == Apply(ss[k], es[k]);
    hide Turn, Enabled, Apply, SoleHolder, Owned, Held;
    NobodyHoldsAfter(ss[k], es[k], w, j);
  }

  // The step takes the worker to its job: it finds the job running, or pending again and claims it once more.
  predicate Starts(s: State, e: Step, w: WorkerId, j: JobId)
    requires Enabled(s, e) && w in s.workers
  {
    || (e == Recheck(w, true) && s.workers[w].pc == Claimed(j) && s.jobs[j] == Running)
    || (e == TryClaim(w, true) && s.workers[w].pc == SawPending(j) && s.jobs[j] == Pending)
  }

  lemma OwnStepStarts(s: State, e: Step, w: WorkerId, j: JobId)
    requires IsWorkerStep(e) && e.w == w && WorkerEnabled(s, w, e) && s.workers[w].pc != Processing(j)
    ensures Apply(s, e).workers[w].pc == Processing(j) <==> Starts(s, e, w, j)
    ensures Starts(s, e, w, j) ==> j in Apply(s, e).jobs && Apply(s, e).jobs[j] == Running
  {
  }

  lemma ForeignStep(s: State, e: Step, w: WorkerId)
    requires Enabled(s, e) && w in s.workers && !(IsWorkerStep(e) && e.w == w)
    ensures w in Apply(s, e).workers && Apply(s, e).workers[w] == s.workers[w]
  {
    if IsWorkerStep(e) {
      OtherWorkersStay(s, e);
      hide Apply;
    }
  }

  // Processing starts in these two ways only, and then the job is running.
  lemma ProcessingStarts(s: State, e: Step, w: WorkerId, j: JobId)
    requires Enabled(s, e) && w in s.workers && s.workers[w].pc != Processing(j)
    ensures w in Apply(s, e).workers
    ensures Apply(s, e).workers[w].pc == Processing(j) <==> Starts(s, e, w, j)
    ensures Starts(s, e, w, j) ==> j in Apply(s, e).jobs && Apply(s, e).jobs[j] == Running
  {
    if IsWorkerStep(e) && e.w == w {
      OwnStepStarts(s, e, w, j);
    } else {
      ForeignStep(s, e, w);
    }
    hide Apply;
  }

  // ----- What a request has behind it

  // The request found the digest right, or is past that check.
  predicate IsVerified(x: Handler, p: PoolId, j: JobId) {
    x == CompleteVerified(p, j) || (x.CompleteCounted? && x.pool == p && x.job == j) || x == CompleteReserved(p, j)
  }

  lemma RunStarts(ss: seq<State>, es: seq<Step>)
    requires Run(ss, es)
    ensures |ss| == |es| + 1 && ss[0].handlers == map[]
  {
  }

  lemma RunSteps(ss: seq<State>, es: seq<Step>, n: nat)
    requires Run(ss, es) && n < |ss|
    ensures n > 0 ==> n <= |es| && Enabled(ss[n - 1], es[n - 1]) && ss[n] == Apply(ss[n - 1], es[n - 1])
  {
    assert n > 0 ==> ss[n - 1 + 1] == Apply(ss[n - 1], es[n - 1]);
  }

  lemma VerifiedStep(s: State, e: Step, h: HandlerId, p: PoolId, j: JobId)
    requires Enabled(s, e) && h in Apply(s, e).handlers && IsVerified(Apply(s, e).handlers[h], p, j)
    ensures h in s.handlers
    ensures IsVerified(s.handlers[h], p, j) || (s.handlers[h] == CompleteRead(p, j) && e == CompleteHash(h, true))
  {
    hide PendingCount, QueueIsSaturated, ApplyWorker, WorkerEnabled;
    if IsWorkerStep(e) {
      OtherWorkersStay(s, e);
      hide Apply;
    }
  }

  // In every run, a complete_upload that stands before its status write has read the job and found its digest right.
  lemma {:induction false} ReservedWasVerified(ss: seq<State>, es: seq<Step>, n: nat, h: HandlerId, p: PoolId, j: JobId)
    returns (k: nat)
    requires Run(ss, es) && n < |ss| && h in ss[n].handlers && IsVerified(ss[n].handlers[h], p, j)
    ensures k < n && h in ss[k].handlers && ss[k].handlers[h] == CompleteRead(p, j) && es[k] == CompleteHash(h, true)
    ensures forall i | k < i <= n :: h in ss[i].handlers && IsVerified(ss[i].handlers[h], p, j)
  {
    RunStarts(ss, es);
    RunSteps(ss, es, n);
    hide Run, Enabled, Apply, IsVerified, Init;
    VerifiedStep(ss[n - 1], es[n - 1], h, p, j);
    if IsVerified(ss[n - 1].handlers[h], p, j) {
      k := ReservedWasVerified(ss, es, n - 1, h, p, j);
    } else {
      k := n - 1;
    }
  }

  lemma TodoStep(s: State, e: Step, h: HandlerId, j: JobId)
    requires Enabled(s, e) && h in Apply(s, e).handlers
    requires Apply(s, e).handlers[h].Recovering? && j in Apply(s, e).handlers[h].todo
    ensures (h in s.handlers && s.handlers[h].Recovering? && j in s.handlers[h].todo) || (j in s.jobs && s.jobs[j] == Running)
  {
    hide PendingCount, QueueIsSaturated, ApplyWorker, WorkerEnabled;
    if IsWorkerStep(e) {
      OtherWorkersStay(s, e);
      hide Apply;
    }
  }

  // In every run, a recovery pass has only jobs on its list that were running when it read them.
  lemma {:induction false} RecoveredWasRunning(ss: seq<State>, es: seq<Step>, n: nat, h: HandlerId, j: JobId)
    returns (k: nat)
    requires Run(ss, es) && n < |ss| && h in ss[n].handlers && ss[n].handlers[h].Recovering?
    requires j in ss[n].handlers[h].todo
    ensures k < n && j in ss[k].jobs && ss[k].jobs[j] == Running
  {
    RunStarts(ss, es);
    RunSteps(ss, es, n);
    hide Run, Enabled, Apply, Init;
    TodoStep(ss[n - 1], es[n - 1], h, j);
    if h in ss[n - 1].handlers && ss[n - 1].handlers[h].Recovering? && j in ss[n - 1].handlers[h].todo {
      k := RecoveredWasRunning(ss, es, n - 1, h, j);
    } else {
      k := n - 1;
    }
  }

  // ----- How ownership is lost

  ghost predicate HeldTwice(s: State, w: WorkerId, w': WorkerId, j: JobId) {
    w != w' && Holds(s, w, j) && Holds(s, w', j)
  }

  ghost predicate Trace(s: State, es: seq<Step>, t: State)
    decreases |es|
  {
    if es == [] then s == t else Enabled(s, es[0]) && Trace(Apply(s, es[0]), es[1..], t)
  }

  lemma TraceStep(s: State, e: Step, es: seq<Step>, t: State)
    requires Enabled(s, e) && Trace(Apply(s, e), es, t)
    ensures Trace(s, [e] + es, t)
  {
    assert ([e] + es)[1..] == es;
  }

  // The recovery pass of a process that starts while a job is running elsewhere hands the job to a second worker:
  // whenever w holds j and another worker w' has a slot, three steps suffice.
  lemma RecoveryClaimsTwice(s: State, h: HandlerId, w: WorkerId, w': WorkerId, j: JobId) returns (t: State)
    requires Owned(s) && Holds(s, w, j)
    requires w' in s.workers && s.workers[w'].pc == Slot && s.workers[w'].pool in s.pools
    requires h !in s.handlers
    ensures Trace(s, [RecoverList(h, {j}), RecoverMark(h, j), ClaimCommit(w', j)], t)
    ensures HeldTwice(t, w, w', j)
  {
    var e0, e1, e2 := RecoverList(h, {j}), RecoverMark(h, j), ClaimCommit(w', j);
    var s1 := Apply(s, e0);
    var s2 := Apply(s1, e1);
    t := Apply(s2, e2);
    TraceStep(s2, e2, [], t);
    TraceStep(s1, e1, [e2], t);
    TraceStep(s, e0, [e1, e2], t);
    assert [e0] + ([e1] + ([e2] + [])) == [e0, e1, e2];
    assert [e1] + ([e2] + []) == [e1, e2] && [e2] + [] == [e2];
  }

  lemma TraceAppend(s: State, es: seq<Step>, m: State, fs: seq<Step>, t: State)
    requires Trace(s, es, m) && Trace(m, fs, t)
    ensures Trace(s, es + fs, t)
    decreases |es|
  {
    if es == [] {
      assert es + fs == fs;
    } else {
      TraceAppend(Apply(s, es[0]), es[1..], m, fs, t);
      assert (es + fs)[1..] == es[1..] + fs;
    }
  }

  lemma FourSteps(s: State, s1: State, s2: State, s3: State, t: State, e: seq<Step>)
    requires |e| == 4
    requires Enabled(s, e[0]) && s1 == Apply(s, e[0]) && Enabled(s1, e[1]) && s2 == Apply(s1, e[1])
    requires Enabled(s2, e[2]) && s3 == Apply(s2, e[2]) && Enabled(s3, e[3]) && t == Apply(s3, e[3])
    ensures Trace(s, e, t)
  {
    assert Trace(t, [], t);
    hide Enabled, Apply, Trace;
    TraceStep(s3, e[3], [], t);
    TraceStep(s2, e[2], [e[3]] + [], t);
    TraceStep(s1, e[1], [e[2]] + ([e[3]] + []), t);
    TraceStep(s, e[0], [e[1]] + ([e[2]] + ([e[3]] + [])), t);
    assert [e[0]] + ([e[1]] + ([e[2]] + ([e[3]] + []))) == e;
  }

  // ----- Single steps of handlers and of the claim

  lemma StartStep(s: State, h: HandlerId, p: PoolId, j: JobId)
    requires h !in s.handlers && p in s.pools && j in s.jobs && s.jobs[j] == Uploading
    ensures Enabled(s, CompleteStart(h, p, j))
    ensures Apply(s, CompleteStart(h, p, j)) == SetHandler(s, h, CompleteRead(p, j))
  {
  }

  lemma HashStep(s: State, h: HandlerId)
    requires h in s.handlers && s.handlers[h].CompleteRead?
    ensures Enabled(s, CompleteHash(h, true))
    ensures Apply(s, CompleteHash(h, true)) == SetHandler(s, h, CompleteVerified(s.handlers[h].pool, s.handlers[h].job))
  {
  }

  lemma CountStep(s: State, h: HandlerId)
    requires h in s.handlers && s.handlers[h].CompleteVerified?
    ensures Enabled(s, CompleteCount(h))
    ensures Apply(s, CompleteCount(h))
         == SetHandler(s, h, CompleteCounted(s.handlers[h].pool, s.handlers[h].job, PendingCount(s.jobs)))
  {
  }

  lemma EvaluateStep(s: State, h: HandlerId)
    requires h in s.handlers && s.handlers[h].CompleteCounted? && s.handlers[h].pool in s.pools
    requires !QueueIsSaturated(s.handlers[h].pending, s.pools[s.handlers[h].pool].maxQueue)
    ensures Enabled(s, CompleteEvaluate(h))
    ensures Apply(s, CompleteEvaluate(h)) == SetHandler(s, h, CompleteReserved(s.handlers[h].pool, s.handlers[h].job))
  {
  }

  lemma MarkStep(s: State, h: HandlerId)
    requires h in s.handlers && s.handlers[h].CompleteReserved?
    ensures Enabled(s, CompleteMark(h))
    ensures Apply(s, CompleteMark(h)) == SetJob(DropHandler(s, h), s.handlers[h].job, Pending)
  {
  }

  lemma ClaimStep(s: State, w: WorkerId, j: JobId)
    requires w in s.workers && s.workers[w].pool in s.pools && s.workers[w].pc == Slot
    requires j in s.jobs && s.jobs[j] == Pending
    ensures Enabled(s, ClaimCommit(w, j))
    ensures Apply(s, ClaimCommit(w, j)) == SetJob(SetPc(s, w, Committed(j)), j, Running)
  {
  }

  lemma FailStep(s: State, h: HandlerId)
    requires h in s.handlers && s.handlers[h].CompleteMismatch?
    ensures Enabled(s, CompleteFail(h))
    ensures Apply(s, CompleteFail(h)) == SetJob(DropHandler(s, h), s.handlers[h].job, Failed)
  {
  }

  lemma InitStartStep(s: State, h: HandlerId, j: JobId)
    requires h !in s.handlers && j in s.jobs && s.jobs[j] == Failed
    ensures Enabled(s, InitStart(h, j)) && Apply(s, InitStart(h, j)) == SetHandler(s, h, InitRead(j))
  {
  }

  lemma BeginStep(s: State, h: HandlerId)
    requires h in s.handlers && s.handlers[h].InitRead?
    ensures Enabled(s, InitBegin(h)) && Apply(s, InitBegin(h)) == SetJob(DropHandler(s, h), s.handlers[h].job, Uploading)
  {
  }

  // One complete_upload up to the queue check, for a job whose bytes are there and whose hash matches.
  function Admission(h: HandlerId, p: PoolId, j: JobId): seq<Step> {
    [CompleteStart(h, p, j), CompleteHash(h, true), CompleteCount(h), CompleteEvaluate(h)]
  }

  lemma AdmissionReserves(s: State, h: HandlerId, p: PoolId, j: JobId) returns (t: State)
    requires h !in s.handlers && p in s.pools && j in s.jobs && s.jobs[j] == Uploading
    requires !QueueIsSaturated(PendingCount(s.jobs), s.pools[p].maxQueue)
    ensures Trace(s, Admission(h, p, j), t)
    ensures t == s.(handlers := s.handlers[h := CompleteReserved(p, j)])
  {
    hide Enabled, Apply, Trace, PendingCount, QueueIsSaturated;
    StartStep(s, h, p, j);
    var s1 := Apply(s, CompleteStart(h, p, j));
    HashStep(s1, h);
    var s2 := Apply(s1, CompleteHash(h, true));
    CountStep(s2, h);
    var s3 := Apply(s2, CompleteCount(h));
    EvaluateStep(s3, h);
    t := Apply(s3, CompleteEvaluate(h));
    FourSteps(s, s1, s2, s3, t, Admission(h, p, j));
  }

  // Both requests mark the job pending, and each time a worker claims it.
  function Overlap(h: HandlerId, h': HandlerId, w: WorkerId, w': WorkerId, j: JobId): seq<Step> {
    [CompleteMark(h), ClaimCommit(w, j), CompleteMark(h'), ClaimCommit(w', j)]
  }

  // Two overlapping complete_upload requests for one uploaded job put it into the hands of two workers, because
  // mark_pending does not look at the status it overwrites. No recovery pass is needed.
  lemma OverlappingCompletesClaimTwice(
    s: State, p: PoolId, h: HandlerId, h': HandlerId, w: WorkerId, w': WorkerId, j: JobId) returns (t: State)
    requires h != h' && h !in s.handlers && h' !in s.handlers
    requires p in s.pools && !QueueIsSaturated(PendingCount(s.jobs), s.pools[p].maxQueue)
    requires j in s.jobs && s.jobs[j] == Uploading
    requires w != w' && w in s.workers && w' in s.workers
    requires s.workers[w].pc == Slot && s.workers[w].pool in s.pools
    requires s.workers[w'].pc == Slot && s.workers[w'].pool in s.pools
    ensures Trace(s, Admission(h, p, j) + Admission(h', p, j) + Overlap(h, h', w, w', j), t)
    ensures HeldTwice(t, w, w', j)
  {
    var m1 := AdmissionReserves(s, h, p, j);
    var m2 := AdmissionReserves(m1, h', p, j);
    TraceAppend(s, Admission(h, p, j), m1, Admission(h', p, j), m2);
    t := OverlapClaimsTwice(m2, h, h', w, w', j);
    TraceAppend(s, Admission(h, p, j) + Admission(h', p, j), m2, Overlap(h, h', w, w', j), t);
  }

  lemma OverlapClaimsTwice(s: State, h: HandlerId, h': HandlerId, w: WorkerId, w': WorkerId, j: JobId)
    returns (t: State)
    requires h != h' && h in s.handlers && h' in s.handlers
    requires s.handlers[h].CompleteReserved? && s.handlers[h].job == j
    requires s.handlers[h'].CompleteReserved? && s.handlers[h'].job == j
    requires w != w' && w in s.workers && w' in s.workers
    requires s.workers[w].pc == Slot && s.workers[w].pool in s.pools
    requires s.workers[w'].pc == Slot && s.workers[w'].pool in s.pools
    ensures Trace(s, Overlap(h, h', w, w', j), t)
    ensures HeldTwice(t, w, w', j)
  {
    hide Enabled, Apply, Trace;
    MarkStep(s, h);
    var s1 := Apply(s, CompleteMark(h));
    ClaimStep(s1, w, j);
    var s2 := Apply(s1, ClaimCommit(w, j));
    MarkStep(s2, h');
    var s3 := Apply(s2, CompleteMark(h'));
    ClaimStep(s3, w', j);
    t := Apply(s3, ClaimCommit(w', j));
    FourSteps(s, s1, s2, s3, t, Overlap(h, h', w, w', j));
  }

  lemma PendingStays(s: State, j: JobId, st: Status)
    requires j in s.jobs && s.jobs[j] != Pending && st != Pending
    ensures PendingCount(s.jobs[j := st]) == PendingCount(s.jobs)
  {
    CountUpdate(s.jobs, j, st, IsPending);
  }

  // A complete_upload after its checks, and the claim of the job that it has queued.
  function Requeue(h: HandlerId, w: WorkerId, j: JobId): seq<Step> {
    [CompleteMark(h), ClaimCommit(w, j)]
  }

  lemma RequeueClaims(s: State, p: PoolId, h: HandlerId, w: WorkerId, w': WorkerId, j: JobId) returns (t: State)
    requires w != w' && Holds(s, w, j)
    requires w' in s.workers && s.workers[w'].pc == Slot && s.workers[w'].pool in s.pools
    requires h in s.handlers && s.handlers[h] == CompleteReserved(p, j)
    ensures Trace(s, Requeue(h, w', j), t) && HeldTwice(t, w, w', j)
  {
    assert Working(s.workers[w].pc, j);
    hide Enabled, Apply;
    MarkStep(s, h);
    var s1 := Apply(s, CompleteMark(h));
    ClaimStep(s1, w', j);
    t := Apply(s1, ClaimCommit(w', j));
    TraceStep(s1, ClaimCommit(w', j), [], t);
    TraceStep(s, CompleteMark(h), [ClaimCommit(w', j)] + [], t);
    assert [CompleteMark(h)] + ([ClaimCommit(w', j)] + []) == Requeue(h, w', j);
  }

  // A job that is open for upload again while a worker is busy with it goes to a second worker once the upload is
  // completed.
  lemma UploadedAgain(s: State, p: PoolId, h: HandlerId, w: WorkerId, w': WorkerId, j: JobId) returns (t: State)
    requires w != w' && Holds(s, w, j) && j in s.jobs && s.jobs[j] == Uploading
    requires w' in s.workers && s.workers[w'].pc == Slot && s.workers[w'].pool in s.pools
    requires h !in s.handlers && p in s.pools && !QueueIsSaturated(PendingCount(s.jobs), s.pools[p].maxQueue)
    ensures Trace(s, Admission(h, p, j) + Requeue(h, w', j), t) && HeldTwice(t, w, w', j)
  {
    var m := AdmissionReserves(s, h, p, j);
    t := RequeueClaims(m, p, h, w, w', j);
    TraceAppend(s, Admission(h, p, j), m, Requeue(h, w', j), t);
  }

  // An init_upload that read the old row before another request queued the job opens it for upload while a worker is
  // busy with it, because begin_upload does not look at the status it overwrites.
  lemma RacingInitClaimsTwice(s: State, p: PoolId, h: HandlerId, w: WorkerId, w': WorkerId, j: JobId) returns (t: State)
    requires Owned(s) && w != w' && Holds(s, w, j)
    requires w' in s.workers && s.workers[w'].pc == Slot && s.workers[w'].pool in s.pools
    requires h in s.handlers && s.handlers[h] == InitRead(j)
    requires p in s.pools && !QueueIsSaturated(PendingCount(s.jobs), s.pools[p].maxQueue)
    ensures Trace(s, [InitBegin(h)] + (Admission(h, p, j) + Requeue(h, w', j)), t) && HeldTwice(t, w, w', j)
  {
    assert j in s.jobs && s.jobs[j] == Running;
    hide Enabled, Apply, Trace, PendingCount, QueueIsSaturated, Owned, Admission, Requeue, Working;
    BeginStep(s, h);
    PendingStays(s, j, Uploading);
    t := UploadedAgain(Apply(s, InitBegin(h)), p, h, w, w', j);
    TraceStep(s, InitBegin(h), Admission(h, p, j) + Requeue(h, w', j), t);
  }

  // A complete_upload that read a wrong digest before another one queued the job marks it failed while a worker is
  // busy with it; then the same archive can be uploaded and queued again.
  lemma LateFailureClaimsTwice(s: State, p: PoolId, h: HandlerId, w: WorkerId, w': WorkerId, j: JobId) returns (t: State)
    requires Owned(s) && w != w' && Holds(s, w, j)
    requires w' in s.workers && s.workers[w'].pc == Slot && s.workers[w'].pool in s.pools
    requires h in s.handlers && s.handlers[h].CompleteMismatch? && s.handlers[h].job == j
    requires p in s.pools && !QueueIsSaturated(PendingCount(s.jobs), s.pools[p].maxQueue)
    ensures Trace(s, [CompleteFail(h), InitStart(h, j), InitBegin(h)] + (Admission(h, p, j) + Requeue(h, w', j)), t)
    ensures HeldTwice(t, w, w', j)
  {
    assert j in s.jobs && s.jobs[j] == Running;
    hide Enabled, Apply, Trace, PendingCount, QueueIsSaturated, Owned, Admission, Requeue, Working;
    var rest := Admission(h, p, j) + Requeue(h, w', j);
    FailStep(s, h);
    var s1 := Apply(s, CompleteFail(h));
    InitStartStep(s1, h, j);
    var s2 := Apply(s1, InitStart(h, j));
    BeginStep(s2, h);
    var s3 := Apply(s2, InitBegin(h));
    PendingStays(s, j, Failed);
    PendingStays(s1, j, Uploading);
    t := UploadedAgain(s3, p, h, w, w', j);
    TraceStep(s2, InitBegin(h), rest, t);
    TraceStep(s1, InitStart(h, j), [InitBegin(h)] + rest, t);
    TraceStep(s, CompleteFail(h), [InitStart(h, j)] + ([InitBegin(h)] + rest), t);
    assert [CompleteFail(h)] + ([InitStart(h, j)] + ([InitBegin(h)] + rest))
        == [CompleteFail(h), InitStart(h, j), InitBegin(h)] + rest;
  }
}
