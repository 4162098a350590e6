/**
 Progress of the parallel sysdiagnose parsers: every parser, run by one of a few threads, keeps the lists
 of active and completed parsers under two locks and reports them. One step is one lock operation, one
 update of a list, or one report.
 */
module ParserProgress {
  import opened Wrappers

  // The active lock is held from Locked to Told and from Relocked to Released, the completed lock from
  // Counting to Counted, from Reporting to Told and from Both to Released.
  datatype Phase =
    | Queued
    | Entering
    | Locked
    | Listed
    | Counting(done: nat)
    | Counted(done: nat)
    | Reporting(done: nat)
    | Reported
    | Told
    | Parsing
    | Relocked
    | Unlisted
    | Both
    | Recorded
    | Announced
    | Released
    | Done

  // What one call of the progress callback receives; done is the number in its text.
  datatype Report = Report(parser: nat, finish: bool, done: nat, completed: seq<string>, active: seq<string>)

  datatype State = State(
    names: seq<string>,
    threads: nat,
    phases: seq<Phase>,
    active: seq<string>,
    completed: seq<string>,
    activeLock: Option<nat>,
    completedLock: Option<nat>,
    log: seq<Report>)

  predicate HoldsActive(p: Phase) {
    match p
    case Locked | Listed | Counting(_) | Counted(_) | Reporting(_) | Reported | Told => true
    case Relocked | Unlisted | Both | Recorded | Announced | Released => true
    case _ => false
  }

  predicate HoldsCompleted(p: Phase) {
    match p
    case Counting(_) | Reporting(_) | Reported | Both | Recorded | Announced => true
    case _ => false
  }

  predicate InActive(p: Phase) {
    match p
    case Listed | Counting(_) | Counted(_) | Reporting(_) | Reported | Told | Parsing | Relocked => true
    case _ => false
  }

  predicate InCompleted(p: Phase) {
    p.Recorded? || p.Announced? || p.Released? || p.Done?
  }

  // Occupies a thread.
  predicate InFlight(p: Phase) {
    !p.Queued? && !p.Done?
  }

  predicate IsRecorded(p: Phase) {
    p.Recorded?
  }

  function CountPhase(ps: seq<Phase>, f: Phase -> bool): nat {
    if ps == [] then 0 else (if f(ps[0]) then 1 else 0) + CountPhase(ps[1..], f)
  }

  // Vec::retain(|n| n != name)
  function Without(xs: seq<string>, x: string): seq<string> {
    if xs == [] then []
    else (if xs[0] == x then [] else [xs[0]]) + Without(xs[1..], x)
  }

  // ----- Steps

  predicate Enabled(s: State, i: nat)
    requires |s.phases| == |s.names|
  {
    i < |s.phases|
    && match s.phases[i]
       case Queued => CountPhase(s.phases, InFlight) < s.threads
       case Entering => s.activeLock.None?
       case Parsing => s.activeLock.None?
       case Listed => s.completedLock.None?
       case Counted(_) => s.completedLock.None?
       case Unlisted => s.completedLock.None?
       case Done => false
       case _ => true
  }

  function Move(s: State, i: nat, p: Phase): State
    requires i < |s.phases|
  {
    s.(phases := s.phases[i := p])
  }

  function Apply(s: State, i: nat): State
    requires |s.phases| == |s.names| && Enabled(s, i)
  {
    var name := s.names[i];
    match s.phases[i]
    case Queued => Move(s, i, Entering)
    case Entering => Move(s, i, Locked).(activeLock := Some(i))
    case Locked => Move(s, i, Listed).(active := s.active + [name])
    case Listed => Move(s, i, Counting(|s.completed|)).(completedLock := Some(i))
    case Counting(done) => Move(s, i, Counted(done)).(completedLock := None)
    case Counted(done) => Move(s, i, Reporting(done)).(completedLock := Some(i))
    case Reporting(done) => Move(s, i, Reported).(log := s.log + [Report(i, false, done, s.completed, s.active)])
    case Reported => Move(s, i, Told).(completedLock := None)
    case Told => Move(s, i, Parsing).(activeLock := None)
    case Parsing => Move(s, i, Relocked).(activeLock := Some(i))
    case Relocked => Move(s, i, Unlisted).(active := Without(s.active, name))
    case Unlisted => Move(s, i, Both).(completedLock := Some(i))
    case Both => Move(s, i, Recorded).(completed := s.completed + [name])
    case Recorded => Move(s, i, Announced).(log := s.log + [Report(i, true, |s.completed|, s.completed, s.active)])
    case Announced => Move(s, i, Released).(completedLock := None)
    case Released => Move(s, i, Done).(activeLock := None)
  }

  predicate DistinctNames(names: seq<string>) {
    forall i, j | 0 <= i < j < |names| :: names[i] != names[j]
  }

  ghost predicate Init(s: State) {
    && DistinctNames(s.names) && 1 <= s.threads <= 8
    && |s.phases| == |s.names| && (forall i | 0 <= i < |s.phases| :: s.phases[i] == Queued)
    && s.active == [] && s.completed == [] && s.activeLock == None && s.completedLock == None && s.log == []
  }

  // steps[k] is the parser that moves from states[k] to states[k + 1].
  ghost predicate IsRun(states: seq<State>, steps: seq<nat>) {
    && |states| == |steps| + 1
    && Init(states[0])
    && (forall k | 0 <= k < |states| :: |states[k].phases| == |states[k].names|)
    && (forall k | 0 <= k < |steps| :: Enabled(states[k], steps[k]) && states[k + 1] == Apply(states[k], steps[k]))
  }

  // ----- Invariants

  // Each lock has the holder that the phases say, if any.
  ghost predicate Locks(s: State) {
    && (forall i | 0 <= i < |s.phases| :: HoldsActive(s.phases[i]) <==> s.activeLock == Some(i))
    && (forall i | 0 <= i < |s.phases| :: HoldsCompleted(s.phases[i]) <==> s.completedLock == Some(i))
    && (s.activeLock.Some? ==> s.activeLock.value < |s.phases|)
    && (s.completedLock.Some? ==> s.completedLock.value < |s.phases|)
  }

  // A list holds the names of the parsers in certain phases, each once.
  ghost predicate IsListOf(list: seq<string>, names: seq<string>, phases: seq<Phase>, f: Phase -> bool) {
    && |phases| == |names|
    && (forall i | 0 <= i < |phases| :: names[i] in list <==> f(phases[i]))
    && (forall x | x in list :: x in names)
    && DistinctNames(list)
    && |list| == CountPhase(phases, f)
  }

  ghost predicate Lists(s: State) {
    && IsListOf(s.active, s.names, s.phases, InActive)
    && IsListOf(s.completed, s.names, s.phases, InCompleted)
    && CountPhase(s.phases, InFlight) <= s.threads
  }

  function Finishes(log: seq<Report>): nat {
    if log == [] then 0 else Finishes(log[..|log| - 1]) + (if log[|log| - 1].finish then 1 else 0)
  }

  // A report shows the parsers completed, the reported one included when it finishes, and the active ones.
  ghost predicate ReportOk(s: State, r: Report) {
    && r.parser < |s.names|
    && r.done == |r.completed|
    && (forall x | x in r.completed :: x !in r.active)
    && DistinctNames(r.completed) && DistinctNames(r.active)
    && |r.active| <= s.threads
    && (if r.finish then s.names[r.parser] in r.completed && s.names[r.parser] !in r.active
        else s.names[r.parser] in r.active && s.names[r.parser] !in r.completed)
  }

  // The reports count the finished parsers one by one.
  ghost predicate Reports(s: State) {
    && (forall k | 0 <= k < |s.log| :: ReportOk(s, s.log[k]) && |s.log[k].completed| == Finishes(s.log[..k + 1]))
    && |s.completed| == Finishes(s.log) + CountPhase(s.phases, IsRecorded)
    && (forall i | 0 <= i < |s.phases| ::
          HasCounted(s.phases[i]) ==> s.phases[i].done == |s.completed|)
  }

  ghost predicate Inv(s: State) {
    && |s.phases| == |s.names| && DistinctNames(s.names) && s.threads > 0
    && Locks(s) && Lists(s) && Reports(s)
  }

  lemma {:induction false} CountUpdate(ps: seq<Phase>, i: nat, p: Phase, f: Phase -> bool)
    requires i < |ps|
    ensures CountPhase(ps[i := p], f) + (if f(ps[i]) then 1 else 0) == CountPhase(ps, f) + (if f(p) then 1 else 0)
  {
    if i > 0 {
      CountUpdate(ps[1..], i - 1, p, f);
      assert ps[i := p][1..] == ps[1..][i - 1 := p];
    } else {
      assert ps[i := p][1..] == ps[1..];
    }
  }

  lemma {:induction false} CountNone(ps: seq<Phase>, f: Phase -> bool)
    requires forall i | 0 <= i < |ps| :: !f(ps[i])
    ensures CountPhase(ps, f) == 0
  {
    if ps != [] {
      assert forall i | 0 <= i < |ps[1..]| :: ps[1..][i] == ps[i + 1];
      CountNone(ps[1..], f);
    }
  }

  lemma {:induction false} CountSome(ps: seq<Phase>, f: Phase -> bool)
    requires CountPhase(ps, f) > 0
    ensures exists i :: 0 <= i < |ps| && f(ps[i])
  {
    if f(ps[0]) {
      assert f(ps[0]);
    } else {
      CountSome(ps[1..], f);
      var i :| 0 <= i < |ps[1..]| && f(ps[1..][i]);
      assert f(ps[i + 1]);
    }
  }

  lemma {:induction false} CountAll(ps: seq<Phase>, f: Phase -> bool)
    requires forall i | 0 <= i < |ps| :: f(ps[i])
    ensures CountPhase(ps, f) == |ps|
  {
    if ps != [] {
      assert forall i | 0 <= i < |ps[1..]| :: ps[1..][i] == ps[i + 1];
      CountAll(ps[1..], f);
    }
  }

  lemma {:induction false} ActiveAreInFlight(ps: seq<Phase>)
    ensures CountPhase(ps, InActive) <= CountPhase(ps, InFlight)
  {
    if ps != [] {
      ActiveAreInFlight(ps[1..]);
    }
  }

  lemma {:induction false} WithoutFacts(xs: seq<string>, x: string)
    requires DistinctNames(xs)
    ensures DistinctNames(Without(xs, x))
    ensures forall y :: y in Without(xs, x) <==> y in xs && y != x
    ensures |Without(xs, x)| == if x in xs then |xs| - 1 else |xs|
  {
    if xs != [] {
      assert forall i | 0 <= i < |xs[1..]| :: xs[1..][i] == xs[i + 1];
      WithoutFacts(xs[1..], x);
      assert xs == [xs[0]] + xs[1..];
      assert xs[0] !in xs[1..];
    }
  }

  lemma InitInv(s: State)
    requires Init(s)
    ensures Inv(s)
  {
    CountNone(s.phases, InActive);
    CountNone(s.phases, InCompleted);
    CountNone(s.phases, InFlight);
    CountNone(s.phases, IsRecorded);
  }

  // Parser i takes the lock when it is free, gives it back, or leaves it.
  predicate LockMoves(lock: Option<nat>, holds: bool, lock': Option<nat>, holds': bool, i: nat) {
    if holds == holds' then lock' == lock
    else if holds' then lock == None && lock' == Some(i)
    else lock' == None
  }

  lemma PhaseShape(s: State, i: nat)
    requires |s.phases| == |s.names| && Enabled(s, i)
    ensures Apply(s, i).phases == s.phases[i := Apply(s, i).phases[i]]
  {
    hide CountPhase, Without;
  }

  lemma ActiveLockShape(s: State, i: nat)
    requires |s.phases| == |s.names| && Enabled(s, i)
    ensures LockMoves(s.activeLock, HoldsActive(s.phases[i]), Apply(s, i).activeLock, HoldsActive(Apply(s, i).phases[i]), i)
  {
    hide CountPhase, Without;
  }

  lemma CompletedLockShape(s: State, i: nat)
    requires |s.phases| == |s.names| && Enabled(s, i)
    ensures LockMoves(s.completedLock, HoldsCompleted(s.phases[i]), Apply(s, i).completedLock,
                      HoldsCompleted(Apply(s, i).phases[i]), i)
  {
    hide CountPhase, Without;
  }

  lemma StepLocks(s: State, i: nat)
    requires |s.phases| == |s.names| && Locks(s) && Enabled(s, i)
    ensures Locks(Apply(s, i))
  {
    assert i < |s.phases|;
    hide CountPhase, Apply, Enabled, HoldsActive, HoldsCompleted;
    PhaseShape(s, i);
    ActiveLockShape(s, i);
    CompletedLockShape(s, i);
  }

  lemma ListKept(list: seq<string>, names: seq<string>, phases: seq<Phase>, i: nat, p: Phase, f: Phase -> bool)
    requires IsListOf(list, names, phases, f) && i < |phases| && f(p) == f(phases[i])
    ensures IsListOf(list, names, phases[i := p], f)
  {
    CountUpdate(phases, i, p, f);
    hide CountPhase;
  }

  lemma ListGrows(list: seq<string>, names: seq<string>, phases: seq<Phase>, i: nat, p: Phase, f: Phase -> bool)
    requires IsListOf(list, names, phases, f) && DistinctNames(names) && i < |phases| && f(p) && !f(phases[i])
    ensures IsListOf(list + [names[i]], names, phases[i := p], f)
  {
    CountUpdate(phases, i, p, f);
    hide CountPhase;
  }

  lemma ListShrinks(list: seq<string>, names: seq<string>, phases: seq<Phase>, i: nat, p: Phase, f: Phase -> bool)
    requires IsListOf(list, names, phases, f) && DistinctNames(names) && i < |phases| && !f(p) && f(phases[i])
    ensures IsListOf(Without(list, names[i]), names, phases[i := p], f)
  {
    CountUpdate(phases, i, p, f);
    WithoutFacts(list, names[i]);
    hide CountPhase, Without;
  }

  // What a step of parser i changes besides the locks.
  lemma StepShape(s: State, i: nat)
    requires |s.phases| == |s.names| && Enabled(s, i)
    ensures var p, t := s.phases[i], Apply(s, i);
      && t.names == s.names && t.threads == s.threads && |t.phases| == |s.phases| && t.phases == s.phases[i := t.phases[i]]
      && t.active == (if p.Locked? then s.active + [s.names[i]]
                      else if p.Relocked? then Without(s.active, s.names[i]) else s.active)
      && t.completed == (if p.Both? then s.completed + [s.names[i]] else s.completed)
      && (InActive(t.phases[i]) <==> p.Locked? || (InActive(p) && !p.Relocked?))
      && (InCompleted(t.phases[i]) <==> p.Both? || InCompleted(p))
      && (InFlight(t.phases[i]) <==> p.Queued? || (InFlight(p) && !p.Released?))
      && (IsRecorded(t.phases[i]) <==> p.Both?)
      && (p.Reporting? || p.Recorded? || t.log == s.log)
      && (p.Queued? ==> CountPhase(s.phases, InFlight) < s.threads)
  {
    hide CountPhase, Without;
  }

  lemma StepLists(s: State, i: nat)
    requires Inv(s) && Enabled(s, i)
    ensures Lists(Apply(s, i))
  {
    StepShape(s, i);
    var p, q := s.phases[i], Apply(s, i).phases[i];
    assert InActive(p) <==> p.Relocked? || (InActive(p) && !p.Relocked?);
    CountUpdate(s.phases, i, q, InFlight);
    hide CountPhase, Without, Reports, Locks, IsListOf, Apply, Enabled;
    if p.Locked? {
      ListGrows(s.active, s.names, s.phases, i, q, InActive);
    } else if p.Relocked? {
      ListShrinks(s.active, s.names, s.phases, i, q, InActive);
    } else {
      ListKept(s.active, s.names, s.phases, i, q, InActive);
    }
    if p.Both? {
      ListGrows(s.completed, s.names, s.phases, i, q, InCompleted);
    } else {
      ListKept(s.completed, s.names, s.phases, i, q, InCompleted);
    }
  }

  lemma FinishesAppend(log: seq<Report>, r: Report)
    ensures Finishes(log + [r]) == Finishes(log) + (if r.finish then 1 else 0)
  {
    assert (log + [r])[..|log|] == log;
  }

  // While a parser holds the active lock, no other parser is between its phases.
  lemma OneHolder(s: State, i: nat)
    requires Inv(s) && i < |s.phases| && HoldsActive(s.phases[i])
    ensures forall j | 0 <= j < |s.phases| && j != i :: !HoldsActive(s.phases[j])
    ensures CountPhase(s.phases, IsRecorded) == if s.phases[i].Recorded? then 1 else 0
  {
    CountUpdate(s.phases, i, Done, IsRecorded);
    CountNone(s.phases[i := Done], IsRecorded);
  }

  lemma CompletedAreNotActive(s: State)
    requires Lists(s)
    ensures forall x | x in s.completed :: x !in s.active
  {
    hide CountPhase;
    forall x | x in s.completed ensures x !in s.active {
      var j :| 0 <= j < |s.names| && s.names[j] == x;
      assert InCompleted(s.phases[j]);
      assert !InActive(s.phases[j]);
    }
  }

  // The report that a step appends.
  lemma NewReport(s: State, i: nat)
    requires |s.phases| == |s.names| && Enabled(s, i) && (s.phases[i].Reporting? || s.phases[i].Recorded?)
    ensures var p := s.phases[i];
      Apply(s, i).log == s.log
        + [Report(i, p.Recorded?, if p.Recorded? then |s.completed| else p.done, s.completed, s.active)]
  {
    hide CountPhase, Without;
  }

  // A report of parser i made from the lists as they are, while it is listed as its phase says.
  lemma ReportFromLists(s: State, i: nat, r: Report)
    requires Lists(s) && i < |s.phases| && |s.phases| == |s.names|
    requires r == Report(i, r.finish, |s.completed|, s.completed, s.active)
    requires if r.finish then InCompleted(s.phases[i]) && !InActive(s.phases[i])
             else InActive(s.phases[i]) && !InCompleted(s.phases[i])
    ensures ReportOk(s, r)
  {
    CompletedAreNotActive(s);
    ActiveAreInFlight(s.phases);
    hide CountPhase, InActive, InCompleted, InFlight;
  }

  lemma ReportingLists(p: Phase)
    ensures p.Reporting? ==> InActive(p) && !InCompleted(p) && HasCounted(p) && HoldsActive(p)
    ensures p.Recorded? ==> InCompleted(p) && !InActive(p) && HoldsActive(p)
  {
  }

  lemma SameNames(s: State, t: State, r: Report)
    requires ReportOk(s, r) && t.names == s.names && t.threads == s.threads
    ensures ReportOk(t, r)
  {
  }

  lemma NewReportOk(s: State, i: nat)
    requires Inv(s) && Enabled(s, i) && (s.phases[i].Reporting? || s.phases[i].Recorded?)
    ensures var t := Apply(s, i);
      && t.log == s.log + [t.log[|s.log|]]
      && ReportOk(t, t.log[|s.log|])
      && t.log[|s.log|].completed == s.completed
      && t.log[|s.log|].finish == s.phases[i].Recorded?
      && |s.completed| == Finishes(t.log)
  {
    var p, t := s.phases[i], Apply(s, i);
    hide CountPhase, Finishes, Locks, Lists, Apply, Enabled, InActive, InCompleted, InFlight, HoldsActive, ReportOk, Without,
         DistinctNames, HasCounted, IsRecorded;
    ReportingLists(p);
    NewReport(s, i);
    StepShape(s, i);
    var r := t.log[|s.log|];
    ReportFromLists(s, i, r);
    SameNames(s, t, r);
    OneHolder(s, i);
    FinishesAppend(s.log, r);
  }

  // The reports of a longer log.
  lemma ReportsExtend(s: State, t: State)
    requires Reports(s) && t.names == s.names && t.threads == s.threads
    requires t.log == s.log || (|t.log| == |s.log| + 1 && t.log[..|s.log|] == s.log)
    requires |t.log| > |s.log| ==>
      ReportOk(t, t.log[|s.log|]) && |t.log[|s.log|].completed| == Finishes(t.log)
    ensures forall k | 0 <= k < |t.log| :: ReportOk(t, t.log[k]) && |t.log[k].completed| == Finishes(t.log[..k + 1])
  {
    hide CountPhase, Finishes;
    forall k | 0 <= k < |t.log| ensures ReportOk(t, t.log[k]) && |t.log[k].completed| == Finishes(t.log[..k + 1]) {
      if k < |s.log| {
        assert t.log[k] == s.log[k] && t.log[..k + 1] == s.log[..k + 1];
        assert ReportOk(s, s.log[k]);
      } else {
        assert t.log[..k + 1] == t.log;
      }
    }
  }

  predicate HasCounted(p: Phase) {
    p.Counting? || p.Counted? || p.Reporting?
  }

  lemma OwnCount(s: State, i: nat)
    requires |s.phases| == |s.names| && Enabled(s, i) && (HasCounted(s.phases[i]) ==> s.phases[i].done == |s.completed|)
    ensures var q := Apply(s, i).phases[i]; HasCounted(q) ==> q.done == |s.completed| && !s.phases[i].Both?
  {
    hide CountPhase, Without;
  }

  // What a waiting parser counted is still right: nobody else can complete.
  lemma StepDone(s: State, i: nat, j: nat)
    requires Inv(s) && Enabled(s, i) && j < |s.phases|
    ensures var t := Apply(s, i); HasCounted(t.phases[j]) ==> t.phases[j].done == |t.completed|
  {
    assert i < |s.phases|;
    hide Apply, Enabled, CountPhase, Lists, Locks, Finishes, Without, HoldsActive;
    StepShape(s, i);
    OwnCount(s, i);
    if s.phases[i].Both? && j != i {
      BothHolds(s.phases[i]);
      OneHolder(s, i);
      CountedHolds(s.phases[j]);
    }
  }

  lemma BothHolds(p: Phase)
    requires p.Both?
    ensures HoldsActive(p)
  {
  }

  lemma CountedHolds(p: Phase)
    ensures HasCounted(p) ==> HoldsActive(p)
  {
  }

  // Every completed parser has been reported finished, but for one that is about to be.
  lemma StepCounted(s: State, i: nat)
    requires Inv(s) && Enabled(s, i)
    ensures var t := Apply(s, i); |t.completed| == Finishes(t.log) + CountPhase(t.phases, IsRecorded)
  {
    var t := Apply(s, i);
    StepShape(s, i);
    CountUpdate(s.phases, i, t.phases[i], IsRecorded);
    if s.phases[i].Reporting? || s.phases[i].Recorded? {
      NewReportOk(s, i);
      OneHolder(s, i);
    }
    hide CountPhase, Lists, Locks, Finishes, Apply, Enabled, ReportOk;
  }

  // The new report, if the step makes one, is in order.
  lemma StepLog(s: State, i: nat)
    requires Inv(s) && Enabled(s, i)
    ensures var t := Apply(s, i);
      && t.names == s.names && t.threads == s.threads
      && (t.log == s.log || (|t.log| == |s.log| + 1 && t.log[..|s.log|] == s.log))
      && (|t.log| > |s.log| ==> ReportOk(t, t.log[|s.log|]) && |t.log[|s.log|].completed| == Finishes(t.log))
  {
    assert |s.phases| == |s.names| && i < |s.phases|;
    hide CountPhase, Lists, Locks, Finishes, Apply, Enabled, ReportOk, Without, Inv, InActive, InCompleted, InFlight, IsRecorded;
    StepShape(s, i);
    if s.phases[i].Reporting? || s.phases[i].Recorded? {
      NewReportOk(s, i);
    }
  }

  lemma StepCounts(s: State, i: nat)
    requires Inv(s) && Enabled(s, i)
    ensures var t := Apply(s, i);
      forall j | 0 <= j < |t.phases| :: HasCounted(t.phases[j]) ==> t.phases[j].done == |t.completed|
  {
    assert |s.phases| == |s.names| && i < |s.phases|;
    hide *;
    StepShape(s, i);
    var t := Apply(s, i);
    forall j | 0 <= j < |t.phases|
      ensures HasCounted(t.phases[j]) ==> t.phases[j].done == |t.completed|
    {
      StepDone(s, i, j);
    }
  }

  lemma StepReports(s: State, i: nat)
    requires Inv(s) && Enabled(s, i)
    ensures Reports(Apply(s, i))
  {
    assert Reports(s);
    hide CountPhase, Lists, Locks, Finishes, Apply, Enabled, ReportOk, Without, Inv, HasCounted, IsRecorded, DistinctNames;
    StepCounted(s, i);
    StepLog(s, i);
    StepCounts(s, i);
    ReportsExtend(s, Apply(s, i));
  }

  lemma StepInv(s: State, i: nat)
    requires Inv(s) && Enabled(s, i)
    ensures Inv(Apply(s, i))
  {
    StepShape(s, i);
    StepLocks(s, i);
    StepLists(s, i);
    StepReports(s, i);
    hide Locks, Lists, Reports, CountPhase;
  }

  lemma {:induction false} RunInv(states: seq<State>, steps: seq<nat>, n: nat)
    requires IsRun(states, steps) && n < |states|
    ensures Inv(states[n])
    ensures states[n].names == states[0].names && states[n].threads == states[0].threads
  {
    if n == 0 {
      InitInv(states[0]);
    } else {
      RunInv(states, steps, n - 1);
      StepInv(states[n - 1], steps[n - 1]);
      StepShape(states[n - 1], steps[n - 1]);
    }
  }

  // ----- What every run keeps

  // Main result: in every interleaving each lock has one holder, no parser is both active and completed,
  // and no more parsers are active than there are threads.
  lemma RunIsSafe(states: seq<State>, steps: seq<nat>, n: nat)
    requires IsRun(states, steps) && n < |states|
    ensures var s := states[n];
      && (forall i, j | 0 <= i < j < |s.phases| :: !(HoldsActive(s.phases[i]) && HoldsActive(s.phases[j])))
      && (forall i, j | 0 <= i < j < |s.phases| :: !(HoldsCompleted(s.phases[i]) && HoldsCompleted(s.phases[j])))
      && (forall x | x in s.active :: x !in s.completed)
      && DistinctNames(s.active) && DistinctNames(s.completed) && |s.active| <= s.threads
  {
    RunInv(states, steps, n);
    var s := states[n];
    hide IsRun, Reports, CountPhase;
    ActiveAreInFlight(s.phases);
    CompletedAreNotActive(s);
  }

  // Main result: every report is consistent, its text included, and the number of completed parsers goes
  // up by one with each finish report and never otherwise.
  lemma ReportsCountUp(states: seq<State>, steps: seq<nat>, n: nat, k: nat)
    requires IsRun(states, steps) && n < |states| && k < |states[n].log|
    ensures var log := states[n].log;
      && ReportOk(states[n], log[k])
      && |log[k].completed| == (if k == 0 then 0 else |log[k - 1].completed|) + (if log[k].finish then 1 else 0)
  {
    RunInv(states, steps, n);
    hide *;
    ReportsCount(states[n], k);
  }

  lemma ReportsCount(s: State, k: nat)
    requires Inv(s) && k < |s.log|
    ensures ReportOk(s, s.log[k])
    ensures |s.log[k].completed| == (if k == 0 then 0 else |s.log[k - 1].completed|) + (if s.log[k].finish then 1 else 0)
  {
    hide Locks, Lists, CountPhase, ReportOk, Finishes, HasCounted, DistinctNames, IsRecorded;
    FinishesAppend(s.log[..k], s.log[k]);
    assert s.log[..k + 1] == s.log[..k] + [s.log[k]];
    if k > 0 {
      assert |s.log[k - 1].completed| == Finishes(s.log[..k - 1 + 1]);
    } else {
      NoFinishes();
    }
  }

  lemma NoFinishes()
    ensures Finishes([]) == 0
  {
  }

  // Main result: until all parsers are done, some parser can move, so the two locks cannot deadlock.
  lemma NoDeadlock(states: seq<State>, steps: seq<nat>, n: nat)
    requires IsRun(states, steps) && n < |states|
    requires exists i :: 0 <= i < |states[n].phases| && states[n].phases[i] != Done
    ensures exists i: nat :: Enabled(states[n], i)
  {
    RunInv(states, steps, n);
    var s := states[n];
    hide IsRun, Reports, Lists;
    if s.completedLock.Some? {
      assert Enabled(s, s.completedLock.value);
    } else if s.activeLock.Some? {
      assert Enabled(s, s.activeLock.value);
    } else if CountPhase(s.phases, InFlight) > 0 {
      CountSome(s.phases, InFlight);
      var i :| 0 <= i < |s.phases| && InFlight(s.phases[i]);
      assert Enabled(s, i);
    } else {
      var i :| 0 <= i < |s.phases| && s.phases[i] != Done;
      NoneInFlight(s.phases, i);
      assert Enabled(s, i);
    }
  }

  lemma NoneInFlight(ps: seq<Phase>, i: nat)
    requires i < |ps| && CountPhase(ps, InFlight) == 0
    ensures !InFlight(ps[i])
  {
    CountUpdate(ps, i, Done, InFlight);
  }

  // ----- Every run ends

  function Rank(p: Phase): (r: nat)
    ensures r <= 16 && (r == 16 <==> p == Done)
  {
    match p
    case Queued => 0
    case Entering => 1
    case Locked => 2
    case Listed => 3
    case Counting(_) => 4
    case Counted(_) => 5
    case Reporting(_) => 6
    case Reported => 7
    case Told => 8
    case Parsing => 9
    case Relocked => 10
    case Unlisted => 11
    case Both => 12
    case Recorded => 13
    case Announced => 14
    case Released => 15
    case Done => 16
  }

  function TotalRank(ps: seq<Phase>): nat {
    if ps == [] then 0 else Rank(ps[0]) + TotalRank(ps[1..])
  }

  lemma {:induction false} RankUpdate(ps: seq<Phase>, i: nat, p: Phase)
    requires i < |ps|
    ensures TotalRank(ps[i := p]) + Rank(ps[i]) == TotalRank(ps) + Rank(p)
  {
    hide Rank;
    if i > 0 {
      RankUpdate(ps[1..], i - 1, p);
      assert ps[i := p][1..] == ps[1..][i - 1 := p];
    } else {
      assert ps[i := p][1..] == ps[1..];
    }
  }

  lemma {:induction false} RankBound(ps: seq<Phase>)
    ensures TotalRank(ps) <= 16 * |ps|
    ensures TotalRank(ps) == 16 * |ps| <==> forall i | 0 <= i < |ps| :: ps[i] == Done
  {
    hide Rank;
    if ps != [] {
      RankBound(ps[1..]);
      assert forall i | 0 <= i < |ps[1..]| :: ps[1..][i] == ps[i + 1];
    }
  }

  lemma {:induction false} QueuedRank(ps: seq<Phase>)
    requires forall i | 0 <= i < |ps| :: ps[i] == Queued
    ensures TotalRank(ps) == 0
  {
    if ps != [] {
      assert forall i | 0 <= i < |ps[1..]| :: ps[1..][i] == ps[i + 1];
      QueuedRank(ps[1..]);
    }
  }

  lemma PhaseRank(s: State, i: nat)
    requires |s.phases| == |s.names| && Enabled(s, i)
    ensures Rank(Apply(s, i).phases[i]) == Rank(s.phases[i]) + 1
  {
    hide CountPhase, Without;
  }

  lemma StepRank(s: State, i: nat)
    requires |s.phases| == |s.names| && Enabled(s, i)
    ensures TotalRank(Apply(s, i).phases) == TotalRank(s.phases) + 1
  {
    assert i < |s.phases|;
    hide TotalRank, CountPhase, Apply, Enabled, Rank;
    PhaseRank(s, i);
    PhaseShape(s, i);
    RankUpdate(s.phases, i, Apply(s, i).phases[i]);
  }

  lemma {:induction false} RankIsSteps(states: seq<State>, steps: seq<nat>, n: nat)
    requires IsRun(states, steps) && n < |states|
    ensures TotalRank(states[n].phases) == n
  {
    if n == 0 {
      QueuedRank(states[0].phases);
    } else {
      hide TotalRank, Apply, Enabled, Init;
      RankIsSteps(states, steps, n - 1);
      assert states[n - 1 + 1] == Apply(states[n - 1], steps[n - 1]);
      StepRank(states[n - 1], steps[n - 1]);
    }
  }

  // Main result: no run is longer than 16 steps for each parser, and the runs of that length are the ones
  // in which every parser is done. Then every parser is reported completed, and no lock is held.
  lemma RunEndsAtTotal(states: seq<State>, steps: seq<nat>)
    requires IsRun(states, steps)
    ensures var s, total := states[|steps|], |states[0].names|;
      && |steps| <= 16 * total
      && (|steps| == 16 * total <==> forall i | 0 <= i < |s.phases| :: s.phases[i] == Done)
      && (|steps| == 16 * total ==>
            && s.active == [] && s.activeLock == None && s.completedLock == None
            && |s.completed| == total && (forall x | x in s.names :: x in s.completed)
            && Finishes(s.log) == total
            && (total > 0 ==> s.log != [] && |s.log[|s.log| - 1].completed| == total))
  {
    var n := |steps|;
    var s := states[n];
    RunInv(states, steps, n);
    RankIsSteps(states, steps, n);
    RankBound(s.phases);
    hide IsRun, Rank, TotalRank;
    if forall i | 0 <= i < |s.phases| :: s.phases[i] == Done {
      AllDone(s);
    }
  }

  lemma AllDone(s: State)
    requires Inv(s) && forall i | 0 <= i < |s.phases| :: s.phases[i] == Done
    ensures s.active == [] && s.activeLock == None && s.completedLock == None
    ensures |s.completed| == |s.names| && (forall x | x in s.names :: x in s.completed)
    ensures Finishes(s.log) == |s.names|
    ensures |s.names| > 0 ==> s.log != [] && |s.log[|s.log| - 1].completed| == |s.names|
  {
    CountAll(s.phases, InCompleted);
    CountNone(s.phases, InActive);
    CountNone(s.phases, IsRecorded);
    hide CountPhase, ReportOk;
    assert s.log[..|s.log|] == s.log;
  }
}
