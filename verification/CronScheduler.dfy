/**
 Cron reconciliation: bringing the live jobs of a scheduler in line with what the database asks for,
 when registering a job can fail and a failed removal goes unnoticed.
 */
module CronScheduler {
  import opened CronExpressions
  import opened Text
  import opened Wrappers

  type RuleId = nat
  type JobId = nat

  datatype ActiveJob = ActiveJob(jobId: JobId, cron: string)

  // What a scheduler knows and what its job runner really holds; issued bounds the job ids used so far.
  datatype State = State(active: map<RuleId, ActiveJob>, jobs: map<JobId, string>, issued: nat)

  // ----- What the database asks for

  datatype Rule = Rule(id: RuleId, cron: Option<string>)

  datatype Provider = Provider(id: RuleId, enabled: bool, syncCron: Option<string>)

  datatype Target = Target(id: RuleId, cron: string)

  // A rule without a cron expression, or with a blank one, is not scheduled.
  function RuleTarget(r: Rule): Option<Target> {
    if r.cron.None? || Trim(r.cron.value) == [] then None else Some(Target(r.id, NormalizeCron(r.cron.value)))
  }

  function ProviderTarget(p: Provider): Option<Target> {
    if !p.enabled || ParseSyncCron(p.syncCron).None? then None
    else Some(Target(p.id, NormalizeCron(ParseSyncCron(p.syncCron).value)))
  }

  function RuleTargets(rules: seq<Rule>): seq<Option<Target>> {
    seq(|rules|, i requires 0 <= i < |rules| => RuleTarget(rules[i]))
  }

  function ProviderTargets(providers: seq<Provider>): seq<Option<Target>> {
    seq(|providers|, i requires 0 <= i < |providers| => ProviderTarget(providers[i]))
  }

  // Ids are primary keys.
  predicate DistinctIds(entries: seq<Option<Target>>) {
    forall i, j | 0 <= i < j < |entries| && entries[i].Some? && entries[j].Some? :: entries[i].value.id != entries[j].value.id
  }

  // The cron expression wanted for each id.
  function Desired(entries: seq<Option<Target>>): map<RuleId, string> {
    if entries == [] then map[]
    else
      var init, last := Desired(entries[..|entries| - 1]), entries[|entries| - 1];
      if last.None? then init else init[last.value.id := last.value.cron]
  }

  lemma {:induction false} DesiredExactly(entries: seq<Option<Target>>)
    requires DistinctIds(entries)
    ensures forall i | 0 <= i < |entries| && entries[i].Some? ::
      entries[i].value.id in Desired(entries) && Desired(entries)[entries[i].value.id] == entries[i].value.cron
    ensures forall id | id in Desired(entries) :: Some(Target(id, Desired(entries)[id])) in entries
  {
    if entries != [] {
      DesiredExactly(entries[..|entries| - 1]);
    }
  }

  lemma NothingDesired()
    ensures Desired([]) == map[]
  {
  }

  lemma DesiredStep(entries: seq<Option<Target>>, i: nat)
    requires i < |entries|
    ensures Desired(entries[..i + 1]) ==
      if entries[i].None? then Desired(entries[..i]) else Desired(entries[..i])[entries[i].value.id := entries[i].value.cron]
  {
    assert entries[..i + 1][..i] == entries[..i];
  }

  // An entry is not yet wanted by the entries before it.
  lemma DesiredNew(entries: seq<Option<Target>>, i: nat)
    requires DistinctIds(entries) && i < |entries| && entries[i].Some?
    ensures entries[i].value.id !in Desired(entries[..i])
    ensures entries[i].value.id in Desired(entries) && Desired(entries)[entries[i].value.id] == entries[i].value.cron
  {
    DesiredExactly(entries);
    DesiredExactly(entries[..i]);
  }

  // ----- What one sync does

  function JobsOf(active: map<RuleId, ActiveJob>, ids: set<RuleId>): set<JobId> {
    set id | id in active && id in ids :: active[id].jobId
  }

  ghost predicate OneJobEach(active: map<RuleId, ActiveJob>) {
    forall a, b | a in active && b in active && a != b :: active[a].jobId != active[b].jobId
  }

  // Every rule's job runs on the cron expression recorded for it.
  ghost predicate Running(s: State) {
    forall id | id in s.active :: s.active[id].jobId in s.jobs && s.jobs[s.active[id].jobId] == s.active[id].cron
  }

  // Each job is the one job of a rule, or a leak: a job whose removal failed.
  ghost predicate Consistent(s: State, leaked: set<JobId>) {
    && OneJobEach(s.active)
    && Running(s)
    && s.jobs.Keys == JobsOf(s.active, s.active.Keys) + leaked
    && JobsOf(s.active, s.active.Keys) !! leaked
    && (forall j | j in s.jobs :: j < s.issued)
  }

  predicate Same(active: map<RuleId, ActiveJob>, desired: map<RuleId, string>, id: RuleId) {
    id in active && id in desired && active[id].cron == desired[id]
  }

  // Part of a sync, for one rule: rules in `dropped` lost their job, rules in `tried` were registered
  // anew, but for those in `failed`.
  predicate Entry(
    s: State, desired: map<RuleId, string>, dropped: set<RuleId>, tried: set<RuleId>, failed: set<RuleId>, t: State,
    id: RuleId)
  {
    && (id in dropped ==> id in s.active && !Same(s.active, desired, id))
    && (id in tried ==> id in desired && !Same(s.active, desired, id) && (id in s.active ==> id in dropped))
    && (id in failed ==> id in tried)
    && (id in t.active <==> (id in s.active && id !in dropped) || (id in tried && id !in failed))
    && (id in s.active && id !in dropped ==> t.active[id] == s.active[id])
    && (id in tried && id !in failed ==>
          t.active[id].cron == desired[id] && s.issued <= t.active[id].jobId < t.issued)
  }

  ghost predicate PartlyActive(
    s: State, desired: map<RuleId, string>, dropped: set<RuleId>, tried: set<RuleId>, failed: set<RuleId>, t: State)
  {
    && (forall id :: Entry(s, desired, dropped, tried, failed, t, id))
    && OneJobEach(t.active)
    && t.issued == s.issued + |tried - failed|
  }

  // The runner lost the jobs of the dropped rules, but for those in `stuck`, and holds the new ones.
  ghost predicate PartlyJobs(s: State, dropped: set<RuleId>, added: set<RuleId>, stuck: set<JobId>, t: State) {
    && stuck <= JobsOf(s.active, dropped)
    && t.jobs.Keys == s.jobs.Keys - (JobsOf(s.active, dropped) - stuck) + JobsOf(t.active, added)
    && (forall j | j in s.jobs && j in t.jobs :: t.jobs[j] == s.jobs[j])
    && Running(t)
  }

  ghost predicate Partly(
    s: State, desired: map<RuleId, string>, dropped: set<RuleId>, tried: set<RuleId>,
    failed: set<RuleId>, stuck: set<JobId>, t: State)
  {
    PartlyActive(s, desired, dropped, tried, failed, t) && PartlyJobs(s, dropped, tried - failed, stuck, t)
  }

  function ToDrop(active: map<RuleId, ActiveJob>, desired: map<RuleId, string>): set<RuleId> {
    set id | id in active && !Same(active, desired, id)
  }

  function ToTry(active: map<RuleId, ActiveJob>, desired: map<RuleId, string>): set<RuleId> {
    set id | id in desired && !Same(active, desired, id)
  }

  // A whole sync drops exactly the rules that are no longer wanted or changed their cron, and tries
  // exactly the rules that are new or changed.
  ghost predicate Synced(s: State, desired: map<RuleId, string>, failed: set<RuleId>, stuck: set<JobId>, t: State) {
    Partly(s, desired, ToDrop(s.active, desired), ToTry(s.active, desired), failed, stuck, t)
  }

  function Drop(t: State, id: RuleId, removed: bool): State
    requires id in t.active
  {
    State(t.active - {id}, if removed then t.jobs - {t.active[id].jobId} else t.jobs, t.issued)
  }

  function Add(t: State, id: RuleId, cron: string): State {
    State(t.active[id := ActiveJob(t.issued, cron)], t.jobs[t.issued := cron], t.issued + 1)
  }

  lemma DropActive(
    s: State, desired: map<RuleId, string>, dropped: set<RuleId>, tried: set<RuleId>,
    failed: set<RuleId>, t: State, id: RuleId, removed: bool)
    requires PartlyActive(s, desired, dropped, tried, failed, t)
    requires id in ToDrop(s.active, desired) && id !in dropped
    ensures id in t.active && t.active[id] == s.active[id] && id !in tried
    ensures PartlyActive(s, desired, dropped + {id}, tried, failed, Drop(t, id, removed))
  {
    hide Same;
    var u := Drop(t, id, removed);
    assert Entry(s, desired, dropped, tried, failed, t, id);
    forall x ensures Entry(s, desired, dropped + {id}, tried, failed, u, x) {
      assert Entry(s, desired, dropped, tried, failed, t, x);
    }
  }

  lemma JobsOfMore(active: map<RuleId, ActiveJob>, ids: set<RuleId>, id: RuleId)
    requires OneJobEach(active) && id in active && id !in ids
    ensures JobsOf(active, ids + {id}) == JobsOf(active, ids) + {active[id].jobId}
    ensures active[id].jobId !in JobsOf(active, ids)
  {
  }

  lemma JobsOfLess(active: map<RuleId, ActiveJob>, ids: set<RuleId>, id: RuleId)
    requires OneJobEach(active) && id in active && id !in ids
    ensures JobsOf(active - {id}, ids) == JobsOf(active, ids)
    ensures active[id].jobId !in JobsOf(active, ids)
  {
  }

  lemma DropRunning(t: State, id: RuleId, removed: bool)
    requires Running(t) && OneJobEach(t.active) && id in t.active
    ensures Running(Drop(t, id, removed))
  {
  }

  lemma DropKeys(jobs: set<JobId>, lost: set<JobId>, stuck: set<JobId>, added: set<JobId>, j: JobId)
    requires j in jobs && j !in lost && j !in added && stuck <= lost
    ensures jobs - (lost - stuck) + added - {j} == jobs - (lost + {j} - stuck) + added
    ensures jobs - (lost - stuck) + added == jobs - (lost + {j} - (stuck + {j})) + added
  {
  }

  lemma DropJobs(s: State, dropped: set<RuleId>, added: set<RuleId>, stuck: set<JobId>, t: State, id: RuleId,
                 removed: bool, leaked: set<JobId>)
    requires Consistent(s, leaked) && PartlyJobs(s, dropped, added, stuck, t) && OneJobEach(t.active)
    requires id in s.active && id !in dropped && id !in added && id in t.active && t.active[id] == s.active[id]
    ensures PartlyJobs(s, dropped + {id}, added, if removed then stuck else stuck + {s.active[id].jobId}, Drop(t, id, removed))
  {
    var u, j := Drop(t, id, removed), s.active[id].jobId;
    assert j in s.jobs;
    JobsOfMore(s.active, dropped, id);
    JobsOfLess(t.active, added, id);
    hide JobsOf;
    DropRunning(t, id, removed);
    DropKeys(s.jobs.Keys, JobsOf(s.active, dropped), stuck, JobsOf(t.active, added), j);
    hide Running, Consistent, OneJobEach;
  }

  lemma DropStep(
    s: State, desired: map<RuleId, string>, dropped: set<RuleId>, tried: set<RuleId>,
    failed: set<RuleId>, stuck: set<JobId>, t: State, id: RuleId, removed: bool, leaked: set<JobId>)
    requires Consistent(s, leaked) && Partly(s, desired, dropped, tried, failed, stuck, t)
    requires id in ToDrop(s.active, desired) && id !in dropped
    ensures id in t.active && t.active[id] == s.active[id]
    ensures Partly(s, desired, dropped + {id}, tried, failed,
                   if removed then stuck else stuck + {s.active[id].jobId}, Drop(t, id, removed))
  {
    assert OneJobEach(t.active);
    DropActive(s, desired, dropped, tried, failed, t, id, removed);
    hide PartlyActive, PartlyJobs, Consistent, ToDrop, Drop;
    DropJobs(s, dropped, tried - failed, stuck, t, id, removed, leaked);
  }

  lemma JobsBelowIssued(
    s: State, desired: map<RuleId, string>, dropped: set<RuleId>, tried: set<RuleId>, failed: set<RuleId>, t: State,
    leaked: set<JobId>)
    requires Consistent(s, leaked) && PartlyActive(s, desired, dropped, tried, failed, t)
    ensures forall x | x in t.active :: t.active[x].jobId < t.issued
  {
    hide Same;
    forall x | x in t.active ensures t.active[x].jobId < t.issued {
      assert Entry(s, desired, dropped, tried, failed, t, x);
      if x !in tried || x in failed {
        assert t.active[x] == s.active[x] && s.active[x].jobId in s.jobs;
      }
    }
  }

  lemma AddActive(
    s: State, desired: map<RuleId, string>, dropped: set<RuleId>, tried: set<RuleId>,
    failed: set<RuleId>, t: State, id: RuleId)
    requires PartlyActive(s, desired, dropped, tried, failed, t)
    requires forall x | x in t.active :: t.active[x].jobId < t.issued
    requires id in ToTry(s.active, desired) && id !in tried && (id in s.active ==> id in dropped)
    ensures PartlyActive(s, desired, dropped, tried + {id}, failed, Add(t, id, desired[id]))
    ensures id !in t.active
  {
    hide Same;
    var u := Add(t, id, desired[id]);
    assert Entry(s, desired, dropped, tried, failed, t, id);
    forall x ensures Entry(s, desired, dropped, tried + {id}, failed, u, x) {
      assert Entry(s, desired, dropped, tried, failed, t, x);
    }
    assert tried + {id} - failed == (tried - failed) + {id};
  }

  lemma JobsOfAdded(t: State, added: set<RuleId>, id: RuleId, cron: string)
    requires id !in t.active
    ensures JobsOf(Add(t, id, cron).active, added + {id}) == JobsOf(t.active, added) + {t.issued}
  {
  }

  lemma AddRuns(t: State, id: RuleId, cron: string)
    requires Running(t) && id !in t.active && forall x | x in t.active :: t.active[x].jobId < t.issued
    ensures Running(Add(t, id, cron))
  {
  }

  lemma AddJobs(s: State, dropped: set<RuleId>, added: set<RuleId>, stuck: set<JobId>, t: State, id: RuleId,
                cron: string, leaked: set<JobId>)
    requires Consistent(s, leaked) && PartlyJobs(s, dropped, added, stuck, t) && s.issued <= t.issued
    requires id !in t.active && forall x | x in t.active :: t.active[x].jobId < t.issued
    ensures PartlyJobs(s, dropped, added + {id}, stuck, Add(t, id, cron))
  {
    assert t.issued !in s.jobs;
    JobsOfAdded(t, added, id, cron);
    AddRuns(t, id, cron);
    hide JobsOf, Running, OneJobEach, Consistent;
  }

  lemma AddStep(
    s: State, desired: map<RuleId, string>, dropped: set<RuleId>, tried: set<RuleId>,
    failed: set<RuleId>, stuck: set<JobId>, t: State, id: RuleId, leaked: set<JobId>)
    requires Consistent(s, leaked) && Partly(s, desired, dropped, tried, failed, stuck, t)
    requires id in ToTry(s.active, desired) && id !in tried && (id in s.active ==> id in dropped)
    ensures Partly(s, desired, dropped, tried + {id}, failed, stuck, Add(t, id, desired[id]))
  {
    JobsBelowIssued(s, desired, dropped, tried, failed, t, leaked);
    AddActive(s, desired, dropped, tried, failed, t, id);
    assert id !in failed && s.issued <= t.issued by { assert Entry(s, desired, dropped, tried, failed, t, id); }
    assert tried + {id} - failed == (tried - failed) + {id};
    hide PartlyActive, PartlyJobs, Consistent, ToTry, Add;
    AddJobs(s, dropped, tried - failed, stuck, t, id, desired[id], leaked);
  }

  lemma FailStep(
    s: State, desired: map<RuleId, string>, dropped: set<RuleId>, tried: set<RuleId>,
    failed: set<RuleId>, stuck: set<JobId>, t: State, id: RuleId)
    requires Partly(s, desired, dropped, tried, failed, stuck, t)
    requires id in ToTry(s.active, desired) && id !in tried && (id in s.active ==> id in dropped)
    ensures Partly(s, desired, dropped, tried + {id}, failed + {id}, stuck, t)
  {
    hide Same, PartlyJobs;
    assert Entry(s, desired, dropped, tried, failed, t, id);
    forall x ensures Entry(s, desired, dropped, tried + {id}, failed + {id}, t, x) {
      assert Entry(s, desired, dropped, tried, failed, t, x);
    }
    assert tried + {id} - (failed + {id}) == tried - failed;
  }

  // ----- Where a sync stands

  function Stale(active: map<RuleId, ActiveJob>, desired: map<RuleId, string>): set<RuleId> {
    set id | id in active && id !in desired
  }

  lemma StaleAreDropped(active: map<RuleId, ActiveJob>, desired: map<RuleId, string>)
    ensures Stale(active, desired) <= ToDrop(active, desired)
  {
  }

  lemma NoJobs(s: State)
    requires Running(s)
    ensures PartlyJobs(s, {}, {}, {}, s)
  {
    assert JobsOf(s.active, {}) == {};
    hide JobsOf, Running;
  }

  lemma NothingDone(s: State, desired: map<RuleId, string>, leaked: set<JobId>)
    requires Consistent(s, leaked)
    ensures Partly(s, desired, {}, {}, {}, {}, s)
  {
    assert OneJobEach(s.active) && Running(s);
    hide Same, Consistent, OneJobEach, Running;
    var none: set<RuleId> := {};
    assert none - none == none;
    NoJobs(s);
    assert PartlyActive(s, desired, none, none, none, s);
  }

  lemma UntriedEntry(
    s: State, desired: map<RuleId, string>, dropped: set<RuleId>, tried: set<RuleId>,
    failed: set<RuleId>, stuck: set<JobId>, t: State, id: RuleId)
    requires Partly(s, desired, dropped, tried, failed, stuck, t)
    requires id in desired && id !in tried && id !in dropped
    ensures id in t.active <==> id in s.active
    ensures id in s.active ==> t.active[id] == s.active[id]
    ensures Same(s.active, desired, id) <==> id in s.active && s.active[id].cron == desired[id]
    ensures !Same(s.active, desired, id) ==> id in ToTry(s.active, desired)
    ensures !Same(s.active, desired, id) && id in s.active ==> id in ToDrop(s.active, desired)
  {
    assert Entry(s, desired, dropped, tried, failed, t, id);
  }

  // After the stale rules and the rules in `seen`.
  ghost predicate Progress(
    s: State, desired: map<RuleId, string>, seen: map<RuleId, string>, dropped: set<RuleId>, tried: set<RuleId>)
  {
    && (forall id :: id in tried <==> id in ToTry(s.active, desired) && id in seen)
    && (forall id :: id in dropped <==> id in s.active && (id !in desired || id in tried))
  }

  lemma ProgressStep(
    s: State, desired: map<RuleId, string>, seen: map<RuleId, string>, dropped: set<RuleId>, tried: set<RuleId>,
    id: RuleId, cron: string)
    requires Progress(s, desired, seen, dropped, tried) && id in desired && id !in seen
    ensures id !in tried && id !in dropped
    ensures Progress(s, desired, seen[id := cron],
                     if !Same(s.active, desired, id) && id in s.active then dropped + {id} else dropped,
                     if !Same(s.active, desired, id) then tried + {id} else tried)
  {
  }

  lemma ProgressStart(s: State, desired: map<RuleId, string>)
    ensures Progress(s, desired, map[], Stale(s.active, desired), {})
  {
  }

  lemma ProgressDone(s: State, desired: map<RuleId, string>, dropped: set<RuleId>, tried: set<RuleId>)
    requires Progress(s, desired, desired, dropped, tried)
    ensures dropped == ToDrop(s.active, desired) && tried == ToTry(s.active, desired)
  {
  }

  lemma PartlyIsSynced(s: State, desired: map<RuleId, string>, failed: set<RuleId>, stuck: set<JobId>, t: State)
    requires Partly(s, desired, ToDrop(s.active, desired), ToTry(s.active, desired), failed, stuck, t)
    ensures Synced(s, desired, failed, stuck, t)
  {
  }

  // ----- What a sync promises

  // Main result: afterwards exactly the wanted rules whose registration did not fail are scheduled, on
  // the wanted cron expressions, and rules that did not change keep their job.
  lemma SyncReconciles(s: State, desired: map<RuleId, string>, failed: set<RuleId>, stuck: set<JobId>, t: State)
    requires Synced(s, desired, failed, stuck, t)
    ensures t.active.Keys == desired.Keys - failed
    ensures forall id | id in t.active :: t.active[id].cron == desired[id]
    ensures forall id | Same(s.active, desired, id) :: id in t.active && t.active[id] == s.active[id]
    ensures failed <= ToTry(s.active, desired)
    ensures t.issued == s.issued + |ToTry(s.active, desired) - failed|
  {
    hide PartlyJobs, OneJobEach;
    var dropped, tried := ToDrop(s.active, desired), ToTry(s.active, desired);
    forall id ensures id in t.active <==> id in desired && id !in failed {
      assert Entry(s, desired, dropped, tried, failed, t, id);
    }
    forall id | id in failed ensures id in tried {
      assert Entry(s, desired, dropped, tried, failed, t, id);
    }
    forall id | id in t.active ensures t.active[id].cron == desired[id] && (Same(s.active, desired, id) ==> t.active[id] == s.active[id]) {
      assert Entry(s, desired, dropped, tried, failed, t, id);
    }
    forall id | Same(s.active, desired, id) ensures id in t.active {
      assert Entry(s, desired, dropped, tried, failed, t, id);
    }
  }

  // own and own' are the rules' jobs before and after, and jobs' what the runner holds after.
  lemma JobSets(own: set<JobId>, leaked: set<JobId>, lost: set<JobId>, stuck: set<JobId>, added: set<JobId>,
                own': set<JobId>, jobs': set<JobId>)
    requires own !! leaked && stuck <= lost <= own && added !! own + leaked
    requires own' == added + (own - lost)
    requires jobs' == own + leaked - (lost - stuck) + added
    ensures jobs' == own' + (leaked + stuck) && own' !! leaked + stuck
  {
  }

  lemma JobOfSomeone(active: map<RuleId, ActiveJob>, ids: set<RuleId>, j: JobId)
    requires j in JobsOf(active, ids)
    ensures exists id :: id in active && active[id].jobId == j
  {
  }

  lemma OwnJobs(s: State, desired: map<RuleId, string>, failed: set<RuleId>, stuck: set<JobId>, t: State, leaked: set<JobId>)
    requires Consistent(s, leaked) && Synced(s, desired, failed, stuck, t)
    ensures var dropped, added := ToDrop(s.active, desired), ToTry(s.active, desired) - failed;
      && JobsOf(s.active, dropped) <= JobsOf(s.active, s.active.Keys)
      && JobsOf(t.active, added) !! s.jobs.Keys
      && JobsOf(t.active, t.active.Keys)
           == JobsOf(t.active, added) + (JobsOf(s.active, s.active.Keys) - JobsOf(s.active, dropped))
  {
    hide PartlyJobs, ToDrop, ToTry, Same, Running;
    var dropped, tried := ToDrop(s.active, desired), ToTry(s.active, desired);
    forall j | j in JobsOf(t.active, tried - failed) ensures j !in s.jobs {
      var id :| id in t.active && id in tried - failed && t.active[id].jobId == j;
      assert Entry(s, desired, dropped, tried, failed, t, id);
    }
    hide Entry;
    forall j ensures j in JobsOf(t.active, t.active.Keys) <==>
      j in JobsOf(t.active, tried - failed) || (j in JobsOf(s.active, s.active.Keys) && j !in JobsOf(s.active, dropped))
    {
      KeptJobs(s, desired, failed, stuck, t, j);
    }
  }

  // Every live job is a rule's job or a leak, and the leaks are exactly the jobs whose removal failed.
  lemma SyncKeepsConsistent(
    s: State, desired: map<RuleId, string>, failed: set<RuleId>, stuck: set<JobId>, t: State, leaked: set<JobId>)
    requires Consistent(s, leaked) && Synced(s, desired, failed, stuck, t)
    ensures Consistent(t, leaked + stuck)
  {
    var dropped, tried := ToDrop(s.active, desired), ToTry(s.active, desired);
    var added := tried - failed;
    OwnJobs(s, desired, failed, stuck, t, leaked);
    JobsBelowIssued(s, desired, dropped, tried, failed, t, leaked);
    hide JobsOf, ToDrop, ToTry, OneJobEach, Running, Entry;
    JobSets(JobsOf(s.active, s.active.Keys), leaked, JobsOf(s.active, dropped), stuck, JobsOf(t.active, added),
            JobsOf(t.active, t.active.Keys), t.jobs.Keys);
    forall j | j in t.jobs ensures j < t.issued {
      if j !in s.jobs {
        assert j in JobsOf(t.active, added);
        JobOfSomeone(t.active, added, j);
      }
    }
  }

  lemma KeptJobs(s: State, desired: map<RuleId, string>, failed: set<RuleId>, stuck: set<JobId>, t: State, j: JobId)
    requires Synced(s, desired, failed, stuck, t) && OneJobEach(s.active)
    ensures var dropped, added := ToDrop(s.active, desired), ToTry(s.active, desired) - failed;
      j in JobsOf(t.active, t.active.Keys) <==>
        j in JobsOf(t.active, added) || (j in JobsOf(s.active, s.active.Keys) && j !in JobsOf(s.active, dropped))
  {
    hide PartlyJobs, Same;
    var dropped, tried := ToDrop(s.active, desired), ToTry(s.active, desired);
    if id :| id in t.active && t.active[id].jobId == j {
      assert Entry(s, desired, dropped, tried, failed, t, id);
      if id in s.active && id !in dropped {
        assert s.active[id].jobId == j;
      }
    }
    if id :| id in s.active && s.active[id].jobId == j && j !in JobsOf(s.active, dropped) {
      assert Entry(s, desired, dropped, tried, failed, t, id);
      assert t.active[id].jobId == j;
    }
  }

  // A job dropped by the sync is gone from the runner, unless its removal failed.
  lemma DroppedIsRemoved(
    s: State, desired: map<RuleId, string>, failed: set<RuleId>, stuck: set<JobId>, t: State, leaked: set<JobId>,
    id: RuleId)
    requires Consistent(s, leaked) && Synced(s, desired, failed, stuck, t)
    requires id in s.active && (id in t.active ==> t.active[id] != s.active[id])
    ensures s.active[id].jobId in t.jobs ==> s.active[id].jobId in stuck
  {
    OwnJobs(s, desired, failed, stuck, t, leaked);
    SyncReconciles(s, desired, failed, stuck, t);
    assert id in ToDrop(s.active, desired);
    var j := s.active[id].jobId;
    assert j in JobsOf(s.active, ToDrop(s.active, desired)) && j in s.jobs;
    hide JobsOf, ToDrop, ToTry, OneJobEach, Running, Entry;
  }

  lemma WantedAreActive(
    s: State, desired: map<RuleId, string>, failed: set<RuleId>, stuck: set<JobId>, t: State, leaked: set<JobId>)
    requires Consistent(s, leaked) && Synced(s, desired, failed, stuck, t)
    ensures forall id :: id in t.active <==> id in desired && id !in failed
    ensures forall id | id in t.active :: t.active[id].cron == desired[id]
    ensures forall id | id in s.active && (id in t.active ==> t.active[id] != s.active[id]) ::
      s.active[id].jobId in t.jobs ==> s.active[id].jobId in stuck
  {
    SyncReconciles(s, desired, failed, stuck, t);
    hide Synced, Consistent;
    forall id | id in s.active && (id in t.active ==> t.active[id] != s.active[id])
      ensures s.active[id].jobId in t.jobs ==> s.active[id].jobId in stuck
    {
      DroppedIsRemoved(s, desired, failed, stuck, t, leaked, id);
    }
  }

  // ----- Who is scheduled

  // The rule has an expression that is not blank.
  predicate WantsRule(r: Rule) {
    r.cron.Some? && !IsBlank(r.cron.value)
  }

  // The provider is enabled, and its expression is neither blank nor a word for manual syncs.
  ghost predicate WantsProvider(p: Provider) {
    p.enabled && p.syncCron.Some? && !IsBlank(p.syncCron.value) && !IsManual(p.syncCron.value)
  }

  lemma RuleWanted(r: Rule)
    ensures RuleTarget(r).Some? <==> WantsRule(r)
    ensures WantsRule(r) ==> RuleTarget(r).value.id == r.id && IsNormalOf(RuleTarget(r).value.cron, r.cron.value)
  {
    hide Trim, IsBlank, Words, NormalizeCron;
    if r.cron.Some? {
      TrimOfBlank(r.cron.value);
      NormalizeKeepsFields(r.cron.value);
    }
  }

  lemma ProviderWanted(p: Provider)
    ensures ProviderTarget(p).Some? <==> WantsProvider(p)
    ensures WantsProvider(p) ==>
      ProviderTarget(p).value.id == p.id && IsNormalOf(ProviderTarget(p).value.cron, p.syncCron.value)
  {
    hide ParseSyncCron, IsBlank, IsManual, Words, NormalizeCron;
    if p.syncCron.Some? {
      AutomaticExactlyWhen(p.syncCron.value);
      if ParseSyncCron(p.syncCron).Some? {
        NormalizeKeepsFields(ParseSyncCron(p.syncCron).value);
      }
    } else {
      NoExpression();
    }
  }

  lemma NoExpression()
    ensures ParseSyncCron(None).None?
  {
  }

  lemma RulesDesired(rules: seq<Rule>)
    requires forall i, j | 0 <= i < j < |rules| :: rules[i].id != rules[j].id
    ensures DistinctIds(RuleTargets(rules))
    ensures forall i | 0 <= i < |rules| :: rules[i].id in Desired(RuleTargets(rules)) <==> WantsRule(rules[i])
    ensures forall i | 0 <= i < |rules| && WantsRule(rules[i]) ::
      rules[i].id in Desired(RuleTargets(rules))
      && IsNormalOf(Desired(RuleTargets(rules))[rules[i].id], rules[i].cron.value)
    ensures forall id | id in Desired(RuleTargets(rules)) :: exists i :: 0 <= i < |rules| && rules[i].id == id
  {
    hide RuleTarget, Desired, WantsRule, IsNormalOf;
    var targets := RuleTargets(rules);
    forall i | 0 <= i < |rules|
      ensures targets[i].Some? <==> WantsRule(rules[i])
      ensures WantsRule(rules[i]) ==>
        targets[i].value.id == rules[i].id && rules[i].cron.Some? && IsNormalOf(targets[i].value.cron, rules[i].cron.value)
    {
      RuleWanted(rules[i]);
      assert targets[i] == RuleTarget(rules[i]);
      RuleHasCron(rules[i]);
    }
    DesiredExactly(targets);
    forall id | id in Desired(targets) ensures exists i :: 0 <= i < |rules| && rules[i].id == id && WantsRule(rules[i]) {
      var i :| 0 <= i < |targets| && targets[i] == Some(Target(id, Desired(targets)[id]));
    }
  }

  lemma RuleHasCron(r: Rule)
    ensures WantsRule(r) ==> r.cron.Some?
  {
  }

  lemma ProviderHasCron(p: Provider)
    ensures WantsProvider(p) ==> p.syncCron.Some?
  {
  }

  lemma ProvidersDesired(providers: seq<Provider>)
    requires forall i, j | 0 <= i < j < |providers| :: providers[i].id != providers[j].id
    ensures DistinctIds(ProviderTargets(providers))
    ensures forall i | 0 <= i < |providers| ::
      providers[i].id in Desired(ProviderTargets(providers)) <==> WantsProvider(providers[i])
    ensures forall i | 0 <= i < |providers| && WantsProvider(providers[i]) ::
      providers[i].id in Desired(ProviderTargets(providers))
      && IsNormalOf(Desired(ProviderTargets(providers))[providers[i].id], providers[i].syncCron.value)
    ensures forall id | id in Desired(ProviderTargets(providers)) :: exists i :: 0 <= i < |providers| && providers[i].id == id
  {
    hide ProviderTarget, Desired, WantsProvider, IsNormalOf;
    var targets := ProviderTargets(providers);
    forall i | 0 <= i < |providers|
      ensures targets[i].Some? <==> WantsProvider(providers[i])
      ensures WantsProvider(providers[i]) ==>
        targets[i].value.id == providers[i].id && providers[i].syncCron.Some?
        && IsNormalOf(targets[i].value.cron, providers[i].syncCron.value)
    {
      ProviderWanted(providers[i]);
      assert targets[i] == ProviderTarget(providers[i]);
      ProviderHasCron(providers[i]);
    }
    DesiredExactly(targets);
    forall id | id in Desired(targets)
      ensures exists i :: 0 <= i < |providers| && providers[i].id == id && WantsProvider(providers[i])
    {
      var i :| 0 <= i < |targets| && targets[i] == Some(Target(id, Desired(targets)[id]));
    }
  }

  // ----- Runs of syncs

  // states[0] is a new scheduler; sync i sees desired[i].
  ghost predicate IsRun(
    states: seq<State>, desired: seq<map<RuleId, string>>, failed: seq<set<RuleId>>, stuck: seq<set<JobId>>)
  {
    && |states| == |desired| + 1 && |failed| == |desired| && |stuck| == |desired|
    && states[0].active == map[] && states[0].jobs == map[]
    && forall i | 0 <= i < |desired| :: Synced(states[i], desired[i], failed[i], stuck[i], states[i + 1])
  }

  function Union(sets: seq<set<JobId>>): set<JobId> {
    if sets == [] then {} else Union(sets[..|sets| - 1]) + sets[|sets| - 1]
  }

  // Main result: over any run of syncs, whatever fails, the live jobs are one job for each active rule,
  // on its cron expression, and the jobs whose removal failed.
  lemma {:induction false} RunIsConsistent(
    states: seq<State>, desired: seq<map<RuleId, string>>, failed: seq<set<RuleId>>, stuck: seq<set<JobId>>, n: nat)
    requires IsRun(states, desired, failed, stuck) && n < |states|
    ensures Consistent(states[n], Union(stuck[..n]))
  {
    hide Synced;
    if n > 0 {
      RunIsConsistent(states, desired, failed, stuck, n - 1);
      hide Consistent;
      SyncKeepsConsistent(states[n - 1], desired[n - 1], failed[n - 1], stuck[n - 1], states[n], Union(stuck[..n - 1]));
      assert stuck[..n][..n - 1] == stuck[..n - 1];
    }
  }

  lemma {:induction false} UnionEmpty(sets: seq<set<JobId>>)
    requires forall i | 0 <= i < |sets| :: sets[i] == {}
    ensures Union(sets) == {}
  {
    if sets != [] {
      UnionEmpty(sets[..|sets| - 1]);
    }
  }

  // So while removals succeed, the job set is exactly the jobs of the active rules.
  lemma JobsAreActiveJobs(
    states: seq<State>, desired: seq<map<RuleId, string>>, failed: seq<set<RuleId>>, stuck: seq<set<JobId>>, n: nat)
    requires IsRun(states, desired, failed, stuck) && n < |states|
    requires forall i | 0 <= i < n :: stuck[i] == {}
    ensures states[n].jobs.Keys == JobsOf(states[n].active, states[n].active.Keys)
    ensures OneJobEach(states[n].active) && Running(states[n])
  {
    hide Synced, JobsOf, OneJobEach, Running;
    RunIsConsistent(states, desired, failed, stuck, n);
    UnionEmpty(stuck[..n]);
  }

  lemma SettledHasNothingToDo(t: State, desired: map<RuleId, string>)
    requires t.active.Keys == desired.Keys && forall id | id in t.active :: t.active[id].cron == desired[id]
    ensures ToDrop(t.active, desired) == {} && ToTry(t.active, desired) == {}
  {
  }

  lemma NothingToDoChangesNothing(
    t: State, desired: map<RuleId, string>, failed: set<RuleId>, stuck: set<JobId>, u: State)
    requires Partly(t, desired, {}, {}, failed, stuck, u)
    ensures u == t && failed == {} && stuck == {}
  {
    hide Same, Running, OneJobEach;
    forall id ensures id !in failed && (id in u.active <==> id in t.active) && (id in t.active ==> u.active[id] == t.active[id]) {
      assert Entry(t, desired, {}, {}, failed, u, id);
    }
    var none: set<RuleId> := {};
    assert none - failed == {};
    assert JobsOf(t.active, {}) == {} && JobsOf(u.active, {}) == {};
    assert u.active == t.active && u.jobs == t.jobs;
  }

  // Main result: once a sync had no failed registration, syncing again with the same rules adds nothing
  // and removes nothing.
  lemma SecondSyncIsIdle(
    s: State, desired: map<RuleId, string>, stuck: set<JobId>, t: State,
    failed': set<RuleId>, stuck': set<JobId>, u: State)
    requires Synced(s, desired, {}, stuck, t) && Synced(t, desired, failed', stuck', u)
    ensures u == t && failed' == {} && stuck' == {}
  {
    hide Partly, ToDrop, ToTry;
    SyncReconciles(s, desired, {}, stuck, t);
    SettledHasNothingToDo(t, desired);
    NothingToDoChangesNothing(t, desired, failed', stuck', u);
  }

  // ----- The schedulers

  // tokio-cron-scheduler; accepts and removes decide how the k-th call to it ends.
  // One of the calls from `first` up to `last` refuses the expression.
  ghost predicate Refused(accepts: (nat, string) -> bool, cron: string, first: nat, last: nat) {
    exists n :: first <= n < last && !accepts(n, cron)
  }

  // One of them refuses the expression of the text.
  ghost predicate TextRefused(accepts: (nat, string) -> bool, text: string, first: nat, last: nat) {
    exists cron :: IsNormalOf(cron, text) && Refused(accepts, cron, first, last)
  }

  class JobScheduler {
    const accepts: (nat, string) -> bool
    const removes: nat -> bool
    var jobs: map<JobId, string>
    var issued: nat
    var calls: nat

    constructor (accepts: (nat, string) -> bool, removes: nat -> bool)
      ensures this.accepts == accepts && this.removes == removes
      ensures jobs == map[] && issued == 0 && calls == 0
    {
      this.accepts, this.removes := accepts, removes;
      jobs, issued, calls := map[], 0, 0;
    }

    method Add(cron: string) returns (id: Option<JobId>)
      modifies this
      ensures calls == old(calls) + 1
      ensures id == if accepts(old(calls), cron) then Some(old(issued)) else None
      ensures jobs == if id.Some? then old(jobs)[old(issued) := cron] else old(jobs)
      ensures issued == if id.Some? then old(issued) + 1 else old(issued)
    {
      id := None;
      if accepts(calls, cron) {
        id := Some(issued);
        jobs := jobs[issued := cron];
        issued := issued + 1;
      }
      calls := calls + 1;
    }

    method Remove(id: JobId) returns (ok: bool)
      modifies this
      ensures calls == old(calls) + 1 && issued == old(issued)
      ensures ok == removes(old(calls))
      ensures jobs == if ok then old(jobs) - {id} else old(jobs)
    {
      ok := removes(calls);
      if ok {
        jobs := jobs - {id};
      }
      calls := calls + 1;
    }
  }

  class CronReconciler {
    const sched: JobScheduler
    var active: map<RuleId, ActiveJob>

    constructor (sched: JobScheduler)
      ensures this.sched == sched && active == map[]
    {
      this.sched := sched;
      active := map[];
    }

    ghost function Now(): State
      reads this, sched
    {
      State(active, sched.jobs, sched.issued)
    }

    // The rules no longer wanted lose their job; a failed removal is ignored.
    method RemoveStale(desired: map<RuleId, string>, ghost leaked: set<JobId>) returns (ghost stuck: set<JobId>)
      requires Consistent(Now(), leaked)
      modifies this, sched
      ensures Partly(old(Now()), desired, Stale(old(active), desired), {}, {}, stuck, Now())
      ensures sched.calls >= old(sched.calls) && ((forall n :: sched.removes(n)) ==> stuck == {})
    {
      hide Partly, PartlyActive, PartlyJobs, Consistent, OneJobEach, Running, ToDrop, ToTry, Same, Stale, Entry, JobsOf,
           Progress, Synced, Desired;
      ghost var s := Now();
      var stale := Stale(active, desired);
      ghost var dropped: set<RuleId> := {};
      stuck := {};
      NothingDone(s, desired, leaked);
      StaleAreDropped(s.active, desired);
      while stale != {}
        invariant dropped + stale == Stale(s.active, desired) && dropped !! stale
        invariant Partly(s, desired, dropped, {}, {}, stuck, Now())
        invariant sched.calls >= old(sched.calls) && ((forall n :: sched.removes(n)) ==> stuck == {})
        decreases |stale|
      {
        var id :| id in stale;
        stale := stale - {id};
        ghost var t := Now();
        DropStep(s, desired, dropped, {}, {}, stuck, t, id, true, leaked);
        var job := active[id];
        active := active - {id};
        var ok := sched.Remove(job.jobId);
        DropStep(s, desired, dropped, {}, {}, stuck, t, id, ok, leaked);
        assert Now() == Drop(t, id, ok);
        dropped := dropped + {id};
        stuck := if ok then stuck else stuck + {job.jobId};
      }
    }

    // One wanted rule: kept when its cron expression is the recorded one, else registered anew.
    method Register(id: RuleId, cron: string, ghost s: State, ghost desired: map<RuleId, string>, ghost dropped: set<RuleId>,
                    ghost tried: set<RuleId>, ghost failed: set<RuleId>, ghost stuck: set<JobId>, ghost leaked: set<JobId>)
      returns (ok: bool, ghost stuck': set<JobId>)
      requires Consistent(s, leaked) && Partly(s, desired, dropped, tried, failed, stuck, Now())
      requires id in desired && desired[id] == cron && id !in tried && id !in dropped
      modifies this, sched
      ensures Same(s.active, desired, id) ==> ok && stuck' == stuck && Partly(s, desired, dropped, tried, failed, stuck, Now())
      ensures !Same(s.active, desired, id) ==>
        Partly(s, desired, if id in s.active then dropped + {id} else dropped, tried + {id},
               if ok then failed else failed + {id}, stuck', Now())
      ensures sched.calls >= old(sched.calls)
      ensures !ok ==> Refused(sched.accepts, cron, old(sched.calls), sched.calls)
      ensures (forall n :: sched.removes(n)) ==> stuck' == stuck
    {
      hide Partly, PartlyActive, PartlyJobs, Consistent, OneJobEach, Running, ToDrop, ToTry, Same, Stale, Entry, JobsOf,
           Progress, Synced, Desired;
      UntriedEntry(s, desired, dropped, tried, failed, stuck, Now(), id);
      ok, stuck' := true, stuck;
      ghost var dropped' := dropped;
      if id in active {
        var existing := active[id];
        if existing.cron == cron {
          return;
        }
        ghost var t := Now();
        var removed := sched.Remove(existing.jobId);
        active := active - {id};
        DropStep(s, desired, dropped, tried, failed, stuck, t, id, removed, leaked);
        assert Now() == Drop(t, id, removed);
        dropped' := dropped + {id};
        stuck' := if removed then stuck else stuck + {existing.jobId};
      }
      ghost var t := Now();
      var job := sched.Add(cron);
      if job.Some? {
        active := active[id := ActiveJob(job.value, cron)];
        AddStep(s, desired, dropped', tried, failed, stuck', t, id, leaked);
        assert Now() == Add(t, id, cron);
      } else {
        ok := false;
        FailStep(s, desired, dropped', tried, failed, stuck', t, id);
      }
    }

    // The part both schedulers share: entries are the listed rules or providers, None when filtered out.
    method Reconcile(entries: seq<Option<Target>>, ghost leaked: set<JobId>)
      returns (failed: set<RuleId>, ghost stuck: set<JobId>)
      requires DistinctIds(entries) && Consistent(Now(), leaked)
      modifies this, sched
      ensures Synced(old(Now()), Desired(entries), failed, stuck, Now())
      ensures Consistent(Now(), leaked + stuck)
      ensures forall id | id in failed ::
        id in Desired(entries) && Refused(sched.accepts, Desired(entries)[id], old(sched.calls), sched.calls)
      ensures (forall n :: sched.removes(n)) ==> stuck == {}
    {
      hide Partly, PartlyActive, PartlyJobs, Consistent, OneJobEach, Running, ToDrop, ToTry, Same, Stale, Entry, JobsOf,
           Progress, Synced, Desired;
      ghost var s := Now();
      var desired: map<RuleId, string> := map[];
      NothingDesired();
      for i := 0 to |entries|
        invariant desired == Desired(entries[..i])
        invariant active == old(active) && unchanged(sched)
      {
        DesiredStep(entries, i);
        if entries[i].Some? {
          desired := desired[entries[i].value.id := entries[i].value.cron];
        }
      }
      assert entries[..|entries|] == entries;

      stuck := RemoveStale(desired, leaked);
      failed := {};
      ghost var dropped, tried := Stale(s.active, desired), {};
      ProgressStart(s, desired);
      for i := 0 to |entries|
        invariant Progress(s, desired, Desired(entries[..i]), dropped, tried)
        invariant Partly(s, desired, dropped, tried, failed, stuck, Now())
        invariant sched.calls >= old(sched.calls)
        invariant forall id | id in failed ::
          id in desired && Refused(sched.accepts, desired[id], old(sched.calls), sched.calls)
        invariant (forall n :: sched.removes(n)) ==> stuck == {}
      {
        DesiredStep(entries, i);
        if entries[i].Some? {
          var Target(id, cron) := entries[i].value;
          DesiredNew(entries, i);
          ProgressStep(s, desired, Desired(entries[..i]), dropped, tried, id, cron);
          var ok;
          ok, stuck := Register(id, cron, s, desired, dropped, tried, failed, stuck, leaked);
          if !ok {
            failed := failed + {id};
          }
          if !Same(s.active, desired, id) {
            dropped, tried := if id in s.active then dropped + {id} else dropped, tried + {id};
          }
        }
      }
      ProgressDone(s, desired, dropped, tried);
      PartlyIsSynced(s, desired, failed, stuck, Now());
      SyncKeepsConsistent(s, desired, failed, stuck, Now(), leaked);
    }
  }

  class DetectionScheduler {
    const reconciler: CronReconciler

    constructor (sched: JobScheduler)
      ensures fresh(reconciler) && reconciler.sched == sched && reconciler.active == map[]
    {
      reconciler := new CronReconciler(sched);
    }

    method Sync(rules: seq<Rule>, ghost leaked: set<JobId>) returns (failed: set<RuleId>, ghost stuck: set<JobId>)
      requires forall i, j | 0 <= i < j < |rules| :: rules[i].id != rules[j].id
      requires Consistent(reconciler.Now(), leaked)
      modifies reconciler, reconciler.sched
      ensures Synced(old(reconciler.Now()), Desired(RuleTargets(rules)), failed, stuck, reconciler.Now())
      ensures Consistent(reconciler.Now(), leaked + stuck)
      // who is scheduled, on which expression, and what became of the other jobs
      ensures forall id :: id in reconciler.active <==>
        id !in failed && exists i :: 0 <= i < |rules| && rules[i].id == id && WantsRule(rules[i])
      ensures forall i | 0 <= i < |rules| && WantsRule(rules[i]) && rules[i].id in reconciler.active ::
        IsNormalOf(reconciler.active[rules[i].id].cron, rules[i].cron.value)
      ensures forall i | 0 <= i < |rules| && WantsRule(rules[i]) && rules[i].id in failed ::
        TextRefused(reconciler.sched.accepts, rules[i].cron.value, old(reconciler.sched.calls), reconciler.sched.calls)
      ensures forall id | id in old(reconciler.active)
        && (id in reconciler.active ==> reconciler.active[id] != old(reconciler.active)[id]) ::
        old(reconciler.active)[id].jobId in reconciler.sched.jobs ==> old(reconciler.active)[id].jobId in stuck
      ensures (forall n :: reconciler.sched.removes(n)) ==> stuck == {}
    {
      hide Synced, Consistent, NormalizeCron, Trim, RuleTarget, Desired, WantsRule, IsNormalOf, Refused;
      ghost var s := reconciler.Now();
      RulesDesired(rules);
      failed, stuck := reconciler.Reconcile(RuleTargets(rules), leaked);
      WantedAreActive(s, Desired(RuleTargets(rules)), failed, stuck, reconciler.Now(), leaked);
    }
  }

  class EnrichmentScheduler {
    const reconciler: CronReconciler

    constructor (sched: JobScheduler)
      ensures fresh(reconciler) && reconciler.sched == sched && reconciler.active == map[]
    {
      reconciler := new CronReconciler(sched);
    }

    method Sync(providers: seq<Provider>, ghost leaked: set<JobId>)
      returns (failed: set<RuleId>, ghost stuck: set<JobId>)
      requires forall i, j | 0 <= i < j < |providers| :: providers[i].id != providers[j].id
      requires Consistent(reconciler.Now(), leaked)
      modifies reconciler, reconciler.sched
      ensures Synced(old(reconciler.Now()), Desired(ProviderTargets(providers)), failed, stuck, reconciler.Now())
      ensures Consistent(reconciler.Now(), leaked + stuck)
      // who is scheduled, on which expression, and what became of the other jobs
      ensures forall id :: id in reconciler.active <==>
        id !in failed && exists i :: 0 <= i < |providers| && providers[i].id == id && WantsProvider(providers[i])
      ensures forall i | 0 <= i < |providers| && WantsProvider(providers[i]) && providers[i].id in reconciler.active ::
        IsNormalOf(reconciler.active[providers[i].id].cron, providers[i].syncCron.value)
      ensures forall i | 0 <= i < |providers| && WantsProvider(providers[i]) && providers[i].id in failed ::
        TextRefused(reconciler.sched.accepts, providers[i].syncCron.value, old(reconciler.sched.calls), reconciler.sched.calls)
      ensures forall id | id in old(reconciler.active)
        && (id in reconciler.active ==> reconciler.active[id] != old(reconciler.active)[id]) ::
        old(reconciler.active)[id].jobId in reconciler.sched.jobs ==> old(reconciler.active)[id].jobId in stuck
      ensures (forall n :: reconciler.sched.removes(n)) ==> stuck == {}
    {
      hide Synced, Consistent, NormalizeCron, ParseSyncCron, ProviderTarget, Desired, WantsProvider, IsNormalOf, Refused;
      ghost var s := reconciler.Now();
      ProvidersDesired(providers);
      failed, stuck := reconciler.Reconcile(ProviderTargets(providers), leaked);
      WantedAreActive(s, Desired(ProviderTargets(providers)), failed, stuck, reconciler.Now(), leaked);
    }
  }
}
