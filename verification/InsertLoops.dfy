/** The insert loops around the packer: one call in chunks, draining a vector, and streaming a file. */
module InsertLoops {
  import opened Arithmetic
  import opened Wrappers
  import opened Text
  import opened Batching
  import opened ClickHouseInsert
  import opened Sequences
  import Sets

  const MAX_ROWS: nat := 500_000
  const MIN_ROUND: nat := 1_000

  datatype Event = Event(id: nat, day: int)

  // Batch number, number of batches, rows inserted so far: what the progress hook receives.
  datatype Report = Report(batch: nat, batches: nat, rows: nat)

  function Days(events: seq<Event>): (r: seq<int>)
    ensures |r| == |events|
  {
    seq(|events|, i requires 0 <= i < |events| => events[i].day)
  }

  function DaysOf(rows: seq<Event>): set<int> {
    set e | e in rows :: e.day
  }

  function Pick(events: seq<Event>, indices: seq<nat>): (r: seq<Event>)
    requires Indices(Days(events), indices)
    ensures |r| == |indices|
  {
    seq(|indices|, p requires 0 <= p < |indices| => events[indices[p]])
  }

  // The table: every accepted insert, in order. Whether the n-th attempt is accepted is up to the server.
  class ClickHouse {
    var inserted: seq<seq<Event>>
    var attempts: nat
    const accepts: nat -> bool

    constructor (accepts: nat -> bool)
      ensures inserted == [] && attempts == 0 && this.accepts == accepts
    {
      this.inserted := [];
      this.attempts := 0;
      this.accepts := accepts;
    }

    method InsertBatch(events: seq<Event>, indices: seq<nat>) returns (ok: bool)
      requires Indices(Days(events), indices)
      modifies this
      ensures ok == accepts(old(attempts)) && attempts == old(attempts) + 1
      ensures inserted == if ok then old(inserted) + [Pick(events, indices)] else old(inserted)
    {
      ok := accepts(attempts);
      attempts := attempts + 1;
      if ok {
        inserted := inserted + [Pick(events, indices)];
      }
    }
  }

  class EventVec {
    var items: seq<Event>

    constructor (items: seq<Event>)
      ensures this.items == items
    {
      this.items := items;
    }
  }

  // One insert stays within both caps.
  predicate WithinCaps(rows: seq<Event>, maxRows: nat) {
    0 < |rows| <= maxRows && |DaysOf(rows)| <= MAX_PARTITION_DAYS
  }

  // From `before` to `after`: inserts were only added, each within the caps, `rows` in all.
  ghost predicate Grew(before: seq<seq<Event>>, after: seq<seq<Event>>, maxRows: nat, rows: multiset<Event>) {
    && before <= after
    && (forall k | |before| <= k < |after| :: WithinCaps(after[k], maxRows))
    && multiset(Flatten(after)) == multiset(Flatten(before)) + rows
  }

  lemma GrewTrans(a: seq<seq<Event>>, b: seq<seq<Event>>, c: seq<seq<Event>>, maxRows: nat,
                  r1: multiset<Event>, r2: multiset<Event>)
    requires Grew(a, b, maxRows, r1) && Grew(b, c, maxRows, r2)
    ensures Grew(a, c, maxRows, r1 + r2)
  {
    assert forall k | |a| <= k < |b| :: c[k] == b[k];
  }

  lemma GrewWiden(a: seq<seq<Event>>, b: seq<seq<Event>>, maxRows: nat, wider: nat, rows: multiset<Event>)
    requires Grew(a, b, maxRows, rows) && maxRows <= wider
    ensures Grew(a, b, wider, rows)
  {
  }

  lemma PickWithinCaps(events: seq<Event>, maxRows: nat, indices: seq<nat>)
    requires BatchOk(Days(events), maxRows, indices)
    ensures WithinCaps(Pick(events, indices), maxRows)
  {
    var days := Days(events);
    var rows := Pick(events, indices);
    forall e | e in rows
      ensures e.day in DaySet(days, indices)
    {
      var p :| 0 <= p < |rows| && rows[p] == e;
      assert indices[p] in indices && days[indices[p]] == e.day;
    }
    Sets.SubsetSize(DaysOf(rows), DaySet(days, indices));
  }

  lemma PickAppend(events: seq<Event>, a: seq<nat>, b: seq<nat>)
    requires Indices(Days(events), a) && Indices(Days(events), b)
    ensures Indices(Days(events), a + b)
    ensures Pick(events, a + b) == Pick(events, a) + Pick(events, b)
  {
  }

  // ----- A stable order of the events is a permutation of them

  lemma {:induction false} StableOrderPermutes(events: seq<Event>, order: seq<nat>)
    requires IsStableOrder(Days(events), order)
    ensures multiset(Pick(events, order)) == multiset(events)
  {
    OrderLength(Days(events), order);
    DistinctPick(events, order);
  }

  // Picking every index once, in any order.
  lemma {:induction false} DistinctPick(events: seq<Event>, order: seq<nat>)
    requires Indices(Days(events), order) && |order| == |events|
    requires forall p, q | 0 <= p < q < |order| :: order[p] != order[q]
    requires forall i: nat | i < |events| :: i in order
    ensures multiset(Pick(events, order)) == multiset(events)
    decreases |events|
  {
    if events == [] {
      assert Pick(events, order) == [];
    } else {
      // Take the last event out of both.
      var n := |events| - 1;
      assert n in order;
      var p :| 0 <= p < |order| && order[p] == n;
      var rest := order[..p] + order[p + 1..];
      RemoveIndex(order, p, n);
      DistinctPick(events[..n], rest);
      PickWithout(events, order, p);
      assert events == events[..n] + [events[n]];
    }
  }

  lemma RemoveIndex(order: seq<nat>, p: nat, n: nat)
    requires p < |order| && order[p] == n && |order| == n + 1
    requires forall q | 0 <= q < |order| :: order[q] < n + 1
    requires forall a, b | 0 <= a < b < |order| :: order[a] != order[b]
    requires forall i: nat | i < n + 1 :: i in order
    ensures var rest := order[..p] + order[p + 1..];
            && |rest| == n
            && (forall q | 0 <= q < |rest| :: rest[q] < n)
            && (forall a, b | 0 <= a < b < |rest| :: rest[a] != rest[b])
            && (forall i: nat | i < n :: i in rest)
  {
    var rest := order[..p] + order[p + 1..];
    forall i: nat | i < n
      ensures i in rest
    {
      assert i in order;
      var q :| 0 <= q < |order| && order[q] == i;
      assert rest[if q < p then q else q - 1] == i;
    }
    forall q | 0 <= q < |rest|
      ensures rest[q] < n
    {
      assert rest[q] == order[if q < p then q else q + 1];
    }
  }

  lemma PickWithout(events: seq<Event>, order: seq<nat>, p: nat)
    requires events != [] && Indices(Days(events), order) && p < |order| && order[p] == |events| - 1
    requires Indices(Days(events[..|events| - 1]), order[..p] + order[p + 1..])
    ensures multiset(Pick(events, order))
         == multiset(Pick(events[..|events| - 1], order[..p] + order[p + 1..])) + multiset{events[|events| - 1]}
  {
    var all := Pick(events, order);
    assert all == all[..p] + [events[|events| - 1]] + all[p + 1..];
    assert Pick(events[..|events| - 1], order[..p] + order[p + 1..]) == all[..p] + all[p + 1..];
  }

  // ----- insert_events_chunked

  // Reports of `done` batches out of `batches`, whose rows are the inserts of `after` beyond `before`.
  ghost predicate Reported(reports: seq<Report>, batches: nat, before: seq<seq<Event>>, after: seq<seq<Event>>) {
    && before <= after && |reports| == |after| - |before|
    && forall i | 0 <= i < |reports| ::
         reports[i] == Report(i + 1, batches, |Flatten(after[|before|..|before| + i + 1])|)
  }

  // What `done` batches with the picked rows have added to the table.
  ghost predicate Added(
    maxRows: nat, picked: seq<Event>, done: nat, before: seq<seq<Event>>, after: seq<seq<Event>>)
  {
    && before <= after && |after| == |before| + done
    && (forall k | |before| <= k < |after| :: WithinCaps(after[k], maxRows))
    && Flatten(after) == Flatten(before) + picked
    && Flatten(after[|before|..]) == picked
  }

  // Where the loop stands after `done` batches.
  ghost predicate Inserted(
    events: seq<Event>, maxRows: nat, batches: seq<seq<nat>>, done: nat, before: seq<seq<Event>>, after: seq<seq<Event>>,
    total: nat, reports: seq<Report>)
  {
    && done <= |batches|
    && IsStableOrder(Days(events), Flatten(batches)) && Packed(Days(events), maxRows, batches)
    && Indices(Days(events), Flatten(batches[..done]))
    && Added(maxRows, Pick(events, Flatten(batches[..done])), done, before, after)
    && total == |Flatten(batches[..done])|
    && Reported(reports, |batches|, before, after)
  }

  lemma AddedStep(
    maxRows: nat, picked: seq<Event>, done: nat, before: seq<seq<Event>>, after: seq<seq<Event>>, rows: seq<Event>)
    requires Added(maxRows, picked, done, before, after) && WithinCaps(rows, maxRows)
    ensures Added(maxRows, picked + rows, done + 1, before, after + [rows])
  {
    hide WithinCaps, Flatten;
    FlattenAppend(after, rows);
    assert (after + [rows])[|before|..] == after[|before|..] + [rows];
    FlattenAppend(after[|before|..], rows);
  }

  lemma InsertedStep(
    events: seq<Event>, maxRows: nat, batches: seq<seq<nat>>, done: nat, before: seq<seq<Event>>, after: seq<seq<Event>>,
    total: nat, reports: seq<Report>)
    requires Inserted(events, maxRows, batches, done, before, after, total, reports) && done < |batches|
    ensures Indices(Days(events), batches[done])
    ensures var rows := Pick(events, batches[done]);
            Inserted(events, maxRows, batches, done + 1, before, after + [rows], total + |rows|,
              reports + [Report(done + 1, |batches|, total + |rows|)])
  {
    var rows, picked := Pick(events, batches[done]), Pick(events, Flatten(batches[..done]));
    NextBatch(events, maxRows, batches, done);
    AddedFacts(maxRows, picked, done, before, after);
    assert |reports| == done;
    hide Days, Pick, Flatten, Indices, WithinCaps, Packed, IsStableOrder, Reported, DaysOf, Added;
    AddedStep(maxRows, picked, done, before, after, rows);
    ReportedStep(reports, |batches|, before, after, rows, Report(done + 1, |batches|, total + |rows|));
  }

  lemma AddedFacts(maxRows: nat, picked: seq<Event>, done: nat, before: seq<seq<Event>>, after: seq<seq<Event>>)
    requires Added(maxRows, picked, done, before, after)
    ensures |before| <= |after| == |before| + done && Flatten(after[|before|..]) == picked
  {
  }

  lemma NextBatch(events: seq<Event>, maxRows: nat, batches: seq<seq<nat>>, done: nat)
    requires done < |batches| && Packed(Days(events), maxRows, batches)
    requires Indices(Days(events), Flatten(batches[..done]))
    ensures Indices(Days(events), batches[done]) && WithinCaps(Pick(events, batches[done]), maxRows)
    ensures Flatten(batches[..done + 1]) == Flatten(batches[..done]) + batches[done]
    ensures Indices(Days(events), Flatten(batches[..done + 1]))
    ensures Pick(events, Flatten(batches[..done + 1])) == Pick(events, Flatten(batches[..done])) + Pick(events, batches[done])
  {
    assert BatchOk(Days(events), maxRows, batches[done]);
    PickWithinCaps(events, maxRows, batches[done]);
    assert Indices(Days(events), batches[done]);
    hide BatchOk, WithinCaps, Packed, Flatten, Indices;
    assert batches[..done + 1] == batches[..done] + [batches[done]];
    FlattenAppend(batches[..done], batches[done]);
    PickAppend(events, Flatten(batches[..done]), batches[done]);
  }

  lemma {:induction false} ReportedStep(
    reports: seq<Report>, batches: nat, before: seq<seq<Event>>, after: seq<seq<Event>>, rows: seq<Event>, report: Report)
    requires Reported(reports, batches, before, after)
    requires report == Report(|reports| + 1, batches, |Flatten(after[|before|..])| + |rows|)
    ensures Reported(reports + [report], batches, before, after + [rows])
  {
    var reports' := reports + [report];
    var after' := after + [rows];
    assert after'[|before|..] == after[|before|..] + [rows];
    FlattenAppend(after[|before|..], rows);
    assert before <= after';
    forall i | 0 <= i < |reports'|
      ensures |before| + i + 1 <= |after'|
      ensures reports'[i] == Report(i + 1, batches, |Flatten(after'[|before|..|before| + i + 1])|)
    {
      if i < |reports| {
        assert after'[|before|..|before| + i + 1] == after[|before|..|before| + i + 1];
      } else {
        assert after'[|before|..|before| + i + 1] == after'[|before|..];
      }
    }
  }

  lemma {:induction false} InsertedAll(
    events: seq<Event>, maxRows: nat, batches: seq<seq<nat>>, before: seq<seq<Event>>, after: seq<seq<Event>>,
    total: nat, reports: seq<Report>)
    requires Inserted(events, maxRows, batches, |batches|, before, after, total, reports)
    ensures Grew(before, after, maxRows, multiset(events)) && total == |events|
  {
    assert batches[..|batches|] == batches;
    OrderLength(Days(events), Flatten(batches));
    StableOrderPermutes(events, Flatten(batches));
  }

  lemma {:induction false} InsertedSome(
    events: seq<Event>, maxRows: nat, batches: seq<seq<nat>>, done: nat, before: seq<seq<Event>>, after: seq<seq<Event>>,
    total: nat, reports: seq<Report>)
    requires Inserted(events, maxRows, batches, done, before, after, total, reports) && done < |batches|
    ensures exists rows: multiset<Event> :: rows < multiset(events) && Grew(before, after, maxRows, rows)
  {
    var front, back := Flatten(batches[..done]), Flatten(batches[done..]);
    RowsLeft(events, maxRows, batches, done);
    StableOrderPermutes(events, Flatten(batches));
    var rows := multiset(Pick(events, front));
    assert multiset(events) == rows + multiset(Pick(events, back));
    assert Pick(events, back)[0] in multiset(Pick(events, back));
    assert Grew(before, after, maxRows, rows);
  }

  lemma RowsLeft(events: seq<Event>, maxRows: nat, batches: seq<seq<nat>>, done: nat)
    requires Packed(Days(events), maxRows, batches) && Indices(Days(events), Flatten(batches)) && done < |batches|
    ensures var front, back := Flatten(batches[..done]), Flatten(batches[done..]);
            && back != [] && Indices(Days(events), front) && Indices(Days(events), back)
            && Pick(events, Flatten(batches)) == Pick(events, front) + Pick(events, back)
  {
    var front, back := Flatten(batches[..done]), Flatten(batches[done..]);
    SplitFlatten(batches, done);
    assert BatchOk(Days(events), maxRows, batches[done]);
    var x := batches[done][0];
    assert batches[done..][0] == batches[done] && x in batches[done];
    FlattenMember(batches[done..], x);
    assert x in back;
    assert forall p | 0 <= p < |front| :: front[p] == (front + back)[p];
    assert forall p | 0 <= p < |back| :: back[p] == (front + back)[|front| + p];
    PickAppend(events, front, back);
  }

  lemma NothingInserted(before: seq<seq<Event>>, maxRows: nat)
    ensures Grew(before, before, maxRows, multiset([])) && Reported([], 0, before, before)
  {
  }

  lemma InsertedNone(events: seq<Event>, maxRows: nat, batches: seq<seq<nat>>, before: seq<seq<Event>>)
    requires IsStableOrder(Days(events), Flatten(batches)) && Packed(Days(events), maxRows, batches)
    ensures Inserted(events, maxRows, batches, 0, before, before, 0, [])
  {
    assert batches[..0] == [] && before[|before|..] == [];
    hide IsStableOrder, Packed;
    assert Pick(events, []) == [];
  }

  lemma InsertedReported(
    events: seq<Event>, maxRows: nat, batches: seq<seq<nat>>, done: nat, before: seq<seq<Event>>, after: seq<seq<Event>>,
    total: nat, reports: seq<Report>)
    requires Inserted(events, maxRows, batches, done, before, after, total, reports)
    ensures |after| == |before| + done && Reported(reports, |batches|, before, after)
  {
    hide IsStableOrder, Packed;
  }

  // On success the rows inserted are exactly the events; on failure strictly fewer, and none twice.
  method InsertEventsChunked(ch: ClickHouse, events: seq<Event>, chunkSize: nat)
    returns (result: Option<nat>, reports: seq<Report>)
    modifies ch
    ensures result.Some? ==>
              && result.value == |events|
              && Grew(old(ch.inserted), ch.inserted, Clamp(chunkSize, 1, MAX_ROWS), multiset(events))
              && Reported(reports, |ch.inserted| - |old(ch.inserted)|, old(ch.inserted), ch.inserted)
    ensures result.None? ==>
              && (exists rows: multiset<Event> :: rows < multiset(events)
                   && Grew(old(ch.inserted), ch.inserted, Clamp(chunkSize, 1, MAX_ROWS), rows))
              && exists batches: nat :: batches > |ch.inserted| - |old(ch.inserted)|
                   && Reported(reports, batches, old(ch.inserted), ch.inserted)
  {
    hide Days, Pick, Flatten, Indices, Packed, IsStableOrder, Reported, Inserted, Grew;
    reports := [];
    NothingInserted(ch.inserted, Clamp(chunkSize, 1, MAX_ROWS));
    if events == [] {
      return Some(0), reports;
    }
    var maxRows := Clamp(chunkSize, 1, MAX_ROWS);
    var batches := PartitionBatches(Days(events), maxRows);
    var total: nat := 0;
    ghost var before := ch.inserted;
    InsertedNone(events, maxRows, batches, before);
    for i := 0 to |batches|
      invariant Inserted(events, maxRows, batches, i, before, ch.inserted, total, reports)
    {
      InsertedStep(events, maxRows, batches, i, before, ch.inserted, total, reports);
      InsertedReported(events, maxRows, batches, i, before, ch.inserted, total, reports);
      var ok := ch.InsertBatch(events, batches[i]);
      if !ok {
        InsertedSome(events, maxRows, batches, i, before, ch.inserted, total, reports);
        return None, reports;
      }
      total := total + |batches[i]|;
      reports := reports + [Report(i + 1, |batches|, total)];
    }
    InsertedAll(events, maxRows, batches, before, ch.inserted, total, reports);
    InsertedReported(events, maxRows, batches, |batches|, before, ch.inserted, total, reports);
    result := Some(total);
  }

  // ----- Rounds

  // The events cut into runs of c, the last one possibly shorter.
  function Rounds(events: seq<Event>, c: nat): seq<seq<Event>>
    requires c > 0
  {
    if events == [] then []
    else [events[..Min(|events|, c)]] + Rounds(events[Min(|events|, c)..], c)
  }

  lemma {:induction false} RoundsSizes(events: seq<Event>, c: nat)
    requires c > 0
    ensures forall i | 0 <= i < |Rounds(events, c)| :: 0 < |Rounds(events, c)[i]| <= c
    ensures forall i | 0 <= i < |Rounds(events, c)| - 1 :: |Rounds(events, c)[i]| == c
    decreases |events|
  {
    if events != [] {
      var m := Min(|events|, c);
      RoundsSizes(events[m..], c);
      assert m == |events| ==> Rounds(events[m..], c) == [];
    }
  }

  lemma {:induction false} RoundsFacts(events: seq<Event>, c: nat)
    requires c > 0
    ensures |Rounds(events, c)| == DivCeil(|events|, c)
    ensures Flatten(Rounds(events, c)) == events
    ensures forall i | 0 <= i < |Rounds(events, c)| :: 0 < |Rounds(events, c)[i]| <= c
    ensures forall i | 0 <= i < |Rounds(events, c)| - 1 :: |Rounds(events, c)[i]| == c
    decreases |events|
  {
    RoundsSizes(events, c);
    if events == [] {
      DivUnique(c - 1, c, 0, c - 1);
    } else {
      var m := Min(|events|, c);
      var rest := Rounds(events[m..], c);
      assert Rounds(events, c) == [events[..m]] + rest;
      RoundsFacts(events[m..], c);
      hide Rounds, Flatten, DivCeil;
      DivCeilStep(|events|, c);
      FlattenCons(events[..m], rest);
      assert events == events[..m] + events[m..];
    }
  }

  // ----- insert_events_draining

  // Round i of a successful drain of n events reports (i, ceil(n/c), min(i*c, n)).
  predicate DrainReports(reports: seq<Report>, n: nat, c: nat)
    requires c > 0
  {
    forall i | 0 <= i < |reports| :: reports[i] == Report(i + 1, DivCeil(n, c), Min((i + 1) * c, n))
  }

  // After `done` complete rounds.
  ghost predicate Drained(all: seq<Event>, c: nat, done: nat, before: seq<seq<Event>>, after: seq<seq<Event>>)
    requires c > 0
  {
    Grew(before, after, c, multiset(all[..Min(done * c, |all|)]))
  }

  lemma {:induction false} DrainRound(
    all: seq<Event>, c: nat, k: nat, before: seq<seq<Event>>, mid: seq<seq<Event>>, after: seq<seq<Event>>,
    chunk: seq<Event>, part: multiset<Event>)
    requires 0 < c <= MAX_ROWS && Drained(all, c, k, before, mid)
    requires k * c < |all| && chunk == all[k * c..Min((k + 1) * c, |all|)] && 0 < |chunk| <= c
    requires Grew(mid, after, Clamp(Max(|chunk|, 1), 1, MAX_ROWS), part)
    ensures Grew(before, after, c, multiset(all[..k * c]) + part)
    ensures part == multiset(chunk) ==> Drained(all, c, k + 1, before, after)
  {
    GrewWiden(mid, after, |chunk|, c, part);
    GrewTrans(before, mid, after, c, multiset(all[..k * c]), part);
    assert all[..Min((k + 1) * c, |all|)] == all[..k * c] + chunk;
  }

  // Round |reports| + 1 failed: the vector lost that round's events, of which at most a part was inserted.
  ghost predicate PartlyDrained(
    all: seq<Event>, left: seq<Event>, c: nat, done: nat, before: seq<seq<Event>>, after: seq<seq<Event>>)
    requires c > 0
  {
    && done * c < |all|
    && left == all[Min((done + 1) * c, |all|)..]
    && exists part: multiset<Event> ::
         && part < multiset(all[done * c..Min((done + 1) * c, |all|)])
         && Grew(before, after, c, multiset(all[..done * c]) + part)
  }

  lemma {:induction false} DrainFailure(
    all: seq<Event>, c: nat, k: nat, before: seq<seq<Event>>, mid: seq<seq<Event>>, after: seq<seq<Event>>,
    chunk: seq<Event>, left: seq<Event>)
    requires 0 < c <= MAX_ROWS && Drained(all, c, k, before, mid)
    requires k * c < |all| && chunk == all[k * c..Min((k + 1) * c, |all|)] && 0 < |chunk| <= c
    requires left == all[Min((k + 1) * c, |all|)..]
    requires exists part: multiset<Event> ::
      part < multiset(chunk) && Grew(mid, after, Clamp(Max(|chunk|, 1), 1, MAX_ROWS), part)
    ensures PartlyDrained(all, left, c, k, before, after)
  {
    var part: multiset<Event> :|
      part < multiset(chunk) && Grew(mid, after, Clamp(Max(|chunk|, 1), 1, MAX_ROWS), part);
    DrainRound(all, c, k, before, mid, after, chunk, part);
  }

  // Round k takes the events from k*c on.
  lemma DrainSlices(all: seq<Event>, c: nat, k: nat, left: seq<Event>)
    requires c > 0 && k * c < |all| && left == all[k * c..]
    ensures var take := Min(|left|, c);
            && 0 < take && k * c + take == Min((k + 1) * c, |all|)
            && left[..take] == all[k * c..Min((k + 1) * c, |all|)]
            && left[take..] == all[Min((k + 1) * c, |all|)..]
            && (left[take..] == [] <==> k * c + take == |all|)
            && (k * c + take < |all| ==> k * c + take == (k + 1) * c)
    ensures k < DivCeil(|all|, c)
    ensures |all| <= (k + 1) * c ==> DivCeil(|all|, c) == k + 1
  {
    RoundBounds(|all|, c, k);
  }

  // The vector shrinks round by round, and so that rows are never held or inserted twice: on success everything is
  // inserted and the vector is empty; when round k fails the vector is the suffix after k rounds.
  method InsertEventsDraining(ch: ClickHouse, events: EventVec, chunkSize: nat)
    returns (result: Option<nat>, reports: seq<Report>)
    modifies ch, events
    ensures var c := Clamp(chunkSize, MIN_ROUND, MAX_ROWS);
            var all := old(events.items);
            && DrainReports(reports, |all|, c)
            && (result.Some? ==>
                  && events.items == [] && result.value == |all| && |reports| == DivCeil(|all|, c)
                  && Grew(old(ch.inserted), ch.inserted, c, multiset(all)))
            && (result.None? ==> PartlyDrained(all, events.items, c, |reports|, old(ch.inserted), ch.inserted))
  {
    reports := [];
    var c := Clamp(chunkSize, MIN_ROUND, MAX_ROWS);
    if events.items == [] {
      DivUnique(c - 1, c, 0, c - 1);
      return Some(0), reports;
    }
    ghost var all := events.items;
    ghost var before := ch.inserted;
    assert Drained(all, c, 0, before, ch.inserted);
    assert all[..|all|] == all;
    hide Grew, PartlyDrained, DivCeil;
    var approxBatches := Max(DivCeil(|events.items|, c), 1);
    var total := 0;
    var batchIdx := 0;
    while events.items != []
      invariant batchIdx == |reports| && total == Min(batchIdx * c, |all|)
      invariant events.items == all[total..]
      invariant total == |all| ==> batchIdx == DivCeil(|all|, c)
      invariant DrainReports(reports, |all|, c)
      invariant Drained(all, c, batchIdx, before, ch.inserted)
      decreases |events.items|
    {
      DrainSlices(all, c, batchIdx, events.items);
      var take := Min(|events.items|, c);
      var chunk := events.items[..take];
      events.items := events.items[take..];
      ghost var mid := ch.inserted;
      var n, _ := InsertEventsChunked(ch, chunk, Max(|chunk|, 1));
      if n.None? {
        DrainFailure(all, c, batchIdx, before, mid, ch.inserted, chunk, events.items);
        return None, reports;
      }
      DrainRound(all, c, batchIdx, before, mid, ch.inserted, chunk, multiset(chunk));
      batchIdx := batchIdx + 1;
      total := total + n.value;
      reports := reports + [Report(batchIdx, Max(approxBatches, batchIdx), total)];
    }
    result := Some(total);
  }

  // ----- ingest_jsonl, and the streaming insert that refines it

  // Parsing a line as JSON and normalising it to an event; None when either step rejects the line.
  type LineParser = string -> Option<Event>

  function EventOf(line: string, parse: LineParser): Option<Event> {
    if IsBlank(line) then None else parse(line)
  }

  function IngestJsonl(lines: seq<string>, parse: LineParser): seq<Event> {
    if lines == [] then []
    else
      var init := IngestJsonl(lines[..|lines| - 1], parse);
      match EventOf(lines[|lines| - 1], parse)
      case Some(e) => init + [e]
      case None => init
  }

  // The line has a character that is no white space, and parses to the event.
  predicate IsEventLine(line: string, parse: LineParser, e: Event) {
    (exists c :: c in line && !IsWhitespace(c)) && parse(line) == Some(e)
  }

  predicate IsNoEvent(line: string, parse: LineParser) {
    (forall c | c in line :: IsWhitespace(c)) || parse(line).None?
  }

  // events[k] is the event of line at[k]; the other lines hold none.
  ghost predicate EventsAt(events: seq<Event>, lines: seq<string>, parse: LineParser, at: seq<nat>) {
    && |at| == |events|
    && (forall k | 0 <= k < |at| :: at[k] < |lines| && IsEventLine(lines[at[k]], parse, events[k]))
    && (forall j, k | 0 <= j < k < |at| :: at[j] < at[k])
    && (forall i | 0 <= i < |lines| && i !in at :: IsNoEvent(lines[i], parse))
  }

  // The events of the lines that are not blank and parse, in the order of the file.
  ghost predicate AreEvents(events: seq<Event>, lines: seq<string>, parse: LineParser) {
    exists at :: EventsAt(events, lines, parse, at)
  }

  lemma LineDecides(line: string, parse: LineParser)
    ensures match EventOf(line, parse)
            case Some(e) => IsEventLine(line, parse, e)
            case None => IsNoEvent(line, parse)
  {
    hide IsWhitespace;
  }

  lemma EventsAtMore(events: seq<Event>, lines: seq<string>, parse: LineParser, at: seq<nat>, line: string)
    requires EventsAt(events, lines, parse, at)
    ensures IsNoEvent(line, parse) ==> EventsAt(events, lines + [line], parse, at)
    ensures forall e | IsEventLine(line, parse, e) :: EventsAt(events + [e], lines + [line], parse, at + [|lines|])
  {
    hide IsNoEvent, IsEventLine;
    var lines', at' := lines + [line], at + [|lines|];
    assert forall i :: i in at' <==> i in at || i == |lines|;
    assert lines'[|lines|] == line && forall i | 0 <= i < |lines| :: lines'[i] == lines[i];
  }

  // The text's events are those of its lines that are not blank and parse.
  lemma {:induction false} IngestedAreEvents(lines: seq<string>, parse: LineParser)
    ensures AreEvents(IngestJsonl(lines, parse), lines, parse)
  {
    hide EventOf, EventsAt;
    if lines == [] {
      NoLines(parse);
    } else {
      var init, last := lines[..|lines| - 1], lines[|lines| - 1];
      IngestedAreEvents(init, parse);
      var at :| EventsAt(IngestJsonl(init, parse), init, parse, at);
      LineDecides(last, parse);
      EventsAtMore(IngestJsonl(init, parse), init, parse, at, last);
      assert lines == init + [last];
    }
  }

  lemma NoLines(parse: LineParser)
    ensures EventsAt([], [], parse, [])
  {
  }

  // Text after text gives events after events.
  lemma {:induction false} IngestAppends(a: seq<string>, b: seq<string>, parse: LineParser)
    ensures IngestJsonl(a + b, parse) == IngestJsonl(a, parse) + IngestJsonl(b, parse)
  {
    hide EventOf;
    if b == [] {
      assert a + b == a;
    } else {
      var init := b[..|b| - 1];
      IngestAppends(a, init, parse);
      assert (a + b)[..|a + b| - 1] == a + init;
    }
  }

  // One line is one event or none.
  lemma IngestOne(line: string, parse: LineParser, e: Event)
    ensures IngestJsonl([line], parse) == [e] <==> IsEventLine(line, parse, e)
    ensures IngestJsonl([line], parse) == [] <==> IsNoEvent(line, parse)
  {
    LineDecides(line, parse);
    hide EventOf, IsWhitespace;
    assert [line][..0] == [] && IngestJsonl([], parse) == [];
    var one := IngestJsonl([line], parse);
    assert one == match EventOf(line, parse) case Some(x) => [] + [x] case None => [];
    assert one != [] ==> one[0] == EventOf(line, parse).value;
  }

  // A file as the reader delivers it: lines, then possibly a read error.
  datatype Source = Source(lines: seq<string>, failsAfter: bool)

  lemma {:induction false} RoundsAppend(full: seq<seq<Event>>, last: seq<Event>, c: nat)
    requires c > 0 && forall k | 0 <= k < |full| :: |full[k]| == c
    requires 0 < |last| <= c
    ensures Rounds(Flatten(full) + last, c) == full + [last]
    decreases |full|
  {
    if full == [] {
      assert last[..Min(|last|, c)] == last && last[Min(|last|, c)..] == [];
      assert [] + last == last && [] + [last] == [last];
    } else {
      FlattenCons(full[0], full[1..]);
      assert [full[0]] + full[1..] == full;
      var all := Flatten(full) + last;
      var rest := Flatten(full[1..]) + last;
      assert all == full[0] + rest;
      assert all[..c] == full[0] && all[c..] == rest;
      RoundsAppend(full[1..], last, c);
    }
  }

  lemma RoundsExact(full: seq<seq<Event>>, c: nat)
    requires c > 0 && forall k | 0 <= k < |full| :: |full[k]| == c
    ensures Rounds(Flatten(full), c) == full
  {
    if full != [] {
      var init, last := full[..|full| - 1], full[|full| - 1];
      RoundsAppend(init, last, c);
      assert init + [last] == full;
    }
  }

  // Chunk i of a stream reports (i, i, rows so far).
  predicate StreamReports(reports: seq<Report>, chunks: seq<seq<Event>>) {
    && |reports| == |chunks|
    && forall i | 0 <= i < |reports| :: reports[i] == Report(i + 1, i + 1, |Flatten(chunks[..i + 1])|)
  }

  lemma StreamReportsAppend(reports: seq<Report>, chunks: seq<seq<Event>>, chunk: seq<Event>, report: Report)
    requires StreamReports(reports, chunks)
    requires report == Report(|chunks| + 1, |chunks| + 1, |Flatten(chunks)| + |chunk|)
    ensures StreamReports(reports + [report], chunks + [chunk])
  {
    FlattenAppend(chunks, chunk);
    var chunks' := chunks + [chunk];
    assert chunks'[..|chunks| + 1] == chunks';
    var reports' := reports + [report];
    forall i | 0 <= i < |chunks|
      ensures reports'[i] == Report(i + 1, i + 1, |Flatten(chunks'[..i + 1])|)
    {
      assert chunks'[..i + 1] == chunks[..i + 1];
    }
  }

  lemma {:induction false} IngestPrefix(lines: seq<string>, i: nat, parse: LineParser)
    requires i <= |lines|
    ensures IngestJsonl(lines[..i], parse) <= IngestJsonl(lines, parse)
  {
    if i < |lines| {
      IngestPrefix(lines[..|lines| - 1], i, parse);
      assert lines[..|lines| - 1][..i] == lines[..i];
    } else {
      assert lines[..i] == lines;
    }
  }

  // After i lines: the full chunks are inserted, the rest of what was parsed waits in `chunk`.
  ghost predicate Streaming(
    lines: seq<string>, i: nat, parse: LineParser, c: nat, before: seq<seq<Event>>, after: seq<seq<Event>>,
    chunks: seq<seq<Event>>, chunk: seq<Event>, total: nat, reports: seq<Report>)
  {
    && i <= |lines|
    && Flatten(chunks) + chunk == IngestJsonl(lines[..i], parse)
    && (forall k | 0 <= k < |chunks| :: |chunks[k]| == c) && |chunk| < c
    && total == |Flatten(chunks)|
    && StreamReports(reports, chunks)
    && Grew(before, after, c, multiset(Flatten(chunks)))
  }

  lemma {:induction false} StreamingChunk(
    before: seq<seq<Event>>, mid: seq<seq<Event>>, after: seq<seq<Event>>, chunks: seq<seq<Event>>,
    chunk: seq<Event>, c: nat, part: multiset<Event>)
    requires 0 < |chunk| <= c <= MAX_ROWS
    requires Grew(before, mid, c, multiset(Flatten(chunks)))
    requires Grew(mid, after, Clamp(|chunk|, 1, MAX_ROWS), part)
    ensures Grew(before, after, c, multiset(Flatten(chunks)) + part)
    ensures multiset(Flatten(chunks + [chunk])) == multiset(Flatten(chunks)) + multiset(chunk)
  {
    GrewWiden(mid, after, |chunk|, c, part);
    GrewTrans(before, mid, after, c, multiset(Flatten(chunks)), part);
    FlattenAppend(chunks, chunk);
  }

  lemma ChunkInserted(
    before: seq<seq<Event>>, mid: seq<seq<Event>>, after: seq<seq<Event>>, chunks: seq<seq<Event>>, chunk: seq<Event>, c: nat)
    requires 0 < |chunk| <= c <= MAX_ROWS
    requires Grew(before, mid, c, multiset(Flatten(chunks)))
    requires Grew(mid, after, Clamp(|chunk|, 1, MAX_ROWS), multiset(chunk))
    ensures Grew(before, after, c, multiset(Flatten(chunks + [chunk])))
  {
    hide Grew, Flatten;
    StreamingChunk(before, mid, after, chunks, chunk, c, multiset(chunk));
  }

  // What a failing insert leaves: `full` chunks, then part of the next c events.
  ghost predicate PartlyStreamed(
    all: seq<Event>, c: nat, before: seq<seq<Event>>, after: seq<seq<Event>>, chunks: seq<seq<Event>>)
  {
    && Flatten(chunks) <= all && (forall k | 0 <= k < |chunks| :: |chunks[k]| == c)
    && exists part: multiset<Event> ::
         && part < multiset(all[|Flatten(chunks)|..Min(|Flatten(chunks)| + c, |all|)])
         && Grew(before, after, c, multiset(Flatten(chunks)) + part)
  }

  lemma PartStreamed(
    all: seq<Event>, c: nat, before: seq<seq<Event>>, after: seq<seq<Event>>, chunks: seq<seq<Event>>, part: multiset<Event>)
    requires Flatten(chunks) <= all && forall k | 0 <= k < |chunks| :: |chunks[k]| == c
    requires part < multiset(all[|Flatten(chunks)|..Min(|Flatten(chunks)| + c, |all|)])
    requires Grew(before, after, c, multiset(Flatten(chunks)) + part)
    ensures PartlyStreamed(all, c, before, after, chunks)
  {
  }

  lemma NextSlice(front: seq<Event>, next: seq<Event>, all: seq<Event>, c: nat)
    requires front + next <= all && |next| <= c && (|next| == c || front + next == all)
    ensures front <= all && all[|front|..Min(|front| + c, |all|)] == next
  {
    assert all[..|front + next|] == front + next;
    assert all[|front|..|front| + |next|] == (front + next)[|front|..];
  }

  lemma {:induction false} StreamFailure(
    all: seq<Event>, c: nat, before: seq<seq<Event>>, mid: seq<seq<Event>>, after: seq<seq<Event>>,
    chunks: seq<seq<Event>>, chunk: seq<Event>)
    requires Flatten(chunks) + chunk <= all && forall k | 0 <= k < |chunks| :: |chunks[k]| == c
    requires |chunk| == c || Flatten(chunks) + chunk == all
    requires 0 < |chunk| <= c <= MAX_ROWS
    requires Grew(before, mid, c, multiset(Flatten(chunks)))
    requires exists part: multiset<Event> :: part < multiset(chunk) && Grew(mid, after, Clamp(|chunk|, 1, MAX_ROWS), part)
    ensures PartlyStreamed(all, c, before, after, chunks)
  {
    hide *;
    var part: multiset<Event> :| part < multiset(chunk) && Grew(mid, after, Clamp(|chunk|, 1, MAX_ROWS), part);
    StreamingChunk(before, mid, after, chunks, chunk, c, part);
    NextSlice(Flatten(chunks), chunk, all, c);
    PartStreamed(all, c, before, after, chunks, part);
  }

  // A line more: a line that is no event changes nothing.
  lemma StreamingLine(
    lines: seq<string>, i: nat, parse: LineParser, c: nat, before: seq<seq<Event>>, after: seq<seq<Event>>,
    chunks: seq<seq<Event>>, chunk: seq<Event>, total: nat, reports: seq<Report>)
    requires Streaming(lines, i, parse, c, before, after, chunks, chunk, total, reports) && i < |lines|
    ensures var e := EventOf(lines[i], parse);
      if e.None? then Streaming(lines, i + 1, parse, c, before, after, chunks, chunk, total, reports)
      else
        && |chunk| + 1 <= c
        && Flatten(chunks) + (chunk + [e.value]) == IngestJsonl(lines[..i + 1], parse)
        && (|chunk| + 1 < c ==> Streaming(lines, i + 1, parse, c, before, after, chunks, chunk + [e.value], total, reports))
  {
    hide Grew, StreamReports, Flatten, EventOf;
    assert lines[..i + 1][..i] == lines[..i];
    var e := EventOf(lines[i], parse);
    if e.Some? {
      assert Flatten(chunks) + (chunk + [e.value]) == Flatten(chunks) + chunk + [e.value];
    }
  }

  // A full chunk, inserted.
  lemma StreamingFull(
    lines: seq<string>, i: nat, parse: LineParser, c: nat, before: seq<seq<Event>>, mid: seq<seq<Event>>,
    after: seq<seq<Event>>, chunks: seq<seq<Event>>, waiting: seq<Event>, chunk: seq<Event>, total: nat, reports: seq<Report>)
    requires 0 < c <= MAX_ROWS && i < |lines| && |chunk| == c
    requires Streaming(lines, i, parse, c, before, mid, chunks, waiting, total, reports)
    requires Flatten(chunks) + chunk == IngestJsonl(lines[..i + 1], parse)
    requires Grew(mid, after, Clamp(|chunk|, 1, MAX_ROWS), multiset(chunk))
    ensures Streaming(lines, i + 1, parse, c, before, after, chunks + [chunk], [], total + |chunk|,
                      reports + [Report(|chunks| + 1, |chunks| + 1, total + |chunk|)])
  {
    hide Grew, StreamReports, Flatten, IngestJsonl, Clamp;
    ChunkInserted(before, mid, after, chunks, chunk, c);
    StreamReportsAppend(reports, chunks, chunk, Report(|chunks| + 1, |chunks| + 1, total + |chunk|));
    FlattenAppend(chunks, chunk);
    assert Flatten(chunks + [chunk]) + [] == Flatten(chunks) + chunk;
  }

  lemma StreamingStart(lines: seq<string>, parse: LineParser, c: nat, before: seq<seq<Event>>)
    requires c > 0
    ensures Streaming(lines, 0, parse, c, before, before, [], [], 0, [])
  {
    assert lines[..0] == [];
    assert multiset(Flatten<Event>([])) == multiset{};
  }

  lemma StreamingFails(
    lines: seq<string>, i: nat, k: nat, parse: LineParser, c: nat, before: seq<seq<Event>>, mid: seq<seq<Event>>,
    after: seq<seq<Event>>, chunks: seq<seq<Event>>, waiting: seq<Event>, chunk: seq<Event>, total: nat, reports: seq<Report>)
    requires 0 < c <= MAX_ROWS && i <= k <= |lines| && 0 < |chunk| <= c && (|chunk| == c || k == |lines|)
    requires Streaming(lines, i, parse, c, before, mid, chunks, waiting, total, reports)
    requires Flatten(chunks) + chunk == IngestJsonl(lines[..k], parse)
    requires exists rows: multiset<Event> :: rows < multiset(chunk) && Grew(mid, after, Clamp(|chunk|, 1, MAX_ROWS), rows)
    ensures PartlyStreamed(IngestJsonl(lines, parse), c, before, after, chunks) && StreamReports(reports, chunks)
  {
    hide Grew, StreamReports, Flatten, IngestJsonl, PartlyStreamed;
    IngestPrefix(lines, k, parse);
    assert k == |lines| ==> lines[..k] == lines;
    StreamFailure(IngestJsonl(lines, parse), c, before, mid, after, chunks, chunk);
  }

  lemma StreamingWaits(
    lines: seq<string>, parse: LineParser, c: nat, before: seq<seq<Event>>, mid: seq<seq<Event>>,
    chunks: seq<seq<Event>>, chunk: seq<Event>, total: nat, reports: seq<Report>)
    requires Streaming(lines, |lines|, parse, c, before, mid, chunks, chunk, total, reports)
    ensures |chunk| < c && Flatten(chunks) + chunk == IngestJsonl(lines[..|lines|], parse)
  {
  }

  lemma StreamingStopped(
    lines: seq<string>, parse: LineParser, c: nat, before: seq<seq<Event>>, mid: seq<seq<Event>>,
    chunks: seq<seq<Event>>, chunk: seq<Event>, total: nat, reports: seq<Report>)
    requires Streaming(lines, |lines|, parse, c, before, mid, chunks, chunk, total, reports)
    ensures var all := IngestJsonl(lines, parse);
      && Flatten(chunks) <= all && |all| - |Flatten(chunks)| < c
      && (forall k | 0 <= k < |chunks| :: |chunks[k]| == c)
      && Grew(before, mid, c, multiset(Flatten(chunks))) && StreamReports(reports, chunks)
  {
    hide Grew, StreamReports, Flatten, IngestJsonl;
    assert lines[..|lines|] == lines;
  }

  // The end of the text: the waiting events are the last round, when there are any.
  lemma StreamingEnds(
    lines: seq<string>, parse: LineParser, c: nat, before: seq<seq<Event>>, mid: seq<seq<Event>>, after: seq<seq<Event>>,
    chunks: seq<seq<Event>>, chunk: seq<Event>, total: nat, reports: seq<Report>)
    requires 0 < c <= MAX_ROWS && Streaming(lines, |lines|, parse, c, before, mid, chunks, chunk, total, reports)
    requires if chunk == [] then after == mid else Grew(mid, after, Clamp(|chunk|, 1, MAX_ROWS), multiset(chunk))
    ensures var all := IngestJsonl(lines, parse);
      && total + |chunk| == |all|
      && Grew(before, after, c, multiset(all))
      && StreamReports(reports, chunks)
      && (chunk == [] ==> chunks == Rounds(all, c))
      && (chunk != [] ==>
            && chunks + [chunk] == Rounds(all, c)
            && StreamReports(reports + [Report(|chunks| + 1, |chunks| + 1, total + |chunk|)], chunks + [chunk]))
  {
    hide Grew, StreamReports, Flatten, IngestJsonl, Rounds;
    assert lines[..|lines|] == lines;
    if chunk == [] {
      assert Flatten(chunks) + [] == Flatten(chunks);
      RoundsExact(chunks, c);
    } else {
      StreamingChunk(before, mid, after, chunks, chunk, c, multiset(chunk));
      StreamReportsAppend(reports, chunks, chunk, Report(|chunks| + 1, |chunks| + 1, total + |chunk|));
      RoundsAppend(chunks, chunk, c);
      FlattenAppend(chunks, chunk);
    }
  }

  datatype StreamResult = Streamed(total: nat) | ReadError | InsertError

  // `chunks` are the chunks whose insert succeeded. A complete stream hands over exactly the rounds of what ingest_jsonl
  // returns for the whole text. A read error loses the fewer than c events read since the last full chunk. A failing
  // insert stops after the full chunks and part of the next one.
  method InsertJsonlFileChunked(ch: ClickHouse, source: Source, parse: LineParser, chunkSize: nat)
    returns (result: StreamResult, reports: seq<Report>, ghost chunks: seq<seq<Event>>)
    modifies ch
    ensures StreamReports(reports, chunks)
    ensures AreEvents(IngestJsonl(source.lines, parse), source.lines, parse)
    ensures var c := Clamp(chunkSize, MIN_ROUND, MAX_ROWS);
            var all := IngestJsonl(source.lines, parse);
            match result
            case Streamed(total) =>
              && !source.failsAfter && total == |all| && chunks == Rounds(all, c)
              && Grew(old(ch.inserted), ch.inserted, c, multiset(all))
            case ReadError =>
              && source.failsAfter && Flatten(chunks) <= all && |all| - |Flatten(chunks)| < c
              && (forall k | 0 <= k < |chunks| :: |chunks[k]| == c)
              && Grew(old(ch.inserted), ch.inserted, c, multiset(Flatten(chunks)))
            case InsertError => PartlyStreamed(all, c, old(ch.inserted), ch.inserted, chunks)
  {
    hide Flatten, IngestJsonl, Streaming, StreamReports, Grew, PartlyStreamed, Rounds, EventOf, Reported, AreEvents;
    IngestedAreEvents(source.lines, parse);
    var c := Clamp(chunkSize, MIN_ROUND, MAX_ROWS);
    var chunk: seq<Event> := [];
    var total: nat := 0;
    var batchIdx := 0;
    reports, chunks := [], [];
    ghost var before := ch.inserted;
    StreamingStart(source.lines, parse, c, before);
    for i := 0 to |source.lines|
      invariant batchIdx == |chunks|
      invariant Streaming(source.lines, i, parse, c, before, ch.inserted, chunks, chunk, total, reports)
    {
      StreamingLine(source.lines, i, parse, c, before, ch.inserted, chunks, chunk, total, reports);
      var e := EventOf(source.lines[i], parse);
      if e.Some? {
        ghost var waiting, mid := chunk, ch.inserted;
        chunk := chunk + [e.value];
        if |chunk| >= c {
          var n, _ := InsertEventsChunked(ch, chunk, |chunk|);
          if n.None? {
            StreamingFails(source.lines, i, i + 1, parse, c, before, mid, ch.inserted, chunks, waiting, chunk, total, reports);
            return InsertError, reports, chunks;
          }
          StreamingFull(source.lines, i, parse, c, before, mid, ch.inserted, chunks, waiting, chunk, total, reports);
          batchIdx := batchIdx + 1;
          total := total + n.value;
          reports := reports + [Report(batchIdx, batchIdx, total)];
          chunks := chunks + [chunk];
          chunk := [];
        }
      }
    }
    ghost var mid := ch.inserted;
    if source.failsAfter {
      StreamingStopped(source.lines, parse, c, before, mid, chunks, chunk, total, reports);
      return ReadError, reports, chunks;
    }
    if chunk != [] {
      var n, _ := InsertEventsChunked(ch, chunk, |chunk|);
      if n.None? {
        StreamingWaits(source.lines, parse, c, before, mid, chunks, chunk, total, reports);
        StreamingFails(source.lines, |source.lines|, |source.lines|, parse, c, before, mid, ch.inserted, chunks, chunk, chunk,
                       total, reports);
        return InsertError, reports, chunks;
      }
      StreamingWaits(source.lines, parse, c, before, mid, chunks, chunk, total, reports);
      StreamingEnds(source.lines, parse, c, before, mid, ch.inserted, chunks, chunk, total, reports);
      batchIdx := batchIdx + 1;
      total := total + n.value;
      reports := reports + [Report(batchIdx, batchIdx, total)];
      chunks := chunks + [chunk];
    } else {
      StreamingEnds(source.lines, parse, c, before, mid, mid, chunks, chunk, total, reports);
    }
    result := Streamed(total);
  }
}
