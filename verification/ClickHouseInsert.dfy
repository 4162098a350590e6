/** The batching, draining and streaming insert loops. */
module ClickHouseInsert {
  import opened Wrappers
  import opened Sets
  import opened Sequences
  import opened Batching

  // ----- partition_batches

  // All events before n of one day, in their original order.
  predicate IsGroup(days: seq<int>, n: nat, day: int, rows: seq<nat>)
    requires n <= |days|
  {
    && (forall p | 0 <= p < |rows| :: rows[p] < n && days[rows[p]] == day)
    && (forall p, q | 0 <= p < q < |rows| :: rows[p] < rows[q])
    && (forall i: nat | i < n && days[i] == day :: i in rows)
  }

  lemma GroupSize(days: seq<int>, day: int, rows: seq<nat>)
    requires IsGroup(days, |days|, day, rows)
    ensures |rows| == |DayRows(days, day)|
  {
    DistinctSize(rows);
    assert Elements(rows) == DayRows(days, day);
  }

  // Rows of the days in `done`, in stable order.
  ghost predicate Placed(days: seq<int>, done: set<int>, rows: seq<nat>) {
    && Indices(days, rows)
    && StablySorted(days, rows)
    && (forall p | 0 <= p < |rows| :: days[rows[p]] in done)
    && (forall i: nat | i < |days| && days[i] in done :: i in rows)
  }

  lemma PlaceGroup(days: seq<int>, done: set<int>, rows: seq<nat>, day: int, group: seq<nat>)
    requires Placed(days, done, rows) && IsGroup(days, |days|, day, group)
    requires forall d | d in done :: d < day
    ensures Placed(days, done + {day}, rows + group)
  {
    var all := rows + group;
    forall p, q | 0 <= p < q < |all|
      ensures days[all[p]] < days[all[q]] || (days[all[p]] == days[all[q]] && all[p] < all[q])
    {
    }
  }

  // What the packer has built: closed batches and, unless it is empty, the open one.
  function Built(batches: seq<seq<nat>>, current: seq<nat>): seq<seq<nat>> {
    if current == [] then batches else batches + [current]
  }

  // The open batch holds whole days only, and knows how many.
  ghost predicate Open(days: seq<int>, maxRows: nat, current: seq<nat>, daysInBatch: nat) {
    && Indices(days, current)
    && |current| <= maxRows && daysInBatch <= MAX_PARTITION_DAYS
    && |DaySet(days, current)| == daysInBatch
    && (current == [] <==> daysInBatch == 0)
    && forall i | i in current :: !Oversize(days, maxRows, days[i])
  }

  ghost predicate Earlier(days: seq<int>, rows: seq<nat>, day: int) {
    Indices(days, rows) && forall i | i in rows :: days[i] < day
  }

  ghost predicate AllEarlier(days: seq<int>, batches: seq<seq<nat>>, day: int) {
    forall k | 0 <= k < |batches| :: Earlier(days, batches[k], day)
  }

  lemma {:induction false} FlattenEarlier(days: seq<int>, batches: seq<seq<nat>>, current: seq<nat>, day: int)
    requires Earlier(days, Flatten(batches) + current, day)
    ensures AllEarlier(days, batches, day) && Earlier(days, current, day)
  {
    var f := Flatten(batches);
    var all := f + current;
    assert forall p | 0 <= p < |f| :: f[p] == all[p];
    assert forall p | 0 <= p < |current| :: current[p] == all[|f| + p];
    forall k, i | 0 <= k < |batches| && i in batches[k]
      ensures i in f
    {
      FlattenMember(batches, i);
    }
    forall k | 0 <= k < |batches|
      ensures Earlier(days, batches[k], day)
    {
      forall p | 0 <= p < |batches[k]|
        ensures batches[k][p] < |days|
      {
        assert batches[k][p] in f;
      }
    }
  }

  lemma BuiltFlatten(batches: seq<seq<nat>>, current: seq<nat>)
    ensures Flatten(Built(batches, current)) == Flatten(batches) + current
  {
    if current != [] {
      FlattenAppend(batches, current);
    }
  }

  lemma {:induction false} DaySetGrow(days: seq<int>, rows: seq<nat>, day: int, group: seq<nat>)
    requires Earlier(days, rows, day) && group != []
    requires Indices(days, group) && forall i | i in group :: days[i] == day
    ensures Indices(days, rows + group)
    ensures DaySet(days, rows + group) == DaySet(days, rows) + {day}
    ensures day !in DaySet(days, rows)
    ensures forall i | i in rows + group :: i in rows || i in group
  {
    assert group[0] in group && group[0] in rows + group;
    assert forall i | i in rows :: i in rows + group;
  }

  // Adding a day that fits to the open batch.
  lemma {:induction false} Grow(
    days: seq<int>, maxRows: nat, batches: seq<seq<nat>>, current: seq<nat>, daysInBatch: nat, day: int, group: seq<nat>)
    requires Packed(days, maxRows, batches + [current]) && Open(days, maxRows, current, daysInBatch)
    requires IsGroup(days, |days|, day, group) && group != [] && !Oversize(days, maxRows, day)
    requires AllEarlier(days, batches, day) && Earlier(days, current, day)
    requires daysInBatch < MAX_PARTITION_DAYS && |current| + |group| <= maxRows
    ensures Packed(days, maxRows, batches + [current + group])
    ensures Open(days, maxRows, current + group, daysInBatch + 1)
  {
    var c := current + group;
    DaySetGrow(days, current, day, group);
    PackedPrefix(days, maxRows, batches, current);
    forall k | 0 <= k < |batches|
      ensures ApartDays(days, maxRows, batches[k], c)
    {
      assert Earlier(days, batches[k], day) && ApartDays(days, maxRows, batches[k], current);
    }
    assert c[0] == current[0];
    PackedAppend(days, maxRows, batches, c);
  }

  // Starting a batch with a day that did not fit, or that follows an oversize day.
  lemma {:induction false} StartBatch(
    days: seq<int>, maxRows: nat, batches: seq<seq<nat>>, day: int, group: seq<nat>)
    requires Packed(days, maxRows, batches) && AllEarlier(days, batches, day)
    requires IsGroup(days, |days|, day, group) && group != [] && !Oversize(days, maxRows, day)
    requires batches != [] ==> ClosableBefore(days, maxRows, batches[|batches| - 1], day)
    ensures Packed(days, maxRows, batches + [group])
    ensures Open(days, maxRows, group, 1)
  {
    DaySetGrow(days, [], day, group);
    assert [] + group == group;
    GroupSize(days, day, group);
    assert DaySet(days, []) == {};
    forall k | 0 <= k < |batches|
      ensures ApartDays(days, maxRows, batches[k], group)
    {
      assert Earlier(days, batches[k], day);
    }
    PackedAppend(days, maxRows, batches, group);
  }

  // A closed batch may be followed by a batch that starts a new day.
  ghost predicate ClosableBefore(days: seq<int>, maxRows: nat, b: seq<nat>, day: int) {
    && BatchOk(days, maxRows, b)
    && days[b[0]] != day
    && (|b| + |DayRows(days, day)| > maxRows
        || |DaySet(days, b)| == MAX_PARTITION_DAYS
        || Oversize(days, maxRows, days[b[0]]))
  }

  // The parts of an oversize day come one after another, each full except for the last.
  lemma {:induction false} AppendPart(
    days: seq<int>, maxRows: nat, batches: seq<seq<nat>>, day: int, part: seq<nat>)
    requires Packed(days, maxRows, batches) && Oversize(days, maxRows, day)
    requires 0 < |part| <= maxRows && Indices(days, part) && forall i | i in part :: days[i] == day
    requires AllEarlier(days, batches, day + 1)
    requires batches != [] ==>
      BatchOk(days, maxRows, batches[|batches| - 1])
      && (days[batches[|batches| - 1][0]] == day ==> |batches[|batches| - 1]| == maxRows)
    ensures Packed(days, maxRows, batches + [part])
    ensures AllEarlier(days, batches + [part], day + 1)
  {
    OneDayPart(days, day, part);
    hide DaySet, DayRows;
    PackedAppend(days, maxRows, batches, part);
  }

  lemma OneDayPart(days: seq<int>, day: int, part: seq<nat>)
    requires part != [] && Indices(days, part) && forall i | i in part :: days[i] == day
    ensures DaySet(days, part) == {day} && |DaySet(days, part)| == 1
  {
    assert part[0] in part;
  }

  predicate PartOf(part: seq<nat>, indices: seq<nat>) {
    part != [] && part[0] in indices
  }

  lemma SliceStep(a: seq<nat>, b: seq<nat>, i: nat, j: nat)
    requires i <= j <= |b|
    ensures (a + b[..i]) + b[i..j] == a + b[..j]
  {
  }

  // Where the splitting of an oversize day stands: its first `start` rows are in batches of their own.
  ghost predicate Splitting(days: seq<int>, maxRows: nat, closed: seq<seq<nat>>, day: int, indices: seq<nat>,
                            batches: seq<seq<nat>>, start: nat)
  {
    && start <= |indices|
    && Packed(days, maxRows, batches) && AllEarlier(days, batches, day + 1)
    && closed <= batches
    && Flatten(batches) == Flatten(closed) + indices[..start]
    && (start == 0 ==> batches == closed)
    && (start > 0 ==> |batches| > |closed| && PartOf(batches[|batches| - 1], indices))
    && (0 < start < |indices| ==> |batches[|batches| - 1]| == maxRows)
  }

  lemma {:induction false} SplitStep(
    days: seq<int>, maxRows: nat, closed: seq<seq<nat>>, day: int, indices: seq<nat>,
    batches: seq<seq<nat>>, start: nat, end: nat)
    requires maxRows >= 1 && IsGroup(days, |days|, day, indices) && Oversize(days, maxRows, day)
    requires AllEarlier(days, closed, day) && Splitting(days, maxRows, closed, day, indices, batches, start)
    requires start < |indices| && end == if start + maxRows < |indices| then start + maxRows else |indices|
    ensures Splitting(days, maxRows, closed, day, indices, batches + [indices[start..end]], end)
  {
    var part := indices[start..end];
    assert part[0] == indices[start] && PartOf(part, indices);
    if batches != [] {
      var last := batches[|batches| - 1];
      assert BatchOk(days, maxRows, last);
      if start == 0 {
        assert Earlier(days, last, day) && last[0] in last;
      }
    }
    AppendPart(days, maxRows, batches, day, part);
    FlattenAppend(batches, part);
    SliceStep(Flatten(closed), indices, start, end);
  }

  // `indices.chunks(max_rows)` for a day that is over the cap.
  method SplitDay(
    days: seq<int>, maxRows: nat, ghost done: set<int>, closed: seq<seq<nat>>, day: int, indices: seq<nat>)
    returns (batches: seq<seq<nat>>)
    requires maxRows >= 1 && Closed(days, maxRows, done, closed, day, indices) && Oversize(days, maxRows, day)
    ensures Splitting(days, maxRows, closed, day, indices, batches, |indices|) && |batches| > |closed|
    ensures Flatten(batches) == Flatten(closed) + indices
  {
    GroupSize(days, day, indices);
    batches := closed;
    var start := 0;
    assert AllEarlier(days, closed, day + 1) by {
      forall k | 0 <= k < |closed| ensures Earlier(days, closed[k], day + 1) {
        assert Earlier(days, closed[k], day);
      }
    }
    assert Flatten(closed) + indices[..0] == Flatten(closed);
    while start < |indices|
      invariant Splitting(days, maxRows, closed, day, indices, batches, start)
      decreases |indices| - start
    {
      var end := if start + maxRows < |indices| then start + maxRows else |indices|;
      SplitStep(days, maxRows, closed, day, indices, batches, start, end);
      batches := batches + [indices[start..end]];
      start := end;
    }
    assert indices[..|indices|] == indices;
  }

  lemma GroupGrows(days: seq<int>, i: nat, d: int, rows: seq<nat>)
    requires i < |days| && IsGroup(days, i, d, rows)
    ensures IsGroup(days, i + 1, d, if days[i] == d then rows + [i] else rows)
  {
    var r := if days[i] == d then rows + [i] else rows;
    forall k: nat | k < i + 1 && days[k] == d ensures k in r {
      assert k < i ==> k in rows;
      assert k == i ==> r[|rows|] == k;
    }
  }

  lemma NoGroup(days: seq<int>, i: nat, d: int)
    requires i <= |days| && forall k | 0 <= k < i :: days[k] != d
    ensures IsGroup(days, i, d, [])
  {
  }

  method GroupByDay(days: seq<int>) returns (byDay: map<int, seq<nat>>)
    ensures forall d | d in byDay :: byDay[d] != [] && IsGroup(days, |days|, d, byDay[d])
    ensures forall k | 0 <= k < |days| :: days[k] in byDay
  {
    hide IsGroup;
    byDay := map[];
    for i := 0 to |days|
      invariant forall d | d in byDay :: byDay[d] != [] && IsGroup(days, i, d, byDay[d])
      invariant forall k | 0 <= k < i :: days[k] in byDay
    {
      var day := days[i];
      var rows := if day in byDay then byDay[day] else [];
      if day !in byDay {
        NoGroup(days, i, day);
      }
      forall d | d in byDay || d == day ensures IsGroup(days, i + 1, d, if d == day then rows + [i] else byDay[d]) {
        GroupGrows(days, i, d, if d == day then rows else byDay[d]);
      }
      byDay := byDay[day := rows + [i]];
    }
  }

  // Between two days: the rows of the days in `done` are packed, the last few whole days still in the open batch.
  ghost predicate Packing(days: seq<int>, maxRows: nat, done: set<int>,
                          batches: seq<seq<nat>>, current: seq<nat>, daysInBatch: nat)
  {
    && Placed(days, done, Flatten(batches) + current)
    && Packed(days, maxRows, Built(batches, current))
    && Open(days, maxRows, current, daysInBatch)
    && (current == [] && batches != [] ==>
          var last := batches[|batches| - 1];
          last != [] && last[0] < |days| && Oversize(days, maxRows, days[last[0]]))
  }

  // The facts about the next day that every branch uses.
  ghost predicate NextDay(days: seq<int>, done: set<int>, day: int, group: seq<nat>) {
    && IsGroup(days, |days|, day, group) && group != []
    && forall d | d in done :: d < day
  }

  lemma {:induction false} PackingEarlier(
    days: seq<int>, maxRows: nat, done: set<int>, batches: seq<seq<nat>>, current: seq<nat>, daysInBatch: nat,
    day: int, group: seq<nat>)
    requires Packing(days, maxRows, done, batches, current, daysInBatch) && NextDay(days, done, day, group)
    ensures AllEarlier(days, batches, day) && Earlier(days, current, day)
    ensures Placed(days, done + {day}, Flatten(batches) + current + group)
    ensures |group| == |DayRows(days, day)|
  {
    var all := Flatten(batches) + current;
    assert forall p | 0 <= p < |all| :: days[all[p]] < day;
    FlattenEarlier(days, batches, current, day);
    PlaceGroup(days, done, all, day, group);
    GroupSize(days, day, group);
  }

  lemma {:induction false} GrowStep(
    days: seq<int>, maxRows: nat, done: set<int>, batches: seq<seq<nat>>, current: seq<nat>, daysInBatch: nat,
    day: int, group: seq<nat>)
    requires Packing(days, maxRows, done, batches, current, daysInBatch) && NextDay(days, done, day, group)
    requires current != [] && daysInBatch < MAX_PARTITION_DAYS && |current| + |group| <= maxRows
    ensures Packing(days, maxRows, done + {day}, batches, current + group, daysInBatch + 1)
  {
    assert !Oversize(days, maxRows, day) by {
      NextDaySize(days, maxRows, done, day, group);
    }
    hide Packed, Placed, Earlier, AllEarlier, Flatten, Oversize, DayRows, DaySet, Indices, Open, IsGroup;
    PackingEarlier(days, maxRows, done, batches, current, daysInBatch, day, group);
    Grow(days, maxRows, batches, current, daysInBatch, day, group);
    assert Flatten(batches) + current + group == Flatten(batches) + (current + group);
  }

  // The next day has been reached with every earlier batch closed.
  ghost predicate Closed(days: seq<int>, maxRows: nat, done: set<int>, closed: seq<seq<nat>>, day: int, group: seq<nat>) {
    && NextDay(days, done, day, group)
    && Packed(days, maxRows, closed) && AllEarlier(days, closed, day)
    && Placed(days, done + {day}, Flatten(closed) + group)
    && (closed != [] ==> ClosableBefore(days, maxRows, closed[|closed| - 1], day))
  }

  lemma NextDaySize(days: seq<int>, maxRows: nat, done: set<int>, day: int, group: seq<nat>)
    requires NextDay(days, done, day, group)
    ensures |group| > maxRows <==> Oversize(days, maxRows, day)
  {
    GroupSize(days, day, group);
  }

  // The last of the batches, or the open one, was closed with reason.
  lemma LastClosable(
    days: seq<int>, maxRows: nat, current: seq<nat>, daysInBatch: nat, day: int, rows: nat)
    requires BatchOk(days, maxRows, current) && Earlier(days, current, day) && rows == |DayRows(days, day)|
    requires |DaySet(days, current)| == daysInBatch
    requires daysInBatch >= MAX_PARTITION_DAYS || |current| + rows > maxRows
    ensures ClosableBefore(days, maxRows, current, day)
  {
    assert current[0] in current;
    hide DayRows, DaySet, Oversize;
  }

  lemma LastOversize(days: seq<int>, maxRows: nat, last: seq<nat>, day: int)
    requires BatchOk(days, maxRows, last) && Earlier(days, last, day) && Oversize(days, maxRows, days[last[0]])
    ensures ClosableBefore(days, maxRows, last, day)
  {
    assert last[0] in last;
    hide DayRows, DaySet, Oversize;
  }

  lemma ClosedParts(days: seq<int>, batches: seq<seq<nat>>, current: seq<nat>, day: int)
    requires AllEarlier(days, batches, day) && Earlier(days, current, day)
    ensures AllEarlier(days, Built(batches, current), day)
  {
    hide Earlier;
  }

  lemma LastEarlier(days: seq<int>, batches: seq<seq<nat>>, day: int)
    requires batches != []
    ensures AllEarlier(days, batches, day) ==> Earlier(days, batches[|batches| - 1], day)
  {
  }

  lemma PackedLast(days: seq<int>, maxRows: nat, batches: seq<seq<nat>>)
    requires Packed(days, maxRows, batches) && batches != []
    ensures BatchOk(days, maxRows, batches[|batches| - 1])
  {
  }

  // Closing the open batch, if there is one; `closed` is what the first `if` leaves.
  lemma {:induction false} CloseStep(
    days: seq<int>, maxRows: nat, done: set<int>, batches: seq<seq<nat>>, current: seq<nat>, daysInBatch: nat,
    day: int, group: seq<nat>, closed: seq<seq<nat>>)
    requires Packing(days, maxRows, done, batches, current, daysInBatch) && NextDay(days, done, day, group)
    requires current != [] ==> daysInBatch >= MAX_PARTITION_DAYS || |current| + |group| > maxRows
    requires closed == if current == [] then batches else batches + [current]
    ensures Closed(days, maxRows, done, closed, day, group)
    ensures current == [] ==> daysInBatch == 0
  {
    hide Packed, Placed, BatchOk, Earlier, AllEarlier, ClosableBefore, NextDay, Flatten, Oversize, DayRows, DaySet, Indices;
    PackingEarlier(days, maxRows, done, batches, current, daysInBatch, day, group);
    BuiltFlatten(batches, current);
    ClosedParts(days, batches, current, day);
    if closed != [] {
      PackedLast(days, maxRows, closed);
      if current != [] {
        LastClosable(days, maxRows, current, daysInBatch, day, |group|);
      } else {
        LastEarlier(days, batches, day);
        LastOversize(days, maxRows, batches[|batches| - 1], day);
      }
    }
  }

  lemma {:induction false} StartStep(
    days: seq<int>, maxRows: nat, done: set<int>, closed: seq<seq<nat>>, day: int, group: seq<nat>)
    requires Closed(days, maxRows, done, closed, day, group) && |group| <= maxRows
    ensures Packing(days, maxRows, done + {day}, closed, group, 1)
  {
    GroupSize(days, day, group);
    StartBatch(days, maxRows, closed, day, group);
  }

  lemma {:induction false} SplitDone(
    days: seq<int>, maxRows: nat, done: set<int>, closed: seq<seq<nat>>, day: int, group: seq<nat>,
    batches: seq<seq<nat>>)
    requires Closed(days, maxRows, done, closed, day, group) && Oversize(days, maxRows, day)
    requires Splitting(days, maxRows, closed, day, group, batches, |group|)
    requires Flatten(batches) == Flatten(closed) + group
    ensures Packing(days, maxRows, done + {day}, batches, [], 0)
  {
    assert Flatten(batches) + [] == Flatten(batches);
    assert DaySet(days, []) == {};
    var last := batches[|batches| - 1];
    assert PartOf(last, group);
  }

  // The body of the packing loop.
  method PackDay(
    days: seq<int>, maxRows: nat, ghost done: set<int>, batches: seq<seq<nat>>, current: seq<nat>, daysInBatch: nat,
    day: int, indices: seq<nat>)
    returns (batches': seq<seq<nat>>, current': seq<nat>, daysInBatch': nat)
    requires maxRows >= 1
    requires Packing(days, maxRows, done, batches, current, daysInBatch) && NextDay(days, done, day, indices)
    ensures Packing(days, maxRows, done + {day}, batches', current', daysInBatch')
  {
    hide *;
    NextDaySize(days, maxRows, done, day, indices);
    batches', current', daysInBatch' := batches, current, daysInBatch;
    var full := (daysInBatch >= MAX_PARTITION_DAYS || (current != [] && |current| + |indices| > maxRows)) && current != [];
    if full {
      batches' := batches + [current];
      current' := [];
      daysInBatch' := 0;
    }
    ghost var closed := batches';
    if full || current == [] {
      CloseStep(days, maxRows, done, batches, current, daysInBatch, day, indices, closed);
    }
    if |indices| > maxRows {
      // The open batch is empty here: whenever it was not, the test above has just closed it.
      assert current' == [];
      batches' := SplitDay(days, maxRows, done, batches', day, indices);
      SplitDone(days, maxRows, done, closed, day, indices, batches');
      return;
    }
    if current' == [] {
      StartStep(days, maxRows, done, batches', day, indices);
      assert current' + indices == indices;
    } else {
      GrowStep(days, maxRows, done, batches, current, daysInBatch, day, indices);
    }
    current' := current' + indices;
    daysInBatch' := daysInBatch' + 1;
  }

  lemma PackingStart(days: seq<int>, maxRows: nat)
    ensures Packing(days, maxRows, {}, [], [], 0)
  {
    assert DaySet(days, []) == {};
  }

  // When every day is done, closing the open batch gives the result.
  lemma {:induction false} PackingDone(
    days: seq<int>, maxRows: nat, done: set<int>, batches: seq<seq<nat>>, current: seq<nat>, daysInBatch: nat)
    requires Packing(days, maxRows, done, batches, current, daysInBatch)
    requires forall k | 0 <= k < |days| :: days[k] in done
    ensures IsStableOrder(days, Flatten(Built(batches, current)))
    ensures Packed(days, maxRows, Built(batches, current))
  {
    BuiltFlatten(batches, current);
  }

  method PartitionBatches(days: seq<int>, maxRows: nat) returns (batches: seq<seq<nat>>)
    requires maxRows >= 1
    ensures IsStableOrder(days, Flatten(batches))
    ensures Packed(days, maxRows, batches)
  {
    hide Packing, IsGroup, IsStableOrder, Packed, Flatten;
    var byDay := GroupByDay(days);
    batches := [];
    var current: seq<nat> := [];
    var daysInBatch := 0;
    var remaining := byDay.Keys;
    ghost var done: set<int> := {};
    PackingStart(days, maxRows);
    while remaining != {}
      invariant remaining <= byDay.Keys && done == byDay.Keys - remaining
      invariant forall d, d' | d in done && d' in remaining :: d < d'
      invariant Packing(days, maxRows, done, batches, current, daysInBatch)
      decreases remaining
    {
      ghost var least := LeastExists(remaining);
      var day :| day in remaining && forall d | d in remaining :: day <= d;
      batches, current, daysInBatch :=
        PackDay(days, maxRows, done, batches, current, daysInBatch, day, byDay[day]);
      remaining := remaining - {day};
      done := done + {day};
    }
    PackingDone(days, maxRows, done, batches, current, daysInBatch);
    batches := if current == [] then batches else batches + [current];
  }
}
