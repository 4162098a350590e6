/**
 What a good cutting of events into insert batches is: rows in stable day order, under a row cap and a
 cap on the daily partitions one insert touches, with as few batches as possible.
 */
module Batching {
  import opened Sets
  import opened Sequences

  // ClickHouse rejects inserts that touch too many daily partitions.
  const MAX_PARTITION_DAYS: nat := 90

  // days[i] is the partition day of event i.
  predicate Indices(days: seq<int>, rows: seq<nat>) {
    forall p | 0 <= p < |rows| :: rows[p] < |days|
  }

  function DayRows(days: seq<int>, day: int): set<nat> {
    set i: nat | i < |days| && days[i] == day
  }

  predicate Oversize(days: seq<int>, maxRows: nat, day: int) {
    |DayRows(days, day)| > maxRows
  }

  predicate NoneOversize(days: seq<int>, maxRows: nat) {
    forall i: nat | i < |days| :: !Oversize(days, maxRows, days[i])
  }

  function DaySet(days: seq<int>, rows: seq<nat>): set<int>
    requires Indices(days, rows)
  {
    set i | i in rows :: days[i]
  }

  // By day, and in the original order within a day: what a stable sort by day gives.
  predicate StablySorted(days: seq<int>, rows: seq<nat>)
    requires Indices(days, rows)
  {
    forall p, q | 0 <= p < q < |rows| ::
      days[rows[p]] < days[rows[q]] || (days[rows[p]] == days[rows[q]] && rows[p] < rows[q])
  }

  // Exactly the events 0..n-1, each once (distinctness follows from the order), in stable day order.
  predicate IsStableOrder(days: seq<int>, rows: seq<nat>) {
    && Indices(days, rows)
    && StablySorted(days, rows)
    && forall i: nat | i < |days| :: i in rows
  }

  predicate BatchOk(days: seq<int>, maxRows: nat, b: seq<nat>) {
    && Indices(days, b)
    && 0 < |b| <= maxRows
    && |DaySet(days, b)| <= MAX_PARTITION_DAYS
    && forall i | i in b :: Oversize(days, maxRows, days[i]) ==> DaySet(days, b) == {days[i]}
  }

  // Rows of one day land in two batches only when the day alone is over the row cap.
  predicate ApartDays(days: seq<int>, maxRows: nat, b: seq<nat>, c: seq<nat>)
    requires Indices(days, b) && Indices(days, c)
  {
    forall i, j | i in b && j in c && days[i] == days[j] :: Oversize(days, maxRows, days[i])
  }

  // Why b was closed before c: the next day would not have fitted, or b is part of an oversize day; and such parts
  // are full except for the last.
  predicate ClosedBy(days: seq<int>, maxRows: nat, b: seq<nat>, c: seq<nat>)
    requires BatchOk(days, maxRows, b) && BatchOk(days, maxRows, c)
  {
    && (|b| + |DayRows(days, days[c[0]])| > maxRows
        || |DaySet(days, b)| == MAX_PARTITION_DAYS
        || Oversize(days, maxRows, days[b[0]]))
    && (days[b[0]] == days[c[0]] ==> |b| == maxRows)
  }

  predicate Packed(days: seq<int>, maxRows: nat, batches: seq<seq<nat>>) {
    && (forall k | 0 <= k < |batches| :: BatchOk(days, maxRows, batches[k]))
    && (forall k, m | 0 <= k < m < |batches| :: ApartDays(days, maxRows, batches[k], batches[m]))
    && (forall k | 0 < k < |batches| :: ClosedBy(days, maxRows, batches[k - 1], batches[k]))
  }

  lemma PackedAppend(days: seq<int>, maxRows: nat, batches: seq<seq<nat>>, c: seq<nat>)
    requires Packed(days, maxRows, batches) && BatchOk(days, maxRows, c)
    requires forall k | 0 <= k < |batches| :: ApartDays(days, maxRows, batches[k], c)
    requires batches != [] ==> ClosedBy(days, maxRows, batches[|batches| - 1], c)
    ensures Packed(days, maxRows, batches + [c])
  {
    var bs := batches + [c];
    forall k, m | 0 <= k < m < |bs|
      ensures ApartDays(days, maxRows, bs[k], bs[m])
    {
    }
  }

  lemma PackedPrefix(days: seq<int>, maxRows: nat, batches: seq<seq<nat>>, c: seq<nat>)
    requires Packed(days, maxRows, batches + [c])
    ensures Packed(days, maxRows, batches)
    ensures BatchOk(days, maxRows, c)
    ensures forall k | 0 <= k < |batches| :: ApartDays(days, maxRows, batches[k], c)
    ensures batches != [] ==> ClosedBy(days, maxRows, batches[|batches| - 1], c)
  {
    var bs := batches + [c];
    assert bs[|batches|] == c;
    forall k | 0 <= k < |batches|
      ensures bs[k] == batches[k] && BatchOk(days, maxRows, batches[k])
    {
    }
    forall k, m | 0 <= k < m < |batches|
      ensures ApartDays(days, maxRows, batches[k], batches[m])
    {
      assert ApartDays(days, maxRows, bs[k], bs[m]);
    }
    forall k | 0 < k < |batches|
      ensures ClosedBy(days, maxRows, batches[k - 1], batches[k])
    {
      assert ClosedBy(days, maxRows, bs[k - 1], bs[k]);
    }
    forall k | 0 <= k < |batches|
      ensures ApartDays(days, maxRows, batches[k], c)
    {
      assert ApartDays(days, maxRows, bs[k], bs[|batches|]);
    }
  }

  // ----- Minimality

  predicate NoSharedDay(days: seq<int>, b: seq<nat>, c: seq<nat>)
    requires Indices(days, b) && Indices(days, c)
  {
    forall i, j | i in b && j in c :: days[i] != days[j]
  }

  // No day is cut.
  predicate WholeDays(days: seq<int>, batches: seq<seq<nat>>)
    requires forall k | 0 <= k < |batches| :: Indices(days, batches[k])
  {
    forall k, m | 0 <= k < |batches| && 0 <= m < |batches| && k != m :: NoSharedDay(days, batches[k], batches[m])
  }

  // Any cutting of the day-ordered rows into runs of whole days under the same two caps.
  predicate IsCutting(days: seq<int>, maxRows: nat, cuts: seq<seq<nat>>) {
    && (forall k | 0 <= k < |cuts| ::
          Indices(days, cuts[k]) && |cuts[k]| <= maxRows && |DaySet(days, cuts[k])| <= MAX_PARTITION_DAYS)
    && WholeDays(days, cuts)
    && IsStableOrder(days, Flatten(cuts))
  }

  // The smaller of two rows at k must occur in the other sequence, but it can occur neither before nor after k.
  lemma NextAgrees(days: seq<int>, a: seq<nat>, b: seq<nat>, k: nat)
    requires IsStableOrder(days, a) && IsStableOrder(days, b) && k < |a| == |b| && a[..k] == b[..k]
    ensures a[k] == b[k]
  {
    assert forall i | 0 <= i < k :: a[i] == a[..k][i] && b[i] == b[..k][i];
    assert forall i | 0 <= i < k :: a[i] == b[i];
    assert a[k] in b && b[k] in a;
    var p :| 0 <= p < |b| && b[p] == a[k];
    var q :| 0 <= q < |a| && a[q] == b[k];
  }

  // The stable order is unique, so two cuttings cut the same sequence.
  lemma StableOrderUnique(days: seq<int>, a: seq<nat>, b: seq<nat>)
    requires IsStableOrder(days, a) && IsStableOrder(days, b)
    ensures a == b
  {
    SameLength(days, a, b);
    hide IsStableOrder;
    var k := 0;
    while k < |a|
      invariant k <= |a| && a[..k] == b[..k]
    {
      NextAgrees(days, a, b, k);
      assert a[..k + 1] == a[..k] + [a[k]] && b[..k + 1] == b[..k] + [b[k]];
      k := k + 1;
    }
    assert a == a[..k] && b == b[..k];
  }

  lemma SameLength(days: seq<int>, a: seq<nat>, b: seq<nat>)
    requires IsStableOrder(days, a) && IsStableOrder(days, b)
    ensures |a| == |b| == |days|
  {
    OrderLength(days, a);
    OrderLength(days, b);
  }

  function Range(n: nat): set<nat> {
    if n == 0 then {} else Range(n - 1) + {n - 1}
  }

  lemma {:induction false} RangeIs(n: nat)
    ensures |Range(n)| == n
    ensures forall i :: i in Range(n) <==> 0 <= i < n
  {
    if n > 0 {
      RangeIs(n - 1);
    }
  }

  lemma OrderLength(days: seq<int>, a: seq<nat>)
    requires IsStableOrder(days, a)
    ensures |a| == |days|
  {
    DistinctSize(a);
    RangeIs(|days|);
    assert Elements(a) == Range(|days|);
  }

  // Rows before batch k.
  function Start(batches: seq<seq<nat>>, k: nat): nat
    requires k <= |batches|
  {
    if k == 0 then 0 else Start(batches, k - 1) + |batches[k - 1]|
  }

  lemma {:induction false} BatchIsSlice(batches: seq<seq<nat>>, k: nat)
    requires k < |batches|
    ensures Start(batches, k) + |batches[k]| <= |Flatten(batches)|
    ensures Flatten(batches)[Start(batches, k)..Start(batches, k) + |batches[k]|] == batches[k]
  {
    StartIsLength(batches);
    var init := batches[..|batches| - 1];
    StartPrefix(batches, init, k);
    if k < |batches| - 1 {
      BatchIsSlice(init, k);
    } else {
      StartIsLength(init);
    }
  }

  lemma RowOfBatch(batches: seq<seq<nat>>, k: nat, q: nat)
    requires k < |batches| && Start(batches, k) <= q < Start(batches, k) + |batches[k]|
    ensures q < |Flatten(batches)| && Flatten(batches)[q] == batches[k][q - Start(batches, k)]
  {
    BatchIsSlice(batches, k);
    var s := Flatten(batches)[Start(batches, k)..Start(batches, k) + |batches[k]|];
    assert s[q - Start(batches, k)] == Flatten(batches)[q];
  }

  lemma {:induction false} StartIsLength(batches: seq<seq<nat>>)
    ensures Start(batches, |batches|) == |Flatten(batches)|
  {
    if batches != [] {
      var init := batches[..|batches| - 1];
      StartIsLength(init);
      StartPrefix(batches, init, |init|);
    }
  }

  lemma {:induction false} StartPrefix(batches: seq<seq<nat>>, init: seq<seq<nat>>, k: nat)
    requires init <= batches && k <= |init|
    ensures Start(batches, k) == Start(init, k)
  {
    if k > 0 {
      StartPrefix(batches, init, k - 1);
    }
  }

  // If a cutting's batch `o` reached past the end of the greedy batch `g` that starts no earlier, it would hold all of
  // g and the whole next day, which the greedy packer had found not to fit.
  lemma NoOvertaking(days: seq<int>, maxRows: nat, g: seq<nat>, next: seq<nat>, o: seq<nat>, day: int)
    requires BatchOk(days, maxRows, g) && BatchOk(days, maxRows, next) && Indices(days, o)
    requires ClosedBy(days, maxRows, g, next) && day == days[next[0]]
    requires !Oversize(days, maxRows, days[g[0]])
    requires forall p, q | 0 <= p < q < |g| :: g[p] != g[q]
    requires forall p, q | 0 <= p < q < |o| :: o[p] != o[q]
    requires forall i | i in g :: i in o && days[i] != day
    requires forall i | i in DayRows(days, day) :: i in o
    ensures |o| > maxRows || |DaySet(days, o)| > MAX_PARTITION_DAYS
  {
    DistinctSize(g);
    DistinctSize(o);
    SubsetSize(Elements(g) + DayRows(days, day), Elements(o));
    assert Elements(g) !! DayRows(days, day);
    assert next[0] < |days|;
    assert next[0] in DayRows(days, day);
    assert day !in DaySet(days, g);
    SubsetSize(DaySet(days, g) + {day}, DaySet(days, o));
  }

  // The same on positions of the common order f: the greedy batch is f[p..q], the other one f[i..j].
  lemma OvertakingIsTooBig(
    days: seq<int>, maxRows: nat, f: seq<nat>, i: nat, p: nat, q: nat, j: nat, next: seq<nat>)
    requires IsStableOrder(days, f) && i <= p < q < j <= |f|
    requires BatchOk(days, maxRows, f[p..q]) && BatchOk(days, maxRows, next) && next[0] == f[q]
    requires ClosedBy(days, maxRows, f[p..q], next) && ApartDays(days, maxRows, f[p..q], next)
    requires NoneOversize(days, maxRows)
    requires forall row | row in DayRows(days, days[f[q]]) :: row in f[i..j]
    ensures |f[i..j]| > maxRows || |DaySet(days, f[i..j])| > MAX_PARTITION_DAYS
  {
    SliceInside(f, p, q, i, j);
    DistinctSlices(days, f, p, q);
    DistinctSlices(days, f, i, j);
    NoOvertaking(days, maxRows, f[p..q], next, f[i..j], days[f[q]]);
  }

  // A batch of a cutting holds every row of each of its days.
  predicate ClosedUnderDays(days: seq<int>, o: seq<nat>)
    requires Indices(days, o)
  {
    forall row, x | row in o && x in DayRows(days, days[row]) :: x in o
  }

  // Greedy batch g starts at p in f and was closed by `next`.
  ghost predicate GreedyBatch(days: seq<int>, maxRows: nat, f: seq<nat>, g: seq<nat>, p: nat, next: seq<nat>) {
    && p + |g| < |f| && f[p..p + |g|] == g
    && BatchOk(days, maxRows, g) && BatchOk(days, maxRows, next) && next[0] == f[p + |g|]
    && ClosedBy(days, maxRows, g, next) && ApartDays(days, maxRows, g, next)
  }

  // Batch o of some cutting starts at i in f.
  ghost predicate CutBatch(days: seq<int>, maxRows: nat, f: seq<nat>, o: seq<nat>, i: nat) {
    && i + |o| <= |f| && f[i..i + |o|] == o
    && Indices(days, o) && ClosedUnderDays(days, o)
    && |o| <= maxRows && |DaySet(days, o)| <= MAX_PARTITION_DAYS
  }

  // A row of the cutting's batch brings its whole day.
  lemma DayInside(days: seq<int>, maxRows: nat, f: seq<nat>, o: seq<nat>, i: nat, q: nat)
    requires CutBatch(days, maxRows, f, o, i) && i <= q < i + |o|
    ensures f[q] in o && f[q] < |days| && forall row | row in DayRows(days, days[f[q]]) :: row in o
  {
    assert o[q - i] == f[q];
    hide DayRows, DaySet;
  }

  // The cutting's batch, if it starts no later, does not end later.
  lemma KeepsUp(
    days: seq<int>, maxRows: nat, f: seq<nat>, g: seq<nat>, p: nat, next: seq<nat>, o: seq<nat>, i: nat)
    requires IsStableOrder(days, f) && NoneOversize(days, maxRows)
    requires GreedyBatch(days, maxRows, f, g, p, next) && CutBatch(days, maxRows, f, o, i) && i <= p
    ensures i + |o| <= p + |g|
  {
    var q := p + |g|;
    hide BatchOk, ClosedBy, ApartDays, NoneOversize, IsStableOrder, ClosedUnderDays, DayRows, DaySet, Indices;
    if q < i + |o| {
      DayInside(days, maxRows, f, o, i, q);
      NotEmpty(days, maxRows, g);
      OvertakingIsTooBig(days, maxRows, f, i, p, q, i + |o|, next);
      assert false;
    }
  }

  lemma NotEmpty(days: seq<int>, maxRows: nat, g: seq<nat>)
    requires BatchOk(days, maxRows, g)
    ensures g != []
  {
  }

  lemma CuttingBatch(days: seq<int>, maxRows: nat, cuts: seq<seq<nat>>, k: nat)
    requires IsCutting(days, maxRows, cuts) && k < |cuts|
    ensures CutBatch(days, maxRows, Flatten(cuts), cuts[k], Start(cuts, k))
  {
    BatchIsSlice(cuts, k);
    forall row, x | row in cuts[k] && x in DayRows(days, days[row])
      ensures x in cuts[k]
    {
      WholeDayInside(days, maxRows, cuts, k, row);
    }
  }

  lemma PackedBatch(days: seq<int>, maxRows: nat, batches: seq<seq<nat>>, k: nat)
    requires Packed(days, maxRows, batches) && 0 < k < |batches|
    ensures GreedyBatch(days, maxRows, Flatten(batches), batches[k - 1], Start(batches, k - 1), batches[k])
  {
    assert ClosedBy(days, maxRows, batches[k - 1], batches[k]);
    PairPositions(batches, k);
  }

  lemma PairPositions(batches: seq<seq<nat>>, k: nat)
    requires 0 < k < |batches| && batches[k] != []
    ensures var p, q := Start(batches, k - 1), Start(batches, k - 1) + |batches[k - 1]|;
            && q < |Flatten(batches)| && Flatten(batches)[q] == batches[k][0]
            && Flatten(batches)[p..q] == batches[k - 1]
  {
    BatchIsSlice(batches, k - 1);
    RowOfBatch(batches, k, Start(batches, k));
  }

  lemma SliceInside(f: seq<nat>, i: nat, j: nat, i': nat, j': nat)
    requires i' <= i <= j <= j' <= |f|
    ensures forall x | x in f[i..j] :: x in f[i'..j']
  {
    forall x | x in f[i..j]
      ensures x in f[i'..j']
    {
      var p :| 0 <= p < j - i && f[i..j][p] == x;
      assert f[i'..j'][i + p - i'] == x;
    }
  }

  lemma WholeDayInside(days: seq<int>, maxRows: nat, cuts: seq<seq<nat>>, k: nat, row: nat)
    requires IsCutting(days, maxRows, cuts) && k < |cuts| && row in cuts[k] && row < |days|
    ensures forall i | i in DayRows(days, days[row]) :: i in cuts[k]
  {
    forall i | i in DayRows(days, days[row])
      ensures i in cuts[k]
    {
      FlattenMember(cuts, i);
      var m :| 0 <= m < |cuts| && i in cuts[m];
    }
  }

  lemma DistinctSlices(days: seq<int>, f: seq<nat>, i: nat, j: nat)
    requires IsStableOrder(days, f) && i <= j <= |f|
    ensures forall p, q | 0 <= p < q < |f[i..j]| :: f[i..j][p] != f[i..j][q]
  {
    forall p, q | 0 <= p < q < |f[i..j]|
      ensures f[i..j][p] != f[i..j][q]
    {
      assert f[i..j][p] == f[i + p] && f[i..j][q] == f[i + q];
    }
  }

  lemma StartStep(batches: seq<seq<nat>>, k: nat)
    requires 0 < k <= |batches|
    ensures Start(batches, k) == Start(batches, k - 1) + |batches[k - 1]|
  {
  }

  lemma StartInside(batches: seq<seq<nat>>, k: nat)
    requires k <= |batches|
    ensures Start(batches, k) <= |Flatten(batches)|
    ensures k == |batches| ==> Start(batches, k) == |Flatten(batches)|
    ensures Start(batches, 0) == 0
  {
    StartIsLength(batches);
    if k < |batches| {
      BatchIsSlice(batches, k);
    }
  }

  lemma KeepsUpAt(days: seq<int>, maxRows: nat, batches: seq<seq<nat>>, cuts: seq<seq<nat>>, k: nat)
    requires Packed(days, maxRows, batches) && IsCutting(days, maxRows, cuts)
    requires Flatten(batches) == Flatten(cuts) && NoneOversize(days, maxRows)
    requires 0 < k < |batches| && k <= |cuts| && Start(batches, k - 1) >= Start(cuts, k - 1)
    ensures Start(batches, k) >= Start(cuts, k)
  {
    hide *;
    CuttingOrder(days, maxRows, cuts);
    StartStep(batches, k);
    StartStep(cuts, k);
    PackedBatch(days, maxRows, batches, k);
    CuttingBatch(days, maxRows, cuts, k - 1);
    KeepsUp(days, maxRows, Flatten(batches), batches[k - 1], Start(batches, k - 1), batches[k],
      cuts[k - 1], Start(cuts, k - 1));
  }

  lemma CuttingOrder(days: seq<int>, maxRows: nat, cuts: seq<seq<nat>>)
    requires IsCutting(days, maxRows, cuts)
    ensures IsStableOrder(days, Flatten(cuts))
  {
  }

  lemma {:induction false} GreedyStaysAhead(
    days: seq<int>, maxRows: nat, batches: seq<seq<nat>>, cuts: seq<seq<nat>>, k: nat)
    requires Packed(days, maxRows, batches) && IsCutting(days, maxRows, cuts)
    requires Flatten(batches) == Flatten(cuts) && NoneOversize(days, maxRows)
    requires k <= |batches| && k <= |cuts|
    ensures Start(batches, k) >= Start(cuts, k)
  {
    hide *;
    StartInside(cuts, k);
    StartInside(batches, k);
    if 0 < k < |batches| {
      GreedyStaysAhead(days, maxRows, batches, cuts, k - 1);
      KeepsUpAt(days, maxRows, batches, cuts, k);
    }
  }

  // When no single day is over the row cap, a packed cutting in stable day order uses no more batches than any other
  // cutting of the same rows into runs of whole days under the same two caps.
  lemma GreedyIsMinimal(days: seq<int>, maxRows: nat, batches: seq<seq<nat>>, cuts: seq<seq<nat>>)
    requires Packed(days, maxRows, batches) && IsStableOrder(days, Flatten(batches))
    requires NoneOversize(days, maxRows) && IsCutting(days, maxRows, cuts)
    ensures |batches| <= |cuts|
  {
    StableOrderUnique(days, Flatten(batches), Flatten(cuts));
    if |batches| > |cuts| {
      GreedyStaysAhead(days, maxRows, batches, cuts, |cuts|);
      StartIsLength(cuts);
      BatchIsSlice(batches, |cuts|);
    }
  }
}
