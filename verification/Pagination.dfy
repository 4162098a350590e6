/** Keyset pagination: a search read page by page, each page taken below the last row of the one before. */
module Pagination {
  import opened Arithmetic
  import opened Orders
  import opened Sequences
  import opened Sets
  import opened Wrappers

  const U32_MAX: nat := 0xFFFF_FFFF

  // What identifies a row: its timestamp in microseconds and its id, which no two rows share.
  datatype Key = Key(ts: int, id: nat)

  // The order of (timestamp, id) tuples.
  predicate Below(a: Key, b: Key) {
    a.ts < b.ts || (a.ts == b.ts && a.id < b.id)
  }

  // ----- The rows in the order the query asks for

  predicate Above(a: Key, b: Key) {
    Below(b, a)
  }

  predicate IsHighest(table: set<Key>, top: Key) {
    top in table && forall k | k in table && k != top :: Below(k, top)
  }

  lemma {:induction false} HighestExists(table: set<Key>)
    requires table != {}
    ensures exists top :: IsHighest(table, top)
  {
    var x := Element(table);
    if table == {x} {
      assert IsHighest(table, x);
    } else {
      HighestExists(table - {x});
      var high :| IsHighest(table - {x}, high);
      assert forall k | k in table :: k == x || k in table - {x};
      assert IsHighest(table, if Below(high, x) then x else high);
    }
  }

  // ORDER BY timestamp DESC, id DESC; by Orders.ListingUnique there is no other such sequence.
  ghost function Listing(table: set<Key>): (rows: seq<Key>)
    ensures IsListing(rows, table, Above)
  {
    if table == {} then []
    else
      HighestExists(table);
      var top :| IsHighest(table, top);
      var rest := Listing(table - {top});
      assert forall k | k in rest :: k in Elements(rest);
      assert Elements([top] + rest) == {top} + Elements(rest);
      [top] + rest
  }

  // ----- One page

  // The tuple the query compares with: the cursor's timestamp parser keeps only whole ticks.
  function Cut(k: Key, tick: nat): Key
    requires tick > 0
  {
    Key(k.ts - k.ts % tick, k.id)
  }

  function RowsBelow(table: set<Key>, cursor: Option<Key>): set<Key> {
    if cursor.None? then table else set k | k in table && Below(k, cursor.value)
  }

  // u32::saturating_add(limit, 1)
  function FetchSize(limit: nat): nat {
    Min(limit + 1, U32_MAX)
  }

  datatype Reply = Reply(rows: seq<Key>, hasMore: bool, next: Option<Key>)

  // One search: fetch one row more than the limit, cut it off again, hand out a cursor if it was there.
  ghost function Serve(table: set<Key>, cursor: Option<Key>, limit: nat, tick: nat): Reply
    requires tick > 0
  {
    var all := Listing(RowsBelow(table, cursor));
    var fetched := all[..Min(FetchSize(limit), |all|)];
    var hasMore := |fetched| > limit;
    var rows := if hasMore then fetched[..limit] else fetched;
    Reply(rows, hasMore, if hasMore && rows != [] then Some(Cut(rows[|rows| - 1], tick)) else None)
  }

  lemma ServeFacts(table: set<Key>, cursor: Option<Key>, limit: nat, tick: nat)
    requires tick > 0
    ensures var all, reply := Listing(RowsBelow(table, cursor)), Serve(table, cursor, limit, tick);
      && reply.rows == all[..Min(Min(limit, U32_MAX), |all|)]
      && (reply.hasMore <==> |all| > limit && limit < U32_MAX)
      && (reply.next.Some? <==> reply.hasMore && limit > 0)
      && (reply.next.Some? ==> |reply.rows| == limit && reply.next.value == Cut(all[limit - 1], tick))
  {
  }

  lemma PrefixSplits(all: seq<Key>, m: nat, k: Key)
    requires Ordered(all, Above) && m <= |all|
    ensures k in all[..m] ==> k in all
    ensures m > 0 && k in all[..m] ==> k == all[m - 1] || Below(all[m - 1], k)
    ensures m > 0 && k in all && k !in all[..m] ==> Below(k, all[m - 1])
  {
    if k in all {
      var p :| 0 <= p < |all| && all[p] == k;
      if p < m {
        assert all[..m][p] == k;
      } else if m > 0 {
        assert Above(all[m - 1], all[p]);
      }
    }
    if k in all[..m] {
      var q :| 0 <= q < m && all[q] == k;
      assert q < m - 1 ==> Above(all[q], all[m - 1]);
    }
  }

  // A row fails to be served and is not below the cursor handed out only when it lies in the gap
  // that the cut opens under the last row.
  lemma PageSplits(table: set<Key>, cursor: Option<Key>, limit: nat, tick: nat, k: Key)
    requires tick > 0
    ensures var reply := Serve(table, cursor, limit, tick);
      && (k in reply.rows ==> k in RowsBelow(table, cursor))
      && (reply.next.Some? ==>
            var last := reply.rows[|reply.rows| - 1];
            && (k in reply.rows ==> k == last || Below(last, k))
            && (k in RowsBelow(table, cursor) && k !in reply.rows ==> Below(k, last)))
      && (!reply.hasMore && limit < U32_MAX && k in RowsBelow(table, cursor) ==> k in reply.rows)
  {
    var all := Listing(RowsBelow(table, cursor));
    assert IsListing(all, RowsBelow(table, cursor), Above) && (k in all <==> k in Elements(all));
    ServeFacts(table, cursor, limit, tick);
    hide Serve, Listing, RowsBelow, FetchSize;
    PrefixSplits(all, Min(Min(limit, U32_MAX), |all|), k);
  }

  // ----- Following the cursors while the table changes

  function CursorOf(replies: seq<Reply>, i: nat): Option<Key>
    requires i <= |replies|
  {
    if i == 0 then None else replies[i - 1].next
  }

  // Page i is read from tables[i]; the client goes on only when it is told to and given a cursor.
  ghost predicate IsSession(tables: seq<set<Key>>, replies: seq<Reply>, limit: nat, tick: nat)
    requires tick > 0
  {
    && |tables| == |replies|
    && (forall i | 0 <= i < |replies| :: replies[i] == Serve(tables[i], CursorOf(replies, i), limit, tick))
    && (forall i | 0 <= i < |replies| - 1 :: replies[i].hasMore && replies[i].next.Some?)
  }

  ghost predicate IsComplete(replies: seq<Reply>) {
    replies != [] && !replies[|replies| - 1].hasMore
  }

  function LastRow(r: Reply): Key
    requires r.rows != []
  {
    r.rows[|r.rows| - 1]
  }

  lemma ReplyBounds(table: set<Key>, cursor: Option<Key>, limit: nat, tick: nat)
    requires tick > 0
    ensures var r := Serve(table, cursor, limit, tick);
      && Ordered(r.rows, Above)
      && (r.next.Some? ==> r.rows != [] && r.next.value == Cut(LastRow(r), tick)
                           && (cursor.Some? ==> Below(LastRow(r), cursor.value)))
  {
    ServeFacts(table, cursor, limit, tick);
    var r := Serve(table, cursor, limit, tick);
    if r.next.Some? {
      PageSplits(table, cursor, limit, tick, LastRow(r));
    }
  }

  // The cursors of a session only move down.
  lemma {:induction false} CursorsDescend(tables: seq<set<Key>>, replies: seq<Reply>, limit: nat, tick: nat, i: nat, j: nat)
    requires tick > 0 && IsSession(tables, replies, limit, tick)
    requires 0 < i <= j < |replies|
    ensures var a, b := replies[i - 1].next.value, replies[j - 1].next.value; b == a || Below(b, a)
    decreases j - i
  {
    hide Serve;
    if i < j {
      CursorsDescend(tables, replies, limit, tick, i, j - 1);
      ReplyBounds(tables[j - 1], CursorOf(replies, j - 1), limit, tick);
    }
  }

  // Whatever a later page holds is below the cut under an earlier page.
  lemma LaterPagesAreBelow(
    tables: seq<set<Key>>, replies: seq<Reply>, limit: nat, tick: nat, i: nat, j: nat, k: Key)
    requires tick > 0 && IsSession(tables, replies, limit, tick)
    requires i < j < |replies| && k in replies[j].rows
    ensures replies[i].next.Some? && Below(k, replies[i].next.value)
  {
    hide Serve;
    CursorsDescend(tables, replies, limit, tick, i + 1, j);
    PageSplits(tables[j], CursorOf(replies, j), limit, tick, k);
  }

  // Main result: however the table changes between pages, no row is returned twice.
  lemma NoRowTwice(tables: seq<set<Key>>, replies: seq<Reply>, limit: nat, tick: nat, i: nat, p: nat, j: nat, q: nat)
    requires tick > 0 && IsSession(tables, replies, limit, tick)
    requires i < |replies| && p < |replies[i].rows| && j < |replies| && q < |replies[j].rows|
    requires replies[i].rows[p] == replies[j].rows[q]
    ensures i == j && p == q
  {
    hide Serve;
    var k := replies[i].rows[p];
    ReplyBounds(tables[i], CursorOf(replies, i), limit, tick);
    ReplyBounds(tables[j], CursorOf(replies, j), limit, tick);
    if i < j {
      LaterPagesAreBelow(tables, replies, limit, tick, i, j, k);
    } else if j < i {
      LaterPagesAreBelow(tables, replies, limit, tick, j, i, k);
    }
  }

  ghost predicate Returned(replies: seq<Reply>, k: Key) {
    exists i :: 0 <= i < |replies| && k in replies[i].rows
  }

  // Between the last row of a page and the cursor made from it.
  predicate InGap(r: Reply, k: Key) {
    r.next.Some? && r.rows != [] && Below(k, LastRow(r)) && !Below(k, r.next.value)
  }

  // Until it is returned, a row outside the gaps stays below the cursor.
  lemma {:induction false} StillToCome(
    tables: seq<set<Key>>, replies: seq<Reply>, limit: nat, tick: nat, i: nat, k: Key)
    requires tick > 0 && IsSession(tables, replies, limit, tick)
    requires i < |replies|
    requires forall j | 0 <= j < |replies| :: k in tables[j]
    requires forall j | 0 <= j < i :: k !in replies[j].rows && !InGap(replies[j], k)
    ensures k in RowsBelow(tables[i], CursorOf(replies, i))
  {
    hide Serve;
    if i > 0 {
      StillToCome(tables, replies, limit, tick, i - 1, k);
      ReplyBounds(tables[i - 1], CursorOf(replies, i - 1), limit, tick);
      PageSplits(tables[i - 1], CursorOf(replies, i - 1), limit, tick, k);
    }
  }

  // Main result: a row present while every page was read is returned exactly when it does not lie
  // in the gap under a page. (By NoRowTwice, exactly once.)
  lemma ReturnedUnlessInGap(tables: seq<set<Key>>, replies: seq<Reply>, limit: nat, tick: nat, k: Key)
    requires tick > 0 && IsSession(tables, replies, limit, tick) && IsComplete(replies)
    requires 0 < limit < U32_MAX
    requires forall j | 0 <= j < |replies| :: k in tables[j]
    ensures Returned(replies, k) <==> forall i | 0 <= i < |replies| :: !InGap(replies[i], k)
  {
    hide Serve;
    var n := |replies| - 1;
    if !Returned(replies, k) && forall i | 0 <= i < |replies| :: !InGap(replies[i], k) {
      StillToCome(tables, replies, limit, tick, n, k);
      PageSplits(tables[n], CursorOf(replies, n), limit, tick, k);
      assert false;
    }
    if i :| 0 <= i < |replies| && InGap(replies[i], k) {
      if j :| 0 <= j < |replies| && k in replies[j].rows {
        GapRowNotReturned(tables, replies, limit, tick, i, j, k);
      }
    }
  }

  lemma GapRowNotReturned(
    tables: seq<set<Key>>, replies: seq<Reply>, limit: nat, tick: nat, i: nat, j: nat, k: Key)
    requires tick > 0 && IsSession(tables, replies, limit, tick)
    requires i < |replies| && InGap(replies[i], k) && j < |replies|
    ensures k !in replies[j].rows
  {
    hide Serve;
    ReplyBounds(tables[i], CursorOf(replies, i), limit, tick);
    if k in replies[j].rows {
      PageSplits(tables[j], CursorOf(replies, j), limit, tick, k);
      if i < j {
        LaterPagesAreBelow(tables, replies, limit, tick, i, j, k);
      } else if j < i {
        LaterPagesAreBelow(tables, replies, limit, tick, j, i, LastRow(replies[i]));
        ReplyBounds(tables[j], CursorOf(replies, j), limit, tick);
      }
      assert false;
    }
  }

  // With a cursor as precise as the column there are no gaps.
  lemma StableUnderChange(tables: seq<set<Key>>, replies: seq<Reply>, limit: nat, k: Key)
    requires IsSession(tables, replies, limit, 1) && IsComplete(replies)
    requires 0 < limit < U32_MAX
    requires forall j | 0 <= j < |replies| :: k in tables[j]
    ensures Returned(replies, k)
  {
    hide Serve;
    ReturnedUnlessInGap(tables, replies, limit, 1, k);
    forall i | 0 <= i < |replies| ensures !InGap(replies[i], k) {
      ReplyBounds(tables[i], CursorOf(replies, i), limit, 1);
    }
  }

  // ----- A table that does not change

  predicate Constant(tables: seq<set<Key>>, table: set<Key>) {
    forall i | 0 <= i < |tables| :: tables[i] == table
  }

  // No row is above the cut of a row it is below.
  predicate Separated(table: set<Key>, tick: nat)
    requires tick > 0
  {
    forall a, b | a in table && b in table && Below(a, b) :: Below(a, Cut(b, tick))
  }

  // The number of rows below the cursor is what makes a client finish.
  lemma FewerBelow(table: set<Key>, cursor: Option<Key>, limit: nat, tick: nat)
    requires tick > 0 && Serve(table, cursor, limit, tick).next.Some?
    ensures |RowsBelow(table, Serve(table, cursor, limit, tick).next)| < |RowsBelow(table, cursor)|
  {
    var r := Serve(table, cursor, limit, tick);
    ReplyBounds(table, cursor, limit, tick);
    PageSplits(table, cursor, limit, tick, LastRow(r));
    hide Serve;
    var below := RowsBelow(table, r.next);
    assert below <= RowsBelow(table, cursor) - {LastRow(r)};
    SubsetSize(below, RowsBelow(table, cursor) - {LastRow(r)});
  }

  lemma SessionStep(table: set<Key>, tables: seq<set<Key>>, replies: seq<Reply>, limit: nat, tick: nat)
    requires tick > 0 && limit > 0 && IsSession(tables, replies, limit, tick)
    requires replies != [] ==> replies[|replies| - 1].hasMore
    ensures IsSession(tables + [table], replies + [Serve(table, CursorOf(replies, |replies|), limit, tick)], limit, tick)
  {
    hide Serve, Listing, RowsBelow;
    var n := |replies|;
    if n > 0 {
      ServeFacts(tables[n - 1], CursorOf(replies, n - 1), limit, tick);
      assert replies[n - 1].next.Some?;
    }
    var replies' := replies + [Serve(table, CursorOf(replies, n), limit, tick)];
    assert forall i | 0 <= i <= n :: CursorOf(replies', i) == CursorOf(replies, i);
  }

  lemma {:induction false} SessionFinishes(
    table: set<Key>, tables: seq<set<Key>>, replies: seq<Reply>, limit: nat, tick: nat)
    returns (tables': seq<set<Key>>, replies': seq<Reply>)
    requires tick > 0 && limit > 0 && Constant(tables, table)
    requires IsSession(tables, replies, limit, tick)
    requires replies != [] ==> replies[|replies| - 1].hasMore
    ensures Constant(tables', table) && IsSession(tables', replies', limit, tick) && IsComplete(replies')
    decreases |RowsBelow(table, CursorOf(replies, |replies|))|
  {
    hide Serve, IsSession, RowsBelow;
    var cursor := CursorOf(replies, |replies|);
    var r := Serve(table, cursor, limit, tick);
    tables', replies' := tables + [table], replies + [r];
    SessionStep(table, tables, replies, limit, tick);
    if r.hasMore {
      ServeFacts(table, cursor, limit, tick);
      FewerBelow(table, cursor, limit, tick);
      tables', replies' := SessionFinishes(table, tables', replies', limit, tick);
    }
  }

  ghost predicate EveryRowReturned(table: set<Key>, limit: nat, tick: nat)
    requires tick > 0
  {
    forall tables: seq<set<Key>>, replies: seq<Reply>, k: Key |
      Constant(tables, table) && IsSession(tables, replies, limit, tick) && IsComplete(replies) && k in table ::
      Returned(replies, k)
  }

  lemma SeparatedReturnsAll(table: set<Key>, limit: nat, tick: nat)
    requires tick > 0 && Separated(table, tick) && 0 < limit < U32_MAX
    ensures EveryRowReturned(table, limit, tick)
  {
    hide Serve;
    forall tables: seq<set<Key>>, replies: seq<Reply>, k: Key |
      Constant(tables, table) && IsSession(tables, replies, limit, tick) && IsComplete(replies) && k in table
      ensures Returned(replies, k)
    {
      SeparatedReturnsStaying(table, tables, replies, limit, tick, k);
    }
  }

  lemma SingleRow(tables: seq<set<Key>>, replies: seq<Reply>, tick: nat, i: nat, k: Key)
    requires tick > 0 && IsSession(tables, replies, 1, tick)
    requires i < |replies| && k in replies[i].rows
    ensures replies[i].rows == [k]
    ensures replies[i].next.Some? ==> replies[i].next.value == Cut(k, tick)
  {
    ServeFacts(tables[i], CursorOf(replies, i), 1, tick);
  }

  lemma SessionLength(tables: seq<set<Key>>, replies: seq<Reply>, limit: nat, tick: nat)
    requires tick > 0 && IsSession(tables, replies, limit, tick)
    ensures |tables| == |replies|
  {
  }

  lemma PageHolding(
    table: set<Key>, tables: seq<set<Key>>, replies: seq<Reply>, limit: nat, tick: nat, k: Key)
    returns (i: nat)
    requires tick > 0 && EveryRowReturned(table, limit, tick) && k in table
    requires Constant(tables, table) && IsSession(tables, replies, limit, tick) && IsComplete(replies)
    ensures i < |replies| && k in replies[i].rows
  {
    hide IsSession, Constant, IsComplete;
    assert Returned(replies, k);
    i :| 0 <= i < |replies| && k in replies[i].rows;
  }

  lemma StartOfSession(table: set<Key>, limit: nat, tick: nat)
    requires tick > 0
    ensures Constant([], table) && IsSession([], [], limit, tick)
  {
  }

  // Reading one row at a time stops at every row, so it meets every gap.
  lemma OneAtATimeShowsGaps(table: set<Key>, tick: nat, a: Key, b: Key)
    requires tick > 0 && EveryRowReturned(table, 1, tick)
    requires a in table && b in table && Below(a, b)
    ensures Below(a, Cut(b, tick))
  {
    hide Serve, Listing, RowsBelow, Separated, IsSession, Constant, IsComplete, EveryRowReturned, Returned, CursorOf, Ordered;
    StartOfSession(table, 1, tick);
    var tables, replies := SessionFinishes(table, [], [], 1, tick);
    var i := PageHolding(table, tables, replies, 1, tick, b);
    var j := PageHolding(table, tables, replies, 1, tick, a);
    SessionLength(tables, replies, 1, tick);
    SingleRow(tables, replies, tick, i, b);
    SingleRow(tables, replies, tick, j, a);
    if i < j {
      LaterPagesAreBelow(tables, replies, 1, tick, i, j, a);
    } else if j < i {
      LaterPagesAreBelow(tables, replies, 1, tick, j, i, b);
    }
  }

  // Main result: on an unchanging table, following the cursors returns every row for every page
  // size exactly when no two rows are closer than the cursor can tell apart.
  lemma CompleteExactlyWhenSeparated(table: set<Key>, tick: nat)
    requires tick > 0
    ensures Separated(table, tick) <==> forall limit | 0 < limit < U32_MAX :: EveryRowReturned(table, limit, tick)
  {
    hide EveryRowReturned;
    if Separated(table, tick) {
      forall limit | 0 < limit < U32_MAX ensures EveryRowReturned(table, limit, tick) {
        SeparatedReturnsAll(table, limit, tick);
      }
    }
    if forall limit | 0 < limit < U32_MAX :: EveryRowReturned(table, limit, tick) {
      assert EveryRowReturned(table, 1, tick);
      forall a, b | a in table && b in table && Below(a, b) ensures Below(a, Cut(b, tick)) {
        OneAtATimeShowsGaps(table, tick, a, b);
      }
    }
  }

  // ----- A table that changes, and the rows it may hold

  // Every session reads tables with rows of the universe only, and returns each row that stays.
  ghost predicate StayingRowsReturned(universe: set<Key>, tick: nat)
    requires tick > 0
  {
    forall limit: nat, tables: seq<set<Key>>, replies: seq<Reply>, k: Key |
      && 0 < limit < U32_MAX && IsSession(tables, replies, limit, tick) && IsComplete(replies)
      && (forall i | 0 <= i < |tables| :: tables[i] <= universe && k in tables[i]) ::
      Returned(replies, k)
  }

  lemma NoGaps(
    universe: set<Key>, tables: seq<set<Key>>, replies: seq<Reply>, limit: nat, tick: nat, i: nat, k: Key)
    requires tick > 0 && Separated(universe, tick) && IsSession(tables, replies, limit, tick)
    requires i < |replies| && tables[i] <= universe && k in tables[i]
    ensures !InGap(replies[i], k)
  {
    hide Serve;
    ReplyBounds(tables[i], CursorOf(replies, i), limit, tick);
    if replies[i].next.Some? {
      PageSplits(tables[i], CursorOf(replies, i), limit, tick, LastRow(replies[i]));
    }
  }

  lemma SeparatedReturnsStaying(
    universe: set<Key>, tables: seq<set<Key>>, replies: seq<Reply>, limit: nat, tick: nat, k: Key)
    requires tick > 0 && Separated(universe, tick) && 0 < limit < U32_MAX
    requires IsSession(tables, replies, limit, tick) && IsComplete(replies)
    requires forall i | 0 <= i < |tables| :: tables[i] <= universe && k in tables[i]
    ensures Returned(replies, k)
  {
    SessionLength(tables, replies, limit, tick);
    hide Serve, IsSession, IsComplete, Separated, InGap, Returned;
    forall i | 0 <= i < |replies| ensures !InGap(replies[i], k) {
      NoGaps(universe, tables, replies, limit, tick, i, k);
    }
    ReturnedUnlessInGap(tables, replies, limit, tick, k);
  }

  // Main result: however the table changes between pages, among the rows of a universe, every row that is there
  // all the time is returned, for every page size, if and only if the cursor can tell the rows of the universe
  // apart. (By NoRowTwice, it is returned once.)
  lemma StableExactlyWhenSeparated(universe: set<Key>, tick: nat)
    requires tick > 0
    ensures Separated(universe, tick) <==> StayingRowsReturned(universe, tick)
  {
    hide IsSession, IsComplete, Separated, Returned;
    if Separated(universe, tick) {
      forall limit: nat, tables: seq<set<Key>>, replies: seq<Reply>, k: Key |
        && 0 < limit < U32_MAX && IsSession(tables, replies, limit, tick) && IsComplete(replies)
        && (forall i | 0 <= i < |tables| :: tables[i] <= universe && k in tables[i])
        ensures Returned(replies, k)
      {
        SeparatedReturnsStaying(universe, tables, replies, limit, tick, k);
      }
    }
    if StayingRowsReturned(universe, tick) {
      assert forall limit | 0 < limit < U32_MAX :: EveryRowReturned(universe, limit, tick);
      hide StayingRowsReturned, EveryRowReturned;
      CompleteExactlyWhenSeparated(universe, tick);
    }
  }

  // The column counts microseconds, and the query reads the cursor in milliseconds.
  const CURSOR_TICK: nat := 1000

  // The cursor tells two rows of one millisecond apart only when the lower one lies on the whole millisecond and has
  // the smaller id.
  lemma SeparatedByMilliseconds(universe: set<Key>)
    ensures Separated(universe, CURSOR_TICK)
       <==> forall a, b | a in universe && b in universe && Below(a, b) && a.ts / CURSOR_TICK == b.ts / CURSOR_TICK ::
              a.ts % CURSOR_TICK == 0 && a.id < b.id
  {
    forall a: Key, b: Key | Below(a, b)
      ensures Below(a, Cut(b, CURSOR_TICK))
         <==> (a.ts / CURSOR_TICK == b.ts / CURSOR_TICK ==> a.ts % CURSOR_TICK == 0 && a.id < b.id)
    {
    }
  }

  lemma TwoRows(a: Key, b: Key)
    requires Below(a, b)
    ensures Listing({a, b}) == [b, a] && Listing({}) == []
  {
    assert Elements([b, a]) == {a, b};
    ListingUnique(Listing({a, b}), [b, a], Above);
  }

  // Two rows 2 microseconds apart, read one by one: the lower one is never returned, though nothing changes.
  lemma MillisecondCursorLosesRow() returns (tables: seq<set<Key>>, replies: seq<Reply>, k: Key)
    ensures IsSession(tables, replies, 1, CURSOR_TICK) && IsComplete(replies)
    ensures (forall i | 0 <= i < |tables| :: k in tables[i]) && !Returned(replies, k)
  {
    k := Key(5, 1);
    var top := Key(7, 0);
    var table := {k, top};
    var cut := Key(0, 0);
    tables, replies := [table, table], [Reply([top], true, Some(cut)), Reply([], false, None)];
    TwoRows(k, top);
    assert RowsBelow(table, None) == table && RowsBelow(table, Some(cut)) == {};
    hide Listing, RowsBelow;
    assert Serve(table, None, 1, CURSOR_TICK) == replies[0];
    assert Serve(table, Some(cut), 1, CURSOR_TICK) == replies[1];
  }

  // The part of a listing behind its first rows is what lies below the last of them.
  lemma SuffixIsBelow(all: seq<Key>, m: nat, k: Key)
    requires Ordered(all, Above) && 0 < m <= |all|
    ensures k in all[m..] <==> k in all && Below(k, all[m - 1])
  {
    if k in all[m..] {
      var p :| 0 <= p < |all[m..]| && all[m..][p] == k;
      assert Above(all[m - 1], all[m + p]);
    }
    if k in all {
      var q :| 0 <= q < |all| && all[q] == k;
      if q >= m {
        assert all[m..][q - m] == k;
      } else {
        assert q == m - 1 || Above(all[q], all[m - 1]);
      }
    }
  }

  lemma ListingHolds(table: set<Key>, k: Key)
    ensures k in Listing(table) <==> k in table
    ensures Ordered(Listing(table), Above)
  {
    assert IsListing(Listing(table), table, Above);
    assert k in Listing(table) <==> k in Elements(Listing(table));
  }

  lemma BelowCursor(table: set<Key>, cursor: Option<Key>, tick: nat, last: Key, k: Key)
    requires tick > 0 && Separated(table, tick) && last in RowsBelow(table, cursor)
    ensures k in RowsBelow(table, Some(Cut(last, tick))) <==> k in RowsBelow(table, cursor) && Below(k, last)
  {
  }

  // What is left below the cursor is the rest of the listing.
  lemma RestOfListing(table: set<Key>, cursor: Option<Key>, tick: nat, m: nat)
    requires tick > 0 && Separated(table, tick)
    requires 0 < m <= |Listing(RowsBelow(table, cursor))|
    ensures var all := Listing(RowsBelow(table, cursor));
      Listing(RowsBelow(table, Some(Cut(all[m - 1], tick)))) == all[m..]
  {
    var all := Listing(RowsBelow(table, cursor));
    var below := RowsBelow(table, Some(Cut(all[m - 1], tick)));
    hide Listing, RowsBelow, Separated, Below, Cut;
    ListingHolds(RowsBelow(table, cursor), all[m - 1]);
    forall k ensures k in Elements(all[m..]) <==> k in below {
      ListingHolds(RowsBelow(table, cursor), k);
      SuffixIsBelow(all, m, k);
      BelowCursor(table, cursor, tick, all[m - 1], k);
    }
    assert Elements(all[m..]) == below;
    RestIsListing(all, m, below);
  }

  lemma RestIsListing(all: seq<Key>, m: nat, below: set<Key>)
    requires Ordered(all, Above) && m <= |all| && Elements(all[m..]) == below
    ensures Listing(below) == all[m..]
  {
    assert IsListing(Listing(below), below, Above);
    hide Listing, Elements;
    ListingUnique(all[m..], Listing(below), Above);
  }

  lemma NextListing(table: set<Key>, cursor: Option<Key>, limit: nat, tick: nat)
    requires tick > 0 && limit > 0 && Separated(table, tick)
    requires Serve(table, cursor, limit, tick).next.Some?
    ensures var all := Listing(RowsBelow(table, cursor));
      limit <= |all| && Listing(RowsBelow(table, Serve(table, cursor, limit, tick).next)) == all[limit..]
  {
    ServeFacts(table, cursor, limit, tick);
    hide Serve, Listing, RowsBelow;
    RestOfListing(table, cursor, tick, limit);
  }

  // After i full pages.
  ghost predicate Reached(table: set<Key>, cursor: Option<Key>, limit: nat, i: nat) {
    0 <= i * limit <= |Listing(table)| && Listing(RowsBelow(table, cursor)) == Listing(table)[i * limit..]
  }

  lemma NextReached(table: set<Key>, cursor: Option<Key>, limit: nat, tick: nat, i: nat)
    requires tick > 0 && limit > 0 && Separated(table, tick) && Reached(table, cursor, limit, i)
    requires Serve(table, cursor, limit, tick).next.Some?
    ensures Reached(table, Serve(table, cursor, limit, tick).next, limit, i + 1)
  {
    hide Serve, Listing, Separated, RowsBelow;
    NextListing(table, cursor, limit, tick);
    var from := i * limit;
    assert (i + 1) * limit == from + limit;
    assert Listing(table)[from..][limit..] == Listing(table)[from + limit..];
  }

  ghost predicate IsPageOfListing(r: Reply, rows: seq<Key>, limit: nat, i: nat) {
    && i * limit <= |rows|
    && r.rows == rows[i * limit..Min((i + 1) * limit, |rows|)]
    && (r.hasMore <==> (i + 1) * limit < |rows|)
  }

  lemma PageAt(table: set<Key>, cursor: Option<Key>, limit: nat, tick: nat, i: nat)
    requires tick > 0 && 0 < limit < U32_MAX && Reached(table, cursor, limit, i)
    ensures IsPageOfListing(Serve(table, cursor, limit, tick), Listing(table), limit, i)
  {
    hide Listing, RowsBelow, Serve;
    var all, n := Listing(table), i * limit;
    ServeFacts(table, cursor, limit, tick);
    assert (i + 1) * limit == n + limit;
    assert all[n..][..Min(limit, |all| - n)] == all[n..Min(n + limit, |all|)];
  }

  lemma ReachedAtStart(table: set<Key>, limit: nat)
    ensures Reached(table, None, limit, 0)
  {
    assert RowsBelow(table, None) == table;
  }

  lemma SessionAt(table: set<Key>, tables: seq<set<Key>>, replies: seq<Reply>, limit: nat, tick: nat, i: nat)
    requires tick > 0 && Constant(tables, table) && IsSession(tables, replies, limit, tick) && i < |replies|
    ensures replies[i] == Serve(table, CursorOf(replies, i), limit, tick)
    ensures CursorOf(replies, i) == if i == 0 then None else replies[i - 1].next
    ensures i + 1 < |replies| ==> replies[i].next.Some?
  {
    hide Serve;
  }

  lemma {:induction false} StaticPage(
    table: set<Key>, tables: seq<set<Key>>, replies: seq<Reply>, limit: nat, tick: nat, i: nat)
    requires tick > 0 && Separated(table, tick) && 0 < limit < U32_MAX
    requires Constant(tables, table) && IsSession(tables, replies, limit, tick) && i < |replies|
    ensures Reached(table, CursorOf(replies, i), limit, i)
    ensures IsPageOfListing(replies[i], Listing(table), limit, i)
  {
    hide *;
    SessionAt(table, tables, replies, limit, tick, i);
    if i == 0 {
      ReachedAtStart(table, limit);
    } else {
      SessionAt(table, tables, replies, limit, tick, i - 1);
      StaticPage(table, tables, replies, limit, tick, i - 1);
      NextReached(table, CursorOf(replies, i - 1), limit, tick, i - 1);
    }
    PageAt(table, CursorOf(replies, i), limit, tick, i);
  }

  function RowsOf(replies: seq<Reply>): (r: seq<seq<Key>>)
    ensures |r| == |replies|
  {
    seq(|replies|, i requires 0 <= i < |replies| => replies[i].rows)
  }

  lemma SlicesMeet(rows: seq<Key>, k: nat, limit: nat)
    requires k <= |rows|
    ensures rows[..k] + rows[k..Min(k + limit, |rows|)] == rows[..Min(k + limit, |rows|)]
  {
  }

  lemma PagesGrow(replies: seq<Reply>, n: nat)
    requires 0 < n <= |replies|
    ensures Flatten(RowsOf(replies)[..n]) == Flatten(RowsOf(replies)[..n - 1]) + replies[n - 1].rows
  {
    assert RowsOf(replies)[..n] == RowsOf(replies)[..n - 1] + [replies[n - 1].rows];
    FlattenAppend(RowsOf(replies)[..n - 1], replies[n - 1].rows);
  }

  lemma {:induction false} PagesConcatenate(replies: seq<Reply>, rows: seq<Key>, limit: nat, n: nat)
    requires n <= |replies| && forall i | 0 <= i < |replies| :: IsPageOfListing(replies[i], rows, limit, i)
    ensures Flatten(RowsOf(replies)[..n]) == rows[..Min(n * limit, |rows|)]
  {
    if n > 0 {
      hide Flatten, RowsOf;
      PagesConcatenate(replies, rows, limit, n - 1);
      var k := (n - 1) * limit;
      assert n * limit == k + limit;
      assert IsPageOfListing(replies[n - 1], rows, limit, n - 1);
      PagesGrow(replies, n);
      SlicesMeet(rows, k, limit);
    }
  }

  // Main result: the pages of an unchanging table concatenate to the whole result in the query's
  // order, in ceil(n / limit) pages (one when there are no rows), all but the last of full size.
  lemma StaticPages(table: set<Key>, tables: seq<set<Key>>, replies: seq<Reply>, limit: nat, tick: nat)
    requires tick > 0 && Separated(table, tick) && 0 < limit < U32_MAX
    requires Constant(tables, table) && IsSession(tables, replies, limit, tick) && IsComplete(replies)
    ensures Flatten(RowsOf(replies)) == Listing(table)
    ensures |replies| == Max(1, DivCeil(|table|, limit))
    ensures forall i | 0 <= i < |replies| - 1 :: |replies[i].rows| == limit
  {
    hide Serve, Separated, RowsBelow;
    var rows, n := Listing(table), |replies|;
    hide Listing;
    forall i | 0 <= i < n ensures IsPageOfListing(replies[i], rows, limit, i) {
      StaticPage(table, tables, replies, limit, tick, i);
    }
    PagesConcatenate(replies, rows, limit, n);
    assert RowsOf(replies)[..n] == RowsOf(replies);
    assert IsPageOfListing(replies[n - 1], rows, limit, n - 1);
    assert |rows| == |table| by { DistinctSize(rows); }
    PageCount(|table|, limit, n);
    forall i | 0 <= i < n - 1 ensures |replies[i].rows| == limit {
      assert IsPageOfListing(replies[i], rows, limit, i);
      assert (i + 1) * limit == i * limit + limit;
    }
  }

  lemma PageCount(size: nat, limit: nat, pages: nat)
    requires limit > 0 && pages > 0
    requires (pages - 1) * limit <= size <= pages * limit
    requires pages > 1 ==> (pages - 1) * limit < size
    ensures pages == Max(1, DivCeil(size, limit))
  {
    if (pages - 1) * limit < size {
      RoundBounds(size, limit, pages - 1);
    } else {
      DivUnique(limit - 1, limit, 0, limit - 1);
    }
  }
}
