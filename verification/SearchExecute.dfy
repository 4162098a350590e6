/** The paging part of a search run, and the columns of its result. */
module SearchExecute {
  import opened Arithmetic
  import opened CursorToken
  import opened JsonValues
  import opened Sequences
  import opened Sets
  import opened Timestamps
  import opened Wrappers
  import Pagination

  // Value::to_string
  function JsonText(v: Json): Utf8 {
    match v
    case Null => "null"
    case Bool(b) => if b then "true" else "false"
    case Number(text) => text
    case Str(s) => Quote(s)
    case Compound(text) => text
  }

  function CursorField(v: Json): Utf8 {
    if v.Str? then v.s else JsonText(v)
  }

  function CursorFromRow(row: Object): Option<SearchCursor> {
    var timestamp, id := Get(row, "timestamp"), Get(row, "id");
    if timestamp.None? || id.None? then None
    else Some(SearchCursor(CursorField(timestamp.value), CursorField(id.value)))
  }

  // The cursor of a row holds its timestamp and its id, each as the text that stands for it; a row without one of the
  // two has no cursor.
  lemma CursorHolds(row: Object, i: nat, k: nat)
    requires DistinctNames(row) && i < |row| && k < |row|
    ensures row[i].name == "timestamp" && row[k].name == "id" ==>
      && CursorFromRow(row).Some?
      && IsShown(CursorFromRow(row).value.timestamp, row[i].value) && IsShown(CursorFromRow(row).value.id, row[k].value)
    ensures CursorFromRow(row).Some? <==>
      (exists a :: 0 <= a < |row| && row[a].name == "timestamp") && exists b :: 0 <= b < |row| && row[b].name == "id"
  {
    GetAt(row, i);
    GetAt(row, k);
    hide DistinctNames;
  }

  // ----- The page cut from the rows fetched

  ghost predicate IsPage(
    rows: seq<Object>, pageable: bool, limit: nat, page: seq<Object>, hasMore: bool, token: Option<string>)
  {
    && (hasMore <==> pageable && |rows| > limit)
    && page == (if hasMore then rows[..limit] else rows)
    && (token.Some? <==> hasMore && limit > 0 && CursorFromRow(rows[limit - 1]).Some?)
    && (token.Some? ==> DecodeSearchAfter(token.value) == CursorFromRow(rows[limit - 1]))
  }

  method CutPage(rows: seq<Object>, pageable: bool, limit: nat)
    returns (page: seq<Object>, hasMore: bool, token: Option<string>)
    ensures IsPage(rows, pageable, limit, page, hasMore, token)
    ensures !pageable || |rows| <= limit ==> page == rows && !hasMore && token.None?
    ensures pageable && |rows| > limit ==> hasMore && page + rows[limit..] == rows && |page| == limit
  {
    hide CursorFromRow, EncodeSearchAfter, DecodeSearchAfter;
    page, hasMore, token := rows, false, None;
    if pageable && |page| > limit {
      hasMore := true;
      page := page[..limit];
    }
    if hasMore && page != [] {
      var last := CursorFromRow(page[|page| - 1]);
      if last.Some? {
        token := Some(EncodeSearchAfter(last.value));
        TokenRoundTrip(last.value, [], []);
        assert [] + EncodeSearchAfter(last.value) + [] == EncodeSearchAfter(last.value);
      }
    }
  }

  function Shown(keys: seq<Pagination.Key>, show: Pagination.Key -> Object): (rows: seq<Object>)
    ensures |rows| == |keys|
    ensures forall i | 0 <= i < |keys| :: rows[i] == show(keys[i])
  {
    seq(|keys|, i requires 0 <= i < |keys| => show(keys[i]))
  }

  // ----- The page against the paging model

  // A row of the result: its timestamp and id as the database prints them, and whatever else it holds.
  function PrintedRow(ids: IdText, others: Pagination.Key -> Object, k: Pagination.Key): Object {
    [Field("timestamp", Str(if IsStored(k.ts) then TimestampText(k.ts) else "")), Field("id", Str(ids.show(k.id)))]
    + others(k)
  }

  // What the query compares rows with.
  function ReadCursor(ids: IdText, c: SearchCursor): Pagination.Key {
    Pagination.Key(if |c.timestamp| >= 23 then ReadTimestamp(c.timestamp) else 0, ids.read(c.id))
  }

  lemma CursorOfRow(text: Utf8, id: Utf8, others: Object)
    ensures CursorFromRow([Field("timestamp", Str(text)), Field("id", Str(id))] + others) == Some(SearchCursor(text, id))
  {
    var row := [Field("timestamp", Str(text)), Field("id", Str(id))] + others;
    assert "timestamp" != "id" by {
      assert |"timestamp"| != |"id"|;
    }
    assert Get(row, "timestamp") == Some(Str(text));
    assert row[1..][0] == Field("id", Str(id));
    assert Get(row[1..], "id") == Some(Str(id));
    hide Get;
  }

  // The keys that the columns can hold.
  predicate IsStoredKey(k: Pagination.Key) {
    IsStored(k.ts) && k.id < UUIDS
  }

  lemma PrintedRowIsCut(ids: IdText, others: Pagination.Key -> Object, k: Pagination.Key)
    requires IsIdText(ids) && IsStoredKey(k)
    ensures var c := CursorFromRow(PrintedRow(ids, others, k));
      c.Some? && ReadCursor(ids, c.value) == Pagination.Cut(k, Pagination.CURSOR_TICK)
  {
    hide TimestampText, ReadTimestamp, CursorFromRow, IsStored;
    TimestampIsCut(k.ts);
    CursorOfRow(TimestampText(k.ts), ids.show(k.id), others(k));
  }

  lemma RowsAreInTable(table: set<Pagination.Key>, cursor: Option<Pagination.Key>, limit: nat)
    requires limit > 0 && limit <= |Pagination.Listing(Pagination.RowsBelow(table, cursor))|
    ensures Pagination.Listing(Pagination.RowsBelow(table, cursor))[limit - 1] in table
  {
    var all := Pagination.Listing(Pagination.RowsBelow(table, cursor));
    assert all[limit - 1] in Elements(all);
  }

  // Main result: for a table of rows that the columns can hold, a search response is the reply of the paging model at
  // the millisecond tick, and its token is read by the next query as the cursor of that reply.
  lemma PageServesMilliseconds(
    table: set<Pagination.Key>, cursor: Option<Pagination.Key>, limit: nat, ids: IdText,
    others: Pagination.Key -> Object, page: seq<Object>, hasMore: bool, token: Option<string>)
    requires IsIdText(ids) && forall k | k in table :: IsStoredKey(k)
    requires var all := Pagination.Listing(Pagination.RowsBelow(table, cursor));
      IsPage(Shown(all[..Min(Pagination.FetchSize(limit), |all|)], k => PrintedRow(ids, others, k)), true, limit,
             page, hasMore, token)
    ensures var reply := Pagination.Serve(table, cursor, limit, Pagination.CURSOR_TICK);
      && page == Shown(reply.rows, k => PrintedRow(ids, others, k))
      && hasMore == reply.hasMore
      && (token.Some? <==> reply.next.Some?)
      && (token.Some? ==>
            && DecodeSearchAfter(token.value).Some?
            && ReadCursor(ids, DecodeSearchAfter(token.value).value) == reply.next.value)
  {
    hide CursorFromRow, DecodeSearchAfter, Pagination.Listing, Pagination.RowsBelow, ReadCursor, PrintedRow, IsStoredKey,
         IsIdText;
    var all := Pagination.Listing(Pagination.RowsBelow(table, cursor));
    if 0 < limit <= |all| {
      RowsAreInTable(table, cursor, limit);
      PrintedRowIsCut(ids, others, all[limit - 1]);
    }
  }

  // ----- The columns of a result

  function Names(row: Object): (names: seq<Utf8>)
    ensures |names| == |row|
    ensures forall k | 0 <= k < |row| :: names[k] == row[k].name
  {
    seq(|row|, k requires 0 <= k < |row| => row[k].name)
  }

  // The keys of every row, row by row.
  function KeysOf(rows: seq<Object>): seq<Utf8> {
    if rows == [] then [] else KeysOf(rows[..|rows| - 1]) + Names(rows[|rows| - 1])
  }

  // The values of xs, each where it occurs first.
  function FirstSeen(xs: seq<Utf8>): seq<Utf8> {
    if xs == [] then []
    else
      var init, last := xs[..|xs| - 1], xs[|xs| - 1];
      if last in init then FirstSeen(init) else FirstSeen(init) + [last]
  }

  // What the loop holds after the keys xs.
  ghost predicate Collected(xs: seq<Utf8>, seen: set<Utf8>, columns: seq<Utf8>) {
    seen == Elements(xs) && columns == FirstSeen(xs)
  }

  lemma CollectedStep(xs: seq<Utf8>, x: Utf8, seen: set<Utf8>, columns: seq<Utf8>)
    requires Collected(xs, seen, columns)
    ensures Collected(xs + [x], seen + {x}, if x in seen then columns else columns + [x])
  {
    assert (xs + [x])[..|xs|] == xs;
  }

  predicate Before(xs: seq<Utf8>, x: Utf8, y: Utf8) {
    exists i :: 0 <= i < |xs| && xs[i] == x && y !in xs[..i]
  }

  lemma {:induction false} FirstSeenFacts(xs: seq<Utf8>)
    ensures forall x :: x in FirstSeen(xs) <==> x in xs
    ensures forall p, q | 0 <= p < q < |FirstSeen(xs)| ::
      FirstSeen(xs)[p] != FirstSeen(xs)[q] && Before(xs, FirstSeen(xs)[p], FirstSeen(xs)[q])
  {
    if xs != [] {
      var init, last := xs[..|xs| - 1], xs[|xs| - 1];
      FirstSeenFacts(init);
      assert xs == init + [last];
      var r := FirstSeen(xs);
      forall p, q | 0 <= p < q < |r| ensures r[p] != r[q] && Before(xs, r[p], r[q]) {
        if q < |FirstSeen(init)| {
          assert Before(init, r[p], r[q]);
          var i :| 0 <= i < |init| && init[i] == r[p] && r[q] !in init[..i];
          assert xs[..i] == init[..i];
        } else {
          assert r[p] in init;
          var i :| 0 <= i < |init| && init[i] == r[p];
          assert xs[..i] <= init;
          assert forall y | y in xs[..i] :: y in init;
        }
      }
    }
  }

  lemma {:induction false} KeyOfRow(rows: seq<Object>, x: Utf8)
    ensures x in KeysOf(rows) <==> exists i, k :: 0 <= i < |rows| && 0 <= k < |rows[i]| && rows[i][k].name == x
  {
    if rows != [] {
      var n := |rows| - 1;
      KeyOfRow(rows[..n], x);
      if x in KeysOf(rows[..n]) {
        var i, k :| 0 <= i < n && 0 <= k < |rows[..n][i]| && rows[..n][i][k].name == x;
        assert rows[i][k].name == x;
      } else if x in Names(rows[n]) {
        var k :| 0 <= k < |rows[n]| && Names(rows[n])[k] == x;
        assert rows[n][k].name == x;
      }
      if i, k :| 0 <= i < |rows| && 0 <= k < |rows[i]| && rows[i][k].name == x {
        if i < n {
          assert rows[..n][i][k].name == x;
        } else {
          assert Names(rows[n])[k] == x;
        }
      }
    }
  }

  // Every key of every row is a column, once, in the order of first appearance.
  ghost predicate AreColumns(columns: seq<Utf8>, rows: seq<Object>) {
    && (forall x :: x in columns <==> exists i, k :: 0 <= i < |rows| && 0 <= k < |rows[i]| && rows[i][k].name == x)
    && (forall p, q | 0 <= p < q < |columns| ::
          columns[p] != columns[q] && Before(KeysOf(rows), columns[p], columns[q]))
  }

  lemma FirstSeenAreColumns(rows: seq<Object>)
    ensures AreColumns(FirstSeen(KeysOf(rows)), rows)
  {
    hide FirstSeen, KeysOf, Before;
    FirstSeenFacts(KeysOf(rows));
    forall x ensures x in FirstSeen(KeysOf(rows)) <==>
      exists i, k :: 0 <= i < |rows| && 0 <= k < |rows[i]| && rows[i][k].name == x
    {
      KeyOfRow(rows, x);
    }
  }

  lemma KeysOfPrefix(rows: seq<Object>, i: nat)
    requires i < |rows|
    ensures KeysOf(rows[..i + 1]) == KeysOf(rows[..i]) + Names(rows[i])
  {
    assert rows[..i + 1][..i] == rows[..i];
  }

  lemma NothingCollected()
    ensures Collected([], {}, []) && KeysOf([]) == []
  {
  }

  lemma CollectedIsFirstSeen(xs: seq<Utf8>, seen: set<Utf8>, columns: seq<Utf8>)
    requires Collected(xs, seen, columns)
    ensures columns == FirstSeen(xs)
  {
  }

  // The keys of one row.
  method CollectKeys(names: seq<Utf8>, ghost before: seq<Utf8>, seen: set<Utf8>, columns: seq<Utf8>)
    returns (seen': set<Utf8>, columns': seq<Utf8>)
    requires Collected(before, seen, columns)
    ensures Collected(before + names, seen', columns')
  {
    hide *;
    seen', columns' := seen, columns;
    ghost var keys := before;
    for k := 0 to |names|
      invariant keys == before + names[..k] && Collected(keys, seen', columns')
    {
      CollectedStep(keys, names[k], seen', columns');
      keys := keys + [names[k]];
      if names[k] !in seen' {
        columns' := columns' + [names[k]];
      }
      seen' := seen' + {names[k]};
    }
    assert names[..|names|] == names;
  }

  method ColumnsFromRows(rows: seq<Object>) returns (columns: seq<Utf8>)
    ensures AreColumns(columns, rows)
  {
    hide *;
    var seen: set<Utf8> := {};
    columns := [];
    ghost var keys: seq<Utf8> := [];
    NothingCollected();
    for i := 0 to |rows|
      invariant keys == KeysOf(rows[..i]) && Collected(keys, seen, columns)
    {
      seen, columns := CollectKeys(Names(rows[i]), keys, seen, columns);
      keys := keys + Names(rows[i]);
      KeysOfPrefix(rows, i);
    }
    assert rows[..|rows|] == rows;
    CollectedIsFirstSeen(keys, seen, columns);
    FirstSeenAreColumns(rows);
  }
}
