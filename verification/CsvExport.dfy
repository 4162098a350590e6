/** CSV export, and the reader that must get every cell back. */
module CsvExport {
  import opened JsonValues
  import opened Wrappers
  import SearchExecute

  predicate IsSpecial(c: char) {
    c == ',' || c == '"' || c == '\n' || c == '\r'
  }

  predicate HasSpecial(s: Utf8) {
    exists i :: 0 <= i < |s| && IsSpecial(s[i])
  }

  // ----- The printer

  function CellText(v: Json): Utf8 {
    if v.Null? then [] else if v.Str? then v.s else SearchExecute.JsonText(v)
  }

  // str::replace('"', "\"\"")
  function DoubleQuotes(s: Utf8): Utf8 {
    if s == [] then [] else (if s[0] == '"' then "\"\"" else [s[0]]) + DoubleQuotes(s[1..])
  }

  function Quoted(s: Utf8): Utf8 {
    if HasSpecial(s) then "\"" + DoubleQuotes(s) + "\"" else s
  }

  function CsvCell(v: Json): Utf8 {
    Quoted(CellText(v))
  }

  function Value(row: Object, column: Utf8): Json {
    if Get(row, column).Some? then Get(row, column).value else Null
  }

  function Texts(row: Object, columns: seq<Utf8>): (texts: seq<Utf8>)
    ensures |texts| == |columns|
    ensures forall j | 0 <= j < |columns| :: texts[j] == CellText(Value(row, columns[j]))
  {
    seq(|columns|, j requires 0 <= j < |columns| => CellText(Value(row, columns[j])))
  }

  function Join(fields: seq<Utf8>): Utf8 {
    if fields == [] then []
    else if |fields| == 1 then fields[0]
    else fields[0] + "," + Join(fields[1..])
  }

  function QuotedAll(texts: seq<Utf8>): (r: seq<Utf8>)
    ensures |r| == |texts|
    ensures forall j | 0 <= j < |texts| :: r[j] == Quoted(texts[j])
  {
    seq(|texts|, j requires 0 <= j < |texts| => Quoted(texts[j]))
  }

  function Line(texts: seq<Utf8>): Utf8 {
    Join(QuotedAll(texts)) + "\n"
  }

  function Body(columns: seq<Utf8>, rows: seq<Object>): Utf8 {
    if rows == [] then [] else Line(Texts(rows[0], columns)) + Body(columns, rows[1..])
  }

  // The column names are joined as they are, without quoting.
  function Csv(columns: seq<Utf8>, rows: seq<Object>): Utf8 {
    Join(columns) + "\n" + Body(columns, rows)
  }

  lemma {:induction false} BodyAppend(columns: seq<Utf8>, rows: seq<Object>, row: Object)
    ensures Body(columns, rows + [row]) == Body(columns, rows) + Line(Texts(row, columns))
  {
    if rows == [] {
      assert rows + [row] == [row];
      assert [row][1..] == [];
    } else {
      BodyAppend(columns, rows[1..], row);
      assert (rows + [row])[1..] == rows[1..] + [row];
    }
  }

  lemma CsvParts(columns: seq<Utf8>, rows: seq<Object>)
    ensures Csv(columns, rows) == Join(columns) + "\n" + Body(columns, rows)
    ensures Body(columns, []) == []
  {
  }

  lemma LineParts(texts: seq<Utf8>)
    ensures Line(texts) == Join(QuotedAll(texts)) + "\n"
  {
  }

  lemma CellIs(v: Json)
    ensures CsvCell(v) == Quoted(CellText(v))
  {
  }

  // The cells of one line.
  method CsvCells(columns: seq<Utf8>, row: Object) returns (cells: seq<Utf8>)
    ensures cells == QuotedAll(Texts(row, columns))
  {
    hide *;
    cells := [];
    for j := 0 to |columns|
      invariant |cells| == j
      invariant forall k | 0 <= k < j :: cells[k] == Quoted(CellText(Value(row, columns[k])))
    {
      CellIs(Value(row, columns[j]));
      cells := cells + [CsvCell(Value(row, columns[j]))];
    }
  }

  method RowsToCsv(columns: seq<Utf8>, rows: seq<Object>) returns (out: Utf8)
    ensures out == Csv(columns, rows)
  {
    hide *;
    out := Join(columns) + "\n";
    CsvParts(columns, []);
    assert rows[..0] == [];
    for i := 0 to |rows|
      invariant out == Join(columns) + "\n" + Body(columns, rows[..i])
    {
      var cells := CsvCells(columns, rows[i]);
      LineParts(Texts(rows[i], columns));
      BodyAppend(columns, rows[..i], rows[i]);
      assert rows[..i + 1] == rows[..i] + [rows[i]];
      out := out + Join(cells);
      out := out + "\n";
    }
    assert rows[..|rows|] == rows;
    CsvParts(columns, rows);
  }

  // Without columns the export is a line feed for the header and one for each row.
  lemma {:induction false} NoColumns(rows: seq<Object>)
    ensures Body([], rows) == seq(|rows|, i => '\n')
    ensures Csv([], rows) == seq(|rows| + 1, i => '\n')
  {
    assert Line([]) == "\n";
    if rows != [] {
      NoColumns(rows[1..]);
      assert Texts(rows[0], []) == [];
    }
  }

  // ----- The reader: section 2 of RFC 4180, records ending in LF

  function ReadPlain(s: Utf8): (r: Option<(Utf8, Utf8)>)
    ensures r.Some? ==> |r.value.1| + |r.value.0| == |s| && !HasSpecial(r.value.0)
  {
    if s == [] || s[0] == ',' || s[0] == '\n' then Some(([], s))
    else if IsSpecial(s[0]) then None
    else
      var r := ReadPlain(s[1..]);
      if r.None? then None else Some(([s[0]] + r.value.0, r.value.1))
  }

  // A quoted field whose opening quote has been read.
  function ReadQuoted(s: Utf8): (r: Option<(Utf8, Utf8)>)
    ensures r.Some? ==> |r.value.1| + |r.value.0| < |s|
    decreases |s|
  {
    if s == [] then None
    else if s[0] != '"' then
      var r := ReadQuoted(s[1..]);
      if r.None? then None else Some(([s[0]] + r.value.0, r.value.1))
    else if |s| > 1 && s[1] == '"' then
      var r := ReadQuoted(s[2..]);
      if r.None? then None else Some(([s[0]] + r.value.0, r.value.1))
    else Some(([], s[1..]))
  }

  // No field is longer than what it was read from, and only quoting makes room for the special characters.
  function ReadField(s: Utf8): (r: Option<(Utf8, Utf8)>)
    ensures r.Some? ==> |r.value.1| + |r.value.0| <= |s|
    ensures r.Some? && HasSpecial(r.value.0) ==> |r.value.1| + |r.value.0| < |s|
  {
    if s != [] && s[0] == '"' then ReadQuoted(s[1..]) else ReadPlain(s)
  }

  function ReadRecord(s: Utf8): (r: Option<(seq<Utf8>, Utf8)>)
    ensures r.Some? ==> |r.value.1| < |s|
    decreases |s|
  {
    var f := ReadField(s);
    if f.None? || f.value.1 == [] then None
    else if f.value.1[0] == '\n' then Some(([f.value.0], f.value.1[1..]))
    else if f.value.1[0] != ',' then None
    else
      var r := ReadRecord(f.value.1[1..]);
      if r.None? then None else Some(([f.value.0] + r.value.0, r.value.1))
  }

  function ReadCsv(s: Utf8): Option<seq<seq<Utf8>>>
    decreases |s|
  {
    if s == [] then Some([])
    else
      var r := ReadRecord(s);
      if r.None? || ReadCsv(r.value.1).None? then None
      else Some([r.value.0] + ReadCsv(r.value.1).value)
  }

  // ----- Reading back what was printed

  predicate EndsField(rest: Utf8) {
    rest != [] && (rest[0] == ',' || rest[0] == '\n')
  }

  lemma {:induction false} PlainReads(s: Utf8, rest: Utf8)
    requires !HasSpecial(s) && EndsField(rest)
    ensures ReadPlain(s + rest) == Some((s, rest))
  {
    if s == [] {
      assert s + rest == rest;
    } else {
      assert !IsSpecial(s[0]);
      assert forall i | 0 <= i < |s| - 1 :: s[1..][i] == s[i + 1];
      PlainReads(s[1..], rest);
      assert (s + rest)[1..] == s[1..] + rest;
      assert s == [s[0]] + s[1..];
    }
  }

  lemma DoubledReads(c: Byte, after: Utf8)
    requires ReadQuoted(after).Some?
    ensures ReadQuoted((if c == '"' then "\"\"" else [c]) + after)
         == Some(([c] + ReadQuoted(after).value.0, ReadQuoted(after).value.1))
  {
    var t: Utf8 := (if c == '"' then "\"\"" else [c]) + after;
    if c == '"' {
      assert t[0] == '"' && t[1] == '"' && t[2..] == after;
    } else {
      assert t[0] == c && t[1..] == after;
    }
  }

  lemma {:induction false} QuotedReads(s: Utf8, rest: Utf8)
    requires EndsField(rest)
    ensures ReadQuoted(DoubleQuotes(s) + "\"" + rest) == Some((s, rest))
  {
    var t: Utf8 := DoubleQuotes(s) + "\"" + rest;
    if s == [] {
      assert t == "\"" + rest;
      assert t[1..] == rest;
    } else {
      QuotedReads(s[1..], rest);
      var after := DoubleQuotes(s[1..]) + "\"" + rest;
      assert t == (if s[0] == '"' then "\"\"" else [s[0]]) + after;
      hide ReadQuoted, DoubleQuotes;
      DoubledReads(s[0], after);
      assert s == [s[0]] + s[1..];
    }
  }

  lemma FieldReads(text: Utf8, rest: Utf8)
    requires EndsField(rest)
    ensures ReadField(Quoted(text) + rest) == Some((text, rest))
  {
    hide ReadPlain, ReadQuoted, DoubleQuotes;
    var s := Quoted(text) + rest;
    if HasSpecial(text) {
      QuotedReads(text, rest);
      assert s == "\"" + (DoubleQuotes(text) + "\"" + rest);
      assert s[1..] == DoubleQuotes(text) + "\"" + rest;
    } else {
      PlainReads(text, rest);
      assert text != [] ==> !IsSpecial(text[0]);
      assert s[0] == if text == [] then rest[0] else text[0];
    }
  }

  lemma {:induction false} RecordReads(texts: seq<Utf8>, rest: Utf8)
    requires texts != []
    ensures ReadRecord(Line(texts) + rest) == Some((texts, rest))
  {
    hide ReadField, Quoted;
    var cells := QuotedAll(texts);
    if |texts| == 1 {
      FieldReads(texts[0], "\n" + rest);
      assert Line(texts) + rest == Quoted(texts[0]) + ("\n" + rest);
      assert ("\n" + rest)[1..] == rest;
      assert texts == [texts[0]];
    } else {
      assert cells[1..] == QuotedAll(texts[1..]);
      var after := Line(texts[1..]) + rest;
      RecordReads(texts[1..], rest);
      FieldReads(texts[0], "," + after);
      assert Line(texts) + rest == Quoted(texts[0]) + ("," + after);
      assert ("," + after)[1..] == after;
      assert texts == [texts[0]] + texts[1..];
    }
  }

  // The cells of a table, as text.
  function Cells(columns: seq<Utf8>, rows: seq<Object>): (cells: seq<seq<Utf8>>)
    ensures |cells| == |rows|
    ensures forall i | 0 <= i < |rows| :: cells[i] == Texts(rows[i], columns)
  {
    seq(|rows|, i requires 0 <= i < |rows| => Texts(rows[i], columns))
  }

  lemma RecordFirst(s: Utf8, texts: seq<Utf8>, rest: Utf8)
    requires ReadRecord(s) == Some((texts, rest)) && ReadCsv(rest).Some?
    ensures ReadCsv(s) == Some([texts] + ReadCsv(rest).value)
  {
    hide ReadRecord;
  }

  lemma NoRows(columns: seq<Utf8>)
    ensures ReadCsv(Body(columns, [])) == Some(Cells(columns, []))
  {
  }

  lemma FirstRow(columns: seq<Utf8>, rows: seq<Object>)
    requires rows != []
    ensures Body(columns, rows) == Line(Texts(rows[0], columns)) + Body(columns, rows[1..])
    ensures Cells(columns, rows) == [Texts(rows[0], columns)] + Cells(columns, rows[1..])
  {
    hide Line, Texts;
  }

  lemma {:induction false} BodyReads(columns: seq<Utf8>, rows: seq<Object>)
    requires columns != []
    ensures ReadCsv(Body(columns, rows)) == Some(Cells(columns, rows))
  {
    hide *;
    if rows == [] {
      NoRows(columns);
    } else {
      var texts, rest := Texts(rows[0], columns), Body(columns, rows[1..]);
      FirstRow(columns, rows);
      assert |texts| == |columns|;
      RecordReads(texts, rest);
      BodyReads(columns, rows[1..]);
      RecordFirst(Line(texts) + rest, texts, rest);
    }
  }

  predicate ReadsBack(columns: seq<Utf8>, rows: seq<Object>) {
    ReadCsv(Csv(columns, rows)) == Some([columns] + Cells(columns, rows))
  }

  predicate CleanColumns(columns: seq<Utf8>) {
    columns != [] && forall j | 0 <= j < |columns| :: !HasSpecial(columns[j])
  }

  lemma CleanReadsBack(columns: seq<Utf8>, rows: seq<Object>)
    requires CleanColumns(columns)
    ensures ReadsBack(columns, rows)
  {
    hide ReadRecord, Body, Texts;
    assert QuotedAll(columns) == columns;
    assert Csv(columns, rows) == Line(columns) + Body(columns, rows);
    RecordReads(columns, Body(columns, rows));
    BodyReads(columns, rows);
  }

  // The length of the names joined with commas and ended with LF.
  function Length(fields: seq<Utf8>): nat {
    if fields == [] then 0 else |fields[0]| + 1 + Length(fields[1..])
  }

  lemma {:induction false} JoinLength(fields: seq<Utf8>)
    requires fields != []
    ensures |Join(fields) + "\n"| == Length(fields)
  {
    if |fields| > 1 {
      JoinLength(fields[1..]);
    } else {
      assert fields[1..] == [];
    }
  }

  lemma {:induction false} RecordCost(s: Utf8)
    requires ReadRecord(s).Some?
    ensures var r := ReadRecord(s).value;
      && Length(r.0) + |r.1| <= |s|
      && ((exists j :: 0 <= j < |r.0| && HasSpecial(r.0[j])) ==> Length(r.0) + |r.1| < |s|)
    decreases |s|
  {
    hide ReadField, HasSpecial;
    var f, r := ReadField(s).value, ReadRecord(s).value;
    if f.1[0] == '\n' {
      assert r.0[1..] == [];
    } else {
      RecordCost(f.1[1..]);
      assert r.0[1..] == ReadRecord(f.1[1..]).value.0;
      if j :| 0 <= j < |r.0| && HasSpecial(r.0[j]) {
        assert j > 0 ==> HasSpecial(r.0[1..][j - 1]);
      }
    }
  }

  // A header with a special character in a name, or without names, does not come back.
  lemma UncleanHeaderIsLost(columns: seq<Utf8>)
    requires !CleanColumns(columns)
    ensures !ReadsBack(columns, [])
  {
    var s := Csv(columns, []);
    assert s == Join(columns) + "\n";
    if ReadsBack(columns, []) {
      assert ReadCsv(s).value[0] == ([columns] + Cells(columns, []))[0];
      assert ReadRecord(s).Some? && ReadRecord(s).value.0 == columns;
      assert columns != [];
      hide ReadRecord;
      RecordCost(s);
      JoinLength(columns);
      assert false;
    }
  }

  // Main result: the export can be read back, whatever the cells hold, exactly when there are
  // columns and their names need no quoting.
  lemma ExportReadsBackExactlyWhen(columns: seq<Utf8>)
    ensures CleanColumns(columns) <==> forall rows :: ReadsBack(columns, rows)
  {
    hide ReadsBack, CleanColumns;
    if CleanColumns(columns) {
      forall rows ensures ReadsBack(columns, rows) {
        CleanReadsBack(columns, rows);
      }
    } else {
      UncleanHeaderIsLost(columns);
    }
  }

  // Exactly one column has the name.
  ghost predicate IsOneColumn(columns: seq<Utf8>, name: Utf8) {
    exists j :: 0 <= j < |columns| && columns[j] == name && forall j' | 0 <= j' < |columns| && j' != j :: columns[j'] != name
  }

  lemma ColumnOf(columns: seq<Utf8>, rows: seq<Object>, i: nat, k: nat)
    requires SearchExecute.AreColumns(columns, rows) && i < |rows| && k < |rows[i]|
    ensures IsOneColumn(columns, rows[i][k].name)
  {
    var name := rows[i][k].name;
    assert name in columns;
    var j :| 0 <= j < |columns| && columns[j] == name;
    forall j' | 0 <= j' < |columns| && j' != j ensures columns[j'] != name {
      assert j < j' ==> columns[j] != columns[j'];
      assert j' < j ==> columns[j'] != columns[j];
    }
  }

  lemma TheColumn(columns: seq<Utf8>, name: Utf8) returns (j: nat)
    requires IsOneColumn(columns, name)
    ensures j < |columns| && columns[j] == name && forall j' | 0 <= j' < |columns| && j' != j :: columns[j'] != name
  {
    j :| 0 <= j < |columns| && columns[j] == name && forall j' | 0 <= j' < |columns| && j' != j :: columns[j'] != name;
  }

  // A cell shows a value: the text that stands for it, and nothing for null.
  predicate Shows(text: Utf8, v: Json) {
    if v.Null? then text == [] else IsShown(text, v)
  }

  lemma CellShows(v: Json)
    ensures Shows(CellText(v), v)
  {
  }

  // A cell is quoted only for the sake of a comma, a quote or a line break in it.
  lemma QuotedExactlyWhen(s: Utf8)
    ensures Quoted(s) == s <==> forall i | 0 <= i < |s| :: s[i] != ',' && s[i] != '"' && s[i] != '\n' && s[i] != '\r'
    ensures Quoted(s) != s ==> |Quoted(s)| >= |s| + 2 && Quoted(s)[0] == '"' && Quoted(s)[|Quoted(s)| - 1] == '"'
  {
    DoubledLength(s);
    hide DoubleQuotes;
    if HasSpecial(s) {
      assert |Quoted(s)| > |s|;
    }
  }

  lemma {:induction false} DoubledLength(s: Utf8)
    ensures |DoubleQuotes(s)| >= |s|
  {
    if s != [] {
      DoubledLength(s[1..]);
    }
  }

  predicate IsTable(read: Option<seq<seq<Utf8>>>, columns: seq<Utf8>, rows: seq<Object>) {
    && read.Some? && |read.value| == |rows| + 1
    && forall i | 0 <= i < |read.value| :: |read.value[i]| == |columns|
  }

  lemma CellRead(columns: seq<Utf8>, rows: seq<Object>, i: nat, j: nat)
    requires CleanColumns(columns) && i < |rows| && j < |columns|
    ensures var read := ReadCsv(Csv(columns, rows));
      IsTable(read, columns, rows) && read.value[i + 1][j] == CellText(Value(rows[i], columns[j]))
  {
    hide ReadCsv, Csv, CellText, Value, CleanColumns;
    CleanReadsBack(columns, rows);
  }

  // Main result: with the columns of the rows, no cell is lost: each value of each row is shown by the cell read back
  // in exactly one column. A string in particular is read back as it was.
  lemma NoCellLost(columns: seq<Utf8>, rows: seq<Object>, i: nat, k: nat)
    requires SearchExecute.AreColumns(columns, rows) && CleanColumns(columns)
    requires i < |rows| && k < |rows[i]| && DistinctNames(rows[i])
    ensures exists j ::
      && 0 <= j < |columns| && columns[j] == rows[i][k].name
      && (forall j' | 0 <= j' < |columns| && j' != j :: columns[j'] != rows[i][k].name)
      && IsTable(ReadCsv(Csv(columns, rows)), columns, rows)
      && Shows(ReadCsv(Csv(columns, rows)).value[i + 1][j], rows[i][k].value)
  {
    GetAt(rows[i], k);
    hide *;
    ColumnOf(columns, rows, i, k);
    var j := TheColumn(columns, rows[i][k].name);
    CellRead(columns, rows, i, j);
    CellShows(rows[i][k].value);
    PresentValue(rows[i], columns[j], rows[i][k].value);
  }

  lemma PresentValue(row: Object, column: Utf8, v: Json)
    requires Get(row, column) == Some(v)
    ensures Value(row, column) == v
  {
  }

  // The cell of a column that the row lacks is read back empty.
  lemma AbsentIsEmpty(columns: seq<Utf8>, rows: seq<Object>, i: nat, j: nat)
    requires CleanColumns(columns) && i < |rows| && j < |columns|
    requires forall k | 0 <= k < |rows[i]| :: rows[i][k].name != columns[j]
    ensures IsTable(ReadCsv(Csv(columns, rows)), columns, rows)
    ensures ReadCsv(Csv(columns, rows)).value[i + 1][j] == []
  {
    CellRead(columns, rows, i, j);
    hide ReadCsv, Csv, CleanColumns;
  }
}
