/**
 The mPL search parser, character by character: a query text to the search expression it stands for.
 AND binds tighter than OR, and expressions side by side mean AND.
 */
module MplParser {
  import opened MplValues
  import opened Text
  import opened Wrappers

  datatype CompareOp = Eq | Ne | Gte | Lte | Gt | Lt

  datatype Expr =
    | Field(field: string, op: CompareOp, value: string)
    | In(name: string, values: seq<string>, negate: bool)
    | BareToken(token: string)
    | Wildcard(pattern: string)
    | Not(inner: Expr)
    | And(all: seq<Expr>)
    | Or(any: seq<Expr>)
    | True

  type Parsed = Option<(Expr, string)>

  // ----- Characters and words

  // The white space of nom's multispace0 and multispace1.
  predicate IsSpace(c: char) {
    c == ' ' || c == '\t' || c == '\r' || c == '\n'
  }

  function SkipSpaces(s: string): (r: string)
    ensures |r| <= |s|
    ensures r != [] ==> !IsSpace(r[0])
  {
    if s != [] && IsSpace(s[0]) then SkipSpaces(s[1..]) else s
  }

  // multispace1
  function Spaces(s: string): (r: Option<string>)
    ensures r.Some? ==> |r.value| < |s|
  {
    if s != [] && IsSpace(s[0]) then Some(SkipSpaces(s[1..])) else None
  }

  function Tag(s: string, t: string): (r: Option<string>)
    ensures r.Some? ==> |r.value| + |t| == |s|
  {
    if StartsWith(s, t) then Some(s[|t|..]) else None
  }

  // The word in upper case, and the white space that must follow it.
  function Word(s: string, t: string): (r: Option<string>)
    ensures r.Some? ==> |r.value| < |s|
  {
    var after := Tag(s, t);
    if after.None? then None else Spaces(after.value)
  }

  // The ASCII characters of a field name.
  predicate IsNameChar(c: char) {
    '0' <= c <= '9' || 'a' <= c <= 'z' || 'A' <= c <= 'Z' || c == '_' || c == '.'
  }

  predicate IsFieldName(name: string) {
    name != [] && forall i | 0 <= i < |name| :: IsNameChar(name[i])
  }

  function UntilNameEnds(s: string): (n: nat)
    ensures n <= |s| && forall i | 0 <= i < n :: IsNameChar(s[i])
    ensures n < |s| ==> !IsNameChar(s[n])
  {
    if s == [] || !IsNameChar(s[0]) then 0 else 1 + UntilNameEnds(s[1..])
  }

  function FieldName(s: string): (r: Option<(string, string)>)
    ensures r.Some? ==> IsFieldName(r.value.0) && |r.value.1| < |s|
  {
    var n := UntilNameEnds(s);
    if n == 0 then None else Some((s[..n], s[n..]))
  }

  // ----- Single conditions

  function Operator(s: string): (r: Option<(CompareOp, string)>)
    ensures r.Some? ==> |r.value.1| < |s|
  {
    if StartsWith(s, "!=") then Some((Ne, s[2..]))
    else if StartsWith(s, ">=") then Some((Gte, s[2..]))
    else if StartsWith(s, "<=") then Some((Lte, s[2..]))
    else if StartsWith(s, "=") then Some((Eq, s[1..]))
    else if StartsWith(s, ">") then Some((Gt, s[1..]))
    else if StartsWith(s, "<") then Some((Lt, s[1..]))
    else None
  }

  // A leading ! turns any comparison into Ne.
  function FieldCompare(s: string): (r: Parsed)
    ensures r.Some? ==> |r.value.1| < |s|
    ensures r.Some? ==> r.value.0.Field? && IsFieldName(r.value.0.field)
  {
    var bang := StartsWith(s, "!");
    var name := FieldName(if bang then s[1..] else s);
    if name.None? then None
    else
      var op := Operator(name.value.1);
      if op.None? then None
      else
        var value := ReadValue(op.value.1);
        if value.None? then None
        else Some((Field(name.value.0, if bang then Ne else op.value.0, value.value.0), value.value.1))
  }

  function MoreValues(s: string): (r: (seq<string>, string))
    ensures |r.1| <= |s|
    decreases |s|
  {
    var t := SkipSpaces(s);
    if t == [] || t[0] != ',' then ([], s)
    else
      var v := ReadValue(SkipSpaces(t[1..]));
      if v.None? || |v.value.1| >= |s| then ([], s)
      else
        var rest := MoreValues(v.value.1);
        ([v.value.0] + rest.0, rest.1)
  }

  function FieldInList(s: string): (r: Parsed)
    ensures r.Some? ==> |r.value.1| < |s| && r.value.0.In?
  {
    var name := FieldName(s);
    if name.None? then None
    else
      var t := name.value.1;
      var spaced := Spaces(t);
      var negate := spaced.Some? && (StartsWith(spaced.value, "NOT") || StartsWith(spaced.value, "not"));
      var u := SkipSpaces(if negate then spaced.value[3..] else t);
      if |u| < 2 || ToLower(u[..2]) != "in" then None
      else
        var list := SkipSpaces(u[2..]);
        if list == [] || list[0] != '(' then None
        else
          var first := ReadValue(list[1..]);
          if first.None? then None
          else
            var more := MoreValues(first.value.1);
            if more.1 == [] || more.1[0] != ')' || |more.1| > |s| then None
            else Some((In(name.value.0, [first.value.0] + more.0, negate), more.1[1..]))
  }

  predicate EndsToken(c: char) {
    c == '!' || IsWhitespace(c) || c == '|' || c == '=' || c == '(' || c == ')'
  }

  function UntilTokenEnds(s: string): (n: nat)
    ensures n <= |s| && forall i | 0 <= i < n :: !EndsToken(s[i])
    ensures n < |s| ==> EndsToken(s[n])
  {
    if s == [] || EndsToken(s[0]) then 0 else 1 + UntilTokenEnds(s[1..])
  }

  predicate HasGlob(s: string) {
    '*' in s || '?' in s
  }

  function BareWord(s: string): (r: Parsed)
    ensures r.Some? ==> |r.value.1| < |s|
    ensures r.Some? ==> r.value.0.BareToken? || r.value.0.Wildcard?
  {
    var n := UntilTokenEnds(s);
    if n == 0 then None
    else Some((if HasGlob(s[..n]) then Wildcard(s[..n]) else BareToken(s[..n]), s[n..]))
  }

  // ----- Search expressions

  function Conjunction(xs: seq<Expr>): Expr
    requires xs != []
  {
    if |xs| == 1 then xs[0] else And(xs)
  }

  function Disjunction(xs: seq<Expr>): Expr
    requires xs != []
  {
    if |xs| == 1 then xs[0] else Or(xs)
  }

  predicate Readable(x: Expr) {
    x.Field? ==> IsFieldName(x.field)
  }

  // What can stand after NOT.
  function Plain(s: string): (r: Parsed)
    ensures r.Some? ==> |r.value.1| < |s|
    ensures r.Some? ==> Readable(r.value.0)
    decreases |s|, 1
  {
    var group := Group(s);
    if group.Some? then group
    else if FieldInList(s).Some? then FieldInList(s)
    else if FieldCompare(s).Some? then FieldCompare(s)
    else BareWord(s)
  }

  function Group(s: string): (r: Parsed)
    ensures r.Some? ==> |r.value.1| < |s|
    ensures r.Some? ==> Readable(r.value.0)
    decreases |s|, 0
  {
    if s == [] || s[0] != '(' then None
    else
      var r := Search(s[1..]);
      if r.None? then None
      else
        var t := SkipSpaces(r.value.1);
        if t == [] || t[0] != ')' then None else Some((r.value.0, t[1..]))
  }

  function Primary(s: string): (r: Parsed)
    ensures r.Some? ==> |r.value.1| < |s|
    ensures r.Some? ==> Readable(r.value.0)
    decreases |s|, 2
  {
    var t := Word(s, "NOT");
    var inner := if t.Some? then Plain(t.value) else None;
    if inner.Some? then Some((Not(inner.value.0), inner.value.1)) else Plain(s)
  }

  function AndExpr(s: string): (r: Parsed)
    ensures r.Some? ==> |r.value.1| < |s|
    ensures r.Some? ==> Readable(r.value.0)
    decreases |s|, 3
  {
    var first := Primary(s);
    if first.None? then None
    else
      var rest := AndTail(first.value.1);
      Some((Conjunction([first.value.0] + rest.0), rest.1))
  }

  function AndTail(s: string): (r: (seq<Expr>, string))
    ensures |r.1| <= |s|
    ensures forall x | x in r.0 :: Readable(x)
    decreases |s|, 3
  {
    var t := Word(SkipSpaces(s), "AND");
    var next := if t.Some? then Primary(t.value) else None;
    if next.None? then ([], s)
    else
      var rest := AndTail(next.value.1);
      ([next.value.0] + rest.0, rest.1)
  }

  function OrExpr(s: string): (r: Parsed)
    ensures r.Some? ==> |r.value.1| < |s|
    ensures r.Some? ==> Readable(r.value.0)
    decreases |s|, 4
  {
    var first := AndExpr(s);
    if first.None? then None
    else
      var rest := OrTail(first.value.1);
      Some((Disjunction([first.value.0] + rest.0), rest.1))
  }

  function OrTail(s: string): (r: (seq<Expr>, string))
    ensures |r.1| <= |s|
    ensures forall x | x in r.0 :: Readable(x)
    decreases |s|, 4
  {
    var t := Word(SkipSpaces(s), "OR");
    var next := if t.Some? then AndExpr(t.value) else None;
    if next.None? then ([], s)
    else
      var rest := OrTail(next.value.1);
      ([next.value.0] + rest.0, rest.1)
  }

  // A comma or white space between expressions.
  function Separator(s: string): (r: Option<string>)
    ensures r.Some? ==> |r.value| < |s|
  {
    if s != [] && s[0] == ',' then Some(SkipSpaces(s[1..])) else Spaces(s)
  }

  function Search(s: string): (r: Parsed)
    ensures r.Some? ==> |r.value.1| <= |s|
    ensures r.Some? ==> Readable(r.value.0)
    decreases |s|, 6
  {
    var t := SkipSpaces(s);
    if t == [] then Some((True, t))
    else
      var first := OrExpr(t);
      if first.None? then None
      else
        var rest := SearchTail(first.value.1);
        Some((Conjunction([first.value.0] + rest.0), rest.1))
  }

  function SearchTail(s: string): (r: (seq<Expr>, string))
    ensures |r.1| <= |s|
    ensures forall x | x in r.0 :: Readable(x)
    decreases |s|, 5
  {
    var t := Separator(s);
    var next := if t.Some? then OrExpr(t.value) else None;
    if next.None? then ([], s)
    else
      var rest := SearchTail(next.value.1);
      ([next.value.0] + rest.0, rest.1)
  }

  // ----- Whole queries

  predicate BeforePipe(s: string) {
    var t := TrimStart(s);
    t != [] && t[0] == '|'
  }

  // Commas before a bar are dropped outside quotes; out is what was kept so far.
  function DropCommas(s: string, quoted: bool, out: string): string
    decreases |s|
  {
    if s == [] then out
    else if s[0] == '"' then DropCommas(s[1..], !quoted, out + [s[0]])
    else if !quoted && s[0] == ',' && BeforePipe(s[1..]) then
      DropCommas(TrimStart(s[1..]), quoted,
                 if out != [] && !IsWhitespace(out[|out| - 1]) then out + " " else out)
    else DropCommas(s[1..], quoted, out + [s[0]])
  }

  function UntilDigitsEnd(s: string): (n: nat)
    ensures n <= |s|
  {
    if s == [] || !('0' <= s[0] <= '9') then 0 else 1 + UntilDigitsEnd(s[1..])
  }

  // The commands after the bars: only head is modelled.
  function Commands(s: string): (rest: string)
    decreases |s|
  {
    var t := SkipSpaces(s);
    if t == [] || t[0] != '|' then s
    else
      var n := Word(SkipSpaces(t[1..]), "head");
      if n.None? || UntilDigitsEnd(n.value) == 0 then s else Commands(n.value[UntilDigitsEnd(n.value)..])
  }

  // The search expression of a query. A query that begins with a time range is not modelled.
  function ParseMpl(text: string): Option<Expr> {
    var r := Search(DropCommas(Trim(text), false, []));
    if r.Some? && IsBlank(Commands(r.value.1)) then Some(r.value.0) else None
  }
}
