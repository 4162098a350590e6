/** Search expressions printed as query texts, and read back by the parser. */
module MplRoundTrip {
  import opened MplParser
  import opened MplQueries
  import opened MplReading
  import opened MplValues
  import opened Text
  import opened Wrappers

  // ----- The printer

  predicate IsQuotable(v: string) {
    v != [] && '"' !in v
  }

  predicate IsPattern(p: string) {
    && p != [] && (p[0] == '*' || p[0] == '?')
    && forall i | 0 <= i < |p| :: !EndsToken(p[i]) && p[i] != ',' && p[i] != '"'
  }

  // NOT before a list is the negation, whatever fields there are.
  predicate Printable(x: Expr) {
    match x
    case Field(field, _, value) => IsFieldName(field) && IsQuotable(value)
    case In(name, values, _) =>
      IsFieldName(name) && name != "NOT" && values != [] && forall i | 0 <= i < |values| :: IsQuotable(values[i])
    case BareToken(_) => false
    case Wildcard(pattern) => IsPattern(pattern)
    case Not(inner) => Printable(inner)
    case And(all) => |all| >= 2 && forall i | 0 <= i < |all| :: Printable(all[i])
    case Or(any) => |any| >= 2 && forall i | 0 <= i < |any| :: Printable(any[i])
    case True => false
  }

  function Sign(op: CompareOp): string {
    match op
    case Eq => "="
    case Ne => "!="
    case Gte => ">="
    case Lte => "<="
    case Gt => ">"
    case Lt => "<"
  }

  function Quoted(v: string): string {
    "\"" + v + "\""
  }

  function QuotedAll(vs: seq<string>): (r: seq<string>)
    ensures |r| == |vs| && forall i | 0 <= i < |vs| :: r[i] == Quoted(vs[i])
  {
    seq(|vs|, i requires 0 <= i < |vs| => Quoted(vs[i]))
  }

  function ListText(name: string, values: seq<string>, negate: bool): string
    requires values != []
  {
    name + (if negate then " NOT" else "") + " IN (" + Quoted(values[0]) + Tail(QuotedAll(values[1..]), ",") + ")"
  }

  function Print(x: Expr): string
    requires Printable(x)
  {
    match x
    case Field(field, op, value) => field + Sign(op) + Quoted(value)
    case In(name, values, negate) => ListText(name, values, negate)
    case Wildcard(pattern) => pattern
    case Not(inner) => "NOT " + (if inner.Not? then "(" + Print(inner) + ")" else Print(inner))
    case And(all) => "(" + JoinText(seq(|all|, i requires 0 <= i < |all| => Print(all[i])), " AND ") + ")"
    case Or(any) => "(" + JoinText(seq(|any|, i requires 0 <= i < |any| => Print(any[i])), " OR ") + ")"
  }

  // ----- Reading

  // t reads as x also after NOT.
  ghost predicate IsPlain(t: string, x: Expr) {
    && IsSolid(t)
    && forall rest | EndsPiece(rest) :: Plain(t + rest) == Some((x, rest)) && Word(t + rest, "NOT").None?
  }

  lemma PlainAt(t: string, x: Expr, rest: string)
    requires IsPlain(t, x) && EndsPiece(rest)
    ensures Plain(t + rest) == Some((x, rest)) && Word(t + rest, "NOT").None?
  {
  }

  lemma PlainIsPrimary(t: string, x: Expr)
    requires IsPlain(t, x)
    ensures IsPrimary(t, x)
  {
    hide Plain, Word;
  }

  lemma GroupIsPlain(t: string, x: Expr)
    requires IsPrimary(t, x) && t[0] == '('
    ensures IsPlain(t, x)
  {
    hide Plain;
    forall rest | EndsPiece(rest) ensures Plain(t + rest) == Some((x, rest)) && Word(t + rest, "NOT").None? {
      NotAt(t + rest);
      assert Word(t + rest, "NOT").None?;
      PrimaryAt(t, x, rest);
    }
  }

  lemma NotReads(t: string, x: Expr)
    requires IsPlain(t, x)
    ensures IsPrimary("NOT " + t, Not(x))
  {
    hide Plain;
    forall rest | EndsPiece(rest) ensures Primary("NOT " + t + rest) == Some((Not(x), rest)) {
      var s := "NOT " + t + rest;
      assert s == "NOT" + (" " + (t + rest));
      StartsWithAppended("NOT", " " + (t + rest));
      SolidAppended(t, rest);
      SkipBlank(t + rest);
      assert Word(s, "NOT") == Some(t + rest);
      PlainAt(t, x, rest);
    }
  }

  // ----- Comparisons

  lemma SignReads(op: CompareOp, v: string, rest: string)
    ensures Operator(Sign(op) + (Quoted(v) + rest)) == Some((op, Quoted(v) + rest))
    ensures Sign(op)[0] in ['=', '<', '>', '!']
  {
    var after := Quoted(v) + rest;
    var s := Sign(op) + after;
    assert after[0] == '"';
    StartsWithAppended(Sign(op), after);
    assert s[..1] == [s[0]] && s[..2] == [s[0], s[1]];
    assert "=" == ['='] && "<" == ['<'] && ">" == ['>'] && "!=" == ['!', '='] && ">=" == ['>', '='] && "<=" == ['<', '='];
  }

  lemma ComparisonAt(name: string, op: CompareOp, v: string, rest: string)
    requires IsFieldName(name) && IsQuotable(v)
    ensures Plain(name + Sign(op) + Quoted(v) + rest) == Some((Field(name, op, v), rest))
    ensures Word(name + Sign(op) + Quoted(v) + rest, "NOT").None?
  {
    var after := Sign(op) + (Quoted(v) + rest);
    SignReads(op, v, rest);
    assert after[0] == Sign(op)[0];
    assert name + Sign(op) + Quoted(v) + rest == name + after;
    QuotedReads(v, rest);
    assert !IsNameChar(after[0]);
    hide *;
    FieldCompared(name, op, after, Quoted(v) + rest, v, rest);
    ComparisonIsPrimary(name, after);
  }

  lemma ComparisonReads(name: string, op: CompareOp, v: string)
    requires IsFieldName(name) && IsQuotable(v)
    ensures IsPlain(name + Sign(op) + Quoted(v), Field(name, op, v))
  {
    var t := name + Sign(op) + Quoted(v);
    assert t[0] == name[0];
    assert IsSolid(t);
    hide Plain, Word, Sign, Quoted, IsFieldName, IsQuotable;
    forall rest | EndsPiece(rest) ensures Plain(t + rest) == Some((Field(name, op, v), rest)) && Word(t + rest, "NOT").None? {
      ComparisonAt(name, op, v, rest);
    }
  }

  lemma BangStarts(s: string)
    requires s != [] && s[0] == '!'
    ensures Group(s).None? && FieldInList(s).None? && Word(s, "NOT").None?
  {
    NotAt(s);
    assert UntilNameEnds(s) == 0;
  }

  lemma BangCompared(t: string, name: string, op: CompareOp, after: string, value: string, v: string, rest: string)
    requires FieldName(t) == Some((name, after)) && Operator(after) == Some((op, value))
    requires ReadValue(value) == Some((v, rest))
    ensures FieldCompare("!" + t) == Some((Field(name, Ne, v), rest))
  {
    StartsWithAppended("!", t);
    hide ReadValue, Operator, FieldName, StartsWith;
    assert ("!" + t)[1..] == t;
  }

  // A mark before the name makes any comparison an inequality.
  lemma BangAt(name: string, op: CompareOp, v: string, rest: string)
    requires IsFieldName(name) && IsQuotable(v)
    ensures Plain("!" + name + Sign(op) + Quoted(v) + rest) == Some((Field(name, Ne, v), rest))
    ensures Word("!" + name + Sign(op) + Quoted(v) + rest, "NOT").None?
  {
    var after := Sign(op) + (Quoted(v) + rest);
    SignReads(op, v, rest);
    assert after[0] == Sign(op)[0] && !IsNameChar(after[0]);
    assert "!" + name + Sign(op) + Quoted(v) + rest == "!" + (name + after);
    assert ("!" + (name + after))[0] == '!';
    QuotedReads(v, rest);
    hide *;
    FieldNameReads(name, after);
    BangCompared(name + after, name, op, after, Quoted(v) + rest, v, rest);
    BangStarts("!" + (name + after));
    ComparedIsPlain("!" + (name + after));
  }

  lemma ComparedIsPlain(s: string)
    requires Group(s).None? && FieldInList(s).None? && FieldCompare(s).Some?
    ensures Plain(s) == FieldCompare(s)
  {
    hide Group, FieldInList, FieldCompare;
  }

  lemma BangReads(name: string, op: CompareOp, v: string)
    requires IsFieldName(name) && IsQuotable(v)
    ensures IsPlain("!" + name + Sign(op) + Quoted(v), Field(name, Ne, v))
  {
    hide Plain, Word, Sign, Quoted, IsFieldName, IsQuotable;
    forall rest | EndsPiece(rest)
      ensures Plain("!" + name + Sign(op) + Quoted(v) + rest) == Some((Field(name, Ne, v), rest))
      ensures Word("!" + name + Sign(op) + Quoted(v) + rest, "NOT").None?
    {
      BangAt(name, op, v, rest);
    }
  }

  // ----- Patterns

  lemma {:induction false} TokenEnds(p: string, rest: string)
    requires (forall i | 0 <= i < |p| :: !EndsToken(p[i])) && EndsPiece(rest)
    ensures UntilTokenEnds(p + rest) == |p|
  {
    if p == [] {
      assert p + rest == rest;
    } else {
      assert (p + rest)[1..] == p[1..] + rest;
      TokenEnds(p[1..], rest);
    }
  }

  lemma PatternReads(p: string)
    requires IsPattern(p)
    ensures IsPlain(p, Wildcard(p))
  {
    forall rest | EndsPiece(rest) ensures Plain(p + rest) == Some((Wildcard(p), rest)) && Word(p + rest, "NOT").None? {
      var s := p + rest;
      assert s[0] == p[0];
      assert p[0] in p;
      NotAt(s);
      assert !StartsWith(s, "!") by {
        assert s[..1][0] == p[0];
      }
      TokenEnds(p, rest);
      assert s[..|p|] == p && s[|p|..] == rest;
      assert UntilNameEnds(s) == 0;
      hide EndsToken, UntilTokenEnds, UntilNameEnds, HasGlob;
      assert HasGlob(p);
    }
  }

  // ----- Lists

  lemma CommaFirst(v: string, s: string)
    ensures var t := "," + Quoted(v) + s;
      && t[0] == ',' && t[1..] == Quoted(v) + s && |s| < |t|
      && SkipSpaces(t) == t && SkipSpaces(Quoted(v) + s) == Quoted(v) + s
  {
    var t := "," + Quoted(v) + s;
    assert t[1..] == Quoted(v) + s && (Quoted(v) + s)[0] == '"';
    SkipNothing(t);
    SkipNothing(Quoted(v) + s);
  }

  lemma MoreStep(v: string, s: string, more: seq<string>, rest: string)
    requires IsQuotable(v) && MoreValues(s) == (more, rest)
    ensures MoreValues("," + Quoted(v) + s) == ([v] + more, rest)
  {
    hide ReadValue, MoreValues, SkipSpaces;
    CommaFirst(v, s);
    QuotedReads(v, s);
    hide Quoted;
    MoreIs("," + Quoted(v) + s, v, s);
  }

  lemma MoreIs(t: string, v: string, s: string)
    requires SkipSpaces(t) == t && t != [] && t[0] == ',' && |s| < |t|
    requires ReadValue(SkipSpaces(t[1..])) == Some((v, s))
    ensures MoreValues(t) == ([v] + MoreValues(s).0, MoreValues(s).1)
  {
    hide ReadValue, SkipSpaces;
  }

  lemma MoreEnds(rest: string)
    ensures MoreValues(")" + rest) == ([], ")" + rest)
  {
    SkipNothing(")" + rest);
  }

  lemma QuotedTail(vs: seq<string>, rest: string)
    requires vs != []
    ensures Tail(QuotedAll(vs), ",") + rest == "," + Quoted(vs[0]) + (Tail(QuotedAll(vs[1..]), ",") + rest)
  {
    assert QuotedAll(vs)[1..] == QuotedAll(vs[1..]);
    hide Quoted;
  }

  lemma {:induction false} MoreReads(vs: seq<string>, rest: string)
    requires forall i | 0 <= i < |vs| :: IsQuotable(vs[i])
    ensures MoreValues(Tail(QuotedAll(vs), ",") + (")" + rest)) == (vs, ")" + rest)
  {
    if vs == [] {
      MoreEnds(rest);
      assert Tail(QuotedAll(vs), ",") + (")" + rest) == ")" + rest;
    } else {
      hide MoreValues, Tail, Quoted, IsQuotable;
      MoreReads(vs[1..], rest);
      QuotedTail(vs, ")" + rest);
      MoreStep(vs[0], Tail(QuotedAll(vs[1..]), ",") + (")" + rest), vs[1..], ")" + rest);
      assert vs == [vs[0]] + vs[1..];
    }
  }

  lemma NegatedHead(t: string, u: string)
    requires u != [] && u[0] == 'I' && t == " NOT " + u
    ensures Spaces(t) == Some("NOT " + u) && StartsWith("NOT " + u, "NOT") && ("NOT " + u)[3..] == " " + u
    ensures SkipSpaces(("NOT " + u)[3..]) == u
  {
    var n := "NOT " + u;
    assert t == " " + n && n[0] == 'N';
    SkipBlank(n);
    SkipBlank(u);
    assert n == "NOT" + (" " + u);
    StartsWithAppended("NOT", " " + u);
  }

  lemma PlainHead(t: string, u: string)
    requires u != [] && u[0] == 'I' && t == " " + u
    ensures Spaces(t) == Some(u) && !StartsWith(u, "NOT") && !StartsWith(u, "not") && SkipSpaces(t) == u
  {
    SkipBlank(u);
    assert |u| >= 3 ==> u[..3][0] == 'I';
  }

  // What follows the name of a list.
  lemma ListHead(t: string, negate: bool, list: string)
    requires list != [] && list[0] == '('
    requires t == (if negate then " NOT" else "") + " IN " + list
    ensures var spaced := Spaces(t);
      && spaced.Some?
      && (negate <==> StartsWith(spaced.value, "NOT") || StartsWith(spaced.value, "not"))
      && SkipSpaces(if negate then spaced.value[3..] else t) == "IN " + list
  {
    var u := "IN " + list;
    assert u[0] == 'I';
    hide Spaces, SkipSpaces, StartsWith;
    if negate {
      assert t == " NOT " + u;
      NegatedHead(t, u);
    } else {
      assert t == " " + u;
      PlainHead(t, u);
    }
  }

  lemma ListBody(u: string, list: string, values: seq<string>, rest: string)
    requires u == "IN " + list && values != [] && forall i | 0 <= i < |values| :: IsQuotable(values[i])
    requires list == "(" + (Quoted(values[0]) + (Tail(QuotedAll(values[1..]), ",") + (")" + rest)))
    ensures |u| >= 2 && ToLower(u[..2]) == "in" && SkipSpaces(u[2..]) == list
    ensures ReadValue(list[1..]) == Some((values[0], Tail(QuotedAll(values[1..]), ",") + (")" + rest)))
  {
    assert u[2..] == " " + list;
    SkipBlank(list);
    assert u[..2] == "IN";
    QuotedReads(values[0], Tail(QuotedAll(values[1..]), ",") + (")" + rest));
    assert list[1..] == Quoted(values[0]) + (Tail(QuotedAll(values[1..]), ",") + (")" + rest));
  }

  lemma ListIs(s: string, name: string, t: string, spaced: string, u: string, list: string, negate: bool,
               v: string, after: string, more: seq<string>, rest: string)
    requires FieldName(s) == Some((name, t)) && Spaces(t) == Some(spaced)
    requires negate <==> StartsWith(spaced, "NOT") || StartsWith(spaced, "not")
    requires u == SkipSpaces(if negate then spaced[3..] else t) && |u| >= 2 && ToLower(u[..2]) == "in"
    requires SkipSpaces(u[2..]) == list && list != [] && list[0] == '('
    requires ReadValue(list[1..]) == Some((v, after)) && MoreValues(after) == (more, ")" + rest) && |rest| + 1 <= |s|
    ensures FieldInList(s) == Some((In(name, [v] + more, negate), rest))
  {
    hide FieldName, Spaces, SkipSpaces, ToLower, ReadValue, MoreValues;
    assert (")" + rest)[1..] == rest;
  }

  lemma ListNotNegated(name: string, rest: string)
    requires IsFieldName(name) && name != "NOT" && rest != [] && rest[0] == ' '
    ensures Word(name + rest, "NOT").None? && Group(name + rest).None?
  {
    var s := name + rest;
    NotAt(s);
    assert s[0] == name[0] && s[|name|] == ' ';
    assert forall i | 0 <= i < |name| :: s[i] == name[i];
    assert |name| == 3 ==> s[..3] == name;
    assert |name| > 3 ==> IsNameChar(s[3]);
  }

  // The parts of a list text: the name, and from the parenthesis on, the values.
  function AfterFirst(values: seq<string>, rest: string): string
    requires values != []
  {
    Tail(QuotedAll(values[1..]), ",") + (")" + rest)
  }

  function FromParenthesis(values: seq<string>, rest: string): string
    requires values != []
  {
    "(" + (Quoted(values[0]) + AfterFirst(values, rest))
  }

  function AfterName(values: seq<string>, negate: bool, rest: string): string
    requires values != []
  {
    (if negate then " NOT" else "") + " IN " + FromParenthesis(values, rest)
  }

  lemma ListParts(name: string, values: seq<string>, negate: bool, rest: string)
    requires values != []
    ensures ListText(name, values, negate) + rest == name + AfterName(values, negate, rest)
    ensures AfterName(values, negate, rest)[0] == ' ' && FromParenthesis(values, rest)[0] == '('
    ensures |rest| + 1 <= |ListText(name, values, negate) + rest|
  {
    hide Quoted, Tail;
  }

  lemma ListValues(values: seq<string>, rest: string)
    requires values != [] && forall i | 0 <= i < |values| :: IsQuotable(values[i])
    ensures MoreValues(AfterFirst(values, rest)) == (values[1..], ")" + rest)
    ensures var u := "IN " + FromParenthesis(values, rest);
      && |u| >= 2 && ToLower(u[..2]) == "in" && SkipSpaces(u[2..]) == FromParenthesis(values, rest)
      && ReadValue(FromParenthesis(values, rest)[1..]) == Some((values[0], AfterFirst(values, rest)))
  {
    hide MoreValues, ReadValue, ToLower, SkipSpaces, Quoted, IsQuotable;
    MoreReads(values[1..], rest);
    ListBody("IN " + FromParenthesis(values, rest), FromParenthesis(values, rest), values, rest);
  }

  lemma ListAt(name: string, values: seq<string>, negate: bool, rest: string)
    requires Printable(In(name, values, negate))
    ensures Plain(ListText(name, values, negate) + rest) == Some((In(name, values, negate), rest))
    ensures Word(ListText(name, values, negate) + rest, "NOT").None?
  {
    assert [values[0]] + values[1..] == values;
    assert IsFieldName(name) && name != "NOT" && forall i | 0 <= i < |values| :: IsQuotable(values[i]);
    assert !IsNameChar(' ');
    hide *;
    var s, t, list := ListText(name, values, negate) + rest, AfterName(values, negate, rest), FromParenthesis(values, rest);
    ListParts(name, values, negate, rest);
    FieldNameReads(name, t);
    AfterNameIs(values, negate, rest);
    ListHead(t, negate, list);
    ListValues(values, rest);
    ListNotNegated(name, t);
    ListIs(s, name, t, Spaces(t).value, "IN " + list, list, negate, values[0], AfterFirst(values, rest), values[1..], rest);
    ListIsPlain(s);
  }

  lemma AfterNameIs(values: seq<string>, negate: bool, rest: string)
    requires values != []
    ensures AfterName(values, negate, rest) == (if negate then " NOT" else "") + " IN " + FromParenthesis(values, rest)
  {
  }

  lemma ListIsPlain(s: string)
    requires Group(s).None? && FieldInList(s).Some?
    ensures Plain(s) == FieldInList(s)
  {
    hide Group, FieldInList;
  }

  lemma ListReads(name: string, values: seq<string>, negate: bool)
    requires Printable(In(name, values, negate))
    ensures IsPlain(ListText(name, values, negate), In(name, values, negate))
  {
    var t := ListText(name, values, negate);
    assert t[0] == name[0];
    assert IsSolid(t);
    hide Plain, Word, ListText, Printable;
    forall rest | EndsPiece(rest)
      ensures Plain(t + rest) == Some((In(name, values, negate), rest)) && Word(t + rest, "NOT").None?
    {
      ListAt(name, values, negate, rest);
    }
  }

  // ----- Connectives

  lemma PartsArePrimaries(parts: seq<string>, xs: seq<Expr>)
    requires |parts| == |xs| && forall i | 0 <= i < |xs| :: IsPrimary(parts[i], xs[i])
    ensures ArePrimaries(parts, xs)
  {
    hide IsPrimary;
  }

  lemma AllReads(parts: seq<string>, xs: seq<Expr>)
    requires |xs| >= 2 && ArePrimaries(parts, xs)
    ensures IsPlain("(" + JoinText(parts, " AND ") + ")", And(xs))
  {
    hide IsPrimary, IsConjunct, IsPlain;
    ConjunctionReads(parts, xs);
    var t := JoinText(parts, " AND ");
    GroupIsPrimary([t], [And(xs)]);
    assert JoinText([t], " OR ") == t && Disjunction([And(xs)]) == And(xs);
    GroupIsPlain("(" + t + ")", And(xs));
  }

  lemma AnyReads(parts: seq<string>, xs: seq<Expr>)
    requires |xs| >= 2 && ArePrimaries(parts, xs)
    ensures IsPlain("(" + JoinText(parts, " OR ") + ")", Or(xs))
  {
    hide IsPrimary, IsConjunct, IsPlain;
    forall i | 0 <= i < |xs| ensures IsConjunct(parts[i], xs[i]) {
      PrimaryIsConjunct(parts[i], xs[i]);
    }
    GroupIsPrimary(parts, xs);
    GroupIsPlain("(" + JoinText(parts, " OR ") + ")", Or(xs));
  }

  lemma InParentheses(t: string, x: Expr)
    requires IsPrimary(t, x)
    ensures IsPlain("(" + t + ")", x)
  {
    hide IsPrimary, IsConjunct, IsPlain;
    PrimaryIsConjunct(t, x);
    GroupIsPrimary([t], [x]);
    assert JoinText([t], " OR ") == t && Disjunction([x]) == x;
    GroupIsPlain("(" + t + ")", x);
  }

  // ----- The round trip

  // Main result: every printable expression is read back as itself, before anything that may follow it; unless it is
  // a negation, after NOT as well.
  lemma {:induction false} PrintReads(x: Expr)
    requires Printable(x)
    ensures IsPrimary(Print(x), x)
    ensures !x.Not? ==> IsPlain(Print(x), x)
    decreases x
  {
    hide IsPrimary, IsPlain, ListText, Quoted, Sign, JoinText, IsPattern, IsQuotable, IsFieldName, ArePrimaries;
    match x {
      case Field(field, op, value) =>
        ComparisonReads(field, op, value);
      case In(name, values, negate) =>
        ListReads(name, values, negate);
      case Wildcard(pattern) =>
        PatternReads(pattern);
      case Not(inner) =>
        PrintReads(inner);
        if inner.Not? {
          InParentheses(Print(inner), inner);
          NotReads("(" + Print(inner) + ")", inner);
        } else {
          NotReads(Print(inner), inner);
        }
      case And(all) =>
        var parts := seq(|all|, i requires 0 <= i < |all| => Print(all[i]));
        forall i | 0 <= i < |all| ensures IsPrimary(parts[i], all[i]) {
          PrintReads(all[i]);
        }
        PartsArePrimaries(parts, all);
        AllReads(parts, all);
      case Or(any) =>
        var parts := seq(|any|, i requires 0 <= i < |any| => Print(any[i]));
        forall i | 0 <= i < |any| ensures IsPrimary(parts[i], any[i]) {
          PrintReads(any[i]);
        }
        PartsArePrimaries(parts, any);
        AnyReads(parts, any);
    }
    if !x.Not? {
      PlainIsPrimary(Print(x), x);
    }
  }

  // ----- Whole queries

  lemma QuotedIsQuiet(v: string)
    requires IsQuotable(v)
    ensures IsQuiet(Quoted(v)) && IsQuiet("," + Quoted(v))
  {
    QuotesAreQuiet(v);
    var p := "," + Quoted(v);
    hide IsWhitespace;
    forall rest, out ensures DropCommas(p + rest, false, out) == DropCommas(rest, false, out + p) {
      assert (p + rest)[1..] == Quoted(v) + rest;
      NotBeforePipe(Quoted(v) + rest);
      QuietAt(Quoted(v), rest, out + ",");
      assert out + "," + Quoted(v) == out + p;
    }
  }

  lemma SignIsQuiet(name: string, op: CompareOp)
    requires IsFieldName(name)
    ensures IsQuiet(name + Sign(op))
  {
    NoCommasAreSafe(name + Sign(op));
    SafeIsQuiet(name + Sign(op));
  }

  lemma ListHeadIsQuiet(name: string, negate: bool)
    requires IsFieldName(name)
    ensures IsQuiet(name + (if negate then " NOT" else "") + " IN (")
  {
    var p := name + (if negate then " NOT" else "") + " IN (";
    NoCommasAreSafe(p);
    SafeIsQuiet(p);
  }

  lemma {:induction false} TailIsQuiet(vs: seq<string>)
    requires forall i | 0 <= i < |vs| :: IsQuotable(vs[i])
    ensures IsQuiet(Tail(QuotedAll(vs), ","))
  {
    if vs == [] {
      SafeIsQuiet([]);
    } else {
      hide IsQuiet, Quoted, IsQuotable;
      TailIsQuiet(vs[1..]);
      QuotedIsQuiet(vs[0]);
      QuietAppend("," + Quoted(vs[0]), Tail(QuotedAll(vs[1..]), ","));
      assert QuotedAll(vs)[1..] == QuotedAll(vs[1..]);
    }
  }

  lemma ListIsQuiet(name: string, values: seq<string>, negate: bool)
    requires Printable(In(name, values, negate))
    ensures IsQuiet(ListText(name, values, negate))
  {
    hide IsQuiet, Quoted, IsQuotable, Tail;
    var head := name + (if negate then " NOT" else "") + " IN (";
    ListHeadIsQuiet(name, negate);
    QuotedIsQuiet(values[0]);
    TailIsQuiet(values[1..]);
    ConnectivesAreQuiet();
    QuietAppend(head, Quoted(values[0]));
    QuietAppend(head + Quoted(values[0]), Tail(QuotedAll(values[1..]), ","));
    QuietAppend(head + Quoted(values[0]) + Tail(QuotedAll(values[1..]), ","), ")");
  }

  lemma PatternIsQuiet(p: string)
    requires IsPattern(p)
    ensures IsQuiet(p)
  {
    assert '"' !in p && ',' !in p;
    NoCommasAreSafe(p);
    SafeIsQuiet(p);
  }

  lemma NotIsQuiet()
    ensures IsQuiet("NOT ")
  {
    SafeIsQuiet("NOT ");
  }

  lemma {:induction false} PrintIsQuiet(x: Expr)
    requires Printable(x)
    ensures IsQuiet(Print(x))
    decreases x
  {
    hide IsQuiet, ListText, Quoted, Sign, JoinText, IsPattern, IsQuotable, IsFieldName;
    match x {
      case Field(field, op, value) =>
        SignIsQuiet(field, op);
        QuotedIsQuiet(value);
        QuietAppend(field + Sign(op), Quoted(value));
      case In(name, values, negate) =>
        ListIsQuiet(name, values, negate);
      case Wildcard(pattern) =>
        PatternIsQuiet(pattern);
      case Not(inner) =>
        PrintIsQuiet(inner);
        GroupIsQuiet(Print(inner));
        NotIsQuiet();
        QuietAppend("NOT ", if inner.Not? then "(" + Print(inner) + ")" else Print(inner));
      case And(all) =>
        var parts := seq(|all|, i requires 0 <= i < |all| => Print(all[i]));
        forall i | 0 <= i < |all| ensures IsQuiet(parts[i]) {
          PrintIsQuiet(all[i]);
        }
        ConnectivesAreQuiet();
        JoinIsQuiet(parts, " AND ");
        GroupIsQuiet(JoinText(parts, " AND "));
      case Or(any) =>
        var parts := seq(|any|, i requires 0 <= i < |any| => Print(any[i]));
        forall i | 0 <= i < |any| ensures IsQuiet(parts[i]) {
          PrintIsQuiet(any[i]);
        }
        ConnectivesAreQuiet();
        JoinIsQuiet(parts, " OR ");
        GroupIsQuiet(JoinText(parts, " OR "));
    }
  }

  // Main result: the query printed for an expression is parsed back to the expression.
  lemma QueryRoundTrip(x: Expr)
    requires Printable(x)
    ensures ParseMpl(QueryText("(" + Print(x) + ")")) == Some(x)
  {
    hide *;
    PrintReads(x);
    PrintIsQuiet(x);
    InParentheses(Print(x), x);
    PlainIsPrimary("(" + Print(x) + ")", x);
    GroupIsQuiet(Print(x));
    QueryReads("(" + Print(x) + ")", x);
  }
}
