/** What the parser reads from the pieces that a converted query is printed from. */
module MplReading {
  import opened MplParser
  import opened MplValues
  import opened Text
  import opened Wrappers

  // Printed pieces are followed by a blank, a closing parenthesis or the end.
  predicate EndsPiece(rest: string) {
    rest == [] || rest[0] == ' ' || rest[0] == ')'
  }

  predicate IsSolid(t: string) {
    t != [] && !IsSpace(t[0])
  }

  // t reads as the primary expression x, whatever piece comes next.
  ghost predicate IsPrimary(t: string, x: Expr) {
    IsSolid(t) && forall rest | EndsPiece(rest) :: Primary(t + rest) == Some((x, rest))
  }

  // t reads as the AND expression x, before anything that is no AND.
  ghost predicate IsConjunct(t: string, x: Expr) {
    IsSolid(t) && forall rest | EndsPiece(rest) && AndTail(rest) == ([], rest) :: AndExpr(t + rest) == Some((x, rest))
  }

  lemma PrimaryAt(t: string, x: Expr, rest: string)
    requires IsPrimary(t, x) && EndsPiece(rest)
    ensures IsSolid(t) && Primary(t + rest) == Some((x, rest))
  {
  }

  // ----- Leaves

  function LeafText(op: Op, field: string, v: string): string {
    field + "=" + ValueText(op, v)
  }

  lemma SkipNothing(s: string)
    requires s == [] || !IsSpace(s[0])
    ensures SkipSpaces(s) == s && Spaces(s).None?
  {
  }

  lemma SkipBlank(s: string)
    requires IsSolid(s)
    ensures SkipSpaces(" " + s) == s && Spaces(" " + s) == Some(s)
  {
    assert (" " + s)[1..] == s;
  }

  lemma {:induction false} NameEnds(name: string, rest: string)
    requires (forall i | 0 <= i < |name| :: IsNameChar(name[i])) && (rest == [] || !IsNameChar(rest[0]))
    ensures UntilNameEnds(name + rest) == |name|
  {
    if name == [] {
      assert name + rest == rest;
    } else {
      assert (name + rest)[1..] == name[1..] + rest;
      NameEnds(name[1..], rest);
    }
  }

  lemma FieldNameReads(name: string, rest: string)
    requires IsFieldName(name) && (rest == [] || !IsNameChar(rest[0]))
    ensures FieldName(name + rest) == Some((name, rest))
  {
    NameEnds(name, rest);
    assert (name + rest)[..|name|] == name && (name + rest)[|name|..] == rest;
  }

  lemma NotAt(s: string)
    ensures StartsWith(s, "NOT") ==> |s| >= 3 && s[0] == 'N' && s[1] == 'O' && s[2] == 'T'
    ensures StartsWith(s, "NOT") && (|s| == 3 || !IsSpace(s[3])) ==> Word(s, "NOT").None?
  {
    if StartsWith(s, "NOT") {
      assert s[0] == s[..3][0] && s[1] == s[..3][1] && s[2] == s[..3][2];
      assert |s| > 3 ==> s[3..][0] == s[3];
    }
  }

  // NOT is no prefix of a field name that a comparison follows.
  lemma NotNegated(name: string, rest: string)
    requires IsFieldName(name) && rest != [] && !IsNameChar(rest[0]) && !IsSpace(rest[0])
    ensures Word(name + rest, "NOT").None?
  {
    var s := name + rest;
    NotAt(s);
    assert forall i | 0 <= i < |name| :: s[i] == name[i];
    assert s[|name|] == rest[0];
    assert |name| > 3 ==> IsNameChar(s[3]);
  }

  lemma NoGroupNoList(name: string, rest: string)
    requires IsFieldName(name) && rest != [] && rest[0] in ['=', '<', '>', '!']
    ensures Group(name + rest).None? && FieldInList(name + rest).None?
  {
    var s := name + rest;
    FieldNameReads(name, rest);
    SkipNothing(rest);
    assert s[0] == name[0];
    assert |rest| >= 2 ==> ToLower(rest[..2])[0] == rest[0];
    assert "in"[0] == 'i';
  }

  // A name and an operator: no list, no NOT, no group.
  lemma ComparisonIsPrimary(name: string, rest: string)
    requires IsFieldName(name) && rest != [] && rest[0] in ['=', '<', '>', '!'] && FieldCompare(name + rest).Some?
    ensures Primary(name + rest) == Plain(name + rest) == FieldCompare(name + rest)
    ensures Word(name + rest, "NOT").None?
  {
    NotNegated(name, rest);
    NoGroupNoList(name, rest);
  }

  predicate IsSign(op: CompareOp, sign: string) {
    (op == Eq && sign == "=") || (op == Lt && sign == "<") || (op == Gt && sign == ">")
  }

  lemma OperatorReads(op: CompareOp, sign: string, rest: string)
    requires IsSign(op, sign) && rest != [] && rest[0] != '='
    ensures Operator(sign + rest) == Some((op, rest))
  {
    var s := sign + rest;
    assert s[0] == sign[0] && s[1] == rest[0] && s[1..] == rest;
    assert s[..1] == sign;
    assert s[..2][0] == sign[0] && s[..2][1] == rest[0];
  }

  lemma FieldCompared(name: string, op: CompareOp, after: string, value: string, v: string, rest: string)
    requires IsFieldName(name) && after != [] && !IsNameChar(after[0])
    requires Operator(after) == Some((op, value)) && ReadValue(value) == Some((v, rest))
    ensures FieldCompare(name + after) == Some((Field(name, op, v), rest))
  {
    assert (name + after)[0] == name[0];
    assert !StartsWith(name + after, "!") by {
      assert (name + after)[..1][0] == name[0];
    }
    hide ReadValue, Operator, FieldName, StartsWith;
    FieldNameReads(name, after);
  }

  lemma SignFollows(name: string, op: CompareOp, sign: string, value: string, rest: string)
    requires IsSign(op, sign)
    ensures name + sign + value + rest == name + (sign + (value + rest))
    ensures (sign + (value + rest))[0] in ['=', '<', '>'] && !IsNameChar((sign + (value + rest))[0])
  {
    assert (sign + (value + rest))[0] == sign[0];
  }

  lemma CompareReads(name: string, op: CompareOp, sign: string, value: string, v: string, rest: string)
    requires IsFieldName(name) && IsSign(op, sign) && value != [] && value[0] != '='
    requires ReadValue(value + rest) == Some((v, rest))
    ensures Primary(name + sign + value + rest) == Some((Field(name, op, v), rest))
  {
    hide *;
    SignFollows(name, op, sign, value, rest);
    OperatorReads(op, sign, value + rest);
    FieldCompared(name, op, sign + (value + rest), value + rest, v, rest);
    ComparisonIsPrimary(name, sign + (value + rest));
  }

  lemma LeafReads(op: Op, field: string, v: string)
    requires IsFieldName(field) && CleanValue(op, v)
    ensures IsPrimary(LeafText(op, field, v), Field(field, Eq, Meant(op, v)))
  {
    var t, value := LeafText(op, field, v), ValueText(op, v);
    assert t[0] == field[0];
    hide ReadValue, CleanValue, Meant;
    forall rest | EndsPiece(rest) ensures Primary(t + rest) == Some((Field(field, Eq, Meant(op, v)), rest)) {
      ValueReadsBackExactlyWhen(op, v, rest);
      CompareReads(field, Eq, "=", value, Meant(op, v), rest);
      assert t + rest == field + "=" + value + rest;
    }
  }

  // When no comparison is read, a name and a sign read as no comparison either.
  lemma NothingCompared(name: string, rest: string)
    requires IsFieldName(name) && rest != [] && rest[0] in ['=', '<', '>'] && FieldCompare(name + rest).None?
    ensures Primary(name + rest).Some? ==> !Primary(name + rest).value.0.Field?
  {
    NotNegated(name, rest);
    NoGroupNoList(name, rest);
    hide Group, FieldInList, FieldCompare, Word;
  }

  lemma EqualsCompares(name: string, value: string)
    requires IsFieldName(name) && value != [] && value[0] != '='
    ensures FieldCompare(name + ("=" + value))
         == if ReadValue(value).None? then None else Some((Field(name, Eq, ReadValue(value).value.0), ReadValue(value).value.1))
  {
    var s := name + ("=" + value);
    assert s[0] == name[0];
    assert !StartsWith(s, "!");
    hide ReadValue, Operator, FieldName;
    FieldNameReads(name, "=" + value);
    OperatorReads(Eq, "=", value);
  }

  lemma LeafReadsOnlyIf(op: Op, field: string, v: string)
    requires IsPrimary(LeafText(op, field, v), Field(field, Eq, Meant(op, v)))
    ensures IsFieldName(field) && CleanValue(op, v)
  {
    var t, value := LeafText(op, field, v), ValueText(op, v);
    PrimaryAt(t, Field(field, Eq, Meant(op, v)), []);
    assert t + [] == t && value + [] == value;
    assert t == field + ("=" + value);
    assert Readable(Field(field, Eq, Meant(op, v)));
    assert value[0] != '=';
    hide ReadValue, CleanValue, Meant, ValueText, IsPrimary, Primary, FieldCompare, LeafText, IsFieldName;
    ValueReadsBackExactlyWhen(op, v, []);
    EqualsCompares(field, value);
    if FieldCompare(t).Some? {
      ComparisonIsPrimary(field, "=" + value);
    } else {
      NothingCompared(field, "=" + value);
    }
  }

  // Main result: a printed condition on an ASCII name is read as it is meant if and only if the name can be read
  // and the value reads back.
  lemma LeafReadsExactlyWhen(op: Op, field: string, v: string)
    requires IsAscii(field)
    ensures IsPrimary(LeafText(op, field, v), Field(field, Eq, Meant(op, v))) <==> IsFieldName(field) && CleanValue(op, v)
  {
    hide IsPrimary, CleanValue;
    if IsFieldName(field) && CleanValue(op, v) {
      LeafReads(op, field, v);
    }
    if IsPrimary(LeafText(op, field, v), Field(field, Eq, Meant(op, v))) {
      LeafReadsOnlyIf(op, field, v);
    }
  }

  // ----- Lists of pieces

  // Every part, each with the separator before it.
  function Tail(parts: seq<string>, sep: string): string {
    if parts == [] then [] else sep + parts[0] + Tail(parts[1..], sep)
  }

  lemma {:induction false} JoinTail(parts: seq<string>, sep: string)
    requires parts != []
    ensures JoinText(parts, sep) == parts[0] + Tail(parts[1..], sep)
  {
    if |parts| > 1 {
      JoinTail(parts[1..], sep);
      assert parts[1..][1..] == parts[2..];
      assert parts[0] + sep + (parts[1] + Tail(parts[2..], sep)) == parts[0] + (sep + parts[1] + Tail(parts[2..], sep));
    }
  }

  lemma ConjunctAt(t: string, x: Expr, rest: string)
    requires IsConjunct(t, x) && EndsPiece(rest) && AndTail(rest) == ([], rest)
    ensures IsSolid(t) && AndExpr(t + rest) == Some((x, rest))
  {
  }

  // A connective between blanks.
  lemma WordBetweenBlanks(word: string, s: string)
    requires word in ["AND", "OR"] && IsSolid(s)
    ensures Word(SkipSpaces(" " + word + " " + s), word) == Some(s)
  {
    var t := word + " " + s;
    assert " " + word + " " + s == " " + t;
    assert t[0] == word[0];
    SkipBlank(t);
    assert t == word + (" " + s);
    StartsWithAppended(word, " " + s);
    SkipBlank(s);
  }

  lemma TailEndsPiece(parts: seq<string>, sep: string, rest: string)
    requires sep != [] && sep[0] == ' ' && EndsPiece(rest)
    ensures EndsPiece(Tail(parts, sep) + rest)
  {
    if parts == [] {
      assert Tail(parts, sep) + rest == rest;
    } else {
      assert (Tail(parts, sep) + rest)[0] == ' ';
    }
  }

  lemma AndTailStep(s: string, t: string, x: Expr, after: string, xs: seq<Expr>, rest: string)
    requires Word(SkipSpaces(s), "AND") == Some(t) && Primary(t) == Some((x, after)) && AndTail(after) == (xs, rest)
    ensures AndTail(s) == ([x] + xs, rest)
  {
  }

  lemma OrTailStep(s: string, t: string, x: Expr, after: string, xs: seq<Expr>, rest: string)
    requires Word(SkipSpaces(s), "OR") == Some(t) && AndExpr(t) == Some((x, after)) && OrTail(after) == (xs, rest)
    ensures OrTail(s) == ([x] + xs, rest)
  {
  }

  ghost predicate ArePrimaries(parts: seq<string>, xs: seq<Expr>) {
    |parts| == |xs| && forall i | 0 <= i < |parts| :: IsPrimary(parts[i], xs[i])
  }

  ghost predicate AreConjuncts(parts: seq<string>, xs: seq<Expr>) {
    |parts| == |xs| && forall i | 0 <= i < |parts| :: IsConjunct(parts[i], xs[i])
  }

  lemma TailGrows(parts: seq<string>, word: string, rest: string)
    requires parts != []
    ensures var sep := " " + word + " ";
      Tail(parts, sep) + rest == sep + (parts[0] + (Tail(parts[1..], sep) + rest))
  {
  }

  lemma RestArePrimaries(parts: seq<string>, xs: seq<Expr>)
    requires ArePrimaries(parts, xs) && parts != []
    ensures xs != [] && IsPrimary(parts[0], xs[0]) && ArePrimaries(parts[1..], xs[1..]) && xs == [xs[0]] + xs[1..]
  {
    hide IsPrimary;
  }

  lemma RestAreConjuncts(parts: seq<string>, xs: seq<Expr>)
    requires AreConjuncts(parts, xs) && parts != []
    ensures xs != [] && IsConjunct(parts[0], xs[0]) && AreConjuncts(parts[1..], xs[1..]) && xs == [xs[0]] + xs[1..]
  {
    hide IsConjunct;
  }

  lemma SolidAppended(text: string, after: string)
    requires IsSolid(text)
    ensures IsSolid(text + after)
  {
  }

  lemma {:induction false} AndTailReads(parts: seq<string>, xs: seq<Expr>, rest: string)
    requires ArePrimaries(parts, xs) && EndsPiece(rest) && AndTail(rest) == ([], rest)
    ensures AndTail(Tail(parts, " AND ") + rest) == (xs, rest)
  {
    if parts == [] {
      assert Tail(parts, " AND ") + rest == rest;
    } else {
      assert " AND " == " " + "AND" + " ";
      hide *;
      var after := Tail(parts[1..], " AND ") + rest;
      RestArePrimaries(parts, xs);
      AndTailReads(parts[1..], xs[1..], rest);
      TailEndsPiece(parts[1..], " AND ", rest);
      PrimaryAt(parts[0], xs[0], after);
      SolidAppended(parts[0], after);
      TailGrows(parts, "AND", rest);
      WordBetweenBlanks("AND", parts[0] + after);
      AndTailStep(Tail(parts, " AND ") + rest, parts[0] + after, xs[0], after, xs[1..], rest);
    }
  }

  lemma AndReads(s: string, x: Expr, after: string, xs: seq<Expr>, rest: string)
    requires Primary(s) == Some((x, after)) && AndTail(after) == (xs, rest)
    ensures AndExpr(s) == Some((Conjunction([x] + xs), rest))
  {
  }

  lemma OrReads(s: string, x: Expr, after: string, xs: seq<Expr>, rest: string)
    requires AndExpr(s) == Some((x, after)) && OrTail(after) == (xs, rest)
    ensures OrExpr(s) == Some((Disjunction([x] + xs), rest))
  {
  }

  lemma SearchReads(s: string, x: Expr, after: string, xs: seq<Expr>, rest: string)
    requires IsSolid(s) && OrExpr(s) == Some((x, after)) && SearchTail(after) == (xs, rest)
    ensures Search(s) == Some((Conjunction([x] + xs), rest))
  {
    SkipNothing(s);
  }

  // Primary expressions joined with AND.
  lemma ConjunctionReads(parts: seq<string>, xs: seq<Expr>)
    requires parts != [] && ArePrimaries(parts, xs)
    ensures IsConjunct(JoinText(parts, " AND "), Conjunction(xs))
  {
    hide IsPrimary, AndTail, Primary, AndExpr, JoinText, Conjunction;
    var t := JoinText(parts, " AND ");
    JoinTail(parts, " AND ");
    PrimaryAt(parts[0], xs[0], []);
    assert t[0] == parts[0][0];
    forall rest | EndsPiece(rest) && AndTail(rest) == ([], rest) ensures AndExpr(t + rest) == Some((Conjunction(xs), rest)) {
      var after := Tail(parts[1..], " AND ") + rest;
      TailEndsPiece(parts[1..], " AND ", rest);
      PrimaryAt(parts[0], xs[0], after);
      AndTailReads(parts[1..], xs[1..], rest);
      assert t + rest == parts[0] + after;
      AndReads(parts[0] + after, xs[0], after, xs[1..], rest);
      assert xs == [xs[0]] + xs[1..];
    }
  }

  lemma PrimaryIsConjunct(t: string, x: Expr)
    requires IsPrimary(t, x)
    ensures IsConjunct(t, x)
  {
    hide IsPrimary, IsConjunct;
    ConjunctionReads([t], [x]);
  }

  // No AND and no OR can start here.
  predicate Stops(rest: string) {
    rest == [] || rest[0] == ')' || rest == " | head 500"
  }

  lemma NoConnective(t: string)
    requires t == [] || (t[0] != 'A' && t[0] != 'O')
    ensures Word(t, "AND").None? && Word(t, "OR").None?
  {
    assert |t| >= 3 ==> t[..3][0] == t[0];
    assert |t| >= 2 ==> t[..2][0] == t[0];
  }

  // Neither a connective nor a separator, or a separator and nothing behind it.
  lemma NothingContinues(rest: string)
    requires Word(SkipSpaces(rest), "AND").None? && Word(SkipSpaces(rest), "OR").None?
    requires Separator(rest).Some? ==> OrExpr(Separator(rest).value).None?
    ensures AndTail(rest) == ([], rest) && OrTail(rest) == ([], rest) && SearchTail(rest) == ([], rest)
  {
    hide Word, SkipSpaces, Separator, OrExpr;
  }

  lemma StopsEverything(rest: string)
    requires Stops(rest)
    ensures EndsPiece(rest) && AndTail(rest) == ([], rest) && OrTail(rest) == ([], rest) && SearchTail(rest) == ([], rest)
  {
    hide AndTail, OrTail, SearchTail, OrExpr, Word;
    if rest == " | head 500" {
      var t := "| head 500";
      assert rest == " " + t && t[0] == '|';
      SkipBlank(t);
      BarReadsNothing(t);
      NoConnective(t);
    } else {
      SkipNothing(rest);
      NoConnective(rest);
    }
    NothingContinues(rest);
  }

  lemma BarReadsNothing(t: string)
    requires t != [] && t[0] == '|'
    ensures OrExpr(t).None?
  {
    NotAt(t);
    assert !StartsWith(t, "!") by {
      assert t[..1][0] == '|';
    }
    assert UntilNameEnds(t) == 0;
    assert Group(t).None? && FieldInList(t).None? && FieldCompare(t).None? && BareWord(t).None?;
    assert Word(t, "NOT").None?;
    assert Primary(t).None?;
  }

  lemma {:induction false} OrTailReads(parts: seq<string>, xs: seq<Expr>, rest: string)
    requires AreConjuncts(parts, xs) && Stops(rest)
    ensures OrTail(Tail(parts, " OR ") + rest) == (xs, rest)
  {
    if parts == [] {
      StopsEverything(rest);
      assert Tail(parts, " OR ") + rest == rest;
    } else {
      assert " OR " == " " + "OR" + " ";
      hide *;
      var after := Tail(parts[1..], " OR ") + rest;
      StopsEverything(rest);
      RestAreConjuncts(parts, xs);
      OrTailReads(parts[1..], xs[1..], rest);
      TailEndsPiece(parts[1..], " OR ", rest);
      OrStopsAnd(parts[1..], rest);
      ConjunctAt(parts[0], xs[0], after);
      SolidAppended(parts[0], after);
      TailGrows(parts, "OR", rest);
      WordBetweenBlanks("OR", parts[0] + after);
      OrTailStep(Tail(parts, " OR ") + rest, parts[0] + after, xs[0], after, xs[1..], rest);
    }
  }

  lemma OrWordStopsAnd(rest: string)
    ensures AndTail(" OR " + rest) == ([], " OR " + rest)
  {
    var t := "OR " + rest;
    assert " OR " + rest == " " + t && t[0] == 'O';
    SkipBlank(t);
    assert t[..3][0] == 'O';
    assert Word(t, "AND").None?;
  }

  lemma OrStopsAnd(parts: seq<string>, rest: string)
    requires Stops(rest)
    ensures AndTail(Tail(parts, " OR ") + rest) == ([], Tail(parts, " OR ") + rest)
  {
    hide AndTail, Stops;
    if parts == [] {
      StopsEverything(rest);
      assert Tail(parts, " OR ") + rest == rest;
    } else {
      var after := parts[0] + Tail(parts[1..], " OR ") + rest;
      OrWordStopsAnd(after);
      assert Tail(parts, " OR ") + rest == " OR " + after;
    }
  }

  // AND expressions joined with OR.
  lemma DisjunctionReads(parts: seq<string>, xs: seq<Expr>, rest: string)
    requires parts != [] && AreConjuncts(parts, xs) && Stops(rest)
    ensures IsSolid(JoinText(parts, " OR ")) && OrExpr(JoinText(parts, " OR ") + rest) == Some((Disjunction(xs), rest))
  {
    hide IsConjunct, AndTail, OrTail, AndExpr, OrExpr, JoinText, Disjunction, Stops;
    StopsEverything(rest);
    var t := JoinText(parts, " OR ");
    JoinTail(parts, " OR ");
    var after := Tail(parts[1..], " OR ") + rest;
    TailEndsPiece(parts[1..], " OR ", rest);
    OrStopsAnd(parts[1..], rest);
    ConjunctAt(parts[0], xs[0], after);
    OrTailReads(parts[1..], xs[1..], rest);
    assert t[0] == parts[0][0];
    assert t + rest == parts[0] + after;
    OrReads(parts[0] + after, xs[0], after, xs[1..], rest);
    assert xs == [xs[0]] + xs[1..];
  }

  // What reads as a search up to a closing parenthesis reads as a primary between parentheses.
  lemma GroupReads(t: string, x: Expr, rest: string)
    requires Search(t + ")" + rest) == Some((x, ")" + rest))
    ensures Primary("(" + t + ")" + rest) == Some((x, rest))
  {
    var s := "(" + t + ")" + rest;
    assert s[0] == '(' && s[1..] == t + ")" + rest;
    NotAt(s);
    hide Search;
    SkipNothing(")" + rest);
    assert (")" + rest)[1..] == rest;
    assert Group(s) == Some((x, rest));
  }

  lemma GroupIsPrimary(parts: seq<string>, xs: seq<Expr>)
    requires parts != [] && AreConjuncts(parts, xs)
    ensures IsPrimary("(" + JoinText(parts, " OR ") + ")", Disjunction(xs))
  {
    assert xs != [];
    hide AreConjuncts, OrExpr, Search, SearchTail, Primary, JoinText, Disjunction;
    var t := JoinText(parts, " OR ");
    forall rest | EndsPiece(rest) ensures Primary("(" + t + ")" + rest) == Some((Disjunction(xs), rest)) {
      var after := ")" + rest;
      DisjunctionReads(parts, xs, after);
      StopsEverything(after);
      assert (t + after)[0] == t[0];
      SearchReads(t + after, Disjunction(xs), after, [], after);
      assert Conjunction([Disjunction(xs)] + []) == Disjunction(xs);
      assert t + ")" + rest == t + after;
      GroupReads(t, Disjunction(xs), rest);
    }
  }
}
