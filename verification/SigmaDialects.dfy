/** For which conditions, characters and modifiers of Sigma rules the conversion loses no match. */
module SigmaDialects {
  import opened MplMisreading
  import opened MplParser
  import opened MplQueries
  import opened MplReading
  import opened MplSearch
  import opened MplValues
  import opened SigmaConditions
  import opened SigmaConvert
  import opened SigmaMeaning
  import opened SigmaRules
  import opened Text
  import opened Wrappers

  // ----- Dialects

  // The characters of field names and of values, and the modifiers in use.
  datatype Dialect = Dialect(nameChars: char -> bool, valueChars: char -> bool, places: set<(Place, bool)>)

  // ASCII names without bars, which start the modifiers; at least two letters, no modifier, and contains.
  ghost predicate IsDialect(d: Dialect) {
    && (forall c | d.nameChars(c) :: c < '\U{0080}' && c != '|')
    && d.nameChars('x') && d.nameChars('y') && d.valueChars('x') && d.valueChars('y')
    && (Whole, false) in d.places && (Inside, false) in d.places
  }

  predicate IsSpelled(s: string, chars: char -> bool) {
    forall i | 0 <= i < |s| :: chars(s[i])
  }

  // No value made of stars only, and no value that is the name of a searchable field.
  predicate IsOwnPattern(schema: Schema, v: string) {
    v != [] && !AllStars(v) && v !in schema.columns
  }

  ghost predicate InDialect(schema: Schema, d: Dialect, t: Test) {
    && t.name != [] && IsSpelled(t.name, d.nameChars) && (t.place, t.all) in d.places
    && Values(t.wanted) != []
    && forall v | v in Values(t.wanted) :: IsOwnPattern(schema, v) && IsSpelled(v, d.valueChars)
  }

  ghost predicate RuleInDialect(schema: Schema, d: Dialect, rule: map<string, Tests>) {
    forall n, i | n in rule && 0 <= i < |rule[n]| :: InDialect(schema, d, rule[n][i])
  }

  // What the parser reads of a name, and of a value both with and without quotes; and the modifiers that the
  // converter knows.
  ghost predicate IsReadable(d: Dialect) {
    && (forall c | d.nameChars(c) :: IsNameChar(c))
    && (forall c | d.valueChars(c) :: !IsBreak(c) && !NeedsEscape(c))
    && forall p | p in d.places :: IsKnownPlace(p.0, p.1)
  }

  // ----- Readable dialects are clean

  lemma ValueIsClean(schema: Schema, d: Dialect, field: string, contains: bool, v: string)
    requires IsReadable(d) && IsOwnPattern(schema, v) && IsSpelled(v, d.valueChars)
    ensures CleanSingle(schema, field, contains, v)
  {
    hide IsBreak, NeedsEscape, Leaves;
    assert CleanValue(Equals, v) && CleanValue(Like, v);
    var i :| 0 <= i < |v| && v[i] != '*';
    assert ("*" + v + "*")[i + 1] == v[i];
    assert MeansItself(schema, field, Meant(Equals, v));
    assert '*' in "*" + v + "*";
    assert MeansItself(schema, field, Meant(Like, v));
    hide MeansItself, CleanValue;
    forall i | 0 <= i < |Leaves(field, contains, v)| ensures CleanValue(Leaves(field, contains, v)[i].op, v) {
      OpIsEither(Leaves(field, contains, v)[i].op);
    }
    OpIsEither(Leaves(field, contains, v)[0].op);
  }

  lemma OpIsEither(op: Op)
    ensures op == Equals || op == Like
  {
  }

  lemma DialectIsClean(schema: Schema, d: Dialect, t: Test)
    requires IsReadable(d) && InDialect(schema, d, t)
    ensures CleanTest(schema, t)
  {
    hide IsNameChar, CleanSingle, EventField, IsOwnPattern;
    forall v | v in Values(t.wanted) ensures CleanSingle(schema, EventField(t.name), t.place == Inside, v) {
      ValueIsClean(schema, d, EventField(t.name), t.place == Inside, v);
    }
    assert IsKnownPlace((t.place, t.all).0, (t.place, t.all).1);
  }

  // ----- Texts of the tests that are lost

  lemma OwnField(name: string)
    requires name != [] && name[0] == 'x'
    ensures EventField(name) == name && Leaves(name, false, "x") == [Leaf(Equals, name)]
  {
  }

  lemma UnmodifiedText(t: Test)
    requires t.name != [] && t.name[0] == 'x' && t.place != Inside && t.wanted == One("x")
    requires BeforeText(t.name + Modifiers(t.place, t.all), "|contains").None?
    ensures FieldText(Written(t)) == Some(t.name + Modifiers(t.place, t.all) + "=\"x\"")
  {
    var key := t.name + Modifiers(t.place, t.all);
    assert key[0] == 'x';
    OwnField(key);
    assert Escape("x") == "x" by {
      assert Escape("x"[1..]) == [];
    }
    assert LeafText(Equals, key, "x") == key + "=" + ("\"" + "x" + "\"");
    hide BeforeText, EventField, Leaves, Escape, LeafText, Modifiers;
    assert SingleText(key, false, "x") == LeafText(Equals, key, "x");
    assert key + "=" + ("\"" + "x" + "\"") == key + "=\"x\"";
  }

  lemma NameText(name: string)
    requires name != [] && name[0] == 'x' && '|' !in name
    ensures FieldText(Written(Test(name, Whole, false, One("x")))) == Some(name + "=\"x\"")
  {
    NoBefore(name, "|contains");
    var t := Test(name, Whole, false, One("x"));
    assert name + Modifiers(Whole, false) == name;
    hide BeforeText, FieldText;
    UnmodifiedText(t);
  }

  lemma InsideText(v: string)
    ensures FieldText(Written(Test("x", Inside, false, One(v)))) == Some("x=" + ("*" + Escape(v) + "*"))
  {
    KeyIsParsed("x", Inside, false);
    assert EventField("x") == "x" && Leaves("x", true, v) == [Leaf(Like, "x")];
    hide EventField, Leaves, ParseFieldKey, Modifiers, Escape;
    assert LeafText(Like, "x", v) == "x=" + ("*" + Escape(v) + "*");
    hide LeafText;
    assert SingleText("x", true, v) == LeafText(Like, "x", v);
  }

  // A test in the dialect, and an event that it holds for and the query of its text does not match.
  ghost predicate IsWitness(schema: Schema, d: Dialect, t: Test, e: Event) {
    && InDialect(schema, d, t) && TestHolds(e, t)
    && FieldText(Written(t)).Some? && IsLost(schema, e, FieldText(Written(t)).value)
  }

  // ----- Values that are lost

  lemma {:induction false} EscapePlain(v: string)
    requires forall i | 0 <= i < |v| :: !NeedsEscape(v[i])
    ensures Escape(v) == v
  {
    EscapeLength(v);
  }

  lemma OwnPattern(schema: Schema, v: string, c: char)
    requires IsSchema(schema) && v != [] && v[0] == 'x' && c in v && (IsBreak(c) || NeedsEscape(c))
    ensures IsOwnPattern(schema, v)
  {
    assert !IsNameChar(c);
    assert v[0] != '*';
    hide IsBreak, NeedsEscape, IsNameChar;
    var i :| 0 <= i < |v| && v[i] == c;
    assert v !in schema.columns;
  }

  lemma InsideHolds(schema: Schema, d: Dialect, v: string)
    requires IsDialect(d) && IsOwnPattern(schema, v) && IsSpelled(v, d.valueChars)
    ensures InDialect(schema, d, Test("x", Inside, false, One(v)))
    ensures TestHolds(map["x" := v], Test("x", Inside, false, One(v)))
  {
    var t, e := Test("x", Inside, false, One(v)), map["x" := v];
    GlobSelf(v);
    GlobWiden(v, v);
    assert EventField("x") == "x";
    hide Glob, EventField, IsOwnPattern;
    assert v in Values(t.wanted) && ValueHolds(e, t, v);
  }

  lemma WitnessOf(schema: Schema, d: Dialect, t: Test, e: Event, text: string)
    requires InDialect(schema, d, t) && TestHolds(e, t) && FieldText(Written(t)) == Some(text) && IsLost(schema, e, text)
    ensures IsWitness(schema, d, t, e)
  {
  }

  // A value looked for inside x, in an event that has it there.
  lemma InsideWitness(schema: Schema, d: Dialect, v: string, c: char, text: string)
    requires IsSchema(schema) && IsDialect(d) && IsSpelled(v, d.valueChars)
    requires v != [] && v[0] == 'x' && c in v && (IsBreak(c) || NeedsEscape(c))
    requires text == "x=" + ("*" + Escape(v) + "*") && IsLost(schema, map["x" := v], text)
    ensures IsWitness(schema, d, Test("x", Inside, false, One(v)), map["x" := v])
  {
    hide *;
    OwnPattern(schema, v, c);
    InsideHolds(schema, d, v);
    InsideText(v);
    WitnessOf(schema, d, Test("x", Inside, false, One(v)), map["x" := v], text);
  }

  lemma Spelled(d: Dialect, c: char)
    requires IsDialect(d) && d.valueChars(c)
    ensures IsSpelled("x" + [c], d.valueChars) && IsSpelled("x" + [c] + "y", d.valueChars)
    ensures ("x" + [c])[0] == 'x' && c in "x" + [c] && ("x" + [c] + "y")[0] == 'x' && c in "x" + [c] + "y"
  {
    assert ("x" + [c])[1] == c && ("x" + [c] + "y")[1] == c;
  }

  lemma NoEndX(c: char)
    ensures !Glob("*x", "x" + [c] + "y")
  {
    var s := "x" + [c] + "y";
    assert "*x"[1..] == "x" && "x"[1..] == [];
    assert s[1..] == [c, 'y'] && [c, 'y'][1..] == "y" && "y"[1..] == [];
    assert !Glob("x", s) && !Glob("x", [c, 'y']) && !Glob("x", "y") && !Glob("x", "");
    assert !Glob("*x", "");
    assert !Glob("*x", "y");
    assert !Glob("*x", [c, 'y']);
  }

  lemma StartFails(schema: Schema, e: Event, c: char)
    requires e == map["x" := "x" + [c] + "y"]
    ensures !Matches(schema, e, Field("x", Eq, "*x"))
  {
    NoEndX(c);
    assert "*x"[0] == '*' && "*x"[1] == 'x';
    assert HasGlob("*x") && HasLiteral("*x");
    hide Glob;
  }

  lemma BlankText(c: char)
    requires IsSpace(c)
    ensures "x=" + ("*" + Escape("x" + [c] + "y") + "*") == Split(c) && IsBreak(c)
  {
    EscapePlain("x" + [c] + "y");
  }

  lemma BlankIsLost(schema: Schema, d: Dialect, c: char) returns (t: Test, e: Event)
    requires IsSchema(schema) && IsDialect(d) && d.valueChars(c) && IsSpace(c)
    ensures IsWitness(schema, d, t, e)
  {
    var v := "x" + [c] + "y";
    t, e := Test("x", Inside, false, One(v)), map["x" := v];
    hide *;
    Spelled(d, c);
    BlankText(c);
    StartFails(schema, e, c);
    SplitIsLost(schema, e, c);
    InsideWitness(schema, d, v, c, Split(c));
  }

  lemma BreakStops(c: char, after: string)
    requires IsBreak(c) && !IsSpace(c) && c != ')'
    ensures Primary("x=*x" + [c] + "*" + after) == Some((Field("x", Eq, "*x"), [c] + "*" + after))
    ensures Blocks([c] + "*" + after) && SkipSpaces([c] + "*" + after) == [c] + "*" + after
  {
    var rest := [c] + "*" + after;
    assert !IsBreak('A') && !IsBreak('O') && !IsBreak(',');
    hide IsBreak;
    SkipNothing(rest);
    BlocksWhen(rest, rest);
    StartIsRead(rest);
    assert "x=*x" + rest == "x=*x" + [c] + "*" + after;
  }

  lemma BreakIsStuck(c: char)
    requires IsBreak(c) && !IsSpace(c) && c != ')'
    ensures IsStuck("x=*x" + [c] + "*", Field("x", Eq, "*x"), [c] + "*")
  {
    var text := "x=*x" + [c] + "*";
    assert !IsBreak(',');
    NoCommasAreSafe(text);
    hide Blocks, Primary, SkipSpaces, IsBreak, SafeCommas;
    forall after | Follows(after)
      ensures Primary(text + after) == Some((Field("x", Eq, "*x"), [c] + "*" + after)) && Blocks([c] + "*" + after)
      ensures SkipSpaces([c] + "*" + after) == [c] + "*" + after
    {
      BreakStops(c, after);
    }
  }

  lemma BarText(c: char)
    requires IsBreak(c)
    ensures "x=" + ("*" + Escape("x" + [c]) + "*") == "x=*x" + [c] + "*"
  {
    EscapePlain("x" + [c]);
  }

  lemma BarIsLost(schema: Schema, d: Dialect, c: char) returns (t: Test, e: Event)
    requires IsSchema(schema) && IsDialect(d) && d.valueChars(c) && IsBreak(c) && !IsSpace(c) && c != ')'
    ensures IsWitness(schema, d, t, e)
  {
    var v := "x" + [c];
    t, e := Test("x", Inside, false, One(v)), map["x" := v];
    hide *;
    Spelled(d, c);
    BarText(c);
    BreakIsStuck(c);
    StuckIsLost(schema, e, "x=*x" + [c] + "*", Field("x", Eq, "*x"), [c] + "*");
    InsideWitness(schema, d, v, c, "x=*x" + [c] + "*");
  }

  lemma ParenthesisCloses()
    ensures ClosesEarly("x=*x)*", Field("x", Eq, "*x"), "*")
  {
    NoCommasAreSafe("x=*x)*");
    hide Blocks, Primary, SafeCommas;
    forall after | Follows(after)
      ensures Primary("x=*x)*" + after) == Some((Field("x", Eq, "*x"), ")" + "*" + after)) && Blocks("*" + after)
    {
      StartIsRead(")" + "*" + after);
      assert "x=*x" + (")" + "*" + after) == "x=*x)*" + after;
      SkipNothing("*" + after);
      BlocksWhen("*" + after, "*" + after);
    }
  }

  lemma ParenthesisText()
    ensures "x=*x" + [')'] + "*" == "x=*x)*" && IsBreak(')')
  {
  }

  lemma ParenthesisIsLost(schema: Schema, d: Dialect) returns (t: Test, e: Event)
    requires IsSchema(schema) && IsDialect(d) && d.valueChars(')')
    ensures IsWitness(schema, d, t, e)
  {
    var v := "x" + [')'];
    t, e := Test("x", Inside, false, One(v)), map["x" := v];
    hide *;
    Spelled(d, ')');
    ParenthesisText();
    BarText(')');
    ParenthesisCloses();
    EarlyIsLost(schema, e, "x=*x)*", Field("x", Eq, "*x"), "*");
    InsideWitness(schema, d, v, ')', "x=*x)*");
  }

  lemma EscapedReads(c: char)
    requires NeedsEscape(c)
    ensures IsPrimary("x=*x\\" + [c] + "*", Field("x", Eq, "*x\\" + [c] + "*"))
  {
    var value := "*x\\" + [c] + "*";
    var text := "x=*x\\" + [c] + "*";
    assert forall i | 0 <= i < |value| :: !IsBreak(value[i]);
    assert IsBreak(' ') && IsBreak(')');
    hide IsBreak, Primary;
    forall rest | EndsPiece(rest) ensures Primary(text + rest) == Some((Field("x", Eq, value), rest)) {
      BreakEnds(value, rest);
      assert ReadQuoted(value + rest, '"').None? && ReadQuoted(value + rest, '\'').None?;
      assert (value + rest)[..|value|] == value && (value + rest)[|value|..] == rest;
      assert ReadValue(value + rest) == Some((value, rest));
      hide ReadValue;
      CompareReads("x", Eq, "=", value, value, rest);
      assert "x" + "=" + value + rest == text + rest;
    }
  }

  lemma EscapedFails(schema: Schema, c: char)
    requires NeedsEscape(c)
    ensures !Matches(schema, map["x" := "x" + [c]], Field("x", Eq, "*x\\" + [c] + "*"))
  {
    var inside, s := "x\\" + [c], "x" + [c];
    var value := "*x\\" + [c] + "*";
    assert !HasGlob(inside);
    GlobOfInside(inside, s);
    assert "*" + inside + "*" == value;
    assert value[0] == '*' && value[1] == 'x';
    assert HasGlob(value) && HasLiteral(value);
    hide Glob;
    assert !Contains(s, inside);
  }

  lemma EscapedText(c: char)
    requires NeedsEscape(c)
    ensures "x=" + ("*" + Escape("x" + [c]) + "*") == "x=*x\\" + [c] + "*"
    ensures SafeCommas("x=*x\\" + [c] + "*")
  {
    assert Escape("x" + [c]) == "x\\" + [c] by {
      assert ("x" + [c])[1..] == [c] && [c][1..] == [] && Escape([]) == [];
    }
    assert ',' !in "x=*x\\" + [c] + "*";
    NoCommasAreSafe("x=*x\\" + [c] + "*");
  }

  lemma EscapedIsLost(schema: Schema, d: Dialect, c: char) returns (t: Test, e: Event)
    requires IsSchema(schema) && IsDialect(d) && d.valueChars(c) && NeedsEscape(c)
    ensures IsWitness(schema, d, t, e)
  {
    var v, text := "x" + [c], "x=*x\\" + [c] + "*";
    t, e := Test("x", Inside, false, One(v)), map["x" := v];
    hide *;
    Spelled(d, c);
    EscapedText(c);
    EscapedReads(c);
    EscapedFails(schema, c);
    OtherIsLost(schema, e, text, Field("x", Eq, "*x\\" + [c] + "*"));
    InsideWitness(schema, d, v, c, text);
  }

  // Every character that a value cannot hold loses a match.
  lemma ValueIsLost(schema: Schema, d: Dialect, c: char) returns (t: Test, e: Event)
    requires IsSchema(schema) && IsDialect(d) && d.valueChars(c) && (IsBreak(c) || NeedsEscape(c))
    ensures IsWitness(schema, d, t, e)
  {
    hide IsBreak, NeedsEscape, IsWitness, IsDialect, IsSchema;
    if NeedsEscape(c) {
      t, e := EscapedIsLost(schema, d, c);
    } else if IsSpace(c) {
      t, e := BlankIsLost(schema, d, c);
    } else if c == ')' {
      t, e := ParenthesisIsLost(schema, d);
    } else {
      t, e := BarIsLost(schema, d, c);
    }
  }

  // ----- Names that are lost

  lemma WholeHolds(schema: Schema, d: Dialect, name: string, e: Event)
    requires IsSchema(schema) && IsDialect(d) && IsSpelled(name, d.nameChars) && name != [] && name[0] == 'x'
    requires FieldOf(e, name) == "x"
    ensures InDialect(schema, d, Test(name, Whole, false, One("x")))
    ensures TestHolds(e, Test(name, Whole, false, One("x")))
  {
    var t := Test(name, Whole, false, One("x"));
    OwnField(name);
    GlobSelf("x");
    assert "x"[0] != '*' && |"x"| == 1;
    assert IsOwnPattern(schema, "x") && IsSpelled("x", d.valueChars);
    hide Glob, EventField, IsOwnPattern;
    assert "x" in Values(t.wanted) && ValueHolds(e, t, "x");
  }

  lemma NoBars(d: Dialect, name: string)
    requires IsDialect(d) && IsSpelled(name, d.nameChars)
    ensures '|' !in name
  {
  }

  // A field with the value x, in an event that has it.
  lemma NameWitness(schema: Schema, d: Dialect, name: string, e: Event)
    requires IsSchema(schema) && IsDialect(d) && IsSpelled(name, d.nameChars) && name != [] && name[0] == 'x'
    requires FieldOf(e, name) == "x" && IsLost(schema, e, name + "=\"x\"")
    ensures IsWitness(schema, d, Test(name, Whole, false, One("x")), e)
  {
    hide *;
    NoBars(d, name);
    WholeHolds(schema, d, name, e);
    NameText(name);
    WitnessOf(schema, d, Test(name, Whole, false, One("x")), e, name + "=\"x\"");
  }

  lemma SpelledName(d: Dialect, c: char)
    requires IsDialect(d) && d.nameChars(c)
    ensures IsSpelled("x" + [c], d.nameChars) && IsSpelled("x" + [c] + "y", d.nameChars)
    ensures ("x" + [c])[0] == 'x' && ("x" + [c] + "y")[0] == 'x'
  {
  }

  lemma {:induction false} NameIsSafe(c: char)
    ensures SafeCommas("x" + [c] + "=\"x\"")
  {
    var rest := "=\"x\"";
    NoCommasAreSafe(rest);
    var s := [c] + rest;
    assert s[1..] == rest && s[1] == '=';
    assert SafeCommas(s);
    var t := "x" + [c] + rest;
    assert t[1..] == s && t[0] == 'x';
  }

  // The field's name up to a character that ends a word.
  lemma XIsRead(rest: string)
    requires rest != [] && !IsNameChar(rest[0]) && EndsToken(rest[0]) && Operator(rest).None?
    requires SkipSpaces(rest) != [] && SkipSpaces(rest)[0] !in ['i', 'I', 'n', 'N']
    ensures Primary("x" + rest) == Some((BareToken("x"), rest))
  {
    assert ['x'] + rest == "x" + rest;
    hide Primary, SkipSpaces, Operator, BareWord, IsNameChar;
    NoComparison('x', rest);
    WordIsRead("x", rest);
  }

  lemma SpaceStops(c: char, after: string)
    requires IsSpace(c)
    ensures var rest := [c] + "=\"x\"" + after;
      && Primary("x" + rest) == Some((BareToken("x"), rest)) && Blocks(rest)
      && SkipSpaces(rest) != [] && SkipSpaces(rest)[0] == '='
  {
    var t := "=\"x\"" + after;
    var rest := [c] + "=\"x\"" + after;
    assert rest == [c] + t && rest[1..] == t && t[0] == '=';
    SkipNothing(t);
    assert SkipSpaces(rest) == t;
    assert !IsNameChar(c) && EndsToken(c);
    NoOperator(rest);
    NothingStartsHere(t);
    hide SkipSpaces, Primary, Blocks, OrExpr, Operator;
    BlocksWhen(rest, t);
    XIsRead(rest);
  }

  lemma NoLetterEnds(c: char)
    requires EndsToken(c)
    ensures c !in ['A', 'O', ',', 'i', 'I', 'n', 'N', '<', '>']
  {
  }

  lemma SignStops(c: char, rest: string)
    requires !IsNameChar(c) && EndsToken(c) && !IsSpace(c) && c != ')' && c != '='
    requires rest != [] && rest[0] == c && (c == '!' ==> |rest| > 1 && rest[1] != '=')
    ensures Primary("x" + rest) == Some((BareToken("x"), rest)) && Blocks(rest)
    ensures SkipSpaces(rest) == rest
  {
    hide Primary, Blocks, Operator, SkipSpaces, EndsToken, IsNameChar, OrExpr;
    NoLetterEnds(c);
    SkipNothing(rest);
    NoOperator(rest);
    BlocksWhen(rest, rest);
    XIsRead(rest);
  }

  lemma EndedNameIsStuck(c: char)
    requires !IsNameChar(c) && EndsToken(c) && c !in [')', '=', '!']
    ensures IsStuck("x" + [c] + "=\"x\"", BareToken("x"), [c] + "=\"x\"")
  {
    var text := "x" + [c] + "=\"x\"";
    NameIsSafe(c);
    hide Blocks, Primary, SkipSpaces, EndsToken, SafeCommas, IsNameChar;
    forall after | Follows(after)
      ensures var rest := [c] + "=\"x\"" + after;
        && Primary(text + after) == Some((BareToken("x"), rest)) && Blocks(rest)
        && SkipSpaces(rest) != [] && SkipSpaces(rest)[0] != ')'
    {
      var rest := [c] + "=\"x\"" + after;
      assert text + after == "x" + rest;
      if IsSpace(c) {
        SpaceStops(c, after);
      } else {
        SignStops(c, rest);
      }
    }
  }

  lemma BangIsStuck()
    ensures IsStuck("x!y=\"x\"", BareToken("x"), "!y=\"x\"")
  {
    NoCommasAreSafe("x!y=\"x\"");
    hide Blocks, Primary, SkipSpaces, SafeCommas;
    forall after | Follows(after)
      ensures var rest := "!y=\"x\"" + after;
        && Primary("x!y=\"x\"" + after) == Some((BareToken("x"), rest)) && Blocks(rest) && SkipSpaces(rest) == rest
    {
      var rest := "!y=\"x\"" + after;
      assert "x!y=\"x\"" + after == "x" + rest;
      SignStops('!', rest);
    }
  }

  lemma ParenthesisedName()
    ensures ClosesEarly("x)=\"x\"", BareToken("x"), "=\"x\"")
  {
    NoCommasAreSafe("x)=\"x\"");
    hide Blocks, Primary, SafeCommas;
    forall after | Follows(after)
      ensures Primary("x)=\"x\"" + after) == Some((BareToken("x"), ")" + "=\"x\"" + after)) && Blocks("=\"x\"" + after)
    {
      var rest := ")" + "=\"x\"" + after;
      assert "x)=\"x\"" + after == "x" + rest;
      SkipNothing(rest);
      NoOperator(rest);
      XIsRead(rest);
      SkipNothing("=\"x\"" + after);
      BlocksWhen("=\"x\"" + after, "=\"x\"" + after);
    }
  }

  // Any other character stays in the word, which ends at the equals sign.
  lemma WordStops(c: char, after: string)
    requires !IsNameChar(c) && !EndsToken(c) && c != '<' && c != '>'
    ensures var word, rest := "x" + [c], "=\"x\"" + after;
      && Primary(word + rest) == Some((if HasGlob(word) then Wildcard(word) else BareToken(word), rest))
      && Blocks(rest) && SkipSpaces(rest) == rest
  {
    var word, rest := "x" + [c], "=\"x\"" + after;
    var behind := [c] + rest;
    assert word + rest == ['x'] + behind;
    assert !IsSpace(c) && EndsToken('=') && EndsToken('!') && !EndsToken('x');
    SkipNothing(behind);
    SkipNothing(rest);
    NoOperator(behind);
    assert c !in ['i', 'I', 'n', 'N'];
    assert forall i | 0 <= i < |word| :: !EndsToken(word[i]);
    hide Primary, Blocks, Operator, SkipSpaces, BareWord, HasGlob, EndsToken, IsNameChar;
    NoComparison('x', behind);
    WordIsRead(word, rest);
    BlocksWhen(rest, rest);
  }

  lemma WordIsStuck(c: char) returns (x: Expr)
    requires !IsNameChar(c) && !EndsToken(c) && c != '<' && c != '>'
    ensures IsStuck("x" + [c] + "=\"x\"", x, "=\"x\"")
  {
    var text, word := "x" + [c] + "=\"x\"", "x" + [c];
    x := if HasGlob(word) then Wildcard(word) else BareToken(word);
    NameIsSafe(c);
    hide Blocks, Primary, SkipSpaces, EndsToken, SafeCommas, IsNameChar, HasGlob;
    forall after | Follows(after)
      ensures var rest := "=\"x\"" + after;
        && Primary(text + after) == Some((x, rest)) && Blocks(rest) && SkipSpaces(rest) == rest
    {
      assert text + after == word + ("=\"x\"" + after);
      WordStops(c, after);
    }
  }

  // A comparison with what follows the sign.
  lemma SignReads(op: CompareOp, sign: string)
    requires IsSign(op, sign)
    ensures IsPrimary("x" + sign + "y=\"x\"", Field("x", op, "y=\"x\""))
  {
    var value := "y=\"x\"";
    assert forall i | 0 <= i < |value| :: !IsBreak(value[i]);
    assert IsBreak(' ') && IsBreak(')');
    hide IsBreak, Primary;
    forall rest | EndsPiece(rest) ensures Primary("x" + sign + value + rest) == Some((Field("x", op, value), rest)) {
      BreakEnds(value, rest);
      assert ReadQuoted(value + rest, '"').None? && ReadQuoted(value + rest, '\'').None?;
      assert (value + rest)[..|value|] == value && (value + rest)[|value|..] == rest;
      assert ReadValue(value + rest) == Some((value, rest));
      hide ReadValue;
      CompareReads("x", op, sign, value, value, rest);
    }
  }

  lemma SignFails(schema: Schema, op: CompareOp, sign: string) returns (e: Event)
    requires IsSchema(schema) && IsSign(op, sign)
    ensures FieldOf(e, "x" + sign + "y") == "x" && !Matches(schema, e, Field("x", op, "y=\"x\""))
  {
    var name, value := "x" + sign + "y", "y=\"x\"";
    e := if op == Lt then map[name := "x", "x" := "z"] else map[name := "x"];
    assert |name| == 3 && name != "x" && value[0] == 'y' && "z"[0] == 'z';
    if op == Eq {
      assert value[1] == '=' && !IsNameChar('=');
      assert value !in schema.columns && !HasGlob(value);
    }
  }

  lemma SignText(op: CompareOp, c: char)
    requires IsSign(op, [c])
    ensures "x" + [c] + "y=\"x\"" == "x" + [c] + "y" + "=\"x\"" && SafeCommas("x" + [c] + "y=\"x\"")
  {
    assert [c][0] in ['=', '<', '>'];
    NoCommasAreSafe("x" + [c] + "y=\"x\"");
  }

  lemma SignIsLost(schema: Schema, d: Dialect, op: CompareOp, c: char) returns (t: Test, e: Event)
    requires IsSchema(schema) && IsDialect(d) && d.nameChars(c) && IsSign(op, [c])
    ensures IsWitness(schema, d, t, e)
  {
    var name, text := "x" + [c] + "y", "x" + [c] + "y=\"x\"";
    t := Test(name, Whole, false, One("x"));
    hide *;
    SignText(op, c);
    SpelledName(d, c);
    SignReads(op, [c]);
    e := SignFails(schema, op, [c]);
    OtherIsLost(schema, e, text, Field("x", op, "y=\"x\""));
    NameWitness(schema, d, name, e);
  }

  lemma Signs()
    ensures IsSign(Eq, ['=']) && IsSign(Lt, ['<']) && IsSign(Gt, ['>'])
  {
  }

  lemma HasX(name: string)
    ensures FieldOf(map[name := "x"], name) == "x"
  {
  }

  lemma BangIsLost(schema: Schema, d: Dialect) returns (t: Test, e: Event)
    requires IsSchema(schema) && IsDialect(d) && d.nameChars('!')
    ensures IsWitness(schema, d, t, e)
  {
    var name := "x" + ['!'] + "y";
    t, e := Test(name, Whole, false, One("x")), map[name := "x"];
    assert name + "=\"x\"" == "x!y=\"x\"";
    hide *;
    HasX(name);
    SpelledName(d, '!');
    BangIsStuck();
    StuckIsLost(schema, e, "x!y=\"x\"", BareToken("x"), "!y=\"x\"");
    NameWitness(schema, d, name, e);
  }

  lemma ClosedNameIsLost(schema: Schema, d: Dialect) returns (t: Test, e: Event)
    requires IsSchema(schema) && IsDialect(d) && d.nameChars(')')
    ensures IsWitness(schema, d, t, e)
  {
    var name := "x" + [')'];
    t, e := Test(name, Whole, false, One("x")), map[name := "x"];
    assert name + "=\"x\"" == "x)=\"x\"";
    hide *;
    HasX(name);
    SpelledName(d, ')');
    ParenthesisedName();
    EarlyIsLost(schema, e, "x)=\"x\"", BareToken("x"), "=\"x\"");
    NameWitness(schema, d, name, e);
  }

  lemma StuckNameIsLost(schema: Schema, d: Dialect, c: char) returns (t: Test, e: Event)
    requires IsSchema(schema) && IsDialect(d) && d.nameChars(c) && !IsNameChar(c)
    requires c !in [')', '=', '!', '<', '>']
    ensures IsWitness(schema, d, t, e)
  {
    var name := "x" + [c];
    t, e := Test(name, Whole, false, One("x")), map[name := "x"];
    hide *;
    HasX(name);
    SpelledName(d, c);
    if EndsToken(c) {
      EndedNameIsStuck(c);
      StuckIsLost(schema, e, name + "=\"x\"", BareToken("x"), [c] + "=\"x\"");
    } else {
      var x := WordIsStuck(c);
      StuckIsLost(schema, e, name + "=\"x\"", x, "=\"x\"");
    }
    NameWitness(schema, d, name, e);
  }

  // Every character that a name cannot hold loses a match.
  lemma NameIsLost(schema: Schema, d: Dialect, c: char) returns (t: Test, e: Event)
    requires IsSchema(schema) && IsDialect(d) && d.nameChars(c) && !IsNameChar(c)
    ensures IsWitness(schema, d, t, e)
  {
    hide *;
    Signs();
    if c == '=' {
      t, e := SignIsLost(schema, d, Eq, c);
    } else if c == '<' {
      t, e := SignIsLost(schema, d, Lt, c);
    } else if c == '>' {
      t, e := SignIsLost(schema, d, Gt, c);
    } else if c == '!' {
      t, e := BangIsLost(schema, d);
    } else if c == ')' {
      t, e := ClosedNameIsLost(schema, d);
    } else {
      t, e := StuckNameIsLost(schema, d, c);
    }
  }

  // ----- Modifiers that are lost

  // No bar with a c behind it.
  lemma {:induction false} NoContains(s: string)
    requires forall i | 0 <= i < |s| - 1 && s[i] == '|' :: s[i + 1] != 'c'
    ensures BeforeText(s, "|contains").None?
  {
    if s != [] {
      assert forall i | 0 <= i < |s[1..]| :: s[1..][i] == s[i + 1];
      NoContains(s[1..]);
    }
    assert |s| >= 9 ==> s[..9][0] == s[0] && s[..9][1] == s[1];
    assert "|contains"[0] == '|' && "|contains"[1] == 'c';
  }

  lemma ModifierFacts(place: Place, all: bool)
    requires !IsKnownPlace(place, all)
    ensures var m := Modifiers(place, all);
      m != [] && m[0] == '|' && ',' !in m && BeforeText("x" + m, "|contains").None?
  {
    var m := Modifiers(place, all);
    var first := match place case Whole => "" case Inside => "" case AtStart => "|startswith" case AtEnd => "|endswith";
    assert m == first + if all then "|all" else "";
    assert ',' !in first && ',' !in "|all";
    NoContains("x" + m);
  }

  lemma ModifierIsStuck(m: string)
    requires m != [] && m[0] == '|' && ',' !in m
    ensures IsStuck("x" + m + "=\"x\"", BareToken("x"), m + "=\"x\"")
  {
    var text := "x" + m + "=\"x\"";
    NoCommasAreSafe(text);
    assert !IsNameChar('|') && EndsToken('|');
    hide Blocks, Primary, SkipSpaces, EndsToken, SafeCommas, IsNameChar;
    forall after | Follows(after)
      ensures var rest := m + "=\"x\"" + after;
        && Primary(text + after) == Some((BareToken("x"), rest)) && Blocks(rest) && SkipSpaces(rest) == rest
    {
      var rest := m + "=\"x\"" + after;
      assert text + after == "x" + rest;
      SignStops('|', rest);
    }
  }

  lemma PatternHolds(t: Test, e: Event)
    requires t.name == "x" && t.wanted == One("x") && e == map["x" := "x"]
    ensures TestHolds(e, t)
  {
    GlobSelf("x");
    GlobMoreAfter("x", "x");
    assert Glob("*" + "x", "x") by {
      assert ("*" + "x")[1..] == "x";
    }
    GlobWiden("x", "x");
    assert EventField("x") == "x";
    hide Glob, EventField;
    assert "x" in Values(t.wanted) && ValueHolds(e, t, "x");
  }

  lemma ModifierInDialect(schema: Schema, d: Dialect, place: Place, all: bool)
    requires IsSchema(schema) && IsDialect(d) && (place, all) in d.places
    ensures InDialect(schema, d, Test("x", place, all, One("x")))
  {
    assert "x"[0] != '*' && |"x"| == 1;
    assert IsOwnPattern(schema, "x");
  }

  // Every modifier that the converter does not know loses a match.
  lemma ModifierIsLost(schema: Schema, d: Dialect, place: Place, all: bool) returns (t: Test, e: Event)
    requires IsSchema(schema) && IsDialect(d) && (place, all) in d.places && !IsKnownPlace(place, all)
    ensures IsWitness(schema, d, t, e)
  {
    t, e := Test("x", place, all, One("x")), map["x" := "x"];
    var m := Modifiers(place, all);
    var text := "x" + m + "=\"x\"";
    ModifierFacts(place, all);
    ModifierInDialect(schema, d, place, all);
    assert place != Inside;
    hide *;
    UnmodifiedText(t);
    PatternHolds(t, e);
    ModifierIsStuck(m);
    StuckIsLost(schema, e, text, BareToken("x"), m + "=\"x\"");
    WitnessOf(schema, d, t, e, text);
  }

  lemma DialectWitness(schema: Schema, d: Dialect) returns (t: Test, e: Event)
    requires IsSchema(schema) && IsDialect(d) && !IsReadable(d)
    ensures IsWitness(schema, d, t, e)
  {
    hide IsSchema, IsDialect, IsWitness, IsNameChar, IsBreak, NeedsEscape, IsKnownPlace;
    if c :| d.nameChars(c) && !IsNameChar(c) {
      t, e := NameIsLost(schema, d, c);
    } else if c :| d.valueChars(c) && (IsBreak(c) || NeedsEscape(c)) {
      t, e := ValueIsLost(schema, d, c);
    } else {
      var p :| p in d.places && !IsKnownPlace(p.0, p.1);
      t, e := ModifierIsLost(schema, d, p.0, p.1);
    }
  }

  // ----- The same selection under every name

  function Everywhere(groups: Groups, t: Test): (rule: map<string, Tests>)
    ensures rule.Keys == NamesOf(groups) && forall n | n in rule :: rule[n] == [t]
  {
    map n | n in NamesOf(groups) :: [t]
  }

  lemma OneTestText(t: Test)
    ensures SelectionText(WrittenAll([t])) == FieldText(Written(t))
  {
    var sel := WrittenAll([t]);
    assert sel[..0] == [] && sel[0] == Written(t);
    hide FieldText, Written;
    assert FieldParts([]) == Some([]);
  }

  lemma EverywhereIsUsable(groups: Groups, t: Test, text: string)
    requires IsCondition(groups) && FieldText(Written(t)) == Some(text)
    ensures Usable(groups, Everywhere(groups, t))
    ensures forall n | n in Everywhere(groups, t) :: n in Queries(Everywhere(groups, t)) && Queries(Everywhere(groups, t))[n] == text
  {
    OneTestText(t);
    hide SelectionText, FieldText, Written;
    forall n | n in NamesOf(groups) ensures ' ' !in n {
      var g :| g in groups && n in g;
      assert IsName(n);
    }
    assert forall g, n | g in groups && n in g :: n in NamesOf(groups);
  }

  lemma EverywhereQuery(groups: Groups, t: Test, text: string)
    requires IsCondition(groups) && Kept(groups) != [] && FieldText(Written(t)) == Some(text)
    ensures Usable(groups, Everywhere(groups, t))
    ensures QueryOf(groups, Everywhere(groups, t)) == Some(CopiesQuery(text, |Kept(groups)|))
  {
    var rule, names := Everywhere(groups, t), Kept(groups);
    EverywhereIsUsable(groups, t, text);
    PartsKept(groups, rule);
    QueryIsPrinted(groups, rule);
    hide Kept, QueryOf, Queries, FieldText, Usable, IsCondition, Written, NamesOf;
    PartsCount(names, rule);
    assert PartsOf(names, Queries(rule)) == Copies(text, |names|);
  }

  lemma EverywhereHolds(groups: Groups, t: Test, e: Event)
    requires IsCondition(groups) && TestHolds(e, t)
    ensures RuleHolds(e, groups, Everywhere(groups, t))
  {
    hide TestHolds, IsName;
    assert forall g, n | g in groups && n in g :: n in NamesOf(groups);
    assert groups[0] in groups;
    assert SelectionHolds(e, [t]);
    hide SelectionHolds;
    assert forall n | n in groups[0] :: SelectionHolds(e, Everywhere(groups, t)[n]);
  }

  lemma WitnessLoses(schema: Schema, d: Dialect, groups: Groups, t: Test, e: Event)
    requires IsCondition(groups) && Kept(groups) != [] && IsWitness(schema, d, t, e)
    ensures Usable(groups, Everywhere(groups, t)) && RuleInDialect(schema, d, Everywhere(groups, t))
    ensures !LosesNoMatch(schema, groups, Everywhere(groups, t), e)
  {
    hide InDialect, TestHolds, FieldText, Kept, IsCondition, QueryOf, CopiesQuery, ParseMpl, Matches, Usable, RuleHolds, Written;
    EverywhereQuery(groups, t, FieldText(Written(t)).value);
    EverywhereHolds(groups, t, e);
  }

  // ----- The exact condition

  lemma PlainInDialect(schema: Schema, d: Dialect, rule: map<string, Tests>)
    requires IsSchema(schema) && IsDialect(d) && IsPlain(rule)
    ensures RuleInDialect(schema, d, rule)
  {
    assert "x"[0] != '*' && "y"[0] != '*' && |"x"| == 1 && |"y"| == 1;
    assert IsOwnPattern(schema, "x") && IsOwnPattern(schema, "y");
    assert InDialect(schema, d, PlainTests("x")[0]) && InDialect(schema, d, PlainTests("y")[0]);
    hide InDialect;
  }

  lemma ReadableLosesNothing(schema: Schema, d: Dialect, groups: Groups, rule: map<string, Tests>, e: Event)
    requires IsCondition(groups) && Usable(groups, rule) && RuleInDialect(schema, d, rule)
    requires Faithful(groups) && IsReadable(d)
    ensures LosesNoMatch(schema, groups, rule, e)
  {
    hide Faithful, IsReadable, InDialect, CleanTest, Usable, IsCondition, Kept, LosesNoMatch;
    forall n | n in rule ensures CleanTests(schema, rule[n]) {
      forall i | 0 <= i < |rule[n]| ensures CleanTest(schema, rule[n][i]) {
        DialectIsClean(schema, d, rule[n][i]);
      }
    }
    FaithfulLosesNothing(schema, groups, rule, e);
  }

  lemma HasGroups(groups: Groups)
    requires IsCondition(groups)
    ensures groups != []
  {
  }

  // Main result: every rule written in the dialect becomes a query that loses no match, if and only if the condition
  // keeps every group, names hold only letters, digits, '_' and '.', values no white space, bar, parenthesis, quote
  // or backslash, and contains is the only modifier, alone or with all. A condition that keeps no selection is
  // refused with an error.
  lemma DialectLosesNothingExactlyWhen(schema: Schema, d: Dialect, groups: Groups)
    requires IsSchema(schema) && IsDialect(d) && IsCondition(groups)
    ensures Faithful(groups) && IsReadable(d)
       <==> forall rule: map<string, Tests>, e: Event | Usable(groups, rule) && RuleInDialect(schema, d, rule) ::
              LosesNoMatch(schema, groups, rule, e)
    ensures forall rule: map<string, Tests> | Usable(groups, rule) :: QueryOf(groups, rule).None? <==> Kept(groups) == []
  {
    HasGroups(groups);
    hide *;
    forall rule: map<string, Tests> | Usable(groups, rule)
      ensures QueryOf(groups, rule).None? <==> Kept(groups) == []
    {
      NothingKeptIsRefused(groups, rule);
    }
    if Faithful(groups) && IsReadable(d) {
      forall rule: map<string, Tests>, e: Event | Usable(groups, rule) && RuleInDialect(schema, d, rule)
        ensures LosesNoMatch(schema, groups, rule, e)
      {
        ReadableLosesNothing(schema, d, groups, rule, e);
      }
    } else if !Faithful(groups) {
      var g := NotFaithful(groups);
      var rule, e := MixedLosesMatches(schema, groups, g);
      PlainInDialect(schema, d, rule);
    } else {
      FaithfulIsKept(groups);
      var t, e := DialectWitness(schema, d);
      WitnessLoses(schema, d, groups, t, e);
    }
  }
}
