/** What the parser makes of a converted Sigma selection, compared with what the selection means. */
module SigmaMeaning {
  import opened MplParser
  import opened MplQueries
  import opened MplReading
  import opened MplSearch
  import opened MplValues
  import opened SigmaConvert
  import opened SigmaRules
  import opened Text
  import opened Wrappers

  // ----- Keys

  lemma {:induction false} NoBefore(s: string, t: string)
    requires t != [] && t[0] == '|' && '|' !in s
    ensures BeforeText(s, t).None?
  {
    if s != [] {
      assert s[0] in s;
      NoBefore(s[1..], t);
    }
  }

  lemma {:induction false} BeforeBar(name: string, t: string, rest: string)
    requires t != [] && t[0] == '|' && '|' !in name
    ensures BeforeText(name + t + rest, t) == Some(name)
  {
    var s := name + t + rest;
    if name == [] {
      assert s == t + rest;
      StartsWithAppended(t, rest);
    } else {
      assert name[0] in name;
      assert s[1..] == name[1..] + t + rest;
      assert s[..|t|][0] == name[0];
      BeforeBar(name[1..], t, rest);
      assert [s[0]] + name[1..] == name;
    }
  }

  // The converter knows contains, alone or with all.
  predicate IsKnownPlace(place: Place, all: bool) {
    place == Inside || (place == Whole && !all)
  }

  lemma KeyIsParsed(name: string, place: Place, all: bool)
    requires '|' !in name && IsKnownPlace(place, all)
    ensures ParseFieldKey(name + Modifiers(place, all)) == (EventField(name), place == Inside)
  {
    hide EventField;
    if place == Whole {
      assert name + Modifiers(place, all) == name;
      NoBefore(name, "|contains");
    } else {
      var rest := if all then "|all" else "";
      BeforeBar(name, "|contains", rest);
      assert name + Modifiers(place, all) == name + "|contains" + rest;
    }
  }

  lemma NamesStayReadable(name: string)
    requires IsFieldName(name)
    ensures IsFieldName(EventField(name)) && '|' !in name
  {
    assert !IsNameChar('|');
  }

  // ----- Clean rules: readable keys, values that come back, patterns that stand for themselves

  predicate CleanSingle(schema: Schema, field: string, contains: bool, v: string) {
    var leaves := Leaves(field, contains, v);
    (forall i | 0 <= i < |leaves| :: CleanValue(leaves[i].op, v)) && MeansItself(schema, field, Meant(leaves[0].op, v))
  }

  predicate CleanTest(schema: Schema, t: Test) {
    && IsFieldName(t.name) && IsKnownPlace(t.place, t.all)
    && Values(t.wanted) != []
    && forall v | v in Values(t.wanted) :: CleanSingle(schema, EventField(t.name), t.place == Inside, v)
  }

  predicate CleanTests(schema: Schema, tests: Tests) {
    forall i | 0 <= i < |tests| :: CleanTest(schema, tests[i])
  }

  // The tests whose query looks wider than the test: in more columns, inside the column instead of at the
  // whole of it, or for any of several values that are all needed.
  predicate Widened(schema: Schema, field: string, contains: bool, v: string) {
    |Leaves(field, contains, v)| > 1 || !IsExact(schema, field, Meant(if contains then Like else Equals, v))
  }

  predicate WidenedTest(schema: Schema, t: Test) {
    || (t.all && |Values(t.wanted)| > 1)
    || exists v :: v in Values(t.wanted) && Widened(schema, EventField(t.name), t.place == Inside, v)
  }

  predicate WidenedTests(schema: Schema, tests: Tests) {
    exists i :: 0 <= i < |tests| && WidenedTest(schema, tests[i])
  }

  // ----- Single values

  lemma DisjunctionMatches(schema: Schema, e: Event, xs: seq<Expr>)
    requires xs != []
    ensures Matches(schema, e, Disjunction(xs)) <==> exists i :: 0 <= i < |xs| && Matches(schema, e, xs[i])
  {
    if |xs| == 1 {
      assert Matches(schema, e, xs[0]) ==> 0 <= 0 < |xs| && Matches(schema, e, xs[0]);
    }
  }

  lemma ConjunctionMatches(schema: Schema, e: Event, xs: seq<Expr>)
    requires xs != []
    ensures Matches(schema, e, Conjunction(xs)) <==> forall i | 0 <= i < |xs| :: Matches(schema, e, xs[i])
  {
    if |xs| == 1 {
      assert xs == [xs[0]];
    }
  }

  lemma ColumnsAreReadable()
    ensures IsFieldName("bundle_id") && IsFieldName("dest_ip") && IsFieldName("message") && IsFieldName("action")
  {
  }

  lemma LeavesAreReadable(field: string, contains: bool, v: string)
    requires IsFieldName(field)
    ensures forall i | 0 <= i < |Leaves(field, contains, v)| :: IsFieldName(Leaves(field, contains, v)[i].field)
  {
    hide IsFieldName, HasDot;
    ColumnsAreReadable();
  }

  function LeafExprs(leaves: seq<Leaf>, v: string): (r: seq<Expr>)
    ensures |r| == |leaves|
    ensures forall i | 0 <= i < |leaves| :: r[i] == Field(leaves[i].field, Eq, Meant(leaves[i].op, v))
  {
    seq(|leaves|, i requires 0 <= i < |leaves| => Field(leaves[i].field, Eq, Meant(leaves[i].op, v)))
  }

  // What a converted value reads as.
  function SingleExpr(field: string, contains: bool, v: string): Expr {
    Disjunction(LeafExprs(Leaves(field, contains, v), v))
  }

  ghost predicate AreQuiet(parts: seq<string>) {
    forall i | 0 <= i < |parts| :: IsQuiet(parts[i])
  }

  // A parenthesised list of alternatives.
  lemma AnyOfReads(parts: seq<string>, xs: seq<Expr>)
    requires parts != [] && AreConjuncts(parts, xs) && AreQuiet(parts)
    ensures IsPrimary(AnyOf(parts), Disjunction(xs)) && IsQuiet(AnyOf(parts))
  {
    hide IsConjunct, IsPrimary, IsQuiet;
    GroupIsPrimary(parts, xs);
    ConnectivesAreQuiet();
    JoinIsQuiet(parts, " OR ");
    GroupIsQuiet(JoinText(parts, " OR "));
  }

  lemma LeavesRead(leaves: seq<Leaf>, v: string)
    requires leaves != [] && forall i | 0 <= i < |leaves| :: IsFieldName(leaves[i].field) && CleanValue(leaves[i].op, v)
    ensures AreConjuncts(LeafTexts(leaves, v), LeafExprs(leaves, v)) && AreQuiet(LeafTexts(leaves, v))
    ensures IsPrimary(LeafTexts(leaves, v)[0], LeafExprs(leaves, v)[0])
  {
    var texts, xs := LeafTexts(leaves, v), LeafExprs(leaves, v);
    hide IsConjunct, IsPrimary, IsQuiet, LeafText, CleanValue, IsFieldName;
    forall i | 0 <= i < |leaves| ensures IsPrimary(texts[i], xs[i]) && IsConjunct(texts[i], xs[i]) && IsQuiet(texts[i]) {
      LeafReads(leaves[i].op, leaves[i].field, v);
      PrimaryIsConjunct(texts[i], xs[i]);
      LeafIsQuiet(leaves[i].op, leaves[i].field, v);
    }
  }

  lemma SingleReads(schema: Schema, field: string, contains: bool, v: string)
    requires IsFieldName(field) && CleanSingle(schema, field, contains, v)
    ensures IsPrimary(SingleText(field, contains, v), SingleExpr(field, contains, v))
    ensures IsQuiet(SingleText(field, contains, v))
  {
    LeavesAreReadable(field, contains, v);
    var leaves := Leaves(field, contains, v);
    hide Leaves, IsConjunct, IsPrimary, IsQuiet, LeafText, CleanValue, IsFieldName, AnyOf;
    LeavesRead(leaves, v);
    if |leaves| > 1 {
      AnyOfReads(LeafTexts(leaves, v), LeafExprs(leaves, v));
    }
  }

  lemma SingleKeeps(schema: Schema, e: Event, field: string, contains: bool, v: string)
    requires CleanSingle(schema, field, contains, v)
    requires Glob(Pattern(if contains then Inside else Whole, v), FieldOf(e, field))
    ensures Matches(schema, e, SingleExpr(field, contains, v))
  {
    var leaves := Leaves(field, contains, v);
    var xs, p := LeafExprs(leaves, v), Meant(leaves[0].op, v);
    if p != Pattern(if contains then Inside else Whole, v) {
      GlobWiden(v, FieldOf(e, field));
    }
    hide Leaves, Glob, FieldMatches, MeansItself, CleanValue;
    MeantIsKept(schema, e, field, p);
    assert Matches(schema, e, xs[0]);
    DisjunctionMatches(schema, e, xs);
  }

  lemma SingleIsExact(schema: Schema, e: Event, field: string, contains: bool, v: string)
    requires !Widened(schema, field, contains, v)
    ensures Matches(schema, e, SingleExpr(field, contains, v))
       <==> Glob(Pattern(if contains then Inside else Whole, v), FieldOf(e, field))
  {
    var leaves := Leaves(field, contains, v);
    var xs := LeafExprs(leaves, v);
    assert leaves == [Leaf(if contains then Like else Equals, field)];
    hide Leaves, Glob, FieldMatches, IsExact;
    ExactPattern(schema, e, field, Meant(leaves[0].op, v));
    DisjunctionMatches(schema, e, xs);
  }

  // ----- Tests and selections

  // The query x keeps every match of the test, and adds none unless the test is widened.
  ghost predicate TestSound(schema: Schema, t: Test, x: Expr) {
    && (forall e | TestHolds(e, t) :: Matches(schema, e, x))
    && (!WidenedTest(schema, t) ==> forall e | Matches(schema, e, x) :: TestHolds(e, t))
  }

  function SingleExprs(field: string, contains: bool, vs: seq<string>): (r: seq<Expr>)
    ensures |r| == |vs| && forall i | 0 <= i < |vs| :: r[i] == SingleExpr(field, contains, vs[i])
  {
    seq(|vs|, i requires 0 <= i < |vs| => SingleExpr(field, contains, vs[i]))
  }

  lemma SinglesRead(schema: Schema, field: string, contains: bool, vs: seq<string>)
    requires IsFieldName(field) && forall v | v in vs :: CleanSingle(schema, field, contains, v)
    ensures AreConjuncts(Singles(field, contains, vs), SingleExprs(field, contains, vs))
    ensures AreQuiet(Singles(field, contains, vs))
  {
    var texts, xs := Singles(field, contains, vs), SingleExprs(field, contains, vs);
    hide IsConjunct, IsPrimary, IsQuiet, SingleText, SingleExpr, CleanSingle, IsFieldName;
    forall i | 0 <= i < |vs| ensures IsConjunct(texts[i], xs[i]) && IsQuiet(texts[i]) {
      SingleReads(schema, field, contains, vs[i]);
      PrimaryIsConjunct(texts[i], xs[i]);
    }
  }

  function TestExpr(t: Test): Expr
    requires Values(t.wanted) != []
  {
    Disjunction(SingleExprs(EventField(t.name), t.place == Inside, Values(t.wanted)))
  }

  lemma ClosedText(t: Test)
    requires '|' !in t.name && IsKnownPlace(t.place, t.all)
    ensures var field, vs := EventField(t.name), Values(t.wanted);
      FieldText(Written(t)) == (
        if t.wanted.One? then Some(SingleText(field, t.place == Inside, t.wanted.value))
        else if vs == [] then None
        else Some(AnyOf(Singles(field, t.place == Inside, vs))))
  {
    KeyIsParsed(t.name, t.place, t.all);
    hide EventField, SingleText, AnyOf, ParseFieldKey, Modifiers;
    if t.wanted.Many? {
      StringsOfAll(t.wanted.values);
    }
  }

  lemma TestReads(schema: Schema, t: Test)
    requires CleanTest(schema, t)
    ensures FieldText(Written(t)).Some?
    ensures IsPrimary(FieldText(Written(t)).value, TestExpr(t)) && IsQuiet(FieldText(Written(t)).value)
  {
    NamesStayReadable(t.name);
    ClosedText(t);
    var field, vs, contains := EventField(t.name), Values(t.wanted), t.place == Inside;
    hide EventField, SingleText, SingleExpr, AnyOf, FieldText, IsPrimary, IsQuiet, IsConjunct, CleanSingle, IsFieldName;
    if t.wanted.One? {
      assert t.wanted.value in vs;
      SingleReads(schema, field, contains, t.wanted.value);
      assert SingleExprs(field, contains, vs) == [SingleExpr(field, contains, t.wanted.value)];
    } else {
      SinglesRead(schema, field, contains, vs);
      AnyOfReads(Singles(field, contains, vs), SingleExprs(field, contains, vs));
    }
  }

  lemma TestIsKept(schema: Schema, e: Event, t: Test)
    requires CleanTest(schema, t) && TestHolds(e, t)
    ensures Matches(schema, e, TestExpr(t))
  {
    var field, vs, contains := EventField(t.name), Values(t.wanted), t.place == Inside;
    var xs := SingleExprs(field, contains, vs);
    hide EventField, SingleExpr, CleanSingle, IsFieldName, Values, Glob, Pattern, Disjunction, Matches;
    assert vs[0] in vs;
    var v :| v in vs && ValueHolds(e, t, v);
    var i :| 0 <= i < |vs| && vs[i] == v;
    PlaceIsEither(t);
    SingleKeeps(schema, e, field, contains, v);
    assert Matches(schema, e, xs[i]);
    DisjunctionMatches(schema, e, xs);
  }

  lemma PlaceIsEither(t: Test)
    requires IsKnownPlace(t.place, t.all)
    ensures t.place == if t.place == Inside then Inside else Whole
  {
  }

  lemma TestIsExact(schema: Schema, e: Event, t: Test)
    requires CleanTest(schema, t) && !WidenedTest(schema, t) && Matches(schema, e, TestExpr(t))
    ensures TestHolds(e, t)
  {
    var field, vs, contains := EventField(t.name), Values(t.wanted), t.place == Inside;
    var xs := SingleExprs(field, contains, vs);
    hide EventField, SingleExpr, CleanSingle, IsFieldName, Values, Glob, Pattern, Disjunction, Matches, Widened;
    DisjunctionMatches(schema, e, xs);
    var i :| 0 <= i < |xs| && Matches(schema, e, xs[i]);
    assert vs[i] in vs;
    PlaceIsEither(t);
    SingleIsExact(schema, e, field, contains, vs[i]);
    assert ValueHolds(e, t, vs[i]);
    assert t.all ==> vs == [vs[i]];
  }

  // Main result: a clean test is read back, keeps every match, and adds none unless it is widened.
  lemma TestIsSound(schema: Schema, t: Test)
    requires CleanTest(schema, t)
    ensures TestSound(schema, t, TestExpr(t))
  {
    hide CleanTest, TestHolds, TestExpr, WidenedTest;
    assert Values(t.wanted) != [] by {
      CleanHasValues(schema, t);
    }
    forall e ensures TestHolds(e, t) ==> Matches(schema, e, TestExpr(t)) {
      if TestHolds(e, t) {
        TestIsKept(schema, e, t);
      }
    }
    forall e | !WidenedTest(schema, t) && Matches(schema, e, TestExpr(t)) ensures TestHolds(e, t) {
      TestIsExact(schema, e, t);
    }
  }

  lemma CleanHasValues(schema: Schema, t: Test)
    requires CleanTest(schema, t)
    ensures Values(t.wanted) != []
  {
  }

  lemma PartsOfLast(sel: Selection)
    requires sel != []
    ensures var init, last := FieldParts(sel[..|sel| - 1]), FieldText(sel[|sel| - 1]);
      FieldParts(sel) == if init.None? || last.None? then None else Some(init.value + [last.value])
  {
    hide FieldText;
  }

  lemma WrittenLast(tests: Tests)
    requires tests != []
    ensures var n := |tests| - 1;
      |WrittenAll(tests)| == |tests| && WrittenAll(tests)[..n] == WrittenAll(tests[..n])
      && WrittenAll(tests)[n] == Written(tests[n])
  {
    hide Written;
  }

  lemma PartsGrow(tests: Tests)
    requires tests != []
    ensures var init, last := FieldParts(WrittenAll(tests[..|tests| - 1])), FieldText(Written(tests[|tests| - 1]));
      FieldParts(WrittenAll(tests)) == if init.None? || last.None? then None else Some(init.value + [last.value])
  {
    hide *;
    WrittenLast(tests);
    PartsOfLast(WrittenAll(tests));
  }

  // The printed parts of a selection with what they read as.
  ghost predicate PartsSound(schema: Schema, tests: Tests, parts: seq<string>, xs: seq<Expr>) {
    && |parts| == |tests| == |xs|
    && forall i | 0 <= i < |tests| :: IsPrimary(parts[i], xs[i]) && IsQuiet(parts[i]) && TestSound(schema, tests[i], xs[i])
  }

  lemma PartsSoundGrow(schema: Schema, tests: Tests, parts: seq<string>, xs: seq<Expr>, part: string, x: Expr)
    requires tests != [] && PartsSound(schema, tests[..|tests| - 1], parts, xs)
    requires IsPrimary(part, x) && IsQuiet(part) && TestSound(schema, tests[|tests| - 1], x)
    ensures PartsSound(schema, tests, parts + [part], xs + [x])
  {
    hide IsPrimary, IsQuiet, TestSound;
  }

  lemma LastIsClean(schema: Schema, tests: Tests)
    requires CleanTests(schema, tests) && tests != []
    ensures CleanTests(schema, tests[..|tests| - 1]) && CleanTest(schema, tests[|tests| - 1])
  {
    hide CleanTest;
  }

  lemma {:induction false} TestsRead(schema: Schema, tests: Tests) returns (xs: seq<Expr>)
    requires CleanTests(schema, tests)
    ensures FieldParts(WrittenAll(tests)).Some? && PartsSound(schema, tests, FieldParts(WrittenAll(tests)).value, xs)
  {
    if tests == [] {
      xs := [];
    } else {
      hide *;
      var init, last := tests[..|tests| - 1], tests[|tests| - 1];
      LastIsClean(schema, tests);
      CleanHasValues(schema, last);
      xs := TestsRead(schema, init);
      TestReads(schema, last);
      TestIsSound(schema, last);
      PartsGrow(tests);
      PartsSoundGrow(schema, tests, FieldParts(WrittenAll(init)).value, xs, FieldText(Written(last)).value, TestExpr(last));
      xs := xs + [TestExpr(last)];
    }
  }

  ghost predicate SelectionSound(schema: Schema, tests: Tests, x: Expr) {
    && (forall e | SelectionHolds(e, tests) :: Matches(schema, e, x))
    && (!WidenedTests(schema, tests) ==> forall e | Matches(schema, e, x) :: SelectionHolds(e, tests))
  }

  // Main result: the text of a clean selection reads as an AND expression that keeps every match of the
  // selection, and adds none unless a test is widened.
  lemma SelectionReads(schema: Schema, tests: Tests) returns (x: Expr)
    requires tests != [] && CleanTests(schema, tests)
    ensures SelectionText(WrittenAll(tests)).Some?
    ensures IsConjunct(SelectionText(WrittenAll(tests)).value, x) && IsQuiet(SelectionText(WrittenAll(tests)).value)
    ensures SelectionSound(schema, tests, x)
  {
    hide IsPrimary, IsConjunct, IsQuiet, FieldParts, WidenedTest, TestHolds, Conjunction, CleanTests, JoinText;
    var xs := TestsRead(schema, tests);
    var parts := FieldParts(WrittenAll(tests)).value;
    ConjunctionReads(parts, xs);
    ConnectivesAreQuiet();
    JoinIsQuiet(parts, " AND ");
    x := Conjunction(xs);
    forall e ensures (SelectionHolds(e, tests) ==> Matches(schema, e, x))
                  && (!WidenedTests(schema, tests) && Matches(schema, e, x) ==> SelectionHolds(e, tests))
    {
      ConjunctionMatches(schema, e, xs);
      assert forall i | 0 <= i < |tests| :: TestSound(schema, tests[i], xs[i]);
    }
  }
}
