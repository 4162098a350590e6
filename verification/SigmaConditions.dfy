/** Sigma conditions: reading their text, and which of them the conversion keeps the matches of. */
module SigmaConditions {
  import opened MplParser
  import opened MplQueries
  import opened MplReading
  import opened MplSearch
  import opened MplValues
  import opened SigmaConvert
  import opened SigmaMeaning
  import opened SigmaRules
  import opened Text
  import opened Wrappers

  // ----- Condition texts

  // A lower-case word that is not one of the connectives.
  predicate IsName(n: string) {
    n != [] && n != "or" && n != "and" && forall i | 0 <= i < |n| :: '!' <= n[i] < '\U{007F}' && !('A' <= n[i] <= 'Z')
  }

  ghost predicate IsCondition(groups: Groups) {
    groups != [] && forall g | g in groups :: g != [] && forall n | n in g :: IsName(n)
  }

  function GroupText(g: seq<string>): string {
    JoinText(g, " and ")
  }

  function GroupTexts(groups: Groups): (texts: seq<string>)
    ensures |texts| == |groups|
    ensures forall i | 0 <= i < |groups| :: texts[i] == GroupText(groups[i])
  {
    seq(|groups|, i requires 0 <= i < |groups| => GroupText(groups[i]))
  }

  function ConditionText(groups: Groups): string {
    JoinText(GroupTexts(groups), " or ")
  }

  // ----- Splitting

  // No separator starts inside t.
  predicate Clear(t: string, sep: string, rest: string) {
    forall i | 0 <= i < |t| :: !StartsWith((t + rest)[i..], sep)
  }

  lemma {:induction false} SplitAfter(t: string, sep: string, rest: string)
    requires sep != [] && Clear(t, sep, rest)
    ensures SplitText(t + rest, sep) == [t + SplitText(rest, sep)[0]] + SplitText(rest, sep)[1..]
  {
    hide StartsWith;
    var r := SplitText(rest, sep);
    if t == [] {
      assert t + rest == rest && t + r[0] == r[0];
      assert [r[0]] + r[1..] == r;
    } else {
      var s := t + rest;
      assert !StartsWith(s[0..], sep) && s[0..] == s;
      assert s[1..] == t[1..] + rest;
      forall i | 0 <= i < |t[1..]| ensures !StartsWith((t[1..] + rest)[i..], sep) {
        assert !StartsWith(s[i + 1..], sep);
        assert s[i + 1..] == (t[1..] + rest)[i..];
      }
      SplitAfter(t[1..], sep, rest);
      assert [s[0]] + (t[1..] + r[0]) == t + r[0];
    }
  }

  // A part of a joined text that the separator cannot start in, whatever follows it.
  ghost predicate IsPart(t: string, sep: string) {
    forall rest | rest == [] || rest[0] == ' ' :: Clear(t, sep, rest)
  }

  lemma SplitSeparator(sep: string, rest: string)
    requires sep != []
    ensures SplitText(sep + rest, sep) == [[]] + SplitText(rest, sep)
  {
    assert (sep + rest)[|sep|..] == rest && (sep + rest)[..|sep|] == sep;
  }

  lemma SplitLast(part: string, sep: string)
    requires sep != [] && IsPart(part, sep)
    ensures SplitText(part, sep) == [part]
  {
    assert Clear(part, sep, []);
    assert SplitText([], sep) == [[]];
    hide SplitText, Clear;
    SplitAfter(part, sep, []);
    assert part + [] == part;
  }

  lemma PartIsClear(part: string, sep: string, rest: string)
    requires IsPart(part, sep) && rest != [] && rest[0] == ' '
    ensures Clear(part, sep, rest)
  {
    hide Clear;
  }

  lemma NothingBefore(part: string, texts: seq<string>)
    ensures [part + ([[]] + texts)[0]] + ([[]] + texts)[1..] == [part] + texts
  {
    assert part + [] == part;
  }

  lemma SplitFirst(part: string, sep: string, rest: string)
    requires sep != [] && sep[0] == ' ' && IsPart(part, sep)
    ensures SplitText(part + sep + rest, sep) == [part] + SplitText(rest, sep)
  {
    var after := sep + rest;
    assert part + sep + rest == part + after && after[0] == ' ';
    hide *;
    PartIsClear(part, sep, after);
    SplitAfter(part, sep, after);
    SplitSeparator(sep, rest);
    NothingBefore(part, SplitText(rest, sep));
  }

  lemma {:induction false} SplitJoined(parts: seq<string>, sep: string)
    requires parts != [] && sep != [] && sep[0] == ' ' && forall i | 0 <= i < |parts| :: IsPart(parts[i], sep)
    ensures SplitText(JoinText(parts, sep), sep) == parts
  {
    hide Clear, SplitText, IsPart;
    if |parts| == 1 {
      SplitLast(parts[0], sep);
      assert [parts[0]] == parts;
    } else {
      SplitJoined(parts[1..], sep);
      SplitFirst(parts[0], sep, JoinText(parts[1..], sep));
      assert parts == [parts[0]] + parts[1..];
    }
  }

  lemma {:induction false} SplitInTwo(s: string, sep: string)
    requires sep != []
    ensures HasText(s, sep) <==> |SplitText(s, sep)| > 1
  {
    if s != [] && !StartsWith(s, sep) {
      SplitInTwo(s[1..], sep);
    }
  }

  lemma NameIsPart(n: string, sep: string)
    requires IsName(n) && sep != [] && sep[0] == ' '
    ensures IsPart(n, sep)
  {
    forall rest, i | (rest == [] || rest[0] == ' ') && 0 <= i < |n| ensures !StartsWith((n + rest)[i..], sep) {
      assert (n + rest)[i..][0] == n[i];
    }
  }

  lemma OrAt(s: string)
    ensures StartsWith(s, " or ") ==> |s| > 3 && s[1] == 'o' && s[2] == 'r' && s[3] == ' '
  {
    if StartsWith(s, " or ") {
      assert s[1] == s[..4][1] && s[2] == s[..4][2] && s[3] == s[..4][3];
    }
  }

  // A name is not "or", so no " or " starts at the blank before it.
  lemma NoOrBefore(n: string, rest: string)
    requires IsName(n) && (rest == [] || rest[0] == ' ')
    ensures !StartsWith(" " + n + rest, " or ")
  {
    var s := " " + n + rest;
    OrAt(s);
    assert s[1] == n[0];
    if n[0] == 'o' {
      if |n| == 1 {
        assert rest != [] ==> s[2] == rest[0];
      } else {
        assert s[2] == n[1];
        assert |n| == 2 && n[1] == 'r' ==> n == "or";
        assert |n| > 2 ==> s[3] == n[2];
      }
    }
  }

  lemma {:induction false} GroupIsPart(g: seq<string>)
    requires g != [] && forall n | n in g :: IsName(n)
    ensures IsPart(GroupText(g), " or ")
  {
    if |g| == 1 {
      NameIsPart(g[0], " or ");
    } else {
      GroupIsPart(g[1..]);
      forall rest | rest == [] || rest[0] == ' ' ensures Clear(GroupText(g), " or ", rest) {
        GroupClear(g, rest);
      }
    }
  }

  lemma GroupClear(g: seq<string>, rest: string)
    requires |g| > 1 && (forall n | n in g :: IsName(n)) && IsPart(GroupText(g[1..]), " or ")
    requires rest == [] || rest[0] == ' '
    ensures Clear(GroupText(g), " or ", rest)
  {
    var n, tail := g[0], GroupText(g[1..]);
    var s := GroupText(g) + rest;
    assert s == n + (" and " + (tail + rest));
    GroupStartsWithName(g[1..], rest);
    forall i | 0 <= i < |GroupText(g)| ensures !StartsWith(s[i..], " or ") {
      if i < |n| {
        assert s[i..][0] == n[i] && n in g;
      } else if i < |n| + 4 {
        assert s[i..][0] == " and "[i - |n|];
        assert s[i..][1] == " and "[i - |n| + 1];
      } else if i == |n| + 4 {
        assert s[i..] == " " + (tail + rest);
      } else {
        var k := i - |n| - 5;
        assert s[i..] == (tail + rest)[k..];
        assert Clear(tail, " or ", rest);
      }
    }
  }

  lemma GroupStartsWithName(g: seq<string>, rest: string)
    requires g != [] && (forall n | n in g :: IsName(n)) && (rest == [] || rest[0] == ' ')
    ensures !StartsWith(" " + (GroupText(g) + rest), " or ")
  {
    if |g| == 1 {
      NoOrBefore(g[0], rest);
      assert " " + (GroupText(g) + rest) == " " + g[0] + rest;
    } else {
      var after := " and " + GroupText(g[1..]) + rest;
      NoOrBefore(g[0], after);
      assert " " + (GroupText(g) + rest) == " " + g[0] + after;
    }
  }

  // ----- What a condition keeps

  function SingleNames(groups: Groups): seq<string> {
    if groups == [] then []
    else (if |groups[0]| == 1 then groups[0] else []) + SingleNames(groups[1..])
  }

  // The selections that reach the query: groups of several names are lost beside others.
  function Kept(groups: Groups): seq<string>
    requires groups != []
  {
    if |groups| == 1 then groups[0] else SingleNames(groups)
  }

  predicate NoCapitals(s: string) {
    forall i | 0 <= i < |s| :: !('A' <= s[i] <= 'Z')
  }

  lemma {:induction false} JoinedChars(parts: seq<string>, sep: string)
    requires NoCapitals(sep) && forall i | 0 <= i < |parts| :: NoCapitals(parts[i])
    ensures NoCapitals(JoinText(parts, sep))
  {
    if |parts| > 1 {
      JoinedChars(parts[1..], sep);
    }
  }

  lemma LowerStays(s: string)
    requires NoCapitals(s)
    ensures ToLower(s) == s
  {
  }

  lemma ConditionIsLower(groups: Groups)
    requires IsCondition(groups)
    ensures ToLower(ConditionText(groups)) == ConditionText(groups)
  {
    forall i | 0 <= i < |groups| ensures NoCapitals(GroupText(groups[i])) {
      assert groups[i] in groups;
      forall k | 0 <= k < |groups[i]| ensures NoCapitals(groups[i][k]) {
        assert IsName(groups[i][k]);
      }
      JoinedChars(groups[i], " and ");
    }
    JoinedChars(GroupTexts(groups), " or ");
    LowerStays(ConditionText(groups));
  }

  lemma NameIsTrimmed(n: string)
    requires IsName(n)
    ensures IsTrimmed(n)
  {
  }

  lemma {:induction false} GroupIsTrimmed(g: seq<string>)
    requires g != [] && forall n | n in g :: IsName(n)
    ensures IsTrimmed(GroupText(g)) && GroupText(g) != []
    ensures |g| > 1 ==> ' ' in GroupText(g)
  {
    NameIsTrimmed(g[0]);
    if |g| > 1 {
      GroupIsTrimmed(g[1..]);
      var t, tail := GroupText(g), GroupText(g[1..]);
      assert t[0] == g[0][0] && t[|t| - 1] == tail[|tail| - 1];
      assert t[|g[0]|] == ' ';
    }
  }

  // The queries of the selections that exist.
  function PartsOf(names: seq<string>, selections: map<string, string>): seq<string> {
    if names == [] then []
    else (if names[0] in selections then [selections[names[0]]] else []) + PartsOf(names[1..], selections)
  }

  // ----- The case of names

  lemma {:induction false} SplitIsLower(s: string, sep: string)
    requires sep != [] && NoCapitals(s)
    ensures forall k | 0 <= k < |SplitText(s, sep)| :: NoCapitals(SplitText(s, sep)[k])
  {
    if StartsWith(s, sep) {
      SplitIsLower(s[|sep|..], sep);
    } else if s != [] {
      SplitIsLower(s[1..], sep);
    }
  }

  lemma {:induction false} LookedUp(names: seq<string>, selections: map<string, string>, part: string)
    requires part in Lookup(names, selections)
    ensures exists k :: 0 <= k < |names| && Trim(names[k]) in selections && selections[Trim(names[k])] == part
  {
    hide Trim;
    var name := Trim(names[0]);
    if !(name in selections && selections[name] == part) {
      LookedUp(names[1..], selections, part);
      var k :| 0 <= k < |names[1..]| && Trim(names[1..][k]) in selections && selections[Trim(names[1..][k])] == part;
      assert names[k + 1] == names[1..][k];
    }
  }

  lemma TrimIsLower(s: string)
    requires NoCapitals(s)
    ensures NoCapitals(Trim(s)) && ToLower(Trim(s)) == Trim(s)
  {
    LowerStays(Trim(s));
  }

  lemma LowerIsLower(s: string)
    ensures NoCapitals(ToLower(s))
  {
  }

  // A condition with a connective is put in lower case, so it finds only selections with lower-case names; a single
  // name is looked up as it is written.
  lemma NamesAreLower(condition: string, selections: map<string, string>, part: string)
    requires part in ConditionParts(condition, selections)
    requires HasText(ToLower(condition), " or ") || HasText(ToLower(condition), " and ")
    ensures exists n :: n in selections && ToLower(n) == n && selections[n] == part
  {
    var lower := ToLower(condition);
    var sep := if HasText(lower, " or ") then " or " else " and ";
    LowerIsLower(condition);
    SplitIsLower(lower, sep);
    hide HasText, Trim, ToLower, Lookup, SplitText, NoCapitals;
    LookedUp(SplitText(lower, sep), selections, part);
    var k :| 0 <= k < |SplitText(lower, sep)| && Trim(SplitText(lower, sep)[k]) in selections
             && selections[Trim(SplitText(lower, sep)[k])] == part;
    TrimIsLower(SplitText(lower, sep)[k]);
  }

  lemma SingleKeepsCase(condition: string, selections: map<string, string>)
    requires !HasText(ToLower(condition), " or ") && !HasText(ToLower(condition), " and ")
    ensures ConditionParts(condition, selections)
         == if Trim(condition) in selections then [selections[Trim(condition)]] else []
  {
    hide HasText, Trim, ToLower;
    assert Lookup([condition][1..], selections) == [];
  }

  ghost predicate Known(groups: Groups, selections: map<string, string>) {
    && (forall g, n | g in groups && n in g :: n in selections)
    && (forall n | n in selections :: ' ' !in n)
  }

  lemma NameTrims(n: string)
    requires IsName(n)
    ensures Trim(n) == n
  {
    NameIsTrimmed(n);
    TrimTrimmed(n);
  }

  lemma {:induction false} LookupNames(names: seq<string>, selections: map<string, string>)
    requires forall i | 0 <= i < |names| :: IsName(names[i])
    ensures Lookup(names, selections) == PartsOf(names, selections)
  {
    hide Trim, IsName;
    if names != [] {
      NameTrims(names[0]);
      LookupNames(names[1..], selections);
    }
  }

  lemma {:induction false} SingleNamesIn(groups: Groups)
    ensures forall n | n in SingleNames(groups) :: [n] in groups
    ensures forall n | [n] in groups :: n in SingleNames(groups)
  {
    if groups != [] {
      SingleNamesIn(groups[1..]);
      assert groups == [groups[0]] + groups[1..];
      if |groups[0]| == 1 {
        assert groups[0] == [groups[0][0]];
      }
    }
  }

  lemma KeptIn(groups: Groups)
    requires groups != []
    ensures forall n | n in Kept(groups) :: exists g :: g in groups && n in g
  {
    SingleNamesIn(groups);
    if |groups| == 1 {
      assert groups[0] in groups;
    } else {
      forall n | n in Kept(groups) ensures exists g :: g in groups && n in g {
        assert [n] in groups && n in [n];
      }
    }
  }

  // A group of several names is not the name of a selection.
  lemma LookupGroup(g: seq<string>, selections: map<string, string>)
    requires g != [] && (forall n | n in g :: IsName(n) && n in selections)
    requires forall n | n in selections :: ' ' !in n
    ensures Trim(GroupText(g)) == GroupText(g)
    ensures if |g| == 1 then GroupText(g) == g[0] && g[0] in selections else GroupText(g) !in selections
  {
    GroupIsTrimmed(g);
    TrimTrimmed(GroupText(g));
    hide IsName, Trim, IsTrimmed;
  }

  ghost predicate KnownNames(groups: Groups, selections: map<string, string>) {
    (forall g | g in groups :: g != [] && forall n | n in g :: IsName(n)) && Known(groups, selections)
  }

  lemma KnownRest(groups: Groups, selections: map<string, string>)
    requires KnownNames(groups, selections) && groups != []
    ensures KnownNames(groups[1..], selections)
  {
    assert forall h | h in groups[1..] :: h in groups;
  }

  lemma PartsFirst(n: string, names: seq<string>, selections: map<string, string>)
    ensures PartsOf([n] + names, selections)
      == (if n in selections then [selections[n]] else []) + PartsOf(names, selections)
  {
    assert ([n] + names)[1..] == names;
  }

  lemma LookupFirst(name: string, names: seq<string>, selections: map<string, string>)
    requires Trim(name) == name
    ensures Lookup([name] + names, selections)
      == (if name in selections then [selections[name]] else []) + Lookup(names, selections)
  {
    assert ([name] + names)[1..] == names;
  }

  // The query parts of one group beside others.
  function OwnPart(g: seq<string>, selections: map<string, string>): seq<string> {
    if |g| == 1 && g[0] in selections then [selections[g[0]]] else []
  }

  lemma PartsOfGrow(groups: Groups, selections: map<string, string>)
    requires groups != []
    ensures PartsOf(SingleNames(groups), selections)
      == OwnPart(groups[0], selections) + PartsOf(SingleNames(groups[1..]), selections)
  {
    var g, names := groups[0], SingleNames(groups[1..]);
    if |g| == 1 {
      assert g == [g[0]];
      assert SingleNames(groups) == [g[0]] + names;
      PartsFirst(g[0], names, selections);
    } else {
      assert SingleNames(groups) == names;
    }
  }

  lemma KnownFirst(groups: Groups, selections: map<string, string>)
    requires KnownNames(groups, selections) && groups != []
    ensures var text := GroupText(groups[0]);
      && Trim(text) == text
      && OwnPart(groups[0], selections) == if text in selections then [selections[text]] else []
  {
    assert groups[0] in groups;
    LookupGroup(groups[0], selections);
    hide GroupText, Trim;
  }

  lemma LookupGrows(groups: Groups, selections: map<string, string>)
    requires KnownNames(groups, selections) && groups != []
    ensures Lookup(GroupTexts(groups), selections)
      == OwnPart(groups[0], selections) + Lookup(GroupTexts(groups[1..]), selections)
  {
    hide *;
    var text := GroupText(groups[0]);
    KnownFirst(groups, selections);
    assert GroupTexts(groups) == [text] + GroupTexts(groups[1..]);
    LookupFirst(text, GroupTexts(groups[1..]), selections);
  }

  lemma {:induction false} LookupGroups(groups: Groups, selections: map<string, string>)
    requires KnownNames(groups, selections)
    ensures Lookup(GroupTexts(groups), selections) == PartsOf(SingleNames(groups), selections)
  {
    if groups != [] {
      KnownRest(groups, selections);
      hide *;
      PartsOfGrow(groups, selections);
      LookupGrows(groups, selections);
      LookupGroups(groups[1..], selections);
    }
  }

  lemma PartsOfOne(g: seq<string>, selections: map<string, string>)
    requires IsCondition([g])
    ensures ConditionParts(ConditionText([g]), selections) == PartsOf(g, selections)
  {
    var text := GroupText(g);
    assert g in [g];
    assert GroupTexts([g]) == [text];
    ConditionIsLower([g]);
    GroupIsPart(g);
    SplitJoined([text], " or ");
    SplitInTwo(text, " or ");
    forall i | 0 <= i < |g| ensures IsName(g[i]) && IsPart(g[i], " and ") {
      NameIsPart(g[i], " and ");
    }
    SplitJoined(g, " and ");
    SplitInTwo(text, " and ");
    LookupNames(g, selections);
    assert |g| == 1 ==> g == [text];
  }

  lemma PartsOfMany(groups: Groups, selections: map<string, string>)
    requires IsCondition(groups) && |groups| > 1 && Known(groups, selections)
    ensures ConditionParts(ConditionText(groups), selections) == PartsOf(SingleNames(groups), selections)
  {
    var texts := GroupTexts(groups);
    ConditionIsLower(groups);
    forall i | 0 <= i < |texts| ensures IsPart(texts[i], " or ") {
      assert groups[i] in groups;
      GroupIsPart(groups[i]);
    }
    SplitJoined(texts, " or ");
    SplitInTwo(ConditionText(groups), " or ");
    LookupGroups(groups, selections);
  }

  // ----- What the query means

  // The selections of a rule, all of them convertible.
  ghost predicate Usable(groups: Groups, rule: map<string, Tests>) {
    && (forall g, n | g in groups && n in g :: n in rule)
    && (forall n | n in rule :: ' ' !in n && rule[n] != [] && SelectionText(WrittenAll(rule[n])).Some?)
  }

  function Queries(rule: map<string, Tests>): map<string, string> {
    map n | n in rule && SelectionText(WrittenAll(rule[n])).Some? :: SelectionText(WrittenAll(rule[n])).value
  }

  // The query text of a rule.
  function QueryOf(groups: Groups, rule: map<string, Tests>): Option<string> {
    ConditionQuery(ConditionText(groups), Queries(rule))
  }

  ghost predicate AnySelection(e: Event, names: seq<string>, rule: map<string, Tests>) {
    exists n :: n in names && n in rule && SelectionHolds(e, rule[n])
  }

  ghost predicate AreClean(schema: Schema, names: seq<string>, rule: map<string, Tests>) {
    forall n | n in names && n in rule :: CleanTests(schema, rule[n])
  }

  ghost predicate NoneWidened(schema: Schema, names: seq<string>, rule: map<string, Tests>) {
    forall n | n in names && n in rule :: !WidenedTests(schema, rule[n])
  }

  ghost predicate NamesSound(schema: Schema, names: seq<string>, rule: map<string, Tests>, xs: seq<Expr>) {
    |xs| == |names| && forall i | 0 <= i < |names| :: names[i] in rule && SelectionSound(schema, rule[names[i]], xs[i])
  }

  lemma {:induction false} NamesRead(schema: Schema, names: seq<string>, rule: map<string, Tests>) returns (xs: seq<Expr>)
    requires forall n | n in names :: n in rule && rule[n] != [] && CleanTests(schema, rule[n])
    ensures NamesSound(schema, names, rule, xs)
    ensures AreConjuncts(PartsOf(names, Queries(rule)), xs) && AreQuiet(PartsOf(names, Queries(rule)))
  {
    hide IsConjunct, IsQuiet, SelectionSound, SelectionText, CleanTests, WrittenAll;
    if names == [] {
      xs := [];
    } else {
      assert names[0] in names;
      var x := SelectionReads(schema, rule[names[0]]);
      xs := NamesRead(schema, names[1..], rule);
      xs := [x] + xs;
    }
  }

  lemma DisjunctionSound(schema: Schema, names: seq<string>, rule: map<string, Tests>, xs: seq<Expr>, e: Event)
    requires NamesSound(schema, names, rule, xs) && xs != []
    ensures AnySelection(e, names, rule) ==> Matches(schema, e, Disjunction(xs))
    ensures NoneWidened(schema, names, rule) && Matches(schema, e, Disjunction(xs)) ==> AnySelection(e, names, rule)
  {
    hide SelectionHolds, WidenedTests, Disjunction;
    DisjunctionMatches(schema, e, xs);
    if n :| n in names && n in rule && SelectionHolds(e, rule[n]) {
      var i :| 0 <= i < |names| && names[i] == n;
      assert SelectionSound(schema, rule[names[i]], xs[i]);
    }
    if i :| 0 <= i < |xs| && Matches(schema, e, xs[i]) {
      assert SelectionSound(schema, rule[names[i]], xs[i]);
      assert names[i] in names;
    }
  }

  lemma PartsKept(groups: Groups, rule: map<string, Tests>)
    requires IsCondition(groups) && Usable(groups, rule)
    ensures ConditionParts(ConditionText(groups), Queries(rule)) == PartsOf(Kept(groups), Queries(rule))
    ensures forall n | n in Kept(groups) :: n in rule
  {
    KeptIn(groups);
    hide SelectionText, ConditionParts, ConditionText;
    if |groups| == 1 {
      assert groups == [groups[0]];
      PartsOfOne(groups[0], Queries(rule));
    } else {
      assert Known(groups, Queries(rule));
      PartsOfMany(groups, Queries(rule));
    }
  }

  lemma {:induction false} PartsCount(names: seq<string>, rule: map<string, Tests>)
    requires forall n | n in names :: n in Queries(rule)
    ensures |PartsOf(names, Queries(rule))| == |names|
    ensures forall i | 0 <= i < |names| :: PartsOf(names, Queries(rule))[i] == Queries(rule)[names[i]]
  {
    hide Queries;
    if names != [] {
      assert names[0] in names;
      PartsCount(names[1..], rule);
    }
  }

  // The query of a rule is printed from the selections that are kept; without any there is no query.
  lemma QueryIsPrinted(groups: Groups, rule: map<string, Tests>)
    requires IsCondition(groups) && Usable(groups, rule)
    ensures var parts := PartsOf(Kept(groups), Queries(rule));
      && |parts| == |Kept(groups)|
      && QueryOf(groups, rule) == if parts == [] then None else Some(QueryText(AnyOf(parts)))
  {
    PartsKept(groups, rule);
    hide ConditionParts, ConditionText, Kept, SelectionText;
    PartsCount(Kept(groups), rule);
  }

  lemma AnyOfIsRead(parts: seq<string>, xs: seq<Expr>)
    requires parts != [] && AreConjuncts(parts, xs) && AreQuiet(parts)
    ensures ParseMpl(QueryText(AnyOf(parts))) == Some(Disjunction(xs))
  {
    assert xs != [];
    hide IsPrimary, AreConjuncts, AreQuiet, IsQuiet, ParseMpl, Disjunction;
    AnyOfReads(parts, xs);
    QueryReads(AnyOf(parts), Disjunction(xs));
  }

  // Main result: the query text of a rule whose kept selections are clean, read by the mPL parser, matches
  // whatever any kept selection means, and nothing else unless a test is widened.
  lemma QueryMeansAnyKept(schema: Schema, groups: Groups, rule: map<string, Tests>, e: Event)
    requires IsCondition(groups) && Usable(groups, rule) && AreClean(schema, Kept(groups), rule)
    ensures var query := QueryOf(groups, rule);
      && (query.Some? <==> Kept(groups) != [])
      && (query.Some? ==>
            && ParseMpl(query.value).Some?
            && (AnySelection(e, Kept(groups), rule) ==> Matches(schema, e, ParseMpl(query.value).value))
            && (NoneWidened(schema, Kept(groups), rule) && Matches(schema, e, ParseMpl(query.value).value) ==>
                  AnySelection(e, Kept(groups), rule)))
  {
    PartsKept(groups, rule);
    QueryIsPrinted(groups, rule);
    var names := Kept(groups);
    hide IsConjunct, IsQuiet, SelectionText, CleanTests, Kept, Queries, QueryOf, Disjunction, ParseMpl, PartsOf, AnyOf,
         QueryText, AnySelection, NoneWidened, Matches;
    if names != [] {
      var xs := NamesRead(schema, names, rule);
      AnyOfIsRead(PartsOf(names, Queries(rule)), xs);
      DisjunctionSound(schema, names, rule, xs, e);
    }
  }

  // ----- Which conditions lose no match

  // There is a query, and it matches the event if the rule does.
  ghost predicate LosesNoMatch(schema: Schema, groups: Groups, rule: map<string, Tests>, e: Event)
    requires Usable(groups, rule)
  {
    RuleHolds(e, groups, rule) ==>
      && QueryOf(groups, rule).Some?
      && ParseMpl(QueryOf(groups, rule).value).Some?
      && Matches(schema, e, ParseMpl(QueryOf(groups, rule).value).value)
  }

  // One selection, only "and", only "or"; or a mix in which each group holds a name that stands alone.
  ghost predicate Faithful(groups: Groups)
    requires groups != []
  {
    |groups| == 1 || forall g | g in groups :: exists n :: n in g && n in Kept(groups)
  }

  lemma FaithfulIsKept(groups: Groups)
    requires IsCondition(groups) && Faithful(groups)
    ensures Kept(groups) != []
  {
    hide IsName, SingleNames;
    assert groups[0] in groups && groups[0] != [];
  }

  lemma RuleIsKept(groups: Groups, rule: map<string, Tests>, e: Event)
    requires IsCondition(groups) && Usable(groups, rule) && Faithful(groups)
    requires RuleHolds(e, groups, rule)
    ensures AnySelection(e, Kept(groups), rule)
  {
    hide SelectionHolds, SelectionText;
    var g :| g in groups && forall n | n in g :: SelectionHolds(e, rule[n]);
    if |groups| == 1 {
      assert g == groups[0] && g[0] in g;
      assert g[0] in Kept(groups) && SelectionHolds(e, rule[g[0]]);
    } else {
      var n :| n in g && n in Kept(groups);
      assert SelectionHolds(e, rule[n]);
    }
  }

  lemma FaithfulLosesNothing(schema: Schema, groups: Groups, rule: map<string, Tests>, e: Event)
    requires IsCondition(groups) && Usable(groups, rule) && AreClean(schema, Kept(groups), rule) && Faithful(groups)
    ensures LosesNoMatch(schema, groups, rule, e)
  {
    FaithfulIsKept(groups);
    QueryMeansAnyKept(schema, groups, rule, e);
    hide QueryOf, ParseMpl, Matches, AnySelection, Usable, AreClean, Faithful, IsCondition, Kept;
    if RuleHolds(e, groups, rule) {
      RuleIsKept(groups, rule, e);
    }
  }

  // The names of the searchable fields can be read, and none is a single character.
  ghost predicate IsSchema(schema: Schema) {
    forall c | c in schema.columns :: |c| > 1 && IsFieldName(c)
  }

  // A selection that holds for the events whose field x has the given value.
  function PlainTests(v: string): Tests {
    [Test("x", Whole, false, One(v))]
  }

  lemma PlainIsClean(schema: Schema, v: string)
    requires IsSchema(schema) && v in ["x", "y"]
    ensures MeansItself(schema, "x", v) && IsExact(schema, "x", v) && CleanValue(Equals, v) && !HasGlob(v)
  {
    assert v[0] != '*' && |v| == 1;
  }

  lemma PlainField(v: string)
    ensures EventField("x") == "x" && IsFieldName("x") && Leaves("x", false, v) == [Leaf(Equals, "x")]
  {
  }

  lemma PlainSingle(schema: Schema, v: string)
    requires MeansItself(schema, "x", v) && IsExact(schema, "x", v) && CleanValue(Equals, v)
    ensures CleanSingle(schema, "x", false, v) && !Widened(schema, "x", false, v)
  {
    hide MeansItself, IsExact, CleanValue, Leaves;
    PlainField(v);
  }

  lemma PlainTest(schema: Schema, v: string)
    requires IsSchema(schema) && v in ["x", "y"]
    ensures CleanTests(schema, PlainTests(v)) && !WidenedTests(schema, PlainTests(v))
  {
    hide CleanSingle, Widened, EventField, IsFieldName, IsSchema, Leaves, MeansItself, IsExact, HasGlob;
    PlainIsClean(schema, v);
    PlainField(v);
    PlainSingle(schema, v);
  }

  lemma PlainHolds(e: Event, v: string)
    requires !HasGlob(v)
    ensures SelectionHolds(e, PlainTests(v)) <==> FieldOf(e, "x") == v
  {
    var t := PlainTests(v)[0];
    assert EventField("x") == "x";
    GlobOfLiteral(v, FieldOf(e, "x"));
    hide Glob, EventField;
    assert v in Values(t.wanted) && (ValueHolds(e, t, v) <==> FieldOf(e, "x") == v);
    assert TestHolds(e, t) <==> ValueHolds(e, t, v);
  }

  lemma PlainFacts(schema: Schema, v: string, e: Event)
    requires IsSchema(schema) && v in ["x", "y"]
    ensures PlainTests(v) != [] && SelectionText(WrittenAll(PlainTests(v))).Some?
    ensures CleanTests(schema, PlainTests(v)) && !WidenedTests(schema, PlainTests(v))
    ensures SelectionHolds(e, PlainTests(v)) <==> FieldOf(e, "x") == v
  {
    PlainTest(schema, v);
    PlainIsClean(schema, v);
    PlainHolds(e, v);
    assert PlainTests(v) != [];
    hide CleanTests, PlainTests, SelectionText;
    var x := SelectionReads(schema, PlainTests(v));
  }

  ghost predicate IsPlain(rule: map<string, Tests>) {
    forall n | n in rule :: rule[n] == PlainTests("x") || rule[n] == PlainTests("y")
  }

  lemma PlainRules(schema: Schema, rule: map<string, Tests>, e: Event)
    requires IsSchema(schema) && IsPlain(rule)
    ensures forall n | n in rule ::
      && rule[n] != [] && SelectionText(WrittenAll(rule[n])).Some?
      && CleanTests(schema, rule[n]) && !WidenedTests(schema, rule[n])
    ensures forall n | n in rule ::
      SelectionHolds(e, rule[n]) <==> FieldOf(e, "x") == if rule[n] == PlainTests("x") then "x" else "y"
  {
    hide PlainTests, SelectionHolds, SelectionText, CleanTests, WidenedTests;
    PlainFacts(schema, "x", e);
    PlainFacts(schema, "y", e);
  }

  function NamesOf(groups: Groups): set<string> {
    set g, n | g in groups && n in g :: n
  }

  lemma PlainIsUsable(schema: Schema, groups: Groups, rule: map<string, Tests>)
    requires IsSchema(schema) && IsCondition(groups) && rule.Keys == NamesOf(groups) && IsPlain(rule)
    ensures Usable(groups, rule) && AreClean(schema, Kept(groups), rule) && NoneWidened(schema, Kept(groups), rule)
  {
    PlainRules(schema, rule, map[]);
    hide IsPlain, SelectionText, CleanTests, WidenedTests, Kept;
    forall n | n in rule ensures ' ' !in n {
      assert n in NamesOf(groups);
      var g :| g in groups && n in g;
      assert IsName(n);
    }
    assert forall g, n | g in groups && n in g :: n in NamesOf(groups);
  }

  // The group holds for x, and all other selections ask for y.
  function Against(groups: Groups, g: seq<string>): (rule: map<string, Tests>)
    ensures rule.Keys == NamesOf(groups)
    ensures forall n | n in rule :: rule[n] == PlainTests(if n in g then "x" else "y")
  {
    map n | n in NamesOf(groups) :: PlainTests(if n in g then "x" else "y")
  }

  lemma AgainstFacts(schema: Schema, groups: Groups, g: seq<string>, e: Event)
    requires IsSchema(schema) && e == map["x" := "x"]
    ensures IsPlain(Against(groups, g))
    ensures forall n | n in Against(groups, g) :: SelectionHolds(e, Against(groups, g)[n]) <==> n in g
  {
    assert PlainTests("x") != PlainTests("y") && FieldOf(e, "x") == "x";
    hide PlainTests, SelectionHolds, IsSchema;
    PlainRules(schema, Against(groups, g), e);
  }

  // The names of a group that no kept selection covers, against all others.
  lemma MixedLosesMatches(schema: Schema, groups: Groups, g: seq<string>) returns (rule: map<string, Tests>, e: Event)
    requires IsSchema(schema) && IsCondition(groups) && |groups| > 1
    requires g in groups && forall n | n in g :: n !in Kept(groups)
    ensures rule.Keys == NamesOf(groups) && IsPlain(rule)
    ensures Usable(groups, rule) && !LosesNoMatch(schema, groups, rule, e)
  {
    rule, e := Against(groups, g), map["x" := "x"];
    hide PlainTests, SelectionHolds, IsCondition, Kept, Usable, AreClean, NoneWidened, IsPlain, IsSchema, Against, Matches,
         ParseMpl, QueryOf;
    AgainstFacts(schema, groups, g, e);
    PlainIsUsable(schema, groups, rule);
    QueryMeansAnyKept(schema, groups, rule, e);
    assert !AnySelection(e, Kept(groups), rule);
    assert RuleHolds(e, groups, rule) by {
      assert forall n | n in g :: n in NamesOf(groups);
    }
  }

  lemma NotFaithful(groups: Groups) returns (g: seq<string>)
    requires groups != [] && !Faithful(groups)
    ensures |groups| > 1 && g in groups && forall n | n in g :: n !in Kept(groups)
  {
    g :| g in groups && forall n | n in g :: n !in Kept(groups);
  }

  // When no selection is kept, the rule is refused.
  lemma NothingKeptIsRefused(groups: Groups, rule: map<string, Tests>)
    requires IsCondition(groups) && Usable(groups, rule)
    ensures QueryOf(groups, rule).None? <==> Kept(groups) == []
  {
    hide QueryOf, Usable, IsCondition, Kept, PartsOf, Queries;
    QueryIsPrinted(groups, rule);
  }

  // Main result: the conversion loses no match of clean rules exactly for these conditions.
  lemma LosesNothingExactlyWhen(schema: Schema, groups: Groups)
    requires IsSchema(schema) && IsCondition(groups)
    ensures Faithful(groups) <==>
      forall rule: map<string, Tests>, e: Event | Usable(groups, rule) && AreClean(schema, Kept(groups), rule) ::
        LosesNoMatch(schema, groups, rule, e)
  {
    hide LosesNoMatch, Usable;
    if Faithful(groups) {
      forall rule: map<string, Tests>, e: Event | Usable(groups, rule) && AreClean(schema, Kept(groups), rule)
        ensures LosesNoMatch(schema, groups, rule, e)
      {
        FaithfulLosesNothing(schema, groups, rule, e);
      }
    } else {
      var g := NotFaithful(groups);
      var rule, e := MixedLosesMatches(schema, groups, g);
      PlainIsUsable(schema, groups, rule);
    }
  }

  lemma OrConditionIsAny(groups: Groups, rule: map<string, Tests>, e: Event)
    requires groups != [] && forall g | g in groups :: |g| == 1
    requires forall g, n | g in groups && n in g :: n in rule
    ensures Kept(groups) != []
    ensures AnySelection(e, Kept(groups), rule) <==> RuleHolds(e, groups, rule)
  {
    SingleNamesIn(groups);
    hide SelectionHolds;
    var names, first := Kept(groups), groups[0];
    assert first in groups && first == [first[0]];
    assert |groups| == 1 ==> groups == [first];
    forall n ensures n in names <==> [n] in groups {
      assert |groups| == 1 && [n] in groups ==> [n] == first;
    }
    assert first[0] in names;
    hide Kept;
    if AnySelection(e, names, rule) {
      var n :| n in names && n in rule && SelectionHolds(e, rule[n]);
      assert [n] in groups;
    }
    if RuleHolds(e, groups, rule) {
      var g :| g in groups && forall n | n in g :: SelectionHolds(e, rule[n]);
      assert g == [g[0]] && g[0] in g;
    }
  }

  // Main result: without "and", and without a widened test, the query of a clean rule matches exactly what the
  // rule means.
  lemma OrIsExact(schema: Schema, groups: Groups, rule: map<string, Tests>, e: Event)
    requires IsCondition(groups) && Usable(groups, rule) && forall g | g in groups :: |g| == 1
    requires forall n | n in rule :: CleanTests(schema, rule[n]) && !WidenedTests(schema, rule[n])
    ensures QueryOf(groups, rule).Some? && ParseMpl(QueryOf(groups, rule).value).Some?
    ensures Matches(schema, e, ParseMpl(QueryOf(groups, rule).value).value) <==> RuleHolds(e, groups, rule)
  {
    hide QueryOf, ParseMpl, SelectionHolds, WidenedTests, CleanTests, SelectionText, Matches, Kept;
    OrConditionIsAny(groups, rule, e);
    QueryMeansAnyKept(schema, groups, rule, e);
    hide AnySelection;
  }
}
