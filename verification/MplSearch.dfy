/** What a search expression matches on an event. */
module MplSearch {
  import opened MplParser
  import opened Orders
  import opened Wrappers

  // The columns of an event; an absent one is the empty string.
  type Event = map<string, string>

  // What the search knows besides the event: the names of the searchable fields, and the token search of
  // bare words in a message.
  datatype Schema = Schema(columns: set<string>, finds: (string, string) -> bool)

  function FieldOf(e: Event, field: string): string {
    if field in e then e[field] else ""
  }

  // * is any text, ? any one character.
  predicate Glob(pattern: string, s: string)
    decreases |pattern|, |s|
  {
    if pattern == [] then s == []
    else if pattern[0] == '*' then Glob(pattern[1..], s) || (s != [] && Glob(pattern, s[1..]))
    else s != [] && (pattern[0] == '?' || pattern[0] == s[0]) && Glob(pattern[1..], s[1..])
  }

  predicate HasLiteral(pattern: string) {
    exists i :: 0 <= i < |pattern| && pattern[i] != '*' && pattern[i] != '?'
  }

  // A pattern of wildcards only asks for a value.
  predicate GlobMatches(s: string, pattern: string) {
    if HasLiteral(pattern) then Glob(pattern, s) else s != []
  }

  predicate DataTypeMatches(e: Event, value: string) {
    var dataType, eventType := FieldOf(e, "data_type"), FieldOf(e, "event_type");
    if HasGlob(value) then
      || GlobMatches(dataType, value)
      || GlobMatches(eventType, value)
      || (Contains(value, "tombstone_backtrace")
          && Contains(dataType, "tombstone") && (Contains(dataType, "frame") || Contains(dataType, "backtrace")))
    else dataType == value || eventType == value
  }

  // A value that is itself the name of a searchable field stands for that field.
  predicate FieldMatches(schema: Schema, e: Event, field: string, value: string) {
    if field == "data_type" then DataTypeMatches(e, value)
    else if HasGlob(value) then GlobMatches(FieldOf(e, field), value)
    else if value in schema.columns then FieldOf(e, field) == FieldOf(e, value)
    else FieldOf(e, field) == value
  }

  predicate Compares(a: string, op: CompareOp, b: string)
    requires op != Eq && op != Ne
  {
    match op
    case Gt => StringLess(b, a)
    case Lt => StringLess(a, b)
    case Gte => !StringLess(a, b)
    case Lte => !StringLess(b, a)
  }

  predicate Matches(schema: Schema, e: Event, x: Expr) {
    match x
    case Field(field, op, value) =>
      if op == Eq then FieldMatches(schema, e, field, value)
      else if op == Ne then !FieldMatches(schema, e, field, value)
      else Compares(FieldOf(e, field), op, value)
    case In(field, values, negate) => (FieldOf(e, field) in values) != negate
    case BareToken(token) => schema.finds(FieldOf(e, "message"), token)
    case Wildcard(pattern) => Glob(pattern, FieldOf(e, "message"))
    case Not(inner) => !Matches(schema, e, inner)
    case And(all) => forall i | 0 <= i < |all| :: Matches(schema, e, all[i])
    case Or(any) => exists i :: 0 <= i < |any| && Matches(schema, e, any[i])
    case True => true
  }

  predicate OccursAt(s: string, v: string, i: int) {
    0 <= i <= |s| - |v| && s[i..i + |v|] == v
  }

  predicate Contains(s: string, v: string) {
    exists i :: 0 <= i <= |s| && OccursAt(s, v, i)
  }

  // ----- Patterns

  lemma {:induction false} GlobOfLiteral(v: string, s: string)
    requires !HasGlob(v)
    ensures Glob(v, s) <==> s == v
  {
    if v != [] {
      assert v[0] in v;
      assert forall c | c in v[1..] :: c in v;
      if s != [] {
        GlobOfLiteral(v[1..], s[1..]);
        assert v == [v[0]] + v[1..] && s == [s[0]] + s[1..];
      }
    }
  }

  lemma {:induction false} GlobOfStart(v: string, s: string)
    requires !HasGlob(v)
    ensures Glob(v + "*", s) <==> v <= s
  {
    if v == [] {
      assert v + "*" == "*";
      StarMatchesAll(s);
    } else {
      assert v[0] in v;
      assert forall c | c in v[1..] :: c in v;
      assert (v + "*")[1..] == v[1..] + "*";
      if s != [] {
        GlobOfStart(v[1..], s[1..]);
        assert v == [v[0]] + v[1..] && s == [s[0]] + s[1..];
      }
    }
  }

  lemma {:induction false} StarMatchesAll(s: string)
    ensures Glob("*", s)
  {
    assert "*"[1..] == [];
    if s != [] {
      StarMatchesAll(s[1..]);
    }
  }

  lemma ContainsLater(s: string, v: string)
    requires s != [] && Contains(s[1..], v)
    ensures Contains(s, v)
  {
    var i :| 0 <= i <= |s[1..]| && OccursAt(s[1..], v, i);
    assert s[i + 1..i + 1 + |v|] == s[1..][i..i + |v|];
    assert OccursAt(s, v, i + 1);
  }

  // An occurrence is at the start, or behind the first character.
  lemma ContainsStep(s: string, v: string)
    requires Contains(s, v)
    ensures v <= s || (s != [] && Contains(s[1..], v))
  {
    var i :| 0 <= i <= |s| && OccursAt(s, v, i);
    if i > 0 {
      assert s[i..i + |v|] == s[1..][i - 1..i - 1 + |v|];
      assert OccursAt(s[1..], v, i - 1);
    }
  }

  lemma ContainsStart(s: string, v: string)
    requires v <= s
    ensures Contains(s, v)
  {
    assert OccursAt(s, v, 0);
  }

  // Without wildcards in the value, the pattern around it is a substring search.
  lemma {:induction false} GlobOfInside(v: string, s: string)
    requires !HasGlob(v)
    ensures Glob("*" + v + "*", s) <==> Contains(s, v)
    decreases |s|
  {
    var p := "*" + v + "*";
    assert p[0] == '*' && p[1..] == v + "*";
    assert Glob(p, s) <==> Glob(p[1..], s) || (s != [] && Glob(p, s[1..]));
    hide Contains, Glob, HasGlob;
    GlobOfStart(v, s);
    if s != [] {
      GlobOfInside(v, s[1..]);
    }
    if v <= s {
      ContainsStart(s, v);
    } else if s != [] && Contains(s[1..], v) {
      ContainsLater(s, v);
    }
    if Contains(s, v) {
      ContainsStep(s, v);
    }
  }

  lemma {:induction false} GlobSelf(p: string)
    ensures Glob(p, p)
  {
    if p != [] {
      GlobSelf(p[1..]);
    }
  }

  lemma {:induction false} GlobMoreAfter(p: string, s: string)
    requires Glob(p, s)
    ensures Glob(p + "*", s)
    decreases |p|, |s|
  {
    if p == [] {
      assert p + "*" == "*";
      StarMatchesAll(s);
    } else {
      assert (p + "*")[1..] == p[1..] + "*";
      if p[0] == '*' {
        if Glob(p[1..], s) {
          GlobMoreAfter(p[1..], s);
        } else {
          GlobMoreAfter(p, s[1..]);
        }
      } else {
        GlobMoreAfter(p[1..], s[1..]);
      }
    }
  }

  // A pattern that matches the whole matches with stars around it.
  lemma GlobWiden(p: string, s: string)
    requires Glob(p, s)
    ensures Glob("*" + p + "*", s)
  {
    GlobMoreAfter(p, s);
    assert ("*" + p + "*")[1..] == p + "*";
  }

  predicate AllStars(p: string) {
    forall i | 0 <= i < |p| :: p[i] == '*'
  }

  lemma {:induction false} StarsMatchNothing(p: string)
    ensures AllStars(p) <==> Glob(p, "")
  {
    if p != [] {
      StarsMatchNothing(p[1..]);
      assert AllStars(p) ==> p[0] == '*' && forall i | 0 <= i < |p[1..]| :: p[1..][i] == p[i + 1];
      assert p[0] == '*' && AllStars(p[1..]) ==> forall i | 0 < i < |p| :: p[i] == p[1..][i - 1];
    }
  }

  // The search takes the pattern as it is written.
  predicate MeansItself(schema: Schema, field: string, p: string) {
    !(p != [] && AllStars(p)) && (p in schema.columns && !HasGlob(p) && field != "data_type" ==> p == field)
  }

  lemma MeantIsKept(schema: Schema, e: Event, field: string, p: string)
    requires MeansItself(schema, field, p) && Glob(p, FieldOf(e, field))
    ensures FieldMatches(schema, e, field, p)
  {
    var s := FieldOf(e, field);
    if HasGlob(p) {
      assert p != [];
      if s == [] {
        StarsMatchNothing(p);
      }
    } else {
      GlobOfLiteral(p, s);
    }
  }

  // The search on a field is the pattern itself: no column but its own, and a literal beside the wildcards.
  predicate IsExact(schema: Schema, field: string, p: string) {
    field != "data_type" && if HasGlob(p) then HasLiteral(p) else p !in schema.columns
  }

  lemma ExactPattern(schema: Schema, e: Event, field: string, p: string)
    requires IsExact(schema, field, p)
    ensures FieldMatches(schema, e, field, p) <==> Glob(p, FieldOf(e, field))
  {
    if !HasGlob(p) {
      GlobOfLiteral(p, FieldOf(e, field));
    }
  }

  // A string that is not p and not empty, in a column called by another name.
  lemma PatternLost(schema: Schema, field: string, p: string) returns (e: Event)
    requires !MeansItself(schema, field, p)
    ensures Glob(p, FieldOf(e, field)) && !FieldMatches(schema, e, field, p)
  {
    if p != [] && AllStars(p) {
      e := map[];
      StarsMatchNothing(p);
      assert p[0] in p;
      NothingInEmpty("tombstone");
    } else {
      e := map[field := p, p := p + "x"];
      GlobOfLiteral(p, p);
      assert |p + "x"| == |p| + 1;
    }
  }

  lemma NothingInEmpty(v: string)
    requires v != []
    ensures !Contains("", v)
  {
  }

  // Main result: a search on one field keeps every match of the pattern if and only if the pattern is not made of
  // stars only and is not the name of another searchable field.
  lemma PatternKeptExactlyWhen(schema: Schema, field: string, p: string)
    ensures MeansItself(schema, field, p)
       <==> forall e: Event | Glob(p, FieldOf(e, field)) :: FieldMatches(schema, e, field, p)
  {
    hide MeansItself, FieldMatches;
    if MeansItself(schema, field, p) {
      forall e: Event | Glob(p, FieldOf(e, field)) ensures FieldMatches(schema, e, field, p) {
        MeantIsKept(schema, e, field, p);
      }
    } else {
      var e := PatternLost(schema, field, p);
    }
  }
}
