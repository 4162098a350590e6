/** Sigma rules: what they mean on an event, and how they are written. */
module SigmaRules {
  import opened MplSearch
  import opened SigmaConvert
  import opened Wrappers

  // Where in the field a value is looked for: the modifiers none, contains, startswith and endswith.
  datatype Place = Whole | Inside | AtStart | AtEnd

  // Any of several values will do, or all are needed.
  datatype Test = Test(name: string, place: Place, all: bool, wanted: Wanted)

  datatype Wanted = One(value: string) | Many(values: seq<string>)

  type Tests = seq<Test>

  // ----- Meaning

  function Values(w: Wanted): seq<string> {
    match w
    case One(v) => [v]
    case Many(vs) => vs
  }

  // A value is a pattern, and the modifier puts wildcards around it.
  function Pattern(place: Place, v: string): string {
    match place
    case Whole => v
    case Inside => "*" + v + "*"
    case AtStart => v + "*"
    case AtEnd => "*" + v
  }

  predicate ValueHolds(e: Event, t: Test, v: string) {
    Glob(Pattern(t.place, v), FieldOf(e, EventField(t.name)))
  }

  predicate TestHolds(e: Event, t: Test) {
    if t.all then forall v | v in Values(t.wanted) :: ValueHolds(e, t, v)
    else exists v :: v in Values(t.wanted) && ValueHolds(e, t, v)
  }

  // All tests of a selection are needed.
  predicate SelectionHolds(e: Event, tests: Tests) {
    forall i | 0 <= i < |tests| :: TestHolds(e, tests[i])
  }

  // A condition: the names of each group joined with "and", the groups joined with "or".
  type Groups = seq<seq<string>>

  ghost predicate RuleHolds(e: Event, groups: Groups, rule: map<string, Tests>)
    requires forall g, n | g in groups && n in g :: n in rule
  {
    exists g :: g in groups && forall n | n in g :: SelectionHolds(e, rule[n])
  }

  // ----- Text

  function Modifiers(place: Place, all: bool): string {
    (match place
     case Whole => ""
     case Inside => "|contains"
     case AtStart => "|startswith"
     case AtEnd => "|endswith")
    + (if all then "|all" else "")
  }

  function AllSome(vs: seq<string>): (r: seq<Option<string>>)
    ensures |r| == |vs| && forall i | 0 <= i < |vs| :: r[i] == Some(vs[i])
  {
    seq(|vs|, i requires 0 <= i < |vs| => Some(vs[i]))
  }

  function Written(t: Test): Entry {
    Entry(t.name + Modifiers(t.place, t.all),
          match t.wanted
          case One(v) => Text(v)
          case Many(vs) => List(AllSome(vs)))
  }

  function WrittenAll(tests: Tests): (r: Selection)
    ensures |r| == |tests| && forall i | 0 <= i < |tests| :: r[i] == Written(tests[i])
  {
    seq(|tests|, i requires 0 <= i < |tests| => Written(tests[i]))
  }

  lemma {:induction false} StringsOfAll(vs: seq<string>)
    ensures Strings(AllSome(vs)) == vs
  {
    if vs != [] {
      StringsOfAll(vs[1..]);
      assert AllSome(vs)[1..] == AllSome(vs[1..]);
    }
  }
}
