/** Where the maps of a case comparison come from: entity groups added up by type and value. */
module EntityCounts {
  import opened CaseCompare

  datatype Entity = Entity(value: string, occurrences: nat)

  datatype Group = Group(entityType: string, entities: seq<Entity>)

  // ----- What the maps hold

  function SumOf(entities: seq<Entity>, v: string): nat {
    if entities == [] then 0
    else
      var last := entities[|entities| - 1];
      SumOf(entities[..|entities| - 1], v) + (if last.value == v then last.occurrences else 0)
  }

  // All occurrences of a value under a type.
  function Occurrences(groups: seq<Group>, t: string, v: string): nat {
    if groups == [] then 0
    else
      var last := groups[|groups| - 1];
      Occurrences(groups[..|groups| - 1], t, v) + (if last.entityType == t then SumOf(last.entities, v) else 0)
  }

  function TypeNames(groups: seq<Group>): set<string> {
    set g | g in groups :: g.entityType
  }

  function ValueNames(groups: seq<Group>, t: string): set<string> {
    set g, e | g in groups && g.entityType == t && e in g.entities :: e.value
  }

  function TallyType(groups: seq<Group>, t: string): Values {
    map v | v in ValueNames(groups, t) :: Occurrences(groups, t, v) % U64
  }

  // u64 counts, which wrap in a release build.
  function Tally(groups: seq<Group>): TypeMap {
    map t | t in TypeNames(groups) :: TallyType(groups, t)
  }

  function MergeValues(m: Values, n: Values): Values {
    map v | v in m.Keys + n.Keys :: if v in n then (Count(m, v) + n[v]) % U64 else m[v]
  }

  function MergedType(base: TypeMap, extra: TypeMap, t: string): Values {
    MergeValues(ValuesOf(base, t), ValuesOf(extra, t))
  }

  function Merge(base: TypeMap, extra: TypeMap): TypeMap {
    map t | t in base.Keys + extra.Keys :: MergedType(base, extra, t)
  }

  // ----- The updates of the loops

  // entry(t).or_default()
  function Touch(m: TypeMap, t: string): TypeMap {
    if t in m then m else m[t := map[]]
  }

  // *entry(v).or_insert(0) += n
  function Bump(m: Values, v: string, n: nat): Values {
    m[v := (Count(m, v) + n) % U64]
  }

  lemma OccurrencesAppend(groups: seq<Group>, g: Group, t: string, v: string)
    ensures Occurrences(groups + [g], t, v)
      == Occurrences(groups, t, v) + (if g.entityType == t then SumOf(g.entities, v) else 0)
  {
    assert (groups + [g])[..|groups|] == groups;
  }

  lemma SumAppend(entities: seq<Entity>, e: Entity, v: string)
    ensures SumOf(entities + [e], v) == SumOf(entities, v) + (if e.value == v then e.occurrences else 0)
  {
    assert (entities + [e])[..|entities|] == entities;
  }

  lemma NamesAppend(groups: seq<Group>, g: Group, t: string)
    ensures TypeNames(groups + [g]) == TypeNames(groups) + {g.entityType}
    ensures ValueNames(groups + [g], t)
      == ValueNames(groups, t) + (if g.entityType == t then set e | e in g.entities :: e.value else {})
  {
    assert g in groups + [g];
  }

  lemma TallyTypeTouch(groups: seq<Group>, t: string, u: string)
    ensures TallyType(groups + [Group(t, [])], u) == TallyType(groups, u)
  {
    NamesAppend(groups, Group(t, []), u);
    forall v ensures Occurrences(groups + [Group(t, [])], u, v) == Occurrences(groups, u, v) {
      OccurrencesAppend(groups, Group(t, []), u, v);
    }
  }

  lemma TallyTouch(groups: seq<Group>, t: string)
    ensures Tally(groups + [Group(t, [])]) == Touch(Tally(groups), t)
  {
    NamesAppend(groups, Group(t, []), t);
    forall u ensures TallyType(groups + [Group(t, [])], u) == TallyType(groups, u) {
      TallyTypeTouch(groups, t, u);
    }
    assert t !in TypeNames(groups) ==> TallyType(groups, t) == map[] by {
      assert t !in TypeNames(groups) ==> ValueNames(groups, t) == {};
    }
  }

  lemma AddMod(x: nat, y: nat)
    ensures (x % U64 + y) % U64 == (x + y) % U64
    ensures (x % U64 + y % U64) % U64 == (x + y) % U64
  {
  }

  lemma OccursWhereNamed(groups: seq<Group>, t: string, v: string)
    requires v !in ValueNames(groups, t)
    ensures Occurrences(groups, t, v) == 0
  {
    if groups != [] {
      var init, last := groups[..|groups| - 1], groups[|groups| - 1];
      assert groups == init + [last];
      NamesAppend(init, last, t);
      OccursWhereNamed(init, t, v);
      if last.entityType == t {
        SumWhereNamed(last.entities, v);
      }
    }
  }

  lemma SumWhereNamed(entities: seq<Entity>, v: string)
    requires forall e | e in entities :: e.value != v
    ensures SumOf(entities, v) == 0
  {
  }

  lemma OccurrencesBump(groups: seq<Group>, t: string, es: seq<Entity>, e: Entity, u: string, v: string)
    ensures Occurrences(groups + [Group(t, es + [e])], u, v)
      == Occurrences(groups + [Group(t, es)], u, v) + if u == t && v == e.value then e.occurrences else 0
  {
    hide Occurrences, SumOf;
    OccurrencesAppend(groups, Group(t, es), u, v);
    OccurrencesAppend(groups, Group(t, es + [e]), u, v);
    SumAppend(es, e, v);
  }

  lemma NamesBump(groups: seq<Group>, t: string, es: seq<Entity>, e: Entity, u: string)
    ensures ValueNames(groups + [Group(t, es + [e])], u)
      == ValueNames(groups + [Group(t, es)], u) + if u == t then {e.value} else {}
  {
    NamesAppend(groups, Group(t, es), u);
    NamesAppend(groups, Group(t, es + [e]), u);
    hide ValueNames;
    assert (set x | x in es + [e] :: x.value) == (set x | x in es :: x.value) + {e.value};
  }

  lemma CountTally(groups: seq<Group>, t: string, v: string)
    ensures Count(TallyType(groups, t), v) == Occurrences(groups, t, v) % U64
  {
    if v !in ValueNames(groups, t) {
      OccursWhereNamed(groups, t, v);
    }
  }

  lemma TallyTypeBump(groups: seq<Group>, t: string, es: seq<Entity>, e: Entity, u: string)
    ensures TallyType(groups + [Group(t, es + [e])], u) ==
      if u == t then Bump(TallyType(groups + [Group(t, es)], t), e.value, e.occurrences)
      else TallyType(groups + [Group(t, es)], u)
  {
    var before, after := groups + [Group(t, es)], groups + [Group(t, es + [e])];
    hide Occurrences, ValueNames, Count;
    NamesBump(groups, t, es, e, u);
    CountTally(before, t, e.value);
    AddMod(Occurrences(before, t, e.value), e.occurrences);
    forall v | v in ValueNames(after, u)
      ensures Occurrences(after, u, v) == Occurrences(before, u, v) + if u == t && v == e.value then e.occurrences else 0
    {
      OccurrencesBump(groups, t, es, e, u, v);
    }
  }

  lemma TallyBump(groups: seq<Group>, t: string, es: seq<Entity>, e: Entity)
    ensures var m := Tally(groups + [Group(t, es)]);
      && t in m
      && Tally(groups + [Group(t, es + [e])]) == m[t := Bump(m[t], e.value, e.occurrences)]
  {
    var before, after := groups + [Group(t, es)], groups + [Group(t, es + [e])];
    NamesAppend(groups, Group(t, es), t);
    NamesAppend(groups, Group(t, es + [e]), t);
    hide TypeNames, TallyType, Bump;
    assert TypeNames(after) == TypeNames(before);
    forall u ensures TallyType(groups + [Group(t, es + [e])], u) ==
      if u == t then Bump(TallyType(groups + [Group(t, es)], t), e.value, e.occurrences)
      else TallyType(groups + [Group(t, es)], u)
    {
      TallyTypeBump(groups, t, es, e, u);
    }
  }

  lemma NothingTallied()
    ensures Tally([]) == map[]
  {
  }

  lemma TouchIs(m: TypeMap, t: string)
    ensures Touch(m, t) == if t in m then m else m[t := map[]]
  {
  }

  // One group; before is what was added up already.
  method AddGroup(ghost before: seq<Group>, g: Group, tally: TypeMap) returns (out: TypeMap)
    requires tally == Tally(before)
    ensures out == Tally(before + [g])
  {
    hide *;
    var t, es := g.entityType, g.entities;
    out := tally;
    TallyTouch(before, t);
    TouchIs(tally, t);
    if t !in out {
      out := out[t := map[]];
    }
    assert es[..0] == [];
    for j := 0 to |es|
      invariant out == Tally(before + [Group(t, es[..j])])
    {
      TallyBump(before, t, es[..j], es[j]);
      assert es[..j + 1] == es[..j] + [es[j]];
      out := out[t := Bump(out[t], es[j].value, es[j].occurrences)];
    }
    assert Group(t, es[..|es|]) == g;
  }

  method EntityMaps(groups: seq<Group>) returns (out: TypeMap)
    ensures out == Tally(groups)
  {
    hide *;
    out := map[];
    NothingTallied();
    assert groups[..0] == [];
    for i := 0 to |groups|
      invariant out == Tally(groups[..i])
    {
      out := AddGroup(groups[..i], groups[i], out);
      assert groups[..i + 1] == groups[..i] + [groups[i]];
    }
    assert groups[..|groups|] == groups;
  }

  method CompareEntityResponses(a: seq<Group>, b: seq<Group>) returns (summary: Summary, sections: seq<Section>)
    ensures IsComparison(Tally(a), Tally(b), summary, sections)
  {
    var mapA := EntityMaps(a);
    var mapB := EntityMaps(b);
    summary, sections := CompareValueMaps(mapA, mapB);
  }

  // ----- What the maps of entity groups hold

  lemma {:induction false} OneGroupSums(es: seq<Entity>, fs: seq<Entity>, v: string)
    ensures SumOf(es + fs, v) == SumOf(es, v) + SumOf(fs, v)
  {
    if fs == [] {
      assert es + fs == es;
    } else {
      var n := |fs| - 1;
      OneGroupSums(es, fs[..n], v);
      assert (es + fs)[..|es| + n] == es + fs[..n];
    }
  }

  lemma NamesHold(groups: seq<Group>, t: string, v: string)
    ensures t in TypeNames(groups) <==> exists g :: g in groups && g.entityType == t
    ensures v in ValueNames(groups, t) <==> exists g, e :: g in groups && g.entityType == t && e in g.entities && e.value == v
  {
  }

  // A map has the types and values that occur, and the number of occurrences modulo 2^64.
  lemma TallyHolds(groups: seq<Group>, t: string, v: string)
    ensures t in Tally(groups) <==> exists g :: g in groups && g.entityType == t
    ensures t in Tally(groups) ==>
      (v in Tally(groups)[t] <==> exists g, e :: g in groups && g.entityType == t && e in g.entities && e.value == v)
    ensures t in Tally(groups) && v in Tally(groups)[t] ==>
      && Tally(groups)[t][v] < 0x1_0000_0000_0000_0000
      && exists k: int :: Tally(groups)[t][v] == Occurrences(groups, t, v) - k * 0x1_0000_0000_0000_0000
  {
    NamesHold(groups, t, v);
    hide TypeNames, ValueNames, Occurrences;
    var n := Occurrences(groups, t, v);
    assert 0 <= n % U64 == n - n / U64 * U64 < U64;
  }

  // Occurrences add up over groups and over the entities of a group, and one entity alone counts its own.
  lemma OccurrencesAdd(front: seq<Group>, back: seq<Group>, es: seq<Entity>, fs: seq<Entity>, t: string, v: string, n: nat)
    ensures Occurrences(front + back, t, v) == Occurrences(front, t, v) + Occurrences(back, t, v)
    ensures Occurrences([Group(t, es + fs)], t, v) == Occurrences([Group(t, es)], t, v) + Occurrences([Group(t, fs)], t, v)
    ensures Occurrences([Group(t, [Entity(v, n)])], t, v) == n
    ensures forall u, w | u != t || w != v :: Occurrences([Group(t, [Entity(v, n)])], u, w) == 0
  {
    OccurrencesSplit(front, back, t, v);
    OneGroupSums(es, fs, v);
    hide Occurrences, SumOf;
    assert [] + [Group(t, es + fs)] == [Group(t, es + fs)] && [] + [Group(t, es)] == [Group(t, es)]
        && [] + [Group(t, fs)] == [Group(t, fs)];
    OccurrencesAppend([], Group(t, es + fs), t, v);
    OccurrencesAppend([], Group(t, es), t, v);
    OccurrencesAppend([], Group(t, fs), t, v);
    NoGroups(t, v);
    forall u, w ensures Occurrences([Group(t, [Entity(v, n)])], u, w) == if u == t && w == v then n else 0 {
      OneEntity(t, v, n, u, w);
    }
  }

  lemma NoGroups(t: string, v: string)
    ensures Occurrences([], t, v) == 0
  {
  }

  lemma OneEntity(t: string, v: string, n: nat, u: string, w: string)
    ensures Occurrences([Group(t, [Entity(v, n)])], u, w) == if u == t && w == v then n else 0
  {
    assert [] + [Entity(v, n)] == [Entity(v, n)] && [] + [Group(t, [Entity(v, n)])] == [Group(t, [Entity(v, n)])];
    OccurrencesAppend([], Group(t, [Entity(v, n)]), u, w);
    SumAppend([], Entity(v, n), w);
    assert SumOf([], w) == 0;
    NoGroups(u, w);
    hide Occurrences, SumOf;
  }

  // ----- Merging

  lemma MergeTouch(base: TypeMap, part: TypeMap, t: string)
    requires t !in part
    ensures Merge(base, part[t := map[]]) == Touch(Merge(base, part), t)
  {
    assert t !in base ==> MergedType(base, part, t) == map[];
    hide MergeValues;
    forall u ensures MergedType(base, part[t := map[]], u) == MergedType(base, part, u) {
      assert ValuesOf(part[t := map[]], u) == ValuesOf(part, u);
    }
    hide MergedType;
  }

  lemma BumpMerged(m: Values, values: Values, v: string, n: nat)
    requires v !in values
    ensures MergeValues(m, values[v := n]) == Bump(MergeValues(m, values), v, n)
  {
  }

  lemma ValuesOfType(part: TypeMap, t: string, values: Values, u: string)
    ensures ValuesOf(part[t := values], u) == if u == t then values else ValuesOf(part, u)
  {
  }

  // One type of the merged map after a change of that type in the map merged in.
  lemma MergedChange(base: TypeMap, part: TypeMap, t: string, values: Values, u: string)
    ensures MergedType(base, part[t := values], u) ==
      if u == t then MergeValues(ValuesOf(base, t), values) else MergedType(base, part, u)
  {
    hide MergeValues, ValuesOf;
    ValuesOfType(part, t, values, u);
  }

  lemma MergedAt(base: TypeMap, part: TypeMap, u: string)
    ensures u in Merge(base, part) <==> u in base || u in part
    ensures u in Merge(base, part) ==> Merge(base, part)[u] == MergedType(base, part, u)
  {
    hide MergedType;
  }

  lemma MergeAt(base: TypeMap, part: TypeMap, t: string, values: Values)
    ensures Merge(base, part[t := values]) == Merge(base, part)[t := MergeValues(ValuesOf(base, t), values)]
  {
    hide MergeValues, ValuesOf, MergedType, Merge;
    var m, m' := Merge(base, part), Merge(base, part[t := values]);
    forall u ensures u in m' <==> u in m || u == t
             ensures u in m' ==> m'[u] == m[t := MergeValues(ValuesOf(base, t), values)][u]
    {
      MergedAt(base, part, u);
      MergedAt(base, part[t := values], u);
      MergedChange(base, part, t, values, u);
    }
  }

  lemma MergeBump(base: TypeMap, part: TypeMap, t: string, values: Values, v: string, n: nat)
    requires v !in values
    ensures var m := Merge(base, part[t := values]);
      && t in m
      && Merge(base, part[t := values[v := n]]) == m[t := Bump(m[t], v, n)]
  {
    BumpMerged(ValuesOf(base, t), values, v, n);
    hide MergeValues, Bump, Merge, ValuesOf;
    MergeAt(base, part, t, values);
    MergeAt(base, part, t, values[v := n]);
  }

  // One type of the map merged in; part is what was merged before.
  method MergeType(base: TypeMap, ghost part: TypeMap, t: string, values: Values, merged: TypeMap) returns (out: TypeMap)
    requires t !in part && merged == Merge(base, part)
    ensures out == Merge(base, part[t := values])
  {
    hide *;
    out := merged;
    MergeTouch(base, part, t);
    TouchIs(merged, t);
    if t !in out {
      out := out[t := map[]];
    }
    assert out == Merge(base, part[t := map[]]);
    var keys := values.Keys;
    ghost var seen: Values := map[];
    while keys != {}
      invariant keys <= values.Keys && seen.Keys == values.Keys - keys
      invariant forall v | v in seen :: seen[v] == values[v]
      invariant out == Merge(base, part[t := seen])
      decreases |keys|
    {
      var v :| v in keys;
      keys := keys - {v};
      MergeBump(base, part, t, seen, v, values[v]);
      out := out[t := Bump(out[t], v, values[v])];
      seen := seen[v := values[v]];
    }
    assert seen == values;
  }

  method MergeTypeMaps(base: TypeMap, extra: TypeMap) returns (out: TypeMap)
    ensures out == Merge(base, extra)
  {
    hide *;
    out := base;
    var types := extra.Keys;
    ghost var part: TypeMap := map[];
    MergeNothing(base);
    while types != {}
      invariant types <= extra.Keys && part.Keys == extra.Keys - types
      invariant forall t | t in part :: part[t] == extra[t]
      invariant out == Merge(base, part)
      decreases |types|
    {
      var t :| t in types;
      types := types - {t};
      out := MergeType(base, part, t, extra[t], out);
      part := part[t := extra[t]];
    }
    assert part == extra;
  }

  lemma MergeNothing(base: TypeMap)
    ensures Merge(base, map[]) == base
  {
    forall t | t in base ensures MergeValues(base[t], map[]) == base[t] {}
  }

  lemma {:induction false} OccurrencesSplit(front: seq<Group>, back: seq<Group>, t: string, v: string)
    ensures Occurrences(front + back, t, v) == Occurrences(front, t, v) + Occurrences(back, t, v)
  {
    if back == [] {
      assert front + back == front;
    } else {
      var n := |back| - 1;
      OccurrencesSplit(front, back[..n], t, v);
      assert (front + back)[..|front| + n] == front + back[..n];
    }
  }

  lemma NamesSplit(front: seq<Group>, back: seq<Group>, t: string)
    ensures ValueNames(front + back, t) == ValueNames(front, t) + ValueNames(back, t)
  {
  }

  lemma TallyTypeSplit(front: seq<Group>, back: seq<Group>, t: string)
    ensures TallyType(front + back, t) == MergeValues(TallyType(front, t), TallyType(back, t))
  {
    NamesSplit(front, back, t);
    hide ValueNames, Occurrences;
    forall v | v in ValueNames(front + back, t)
      ensures TallyType(front + back, t)[v] == MergeValues(TallyType(front, t), TallyType(back, t))[v]
    {
      OccurrencesSplit(front, back, t, v);
      AddMod(Occurrences(front, t, v), Occurrences(back, t, v));
      if v !in ValueNames(front, t) {
        OccursWhereNamed(front, t, v);
      }
      if v !in ValueNames(back, t) {
        OccursWhereNamed(back, t, v);
      }
    }
  }

  // Main result: merging the maps of two lists of groups gives the map of the lists together.
  lemma MergeIsTally(front: seq<Group>, back: seq<Group>)
    ensures Merge(Tally(front), Tally(back)) == Tally(front + back)
  {
    assert TypeNames(front + back) == TypeNames(front) + TypeNames(back);
    forall t | t in TypeNames(front + back)
      ensures MergedType(Tally(front), Tally(back), t) == TallyType(front + back, t)
    {
      TallyTypeSplit(front, back, t);
      UnnamedType(front, t);
      UnnamedType(back, t);
    }
  }

  lemma UnnamedType(groups: seq<Group>, t: string)
    ensures ValuesOf(Tally(groups), t) == TallyType(groups, t)
  {
    assert t !in TypeNames(groups) ==> ValueNames(groups, t) == {};
  }
}
