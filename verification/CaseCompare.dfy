/** Case comparison: a three-way diff of two maps from entity types to counted values. */
module CaseCompare {
  import opened Orders
  import opened Sets

  const U64: nat := 0x1_0000_0000_0000_0000

  // Occurrence counts of values; types to values.
  type Values = map<string, nat>
  type TypeMap = map<string, Values>

  datatype Item = Item(value: string, countA: nat, countB: nat)

  datatype Section = Section(entityType: string, title: string, onlyA: seq<Item>, onlyB: seq<Item>, shared: seq<Item>)

  datatype Summary = Summary(shared: nat, onlyA: nat, onlyB: nat, sections: nat)

  function LabelOf(entityType: string): string {
    match entityType
    case "bundle" => "Installed packages"
    case "process" => "Running processes"
    case "ip" => "IP addresses"
    case "domain" => "Domains"
    case "host" => "Hosts / devices"
    case "user" => "Users"
    case "hash" => "File hashes"
    case "file" => "Files"
    case "url" => "URLs"
    case "email" => "Emails"
    case "bluetooth" => "Bluetooth devices"
    case "usb" => "USB devices"
    case "usb_port" => "USB ports"
    case "adb" => "ADB / debugging"
    case "ssid" => "Wi\U{2011}Fi networks"
    case "account" => "Accounts"
    case "vpn" => "VPN"
    case _ => "Other"
  }

  // The sections shown first.
  const SECTION_ORDER: seq<string> := [
    "usb", "usb_port", "adb", "bluetooth", "ssid", "account", "vpn", "bundle", "process",
    "ip", "domain", "host", "user", "hash", "file", "url", "email"
  ]

  // ----- The orders of the result

  function PlaceIn(names: seq<string>, t: string): nat {
    if names == [] || names[0] == t then 0 else 1 + PlaceIn(names[1..], t)
  }

  // The types of SECTION_ORDER in that order, then all others by name.
  predicate TypeBefore(s: string, t: string) {
    var i, j := PlaceIn(SECTION_ORDER, s), PlaceIn(SECTION_ORDER, t);
    i < j || (i == j && StringLess(s, t))
  }

  predicate CountsDescend(m: nat, n: nat, v: string, w: string) {
    m > n || (m == n && StringLess(v, w))
  }

  predicate ByCountA(x: Item, y: Item) {
    CountsDescend(x.countA, y.countA, x.value, y.value)
  }

  predicate ByCountB(x: Item, y: Item) {
    CountsDescend(x.countB, y.countB, x.value, y.value)
  }

  // u64 addition wraps in a release build.
  predicate ByTotal(x: Item, y: Item) {
    CountsDescend((x.countA + x.countB) % U64, (y.countA + y.countB) % U64, x.value, y.value)
  }

  lemma OrdersAsymmetric()
    ensures Asymmetric(TypeBefore) && Asymmetric(ByCountA) && Asymmetric(ByCountB) && Asymmetric(ByTotal)
  {
    hide StringLess, PlaceIn;
    forall s, t ensures !(StringLess(s, t) && StringLess(t, s)) {
      StringLessAsymmetric(s, t);
    }
  }

  lemma OrdersTransitive()
    ensures Transitive(StringLess) && Transitive(ByCountA) && Transitive(ByCountB) && Transitive(ByTotal)
  {
    hide StringLess;
    forall s, t, u | StringLess(s, t) && StringLess(t, u) ensures StringLess(s, u) {
      StringLessTransitive(s, t, u);
    }
  }

  // ----- What a comparison is

  function ValuesOf(m: TypeMap, t: string): Values {
    if t in m then m[t] else map[]
  }

  function Count(m: Values, v: string): nat {
    if v in m then m[v] else 0
  }

  function Items(values: set<string>, a: Values, b: Values): set<Item> {
    set v | v in values :: Item(v, Count(a, v), Count(b, v))
  }

  ghost predicate IsSection(s: Section, a: Values, b: Values) {
    && s.title == LabelOf(s.entityType)
    && IsListing(s.onlyA, Items(a.Keys - b.Keys, a, b), ByCountA)
    && IsListing(s.onlyB, Items(b.Keys - a.Keys, a, b), ByCountB)
    && IsListing(s.shared, Items(a.Keys * b.Keys, a, b), ByTotal)
  }

  function Types(sections: seq<Section>): (types: seq<string>)
    ensures |types| == |sections|
    ensures forall i | 0 <= i < |sections| :: types[i] == sections[i].entityType
  {
    seq(|sections|, i requires 0 <= i < |sections| => sections[i].entityType)
  }

  function NonEmptyTypes(a: TypeMap, b: TypeMap): set<string> {
    set t | t in a.Keys + b.Keys && (ValuesOf(a, t) != map[] || ValuesOf(b, t) != map[])
  }

  function Summarize(sections: seq<Section>): Summary {
    if sections == [] then Summary(0, 0, 0, 0)
    else
      var s, last := Summarize(sections[..|sections| - 1]), sections[|sections| - 1];
      Summary(s.shared + |last.shared|, s.onlyA + |last.onlyA|, s.onlyB + |last.onlyB|, s.sections + 1)
  }

  ghost predicate IsComparison(a: TypeMap, b: TypeMap, summary: Summary, sections: seq<Section>) {
    && IsListing(Types(sections), NonEmptyTypes(a, b), TypeBefore)
    && (forall i | 0 <= i < |sections| ::
          IsSection(sections[i], ValuesOf(a, sections[i].entityType), ValuesOf(b, sections[i].entityType)))
    && summary == Summarize(sections)
  }

  // The larger count first, and values of one count in the order of strings.
  ghost predicate Precedes(m: nat, v: string, n: nat, w: string) {
    m > n || (m == n && exists i :: DiffersAt(v, w, i))
  }

  // What one section says: the values of each list with their counts, and their order.
  ghost predicate ShowsBoth(s: Section, a: Values, b: Values) {
    && (forall x :: x in s.onlyA <==> x.value in a && x.value !in b && x.countA == a[x.value] && x.countB == 0)
    && (forall x :: x in s.onlyB <==> x.value in b && x.value !in a && x.countA == 0 && x.countB == b[x.value])
    && (forall x :: x in s.shared <==>
          x.value in a && x.value in b && x.countA == a[x.value] && x.countB == b[x.value])
    && (forall p, q | 0 <= p < q < |s.onlyA| ::
          Precedes(s.onlyA[p].countA, s.onlyA[p].value, s.onlyA[q].countA, s.onlyA[q].value))
    && (forall p, q | 0 <= p < q < |s.onlyB| ::
          Precedes(s.onlyB[p].countB, s.onlyB[p].value, s.onlyB[q].countB, s.onlyB[q].value))
    && (forall p, q | 0 <= p < q < |s.shared| ::
          Precedes((s.shared[p].countA + s.shared[p].countB) % U64, s.shared[p].value,
                   (s.shared[q].countA + s.shared[q].countB) % U64, s.shared[q].value))
  }

  lemma ListingHas(xs: seq<Item>, values: set<string>, a: Values, b: Values, less: (Item, Item) -> bool, x: Item)
    requires IsListing(xs, Items(values, a, b), less)
    ensures x in xs <==> x.value in values && x.countA == Count(a, x.value) && x.countB == Count(b, x.value)
  {
    assert x in xs <==> x in Elements(xs);
  }

  // Main result: a section shows both sides, whatever the entity type.
  lemma SectionShows(s: Section, a: Values, b: Values)
    requires IsSection(s, a, b)
    ensures ShowsBoth(s, a, b)
  {
    forall v, w ensures StringLess(v, w) <==> exists i :: DiffersAt(v, w, i) {
      StringLessExactly(v, w);
    }
    hide Items, StringLess, DiffersAt, LabelOf, Elements;
    forall x ensures
      && (x in s.onlyA <==> x.value in a && x.value !in b && x.countA == a[x.value] && x.countB == 0)
      && (x in s.onlyB <==> x.value in b && x.value !in a && x.countA == 0 && x.countB == b[x.value])
      && (x in s.shared <==> x.value in a && x.value in b && x.countA == a[x.value] && x.countB == b[x.value])
    {
      ListingHas(s.onlyA, a.Keys - b.Keys, a, b, ByCountA, x);
      ListingHas(s.onlyB, b.Keys - a.Keys, a, b, ByCountB, x);
      ListingHas(s.shared, a.Keys * b.Keys, a, b, ByTotal, x);
    }
  }

  // ----- Determinism

  lemma SectionUnique(s: Section, s': Section, a: Values, b: Values)
    requires IsSection(s, a, b) && IsSection(s', a, b) && s.entityType == s'.entityType
    ensures s == s'
  {
    hide LabelOf, Items, ByCountA, ByCountB, ByTotal, TypeBefore;
    OrdersAsymmetric();
    ListingUnique(s.onlyA, s'.onlyA, ByCountA);
    ListingUnique(s.onlyB, s'.onlyB, ByCountB);
    ListingUnique(s.shared, s'.shared, ByTotal);
  }

  // Main result: the inputs determine the comparison, lists and order included, so the order in which
  // the hash maps are iterated cannot show.
  lemma ComparisonUnique(
    a: TypeMap, b: TypeMap, summary: Summary, sections: seq<Section>, summary': Summary, sections': seq<Section>)
    requires IsComparison(a, b, summary, sections) && IsComparison(a, b, summary', sections')
    ensures summary == summary' && sections == sections'
  {
    hide IsSection, NonEmptyTypes, Summarize, TypeBefore, ByCountA, ByCountB, ByTotal;
    OrdersAsymmetric();
    ListingUnique(Types(sections), Types(sections'), TypeBefore);
    forall i | 0 <= i < |sections| ensures sections[i] == sections'[i] {
      assert Types(sections)[i] == Types(sections')[i];
      var t := sections[i].entityType;
      SectionUnique(sections[i], sections'[i], ValuesOf(a, t), ValuesOf(b, t));
    }
    assert sections == sections';
  }

  // ----- Mirror symmetry

  function MirrorItem(x: Item): Item {
    Item(x.value, x.countB, x.countA)
  }

  function MirrorItems(xs: seq<Item>): (r: seq<Item>)
    ensures |r| == |xs|
    ensures forall i | 0 <= i < |xs| :: r[i] == MirrorItem(xs[i])
  {
    seq(|xs|, i requires 0 <= i < |xs| => MirrorItem(xs[i]))
  }

  function Mirror(s: Section): Section {
    Section(s.entityType, s.title, MirrorItems(s.onlyB), MirrorItems(s.onlyA), MirrorItems(s.shared))
  }

  function MirrorAll(sections: seq<Section>): (r: seq<Section>)
    ensures |r| == |sections|
    ensures forall i | 0 <= i < |sections| :: r[i] == Mirror(sections[i])
  {
    seq(|sections|, i requires 0 <= i < |sections| => Mirror(sections[i]))
  }

  lemma MirrorElements(xs: seq<Item>, values: set<string>, a: Values, b: Values)
    requires Elements(xs) == Items(values, a, b)
    ensures Elements(MirrorItems(xs)) == Items(values, b, a)
  {
    forall x ensures x in Elements(MirrorItems(xs)) <==> x in Items(values, b, a) {
      if x in MirrorItems(xs) {
        var i :| 0 <= i < |xs| && MirrorItems(xs)[i] == x;
        assert xs[i] in Elements(xs);
      }
      if x in Items(values, b, a) {
        assert MirrorItem(x) in Items(values, a, b);
        assert MirrorItem(x) in Elements(xs);
        var i :| 0 <= i < |xs| && xs[i] == MirrorItem(x);
        assert MirrorItems(xs)[i] == x;
      }
    }
  }

  lemma MirrorSection(s: Section, a: Values, b: Values)
    requires IsSection(s, a, b)
    ensures IsSection(Mirror(s), b, a)
  {
    hide LabelOf, Items, CountsDescend;
    MirrorElements(s.onlyA, a.Keys - b.Keys, a, b);
    MirrorElements(s.onlyB, b.Keys - a.Keys, a, b);
    MirrorElements(s.shared, a.Keys * b.Keys, a, b);
    assert a.Keys * b.Keys == b.Keys * a.Keys;
  }

  lemma {:induction false} MirrorSummary(sections: seq<Section>)
    ensures var s := Summarize(sections);
      Summarize(MirrorAll(sections)) == Summary(s.shared, s.onlyB, s.onlyA, s.sections)
  {
    if sections != [] {
      var init := sections[..|sections| - 1];
      MirrorSummary(init);
      assert MirrorAll(sections)[..|sections| - 1] == MirrorAll(init);
    }
  }

  // Main result: swapping the inputs swaps a and b in the result and changes nothing else.
  lemma ComparisonMirrors(
    a: TypeMap, b: TypeMap, summary: Summary, sections: seq<Section>, summary': Summary, sections': seq<Section>)
    requires IsComparison(a, b, summary, sections) && IsComparison(b, a, summary', sections')
    ensures sections' == MirrorAll(sections)
    ensures summary' == Summary(summary.shared, summary.onlyB, summary.onlyA, summary.sections)
  {
    var mirrored := MirrorAll(sections);
    forall i | 0 <= i < |mirrored| ensures mirrored[i].entityType == sections[i].entityType {}
    hide IsSection, Summarize, TypeBefore, Mirror;
    assert Types(mirrored) == Types(sections);
    assert NonEmptyTypes(a, b) == NonEmptyTypes(b, a);
    hide NonEmptyTypes;
    forall i | 0 <= i < |mirrored|
      ensures IsSection(mirrored[i], ValuesOf(b, mirrored[i].entityType), ValuesOf(a, mirrored[i].entityType))
    {
      MirrorSection(sections[i], ValuesOf(a, sections[i].entityType), ValuesOf(b, sections[i].entityType));
    }
    MirrorSummary(sections);
    ComparisonUnique(b, a, summary', sections', Summarize(mirrored), mirrored);
  }

  // ----- Nothing is lost

  // The counts of a that a list of items holds.
  function CountsA(xs: seq<Item>): Values {
    if xs == [] then map[] else CountsA(xs[..|xs| - 1])[xs[|xs| - 1].value := xs[|xs| - 1].countA]
  }

  // The first input, read from the sections.
  function RebuildA(sections: seq<Section>): TypeMap {
    if sections == [] then map[]
    else
      var rest, last := RebuildA(sections[..|sections| - 1]), sections[|sections| - 1];
      var values := CountsA(last.onlyA + last.shared);
      if values == map[] then rest else rest[last.entityType := values]
  }

  function NonEmpty(m: TypeMap): TypeMap {
    map t | t in m && m[t] != map[] :: m[t]
  }

  predicate Agree(xs: seq<Item>, m: Values) {
    forall i | 0 <= i < |xs| :: xs[i].value in m && xs[i].countA == m[xs[i].value]
  }

  lemma {:induction false} CountsAgree(xs: seq<Item>, m: Values)
    requires Agree(xs, m)
    ensures forall v :: v in CountsA(xs) <==> exists i :: 0 <= i < |xs| && xs[i].value == v
    ensures forall v | v in CountsA(xs) :: v in m && CountsA(xs)[v] == m[v]
  {
    if xs != [] {
      var init, last := xs[..|xs| - 1], xs[|xs| - 1];
      CountsAgree(init, m);
      forall v ensures v in CountsA(xs) <==> exists i :: 0 <= i < |xs| && xs[i].value == v {
        if i :| 0 <= i < |init| && init[i].value == v {
          assert xs[i].value == v;
        }
        if i :| 0 <= i < |xs| && xs[i].value == v {
          assert i < |init| ==> init[i].value == v;
        }
      }
    }
  }

  lemma SectionRebuilds(s: Section, a: Values, b: Values)
    requires IsSection(s, a, b)
    ensures CountsA(s.onlyA + s.shared) == a
  {
    hide LabelOf, Ordered, CountsA;
    var xs := s.onlyA + s.shared;
    forall i | 0 <= i < |xs| ensures xs[i].value in a && xs[i].countA == a[xs[i].value] {
      assert xs[i] in Elements(s.onlyA) || xs[i] in Elements(s.shared);
    }
    CountsAgree(xs, a);
    forall v | v in a ensures v in CountsA(xs) {
      var item := Item(v, a[v], Count(b, v));
      assert v in a.Keys - b.Keys || v in a.Keys * b.Keys;
      assert item in Elements(s.onlyA) || item in Elements(s.shared);
      assert item in xs;
      var i :| 0 <= i < |xs| && xs[i] == item;
    }
  }

  ghost predicate SectionsOf(a: TypeMap, b: TypeMap, sections: seq<Section>) {
    && (forall i, j | 0 <= i < j < |sections| :: sections[i].entityType != sections[j].entityType)
    && (forall i | 0 <= i < |sections| ::
          IsSection(sections[i], ValuesOf(a, sections[i].entityType), ValuesOf(b, sections[i].entityType)))
  }

  lemma ComparisonSections(a: TypeMap, b: TypeMap, summary: Summary, sections: seq<Section>)
    requires IsComparison(a, b, summary, sections)
    ensures SectionsOf(a, b, sections)
  {
    hide TypeBefore, IsSection;
    OrdersAsymmetric();
    OrderedDistinct(Types(sections), TypeBefore);
    forall i, j | 0 <= i < j < |sections| ensures sections[i].entityType != sections[j].entityType {
      assert Types(sections)[i] != Types(sections)[j];
    }
  }

  lemma {:induction false} RebuildExactly(a: TypeMap, b: TypeMap, sections: seq<Section>)
    requires SectionsOf(a, b, sections)
    ensures forall t :: t in RebuildA(sections) <==> t in Types(sections) && ValuesOf(a, t) != map[]
    ensures forall t | t in RebuildA(sections) :: RebuildA(sections)[t] == ValuesOf(a, t)
  {
    hide IsSection;
    if sections != [] {
      var n := |sections| - 1;
      var init, last := sections[..n], sections[n];
      RebuildExactly(a, b, init);
      SectionRebuilds(last, ValuesOf(a, last.entityType), ValuesOf(b, last.entityType));
      assert Types(sections) == Types(init) + [last.entityType];
    }
  }

  // Main result: the first input, but for its empty types, can be read back from the sections.
  lemma ComparisonRebuildsA(a: TypeMap, b: TypeMap, summary: Summary, sections: seq<Section>)
    requires IsComparison(a, b, summary, sections)
    ensures RebuildA(sections) == NonEmpty(a)
  {
    ComparisonSections(a, b, summary, sections);
    RebuildExactly(a, b, sections);
    hide IsSection, RebuildA;
    forall t ensures t in RebuildA(sections) <==> t in NonEmpty(a) {
      assert t in Types(sections) <==> t in Elements(Types(sections));
    }
  }

  // And so can the second, from the mirrored sections.
  lemma ComparisonRebuildsB(a: TypeMap, b: TypeMap, summary: Summary, sections: seq<Section>)
    requires IsComparison(a, b, summary, sections)
    ensures RebuildA(MirrorAll(sections)) == NonEmpty(b)
  {
    ComparisonSections(a, b, summary, sections);
    var mirrored := MirrorAll(sections);
    hide IsSection, RebuildA;
    forall i | 0 <= i < |mirrored|
      ensures IsSection(mirrored[i], ValuesOf(b, mirrored[i].entityType), ValuesOf(a, mirrored[i].entityType))
    {
      MirrorSection(sections[i], ValuesOf(a, sections[i].entityType), ValuesOf(b, sections[i].entityType));
    }
    RebuildExactly(b, a, mirrored);
    assert Types(mirrored) == Types(sections);
    forall t ensures t in RebuildA(mirrored) <==> t in NonEmpty(b) {
      assert t in Types(sections) <==> t in Elements(Types(sections));
    }
  }

  // The (type, value) entries of a map.
  function Entries(m: TypeMap): set<(string, string)> {
    set t, v | t in m && v in m[t] :: (t, v)
  }

  function EntriesOf(m: TypeMap, types: seq<string>): set<(string, string)> {
    set t, v | t in m && t in types && v in m[t] :: (t, v)
  }

  function Keyed(t: string, values: set<string>): set<(string, string)> {
    set v | v in values :: (t, v)
  }

  lemma {:induction false} KeyedSize(t: string, values: set<string>)
    ensures |Keyed(t, values)| == |values|
  {
    if values != {} {
      var v := Element(values);
      KeyedSize(t, values - {v});
      assert Keyed(t, values) == Keyed(t, values - {v}) + {(t, v)};
    }
  }

  lemma {:induction false} ItemsSize(values: set<string>, a: Values, b: Values)
    ensures |Items(values, a, b)| == |values|
  {
    if values != {} {
      var v := Element(values);
      ItemsSize(values - {v}, a, b);
      assert Items(values, a, b) == Items(values - {v}, a, b) + {Item(v, Count(a, v), Count(b, v))};
    }
  }

  lemma SectionSizes(s: Section, a: Values, b: Values)
    requires IsSection(s, a, b)
    ensures |s.onlyA| + |s.shared| == |a.Keys|
  {
    hide LabelOf, ByCountA, ByCountB, ByTotal, TypeBefore;
    OrdersAsymmetric();
    OrderedDistinct(s.onlyA, ByCountA);
    OrderedDistinct(s.shared, ByTotal);
    ItemsSize(a.Keys - b.Keys, a, b);
    ItemsSize(a.Keys * b.Keys, a, b);
    assert a.Keys == (a.Keys - b.Keys) + (a.Keys * b.Keys);
  }

  lemma EntriesStep(m: TypeMap, types: seq<string>, t: string)
    requires t !in types
    ensures |EntriesOf(m, types + [t])| == |EntriesOf(m, types)| + |ValuesOf(m, t).Keys|
  {
    var added := Keyed(t, ValuesOf(m, t).Keys);
    KeyedSize(t, ValuesOf(m, t).Keys);
    assert EntriesOf(m, types + [t]) == EntriesOf(m, types) + added;
    assert EntriesOf(m, types) !! added;
  }

  lemma {:induction false} SummaryCounts(a: TypeMap, b: TypeMap, sections: seq<Section>)
    requires SectionsOf(a, b, sections)
    ensures Summarize(sections).onlyA + Summarize(sections).shared == |EntriesOf(a, Types(sections))|
    ensures Summarize(sections).sections == |sections|
  {
    hide IsSection;
    if sections == [] {
      assert EntriesOf(a, []) == {};
    } else {
      var n := |sections| - 1;
      var init, t := sections[..n], sections[n].entityType;
      SummaryCounts(a, b, init);
      SectionSizes(sections[n], ValuesOf(a, t), ValuesOf(b, t));
      assert Types(sections) == Types(init) + [t] && t !in Types(init);
      EntriesStep(a, Types(init), t);
    }
  }

  // Main result: the summary adds up to the number of values in each input.
  lemma SummaryAddsUp(a: TypeMap, b: TypeMap, summary: Summary, sections: seq<Section>)
    requires IsComparison(a, b, summary, sections)
    ensures summary.onlyA + summary.shared == |Entries(a)|
    ensures summary.onlyB + summary.shared == |Entries(b)|
    ensures summary.sections == |sections| == |NonEmptyTypes(a, b)|
  {
    hide IsSection, Summarize;
    ComparisonSections(a, b, summary, sections);
    SummaryCounts(a, b, sections);
    assert EntriesOf(a, Types(sections)) == Entries(a) by { AllEntries(a, b, a, Types(sections)); }
    var mirrored := MirrorAll(sections);
    forall i | 0 <= i < |mirrored|
      ensures IsSection(mirrored[i], ValuesOf(b, mirrored[i].entityType), ValuesOf(a, mirrored[i].entityType))
    {
      MirrorSection(sections[i], ValuesOf(a, sections[i].entityType), ValuesOf(b, sections[i].entityType));
    }
    SummaryCounts(b, a, mirrored);
    MirrorSummary(sections);
    assert Types(mirrored) == Types(sections);
    assert EntriesOf(b, Types(sections)) == Entries(b) by { AllEntries(a, b, b, Types(sections)); }
    OrdersAsymmetric();
    OrderedDistinct(Types(sections), TypeBefore);
  }

  lemma AllEntries(a: TypeMap, b: TypeMap, m: TypeMap, types: seq<string>)
    requires (m == a || m == b) && Elements(types) == NonEmptyTypes(a, b)
    ensures EntriesOf(m, types) == Entries(m)
  {
    forall t, v | t in m && v in m[t] ensures t in types {
      assert t in Elements(types);
    }
  }

  // ----- The order of the types

  predicate Distinct(names: seq<string>) {
    forall i, j | 0 <= i < j < |names| :: names[i] != names[j]
  }

  lemma {:induction false} PlaceInFacts(names: seq<string>, t: string)
    requires Distinct(names)
    ensures PlaceIn(names, t) <= |names|
    ensures forall i | 0 <= i < |names| :: names[i] == t <==> PlaceIn(names, t) == i
  {
    if names != [] && names[0] != t {
      PlaceInFacts(names[1..], t);
      forall i | 0 <= i < |names| ensures names[i] == t <==> PlaceIn(names, t) == i {
        assert i > 0 ==> names[i] == names[1..][i - 1];
      }
    }
  }

  lemma SectionOrderDistinct()
    ensures Distinct(SECTION_ORDER)
  {
  }

  // The types of `all` that stand before place i.
  function PlacedBefore(all: set<string>, i: nat): set<string> {
    set t | t in all && PlaceIn(SECTION_ORDER, t) < i
  }

  lemma PlacedStep(all: set<string>, i: nat, ordered: seq<string>)
    requires i < |SECTION_ORDER| && IsListing(ordered, PlacedBefore(all, i), TypeBefore)
    ensures var t := SECTION_ORDER[i];
      IsListing(if t in all then ordered + [t] else ordered, PlacedBefore(all, i + 1), TypeBefore)
    ensures PlacedBefore(all, i + 1) == PlacedBefore(all, i) + (if SECTION_ORDER[i] in all then {SECTION_ORDER[i]} else {})
  {
    SectionOrderDistinct();
    hide StringLess, PlaceIn;
    var t := SECTION_ORDER[i];
    forall s ensures PlaceIn(SECTION_ORDER, s) == i <==> s == t {
      PlaceInFacts(SECTION_ORDER, s);
    }
    if t in all {
      assert Elements(ordered + [t]) == Elements(ordered) + {t};
      assert forall p | 0 <= p < |ordered| :: ordered[p] in Elements(ordered);
    }
  }

  lemma RestListed(all: set<string>, ordered: seq<string>, rest: seq<string>)
    requires IsListing(ordered, PlacedBefore(all, |SECTION_ORDER|), TypeBefore)
    requires IsListing(rest, all - PlacedBefore(all, |SECTION_ORDER|), StringLess)
    ensures IsListing(ordered + rest, all, TypeBefore)
  {
    SectionOrderDistinct();
    hide StringLess, PlaceIn;
    forall s ensures PlaceIn(SECTION_ORDER, s) <= |SECTION_ORDER| {
      PlaceInFacts(SECTION_ORDER, s);
    }
    assert Elements(ordered + rest) == Elements(ordered) + Elements(rest);
    assert forall p | 0 <= p < |ordered| :: ordered[p] in Elements(ordered);
    assert forall p | 0 <= p < |rest| :: rest[p] in Elements(rest);
  }

  // HashSet::into_iter().collect(), in no particular order.
  method Collect(s: set<string>) returns (xs: seq<string>)
    ensures Elements(xs) == s
    ensures forall p, q | 0 <= p < q < |xs| :: xs[p] != xs[q]
  {
    var todo := s;
    xs := [];
    while todo != {}
      invariant todo <= s && Elements(xs) == s - todo
      invariant forall p, q | 0 <= p < q < |xs| :: xs[p] != xs[q]
      decreases |todo|
    {
      var x :| x in todo;
      assert x !in Elements(xs);
      assert Elements(xs + [x]) == Elements(xs) + {x};
      todo, xs := todo - {x}, xs + [x];
    }
  }

  lemma NothingPlaced(all: set<string>)
    ensures PlacedBefore(all, 0) == {} && IsListing([], {}, TypeBefore)
  {
  }

  method OrderTypes(all: set<string>) returns (ordered: seq<string>)
    ensures IsListing(ordered, all, TypeBefore)
  {
    hide *;
    var types := all;
    ordered := [];
    NothingPlaced(all);
    for i := 0 to |SECTION_ORDER|
      invariant IsListing(ordered, PlacedBefore(all, i), TypeBefore)
      invariant types == all - PlacedBefore(all, i) && PlacedBefore(all, i) <= all
    {
      PlacedStep(all, i, ordered);
      NotPlaced(all, i);
      if SECTION_ORDER[i] in types {
        types := types - {SECTION_ORDER[i]};
        ordered := ordered + [SECTION_ORDER[i]];
      }
    }
    var rest := Collect(types);
    OrdersTransitive();
    StringsTotal(types);
    SortByListing(rest, StringLess);
    rest := SortBy(rest, StringLess);
    RestListed(all, ordered, rest);
    ordered := ordered + rest;
  }

  lemma NotPlaced(all: set<string>, i: nat)
    requires i < |SECTION_ORDER|
    ensures SECTION_ORDER[i] !in PlacedBefore(all, i)
  {
    SectionOrderDistinct();
    PlaceInFacts(SECTION_ORDER, SECTION_ORDER[i]);
  }

  lemma StringsTotal(s: set<string>)
    ensures TotalOn(s, StringLess)
  {
    hide StringLess;
    forall x, y | x in s && y in s && x != y ensures StringLess(x, y) || StringLess(y, x) {
      StringLessTotal(x, y);
    }
  }

  // ----- One type

  // The items collected so far, in no particular order.
  ghost predicate Collected(xs: seq<Item>, values: set<string>, a: Values, b: Values) {
    Elements(xs) == Items(values, a, b) && forall p, q | 0 <= p < q < |xs| :: xs[p] != xs[q]
  }

  lemma CollectedStep(xs: seq<Item>, values: set<string>, a: Values, b: Values, v: string)
    requires Collected(xs, values, a, b) && v !in values
    ensures Collected(xs + [Item(v, Count(a, v), Count(b, v))], values + {v}, a, b)
  {
    var x := Item(v, Count(a, v), Count(b, v));
    assert Items(values + {v}, a, b) == Items(values, a, b) + {x};
    assert Elements(xs + [x]) == Elements(xs) + {x};
    assert x !in Elements(xs);
  }

  lemma ItemsTotal(values: set<string>, a: Values, b: Values)
    ensures TotalOn(Items(values, a, b), ByCountA) && TotalOn(Items(values, a, b), ByCountB)
    ensures TotalOn(Items(values, a, b), ByTotal)
  {
    hide StringLess;
    forall x, y | x in Items(values, a, b) && y in Items(values, a, b) && x != y
      ensures StringLess(x.value, y.value) || StringLess(y.value, x.value)
    {
      StringLessTotal(x.value, y.value);
    }
  }

  lemma SortCollected(xs: seq<Item>, values: set<string>, a: Values, b: Values)
    requires Collected(xs, values, a, b)
    ensures IsListing(SortBy(xs, ByCountA), Items(values, a, b), ByCountA)
    ensures IsListing(SortBy(xs, ByCountB), Items(values, a, b), ByCountB)
    ensures IsListing(SortBy(xs, ByTotal), Items(values, a, b), ByTotal)
  {
    hide ByCountA, ByCountB, ByTotal, Items, StringLess;
    ItemsTotal(values, a, b);
    OrdersTransitive();
    SortByListing(xs, ByCountA);
    SortByListing(xs, ByCountB);
    SortByListing(xs, ByTotal);
  }

  lemma NothingCollected(a: Values, b: Values)
    ensures Collected([], {}, a, b)
  {
  }

  lemma CountIs(m: Values, v: string)
    ensures Count(m, v) == if v in m then m[v] else 0
  {
  }

  method CollectOnlyA(a: Values, b: Values) returns (onlyA: seq<Item>)
    ensures Collected(onlyA, a.Keys - b.Keys, a, b)
  {
    hide *;
    NothingCollected(a, b);
    var keysA, keysB := a.Keys, b.Keys;
    onlyA := [];
    var todo := keysA;
    assert keysA - keysA - keysB == {} && keysA - {} - keysB == keysA - keysB;
    while todo != {}
      invariant todo <= keysA && Collected(onlyA, keysA - todo - keysB, a, b)
      decreases |todo|
    {
      var key :| key in todo;
      CollectedNext(keysA, todo, keysB, key);
      todo := todo - {key};
      if key in keysB {
        continue;
      }
      CountIs(a, key);
      CountIs(b, key);
      CollectedStep(onlyA, keysA - (todo + {key}) - keysB, a, b, key);
      onlyA := onlyA + [Item(key, a[key], 0)];
    }
  }

  method CollectOnlyB(a: Values, b: Values) returns (onlyB: seq<Item>)
    ensures Collected(onlyB, b.Keys - a.Keys, a, b)
  {
    hide *;
    NothingCollected(a, b);
    var keysA, keysB := a.Keys, b.Keys;
    onlyB := [];
    var todo := keysB;
    assert keysB - keysB - keysA == {} && keysB - {} - keysA == keysB - keysA;
    while todo != {}
      invariant todo <= keysB && Collected(onlyB, keysB - todo - keysA, a, b)
      decreases |todo|
    {
      var key :| key in todo;
      CollectedNext(keysB, todo, keysA, key);
      todo := todo - {key};
      if key in keysA {
        continue;
      }
      CountIs(a, key);
      CountIs(b, key);
      CollectedStep(onlyB, keysB - (todo + {key}) - keysA, a, b, key);
      onlyB := onlyB + [Item(key, 0, b[key])];
    }
  }

  method CollectShared(a: Values, b: Values) returns (shared: seq<Item>)
    ensures Collected(shared, a.Keys * b.Keys, a, b)
  {
    hide *;
    NothingCollected(a, b);
    var keys := a.Keys * b.Keys;
    shared := [];
    var todo := keys;
    assert keys - keys == {} && keys - {} == keys;
    while todo != {}
      invariant todo <= keys && Collected(shared, keys - todo, a, b)
      decreases |todo|
    {
      var key :| key in todo;
      CollectedNext(keys, todo, {}, key);
      CountIs(a, key);
      CountIs(b, key);
      CollectedStep(shared, keys - todo, a, b, key);
      todo := todo - {key};
      shared := shared + [Item(key, a[key], b[key])];
    }
  }

  lemma ListsMakeSection(s: Section, a: Values, b: Values)
    requires s.title == LabelOf(s.entityType)
    requires IsListing(s.onlyA, Items(a.Keys - b.Keys, a, b), ByCountA)
    requires IsListing(s.onlyB, Items(b.Keys - a.Keys, a, b), ByCountB)
    requires IsListing(s.shared, Items(a.Keys * b.Keys, a, b), ByTotal)
    ensures IsSection(s, a, b)
  {
  }

  method CompareType(entityType: string, a: Values, b: Values) returns (s: Section)
    ensures IsSection(s, a, b) && s.entityType == entityType
    ensures ShowsBoth(s, a, b)
  {
    hide *;
    var onlyA := CollectOnlyA(a, b);
    var onlyB := CollectOnlyB(a, b);
    var shared := CollectShared(a, b);
    SortCollected(onlyA, a.Keys - b.Keys, a, b);
    SortCollected(onlyB, b.Keys - a.Keys, a, b);
    SortCollected(shared, a.Keys * b.Keys, a, b);
    s := Section(entityType, LabelOf(entityType),
                 SortBy(onlyA, ByCountA), SortBy(onlyB, ByCountB), SortBy(shared, ByTotal));
    ListsMakeSection(s, a, b);
    SectionShows(s, a, b);
  }

  lemma CollectedNext(keys: set<string>, todo: set<string>, other: set<string>, key: string)
    requires key in todo && todo <= keys
    ensures keys - (todo - {key}) - other == keys - todo - other + (if key in other then {} else {key})
    ensures keys - (todo - {key}) == keys - todo + {key}
    ensures todo - {key} + {key} == todo
  {
  }

  // ----- All types

  lemma EmptyListing(xs: seq<Item>, values: set<string>, a: Values, b: Values)
    requires Elements(xs) == Items(values, a, b)
    ensures xs == [] <==> values == {}
  {
    hide Items;
    EmptyElements(xs);
    ItemsSize(values, a, b);
  }

  lemma NoKeys(a: Values, b: Values)
    ensures a.Keys - b.Keys == {} && b.Keys - a.Keys == {} && a.Keys * b.Keys == {} <==> a == map[] && b == map[]
  {
    assert a.Keys == (a.Keys - b.Keys) + a.Keys * b.Keys;
    assert b.Keys == (b.Keys - a.Keys) + a.Keys * b.Keys;
    assert a == map[] <==> a.Keys == {};
    assert b == map[] <==> b.Keys == {};
  }

  predicate IsEmpty(s: Section) {
    s.onlyA == [] && s.onlyB == [] && s.shared == []
  }

  lemma EmptySection(s: Section, a: Values, b: Values)
    requires IsSection(s, a, b)
    ensures IsEmpty(s) <==> a == map[] && b == map[]
  {
    hide LabelOf, Ordered, Items, Elements;
    EmptyListing(s.onlyA, a.Keys - b.Keys, a, b);
    EmptyListing(s.onlyB, b.Keys - a.Keys, a, b);
    EmptyListing(s.shared, a.Keys * b.Keys, a, b);
    NoKeys(a, b);
  }

  // The sections of the types seen so far.
  ghost predicate Compared(a: TypeMap, b: TypeMap, types: seq<string>, sections: seq<Section>) {
    && IsListing(Types(sections), SeenTypes(a, b, types), TypeBefore)
    && (forall i | 0 <= i < |sections| ::
          IsSection(sections[i], ValuesOf(a, sections[i].entityType), ValuesOf(b, sections[i].entityType)))
  }

  lemma ListingExtends(types: seq<string>, listed: set<string>, t: string)
    requires IsListing(types, listed, TypeBefore) && forall s | s in listed :: TypeBefore(s, t)
    ensures IsListing(types + [t], listed + {t}, TypeBefore)
  {
    hide TypeBefore;
    assert Elements(types + [t]) == Elements(types) + {t};
    forall p | 0 <= p < |types| ensures TypeBefore(types[p], t) {
      assert types[p] in Elements(types);
    }
  }

  function SeenTypes(a: TypeMap, b: TypeMap, types: seq<string>): set<string> {
    NonEmptyTypes(a, b) * Elements(types)
  }

  lemma SeenStep(a: TypeMap, b: TypeMap, types: seq<string>, i: nat)
    requires i < |types| && types[i] in a.Keys + b.Keys
    ensures var t := types[i];
      SeenTypes(a, b, types[..i + 1]) == SeenTypes(a, b, types[..i])
        + (if ValuesOf(a, t) == map[] && ValuesOf(b, t) == map[] then {} else {t})
  {
    assert types[..i + 1] == types[..i] + [types[i]];
    assert Elements(types[..i + 1]) == Elements(types[..i]) + {types[i]};
  }

  lemma SeenAreBefore(a: TypeMap, b: TypeMap, types: seq<string>, i: nat)
    requires i < |types| && IsListing(types, a.Keys + b.Keys, TypeBefore)
    ensures types[i] in a.Keys + b.Keys
    ensures forall x | x in SeenTypes(a, b, types[..i]) :: TypeBefore(x, types[i])
  {
    hide TypeBefore, NonEmptyTypes;
    assert types[i] in Elements(types);
    forall x | x in SeenTypes(a, b, types[..i]) ensures TypeBefore(x, types[i]) {
      var p :| 0 <= p < i && types[p] == x;
    }
  }

  lemma ComparedStep(a: TypeMap, b: TypeMap, types: seq<string>, i: nat, sections: seq<Section>, s: Section)
    requires i < |types| && IsListing(types, a.Keys + b.Keys, TypeBefore) && Compared(a, b, types[..i], sections)
    requires IsSection(s, ValuesOf(a, types[i]), ValuesOf(b, types[i])) && s.entityType == types[i]
    ensures Compared(a, b, types[..i + 1], if IsEmpty(s) then sections else sections + [s])
  {
    hide IsSection, TypeBefore, IsEmpty, SeenTypes, Elements, NonEmptyTypes, ValuesOf, IsListing;
    var t := types[i];
    EmptySection(s, ValuesOf(a, t), ValuesOf(b, t));
    SeenAreBefore(a, b, types, i);
    SeenStep(a, b, types, i);
    if !IsEmpty(s) {
      assert Types(sections + [s]) == Types(sections) + [t];
      ListingExtends(Types(sections), SeenTypes(a, b, types[..i]), t);
    } else {
      assert SeenTypes(a, b, types[..i]) + {} == SeenTypes(a, b, types[..i]);
    }
  }

  lemma EmptyCounts(s: Section)
    ensures IsEmpty(s) ==> |s.onlyA| == 0 && |s.onlyB| == 0 && |s.shared| == 0
  {
  }

  lemma SummarizeStep(sections: seq<Section>, s: Section)
    ensures var sum := Summarize(sections);
      Summarize(sections + [s])
        == Summary(sum.shared + |s.shared|, sum.onlyA + |s.onlyA|, sum.onlyB + |s.onlyB|, sum.sections + 1)
  {
    assert (sections + [s])[..|sections|] == sections;
  }

  lemma {:induction false} SummarizeLength(sections: seq<Section>)
    ensures Summarize(sections).sections == |sections|
  {
    if sections != [] {
      SummarizeLength(sections[..|sections| - 1]);
    }
  }

  lemma NothingCompared(a: TypeMap, b: TypeMap)
    ensures Compared(a, b, [], []) && Summarize([]) == Summary(0, 0, 0, 0)
  {
  }

  lemma AllCompared(a: TypeMap, b: TypeMap, types: seq<string>, sections: seq<Section>)
    requires Elements(types) == a.Keys + b.Keys && Compared(a, b, types, sections)
    ensures IsComparison(a, b, Summarize(sections), sections)
  {
    hide IsSection, TypeBefore, Ordered;
    assert SeenTypes(a, b, types) == NonEmptyTypes(a, b);
  }

  method CompareValueMaps(a: TypeMap, b: TypeMap) returns (summary: Summary, sections: seq<Section>)
    ensures IsComparison(a, b, summary, sections)
  {
    hide *;
    var ordered := OrderTypes(a.Keys + b.Keys);
    ListingElements(ordered, a.Keys + b.Keys, TypeBefore);
    sections := [];
    var onlyATotal: nat, onlyBTotal: nat, sharedTotal: nat := 0, 0, 0;
    NothingCompared(a, b);
    assert ordered[..0] == [];
    for i := 0 to |ordered|
      invariant Compared(a, b, ordered[..i], sections)
      invariant Summarize(sections) == Summary(sharedTotal, onlyATotal, onlyBTotal, |sections|)
    {
      var s := CompareType(ordered[i], ValuesOf(a, ordered[i]), ValuesOf(b, ordered[i]));
      ComparedStep(a, b, ordered, i, sections, s);
      SummarizeStep(sections, s);
      EmptyCounts(s);
      onlyATotal := onlyATotal + |s.onlyA|;
      onlyBTotal := onlyBTotal + |s.onlyB|;
      sharedTotal := sharedTotal + |s.shared|;
      if IsEmpty(s) {
        continue;
      }
      sections := sections + [s];
    }
    assert ordered[..|ordered|] == ordered;
    AllCompared(a, b, ordered, sections);
    summary := Summary(sharedTotal, onlyATotal, onlyBTotal, |sections|);
  }
}
