/** Which columns of an event the query of one Sigma value searches, and how. */
module SigmaColumns {
  import opened MplParser
  import opened MplReading
  import opened MplSearch
  import opened MplValues
  import opened SigmaConvert
  import opened SigmaMeaning

  // ----- The columns behind a Sigma field

  predicate Is(e: Event, column: string, v: string) {
    FieldOf(e, column) == v
  }

  predicate Holds(e: Event, column: string, v: string) {
    Contains(FieldOf(e, column), v)
  }

  // The data type is looked for in two columns, and a tombstone's backtrace has a name of its own.
  predicate HoldsDataType(e: Event, v: string) {
    || Holds(e, "data_type", v)
    || Holds(e, "event_type", v)
    || (Contains(v, "tombstone_backtrace")
        && Holds(e, "data_type", "tombstone") && (Holds(e, "data_type", "frame") || Holds(e, "data_type", "backtrace")))
  }

  // After contains.
  predicate FoundInside(e: Event, name: string, v: string) {
    match name
    case "process_name" => Holds(e, "process_name", v) || ('.' in v && Holds(e, "bundle_id", v))
    case "pkg" => Holds(e, "bundle_id", v)
    case "package_name" => Holds(e, "bundle_id", v)
    case "remote_ip" => Holds(e, "dest_ip", v)
    case "event_type" => HoldsDataType(e, v)
    case "data_type" => HoldsDataType(e, v)
    case _ => Holds(e, name, v)
  }

  // Without a modifier.
  predicate FoundWhole(e: Event, name: string, v: string) {
    match name
    case "destination_domain" => Is(e, "destination_domain", v) || Is(e, "dest_ip", v) || Holds(e, "message", v)
    case "file_path" => Holds(e, "file_path", v) || Holds(e, "message", v) || Holds(e, "action", v)
    case "pkg" => Is(e, "bundle_id", v)
    case "package_name" => Is(e, "bundle_id", v)
    case "remote_ip" => Is(e, "dest_ip", v)
    case "event_type" => HoldsDataType(e, v)
    case "data_type" => HoldsDataType(e, v)
    case _ => Is(e, name, v)
  }

  // ----- One condition of the query

  // The value stands for itself in a search.
  predicate IsLiteral(schema: Schema, v: string) {
    v != [] && !HasGlob(v) && v !in schema.columns
  }

  lemma StarredIsGlob(v: string)
    requires v != [] && !HasGlob(v)
    ensures HasGlob("*" + v + "*") && HasLiteral("*" + v + "*")
  {
    var p := "*" + v + "*";
    assert p[0] in p;
    assert v[0] in v && p[1] == v[0];
  }

  // A text without stars occurs between two stars exactly when it occurs in what they enclose.
  lemma InsideStars(v: string, t: string)
    requires t != [] && '*' !in t
    ensures Contains("*" + v + "*", t) <==> Contains(v, t)
  {
    var p := "*" + v + "*";
    if i :| 0 <= i <= |p| && OccursAt(p, t, i) {
      assert p[i..i + |t|][0] in t && p[i..i + |t|][|t| - 1] in t;
      assert p[i] == t[0] && p[i + |t| - 1] == t[|t| - 1];
      assert v[i - 1..i - 1 + |t|] == p[i..i + |t|];
      assert OccursAt(v, t, i - 1);
    }
    if i :| 0 <= i <= |v| && OccursAt(v, t, i) {
      assert p[i + 1..i + 1 + |t|] == v[i..i + |t|];
      assert OccursAt(p, t, i + 1);
    }
  }

  lemma LikeFinds(schema: Schema, e: Event, field: string, v: string)
    requires IsLiteral(schema, v)
    ensures FieldMatches(schema, e, field, Meant(Like, v)) <==>
      if field == "data_type" then HoldsDataType(e, v) else Holds(e, field, v)
  {
    StarredIsGlob(v);
    hide Contains, Glob, HasGlob, HasLiteral;
    if field == "data_type" {
      GlobOfInside(v, FieldOf(e, "data_type"));
      GlobOfInside(v, FieldOf(e, "event_type"));
      InsideStars(v, "tombstone_backtrace");
    } else {
      GlobOfInside(v, FieldOf(e, field));
    }
  }

  lemma EqualsFinds(schema: Schema, e: Event, field: string, v: string)
    requires IsLiteral(schema, v)
    ensures FieldMatches(schema, e, field, Meant(Equals, v)) <==>
      Is(e, field, v) || (field == "data_type" && Is(e, "event_type", v))
  {
  }

  predicate LeafFinds(e: Event, leaf: Leaf, v: string) {
    if leaf.op == Equals then Is(e, leaf.field, v)
    else if leaf.field == "data_type" then HoldsDataType(e, v)
    else Holds(e, leaf.field, v)
  }

  lemma LeafMatches(schema: Schema, e: Event, leaf: Leaf, v: string)
    requires IsLiteral(schema, v) && (leaf.op == Equals ==> leaf.field != "data_type")
    ensures Matches(schema, e, Field(leaf.field, Eq, Meant(leaf.op, v))) <==> LeafFinds(e, leaf, v)
  {
    hide FieldMatches, IsLiteral, Is, Holds, HoldsDataType, Meant;
    if leaf.op == Equals {
      EqualsFinds(schema, e, leaf.field, v);
    } else {
      LikeFinds(schema, e, leaf.field, v);
    }
  }

  lemma WholeDataTypeIsLike(field: string, contains: bool, v: string)
    ensures forall leaf | leaf in Leaves(field, contains, v) :: leaf.op == Equals ==> leaf.field != "data_type"
  {
  }

  lemma SingleMatches(schema: Schema, e: Event, field: string, contains: bool, v: string)
    requires IsLiteral(schema, v)
    ensures var leaves := Leaves(field, contains, v);
      Matches(schema, e, SingleExpr(field, contains, v)) <==>
        exists i :: 0 <= i < |leaves| && LeafFinds(e, leaves[i], v)
  {
    hide Leaves, Matches, Disjunction, LeafFinds, IsLiteral, Meant;
    var leaves := Leaves(field, contains, v);
    var xs := LeafExprs(leaves, v);
    WholeDataTypeIsLike(field, contains, v);
    forall i | 0 <= i < |leaves| ensures Matches(schema, e, xs[i]) <==> LeafFinds(e, leaves[i], v) {
      assert leaves[i] in leaves;
      LeafMatches(schema, e, leaves[i], v);
    }
    DisjunctionMatches(schema, e, xs);
  }

  lemma DotIsIn(v: string)
    ensures HasDot(v) <==> '.' in v
  {
  }

  // There are at most three leaves.
  lemma FoundInLeaves(schema: Schema, e: Event, field: string, contains: bool, v: string)
    requires IsLiteral(schema, v)
    ensures var leaves := Leaves(field, contains, v);
      && |leaves| <= 3
      && (Matches(schema, e, SingleExpr(field, contains, v)) <==>
            || LeafFinds(e, leaves[0], v)
            || (|leaves| > 1 && LeafFinds(e, leaves[1], v))
            || (|leaves| > 2 && LeafFinds(e, leaves[2], v)))
  {
    SingleMatches(schema, e, field, contains, v);
    assert |Leaves(field, contains, v)| <= 3;
    hide Leaves, Matches, SingleExpr, IsLiteral, LeafFinds;
  }

  lemma SearchedInside(schema: Schema, e: Event, name: string, v: string)
    requires IsLiteral(schema, v)
    ensures Matches(schema, e, SingleExpr(EventField(name), true, v)) <==> FoundInside(e, name, v)
  {
    FoundInLeaves(schema, e, EventField(name), true, v);
    DotIsIn(v);
    hide Matches, Is, Holds, HoldsDataType, IsLiteral, SingleExpr, HasDot;
  }

  lemma SearchedWhole(schema: Schema, e: Event, name: string, v: string)
    requires IsLiteral(schema, v)
    ensures Matches(schema, e, SingleExpr(EventField(name), false, v)) <==> FoundWhole(e, name, v)
  {
    FoundInLeaves(schema, e, EventField(name), false, v);
    hide Matches, Is, Holds, HoldsDataType, IsLiteral, SingleExpr, HasDot;
  }

  // Main result: the query of a literal value matches an event exactly when one of the columns that the Sigma field
  // stands for is the value, or holds it.
  lemma SearchedColumns(schema: Schema, e: Event, name: string, contains: bool, v: string)
    requires IsLiteral(schema, v)
    ensures Matches(schema, e, SingleExpr(EventField(name), contains, v)) <==>
      if contains then FoundInside(e, name, v) else FoundWhole(e, name, v)
  {
    hide *;
    if contains {
      SearchedInside(schema, e, name, v);
    } else {
      SearchedWhole(schema, e, name, v);
    }
  }
}
