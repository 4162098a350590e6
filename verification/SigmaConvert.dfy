/** Converting Sigma rules to mPL query texts. */
module SigmaConvert {
  import opened MplQueries
  import opened MplReading
  import opened MplValues
  import opened Text
  import opened Wrappers

  // ----- Rules, as they are read from a file

  // A list keeps its strings; None is an item that is no string.
  datatype FieldValue = Text(s: string) | List(items: seq<Option<string>>) | Unsupported

  datatype Entry = Entry(key: string, value: FieldValue)

  type Selection = seq<Entry>

  // ----- Field names

  // str::split_once, keeping what is before the text; None when it does not occur.
  function BeforeText(s: string, t: string): Option<string> {
    if StartsWith(s, t) then Some([])
    else if s == [] || BeforeText(s[1..], t).None? then None
    else Some([s[0]] + BeforeText(s[1..], t).value)
  }

  function EventField(raw: string): string {
    match raw
    case "pkg" => "bundle_id"
    case "package_name" => "bundle_id"
    case "remote_ip" => "dest_ip"
    case "event_type" => "data_type"
    case _ => raw
  }

  function ParseFieldKey(key: string): (string, bool) {
    var before := BeforeText(key, "|contains");
    if before.Some? then (EventField(before.value), true) else (EventField(key), false)
  }

  // ----- One field

  predicate HasDot(s: string) {
    exists i :: 0 <= i < |s| && s[i] == '.'
  }

  datatype Leaf = Leaf(op: Op, field: string)

  // The conditions printed for one value, the one on the field itself first.
  function Leaves(field: string, contains: bool, value: string): (r: seq<Leaf>)
    ensures 0 < |r| && r[0].field == field
  {
    if contains then
      if field == "process_name" && HasDot(value) then [Leaf(Like, "process_name"), Leaf(Like, "bundle_id")]
      else [Leaf(Like, field)]
    else if field == "data_type" then [Leaf(Like, "data_type")]
    else if field == "destination_domain" then
      [Leaf(Equals, "destination_domain"), Leaf(Equals, "dest_ip"), Leaf(Like, "message")]
    else if field == "file_path" then
      [Leaf(Like, "file_path"), Leaf(Like, "message"), Leaf(Like, "action")]
    else [Leaf(Equals, field)]
  }

  function LeafTexts(leaves: seq<Leaf>, value: string): (r: seq<string>)
    ensures |r| == |leaves|
    ensures forall i | 0 <= i < |leaves| :: r[i] == LeafText(leaves[i].op, leaves[i].field, value)
  {
    seq(|leaves|, i requires 0 <= i < |leaves| => LeafText(leaves[i].op, leaves[i].field, value))
  }

  function AnyOf(texts: seq<string>): string {
    "(" + JoinText(texts, " OR ") + ")"
  }

  function SingleText(field: string, contains: bool, value: string): string {
    var texts := LeafTexts(Leaves(field, contains, value), value);
    if |texts| == 1 then texts[0] else AnyOf(texts)
  }

  // The strings of a list.
  function Strings(items: seq<Option<string>>): (r: seq<string>)
    ensures forall v | v in r :: Some(v) in items
    ensures forall v | Some(v) in items :: v in r
  {
    if items == [] then []
    else (if items[0].Some? then [items[0].value] else []) + Strings(items[1..])
  }

  function Singles(field: string, contains: bool, values: seq<string>): (r: seq<string>)
    ensures |r| == |values|
    ensures forall i | 0 <= i < |values| :: r[i] == SingleText(field, contains, values[i])
  {
    seq(|values|, i requires 0 <= i < |values| => SingleText(field, contains, values[i]))
  }

  function ValuesText(field: string, contains: bool, value: FieldValue): Option<string> {
    match value
    case Text(s) => Some(SingleText(field, contains, s))
    case List(items) =>
      var exprs := Singles(field, contains, Strings(items));
      if exprs == [] then None else Some(AnyOf(exprs))
    case Unsupported => None
  }

  function FieldText(f: Entry): Option<string> {
    var (field, contains) := ParseFieldKey(f.key);
    ValuesText(field, contains, f.value)
  }

  // ----- One selection

  function FieldParts(sel: Selection): Option<seq<string>> {
    if sel == [] then Some([])
    else
      var init, last := FieldParts(sel[..|sel| - 1]), FieldText(sel[|sel| - 1]);
      if init.None? || last.None? then None else Some(init.value + [last.value])
  }

  function SelectionText(sel: Selection): Option<string> {
    if FieldParts(sel).None? then None else Some(JoinText(FieldParts(sel).value, " AND "))
  }

  lemma {:induction false} PartsPrefix(sel: Selection, i: nat)
    requires i <= |sel| && FieldParts(sel[..i]).None?
    ensures FieldParts(sel).None?
    decreases |sel|
  {
    if i < |sel| {
      var init := sel[..|sel| - 1];
      assert init[..i] == sel[..i];
      PartsPrefix(init, i);
    } else {
      assert sel[..i] == sel;
    }
  }

  method SelectionToMpl(sel: Selection) returns (text: Option<string>)
    ensures text == SelectionText(sel)
  {
    var parts: seq<string> := [];
    for i := 0 to |sel|
      invariant FieldParts(sel[..i]) == Some(parts)
    {
      var part := FieldText(sel[i]);
      assert sel[..i + 1][..i] == sel[..i];
      if part.None? {
        PartsPrefix(sel, i + 1);
        return None;
      }
      parts := parts + [part.value];
    }
    assert sel[..|sel|] == sel;
    text := Some(JoinText(parts, " AND "));
  }

  // ----- The detection section of a rule

  // A member of the section; None when its value is no object.
  datatype Member = Member(key: string, selection: Option<Selection>)

  predicate IsSelection(m: Member) {
    m.key != "condition" && m.selection.Some?
  }

  // The selections among the first n members, converted, by name.
  ghost predicate AreConverted(members: seq<Member>, n: nat, selections: map<string, string>)
    requires n <= |members|
  {
    && (forall i | 0 <= i < n && IsSelection(members[i]) ::
          && members[i].key in selections
          && SelectionText(members[i].selection.value) == Some(selections[members[i].key]))
    && (forall name | name in selections :: exists i :: 0 <= i < n && IsSelection(members[i]) && members[i].key == name)
  }

  method ConvertSelections(members: seq<Member>) returns (selections: Option<map<string, string>>)
    requires forall i, j | 0 <= i < j < |members| :: members[i].key != members[j].key
    ensures selections.None? <==>
      exists i :: 0 <= i < |members| && IsSelection(members[i]) && SelectionText(members[i].selection.value).None?
    ensures selections.Some? ==> AreConverted(members, |members|, selections.value)
  {
    hide SelectionText;
    var done: map<string, string> := map[];
    for i := 0 to |members|
      invariant AreConverted(members, i, done)
      invariant forall k | 0 <= k < i && IsSelection(members[k]) :: SelectionText(members[k].selection.value).Some?
    {
      if IsSelection(members[i]) {
        var text := SelectionToMpl(members[i].selection.value);
        if text.None? {
          return None;
        }
        done := done[members[i].key := text.value];
      }
    }
    selections := Some(done);
  }

  // ----- The condition

  function SplitText(s: string, sep: string): (r: seq<string>)
    requires sep != []
    ensures r != []
  {
    if StartsWith(s, sep) then [[]] + SplitText(s[|sep|..], sep)
    else if s == [] then [[]]
    else
      var rest := SplitText(s[1..], sep);
      [[s[0]] + rest[0]] + rest[1..]
  }

  predicate HasText(s: string, t: string) {
    StartsWith(s, t) || (s != [] && HasText(s[1..], t))
  }

  // Names that no selection has are dropped.
  function Lookup(names: seq<string>, selections: map<string, string>): seq<string> {
    if names == [] then []
    else
      var name := Trim(names[0]);
      (if name in selections then [selections[name]] else []) + Lookup(names[1..], selections)
  }

  function ConditionParts(condition: string, selections: map<string, string>): seq<string> {
    var lower := ToLower(condition);
    if HasText(lower, " or ") then Lookup(SplitText(lower, " or "), selections)
    else if HasText(lower, " and ") then Lookup(SplitText(lower, " and "), selections)
    else Lookup([condition], selections)
  }

  // The parts are joined with OR whatever the condition says; None is the error of no part at all.
  function ConditionQuery(condition: string, selections: map<string, string>): Option<string> {
    var parts := ConditionParts(condition, selections);
    if parts == [] then None else Some(QueryText(AnyOf(parts)))
  }
}
