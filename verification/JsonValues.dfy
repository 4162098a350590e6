/** JSON values as the search results carry them. A Rust String is the sequence of its UTF-8 bytes. */
module JsonValues {
  import opened Wrappers

  type Byte = c: char | c < '\U{0100}' witness 'a'
  type Utf8 = seq<Byte>

  // Numbers, arrays and objects are only ever printed, so they are kept as their printed text.
  datatype Json = Null | Bool(b: bool) | Number(text: Utf8) | Str(s: Utf8) | Compound(text: Utf8)

  // The text that stands for a value outside JSON: a string itself, anything else as JSON prints it.
  predicate IsShown(text: Utf8, v: Json) {
    match v
    case Null => text == "null"
    case Bool(b) => text == if b then "true" else "false"
    case Number(number) => text == number
    case Str(s) => text == s
    case Compound(printed) => text == printed
  }

  datatype Field = Field(name: Utf8, value: Json)

  // An object: its members in iteration order, names distinct.
  type Object = seq<Field>

  predicate DistinctNames(o: Object) {
    forall i, j | 0 <= i < j < |o| :: o[i].name != o[j].name
  }

  function Get(o: Object, name: Utf8): (r: Option<Json>)
    ensures r.None? <==> forall i | 0 <= i < |o| :: o[i].name != name
    ensures r.Some? ==> exists i :: 0 <= i < |o| && o[i] == Field(name, r.value)
  {
    if o == [] then None
    else if o[0].name == name then Some(o[0].value)
    else
      var r := Get(o[1..], name);
      assert forall i | 0 <= i < |o| - 1 :: o[1..][i] == o[i + 1];
      r
  }

  lemma GetAt(o: Object, i: nat)
    requires DistinctNames(o) && i < |o|
    ensures Get(o, o[i].name) == Some(o[i].value)
  {
  }
}
