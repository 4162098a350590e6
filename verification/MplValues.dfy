/** The text of a value in a converted query, and what the mPL parser reads from it. */
module MplValues {
  import opened Text
  import opened Wrappers

  // field="value" compares the whole field, field=*value* looks for the value inside it.
  datatype Op = Equals | Like

  predicate NeedsEscape(c: char) {
    c == '"' || c == '\\'
  }

  function Escape(v: string): string {
    if v == [] then []
    else (if NeedsEscape(v[0]) then ['\\', v[0]] else [v[0]]) + Escape(v[1..])
  }

  // What follows the equals sign.
  function ValueText(op: Op, v: string): string {
    if op == Equals then "\"" + Escape(v) + "\"" else "*" + Escape(v) + "*"
  }

  // ----- The parser: a quoted value, without escapes, or a bare one

  function UntilQuote(s: string, quote: char): (n: nat)
    ensures n <= |s| && quote !in s[..n]
    ensures n < |s| ==> s[n] == quote
  {
    if s == [] || s[0] == quote then 0 else 1 + UntilQuote(s[1..], quote)
  }

  predicate IsBreak(c: char) {
    IsWhitespace(c) || c == '|' || c == ')'
  }

  function UntilBreak(s: string): (n: nat)
    ensures n <= |s| && forall i | 0 <= i < n :: !IsBreak(s[i])
    ensures n < |s| ==> IsBreak(s[n])
  {
    if s == [] || IsBreak(s[0]) then 0 else 1 + UntilBreak(s[1..])
  }

  function ReadQuoted(s: string, quote: char): Option<(string, string)> {
    if s == [] || s[0] != quote then None
    else
      var n := UntilQuote(s[1..], quote);
      if n == 0 || n + 1 == |s| then None else Some((s[1..n + 1], s[n + 2..]))
  }

  function ReadValue(s: string): Option<(string, string)> {
    if ReadQuoted(s, '"').Some? then ReadQuoted(s, '"')
    else if ReadQuoted(s, '\'').Some? then ReadQuoted(s, '\'')
    else
      var n := UntilBreak(s);
      if n == 0 then None else Some((s[..n], s[n..]))
  }

  // ----- Which values come back

  // The value, or the pattern around it.
  function Meant(op: Op, v: string): string {
    if op == Equals then v else "*" + v + "*"
  }

  predicate CleanValue(op: Op, v: string) {
    && (forall i | 0 <= i < |v| :: !NeedsEscape(v[i]))
    && (op == Equals ==> v != [])
    && (op == Like ==> forall i | 0 <= i < |v| :: !IsBreak(v[i]))
  }

  lemma {:induction false} EscapeLength(v: string)
    ensures |Escape(v)| >= |v|
    ensures |Escape(v)| == |v| <==> forall i | 0 <= i < |v| :: !NeedsEscape(v[i])
    ensures |Escape(v)| == |v| ==> Escape(v) == v
  {
    if v != [] {
      EscapeLength(v[1..]);
      assert v == [v[0]] + v[1..];
      if forall i | 0 <= i < |v| :: !NeedsEscape(v[i]) {
        assert forall i | 0 <= i < |v[1..]| :: !NeedsEscape(v[1..][i]);
      } else if !NeedsEscape(v[0]) {
        var i :| 0 <= i < |v| && NeedsEscape(v[i]);
        assert v[1..][i - 1] == v[i];
      }
    }
  }

  lemma {:induction false} QuoteEnds(v: string, quote: char, rest: string)
    requires quote !in v
    ensures UntilQuote(v + [quote] + rest, quote) == |v|
  {
    if v != [] {
      QuoteEnds(v[1..], quote, rest);
      assert (v + [quote] + rest)[1..] == v[1..] + [quote] + rest;
    }
  }

  lemma {:induction false} BreakEnds(v: string, rest: string)
    requires (forall i | 0 <= i < |v| :: !IsBreak(v[i])) && (rest == [] || IsBreak(rest[0]))
    ensures UntilBreak(v + rest) == |v|
  {
    hide IsBreak;
    if v == [] {
      assert v + rest == rest;
    } else {
      assert forall i | 0 <= i < |v[1..]| :: v[1..][i] == v[i + 1];
      BreakEnds(v[1..], rest);
      assert (v + rest)[1..] == v[1..] + rest;
    }
  }

  lemma EmptyIsLost(rest: string)
    requires rest == [] || rest[0] == ' ' || rest[0] == ')'
    ensures ReadValue("\"\"" + rest) != Some(([], rest))
  {
    hide IsBreak;
    var s: string := "\"\"" + rest;
    assert s[1..][0] == '"';
    assert ReadQuoted(s, '"').None? && ReadQuoted(s, '\'').None?;
  }

  lemma QuotedReads(v: string, rest: string)
    requires v != [] && '"' !in v
    ensures ReadValue("\"" + v + "\"" + rest) == Some((v, rest))
  {
    hide IsBreak;
    var s: string := "\"" + v + "\"" + rest;
    QuoteEnds(v, '"', rest);
    assert s[1..] == v + ['"'] + rest;
    assert s[1..|v| + 1] == v && s[|v| + 2..] == rest;
  }

  // Single quotes do as well.
  lemma SingleQuotedReads(v: string, rest: string)
    requires v != [] && '\'' !in v
    ensures ReadValue("'" + v + "'" + rest) == Some((v, rest))
  {
    hide IsBreak;
    var s: string := "'" + v + "'" + rest;
    QuoteEnds(v, '\'', rest);
    assert s[1..] == v + ['\''] + rest;
    assert s[1..|v| + 1] == v && s[|v| + 2..] == rest;
    assert ReadQuoted(s, '"').None?;
  }

  // What is read is no longer than what it was read from, and a quoted value holds no quote.
  lemma ReadLength(s: string)
    requires s != [] && s[0] == '"' && ReadQuoted(s, '"').Some?
    ensures var r := ReadValue(s).value; |r.0| + 2 + |r.1| == |s| && '"' !in r.0
  {
  }

  lemma EscapedIsLost(v: string, rest: string)
    requires v != [] && |Escape(v)| > |v|
    requires rest == [] || rest[0] == ' ' || rest[0] == ')'
    ensures ReadValue("\"" + Escape(v) + "\"" + rest) != Some((v, rest))
  {
    hide IsBreak, Escape;
    var s: string := "\"" + Escape(v) + "\"" + rest;
    if ReadQuoted(s, '"').Some? {
      ReadLength(s);
    }
  }

  lemma EqualsReadsBack(v: string, rest: string)
    requires rest == [] || rest[0] == ' ' || rest[0] == ')'
    ensures ReadValue(ValueText(Equals, v) + rest) == Some((v, rest)) <==> CleanValue(Equals, v)
  {
    EscapeLength(v);
    assert '"' in v ==> |Escape(v)| > |v|;
    hide ReadValue, Escape, NeedsEscape;
    if v == [] {
      EmptyIsLost(rest);
    } else if |Escape(v)| == |v| {
      QuotedReads(v, rest);
    } else {
      EscapedIsLost(v, rest);
    }
  }

  lemma LikeReadsBack(v: string, rest: string)
    requires rest == [] || rest[0] == ' ' || rest[0] == ')'
    ensures ReadValue(ValueText(Like, v) + rest) == Some((Meant(Like, v), rest)) <==> CleanValue(Like, v)
  {
    assert IsBreak(' ') && IsBreak(')') && !IsBreak('*');
    hide IsBreak, Escape, NeedsEscape;
    EscapeLength(v);
    var text := ValueText(Like, v);
    var s := text + rest;
    assert s[0] == '*';
    assert ReadQuoted(s, '"').None? && ReadQuoted(s, '\'').None?;
    if CleanValue(Like, v) {
      BreakEnds(text, rest);
    } else if ReadValue(s) == Some((Meant(Like, v), rest)) {
      assert |Escape(v)| == |v|;
      assert forall i | 0 <= i < |v| :: v[i] == s[i + 1];
      assert false;
    }
  }

  // Main result: the parser reads a value back, where the converter puts it, exactly when it needs no
  // escape, and is not empty when quoted, and holds no white space, bar or closing parenthesis when bare.
  lemma ValueReadsBackExactlyWhen(op: Op, v: string, rest: string)
    requires rest == [] || rest[0] == ' ' || rest[0] == ')'
    ensures ReadValue(ValueText(op, v) + rest) == Some((Meant(op, v), rest)) <==> CleanValue(op, v)
  {
    hide ReadValue, ValueText, CleanValue;
    if op == Equals {
      EqualsReadsBack(v, rest);
    } else {
      LikeReadsBack(v, rest);
    }
  }
}
