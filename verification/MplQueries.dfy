/** Whole queries: printed pieces between parentheses, with the row limit behind them. */
module MplQueries {
  import opened MplParser
  import opened MplReading
  import opened MplValues
  import opened Text
  import opened Wrappers

  // ----- The comma rewriting leaves printed pieces alone

  // Every comma is followed, inside the text, by something other than white space and a bar.
  predicate SafeCommas(p: string) {
    p == [] || ((p[0] == ',' ==> |p| > 1 && !IsWhitespace(p[1]) && p[1] != '|') && SafeCommas(p[1..]))
  }

  lemma {:induction false} SafeCommasAppend(p: string, q: string)
    requires SafeCommas(p) && SafeCommas(q)
    ensures SafeCommas(p + q)
  {
    if p == [] {
      assert p + q == q;
    } else {
      SafeCommasAppend(p[1..], q);
      assert (p + q)[1..] == p[1..] + q;
    }
  }

  lemma {:induction false} NoCommasAreSafe(p: string)
    requires ',' !in p
    ensures SafeCommas(p)
  {
    if p != [] {
      NoCommasAreSafe(p[1..]);
    }
  }

  lemma NotBeforePipe(s: string)
    requires s != [] && !IsWhitespace(s[0]) && s[0] != '|'
    ensures !BeforePipe(s)
  {
  }

  // With safe commas nothing is rewritten, whatever the quotes are.
  lemma {:induction false} SafeIsKept(s: string, quoted: bool, out: string)
    requires SafeCommas(s)
    ensures DropCommas(s, quoted, out) == out + s
  {
    if s == [] {
      assert out + s == out;
    } else {
      assert out + [s[0]] + s[1..] == out + s;
      if s[0] == ',' {
        NotBeforePipe(s[1..]);
      }
      SafeIsKept(s[1..], (s[0] == '"') != quoted, out + [s[0]]);
    }
  }

  // A piece that is kept as it is and leaves no quote open.
  ghost predicate IsQuiet(p: string) {
    forall rest, out :: DropCommas(p + rest, false, out) == DropCommas(rest, false, out + p)
  }

  lemma QuietAt(p: string, rest: string, out: string)
    requires IsQuiet(p)
    ensures DropCommas(p + rest, false, out) == DropCommas(rest, false, out + p)
  {
  }

  lemma QuietAppend(p: string, q: string)
    requires IsQuiet(p) && IsQuiet(q)
    ensures IsQuiet(p + q)
  {
    hide DropCommas;
    forall rest, out ensures DropCommas(p + q + rest, false, out) == DropCommas(rest, false, out + (p + q)) {
      QuietAt(p, q + rest, out);
      QuietAt(q, rest, out + p);
      assert p + q + rest == p + (q + rest);
      assert out + (p + q) == out + p + q;
    }
  }

  lemma {:induction false} UnquotedIsKept(p: string, quoted: bool, rest: string, out: string)
    requires '"' !in p && (quoted || SafeCommas(p))
    ensures DropCommas(p + rest, quoted, out) == DropCommas(rest, quoted, out + p)
  {
    if p == [] {
      assert p + rest == rest && out + p == out;
    } else {
      assert (p + rest)[1..] == p[1..] + rest;
      assert out + [p[0]] + p[1..] == out + p;
      assert p[0] in p;
      if !quoted && p[0] == ',' {
        assert (p[1..] + rest)[0] == p[1];
        NotBeforePipe(p[1..] + rest);
      }
      UnquotedIsKept(p[1..], quoted, rest, out + [p[0]]);
    }
  }

  lemma SafeIsQuiet(p: string)
    requires '"' !in p && SafeCommas(p)
    ensures IsQuiet(p)
  {
    forall rest, out ensures DropCommas(p + rest, false, out) == DropCommas(rest, false, out + p) {
      UnquotedIsKept(p, false, rest, out);
    }
  }

  lemma CommaDropped(after: string, out: string)
    requires BeforePipe(after) && out != [] && !IsWhitespace(out[|out| - 1])
    ensures DropCommas("," + after, false, out) == DropCommas(TrimStart(after), false, out + " ")
  {
    assert ("," + after)[0] == ',' && ("," + after)[1..] == after;
    hide IsWhitespace, TrimStart, BeforePipe;
  }

  lemma BarAfterBlanks(blanks: string, rest: string)
    requires IsBlank(blanks)
    ensures BeforePipe(blanks + ("|" + rest)) && TrimStart(blanks + ("|" + rest)) == "|" + rest
  {
    var bar := "|" + rest;
    assert bar[0] == '|' && !IsWhitespace('|');
    TrimStartPadded(blanks, bar);
    assert TrimStart(bar) == bar;
  }

  // A comma before a bar, outside quotes, is dropped with the white space behind it; a blank keeps its place.
  lemma CommaBeforeBar(p: string, blanks: string, rest: string)
    requires IsQuiet(p) && p != [] && !IsWhitespace(p[|p| - 1]) && IsBlank(blanks)
    ensures DropCommas(p + ("," + (blanks + ("|" + rest))), false, []) == DropCommas("|" + rest, false, p + " ")
  {
    hide *;
    var after := blanks + ("|" + rest);
    BarAfterBlanks(blanks, rest);
    QuietAt(p, "," + after, []);
    assert [] + p == p;
    CommaDropped(after, p);
  }

  lemma QuotesAreQuiet(v: string)
    requires '"' !in v
    ensures IsQuiet("\"" + v + "\"")
  {
    var p := "\"" + v + "\"";
    forall rest, out ensures DropCommas(p + rest, false, out) == DropCommas(rest, false, out + p) {
      var after := "\"" + rest;
      assert p + rest == "\"" + (v + after);
      assert (p + rest)[1..] == v + after;
      UnquotedIsKept(v, true, after, out + "\"");
      assert after[1..] == rest;
      assert out + "\"" + v + "\"" == out + p;
    }
  }

  lemma {:induction false} NoBreaksAreSafe(v: string)
    requires forall i | 0 <= i < |v| :: !IsBreak(v[i])
    ensures SafeCommas(v + "*")
  {
    if v == [] {
      assert v + "*" == "*";
    } else {
      assert (v + "*")[1..] == v[1..] + "*";
      assert forall i | 0 <= i < |v[1..]| :: v[1..][i] == v[i + 1];
      NoBreaksAreSafe(v[1..]);
    }
  }

  lemma NameIsQuiet(field: string)
    requires IsFieldName(field)
    ensures IsQuiet(field + "=")
  {
    NoCommasAreSafe(field + "=");
    SafeIsQuiet(field + "=");
  }

  lemma LeafIsQuiet(op: Op, field: string, v: string)
    requires IsFieldName(field) && CleanValue(op, v)
    ensures IsQuiet(LeafText(op, field, v))
  {
    NameIsQuiet(field);
    EscapeLength(v);
    if op == Equals {
      QuotesAreQuiet(v);
    } else {
      NoBreaksAreSafe(v);
      var p := "*" + v + "*";
      assert p[1..] == v + "*";
      SafeIsQuiet(p);
    }
    hide IsQuiet, Escape;
    QuietAppend(field + "=", ValueText(op, v));
    assert field + "=" + ValueText(op, v) == LeafText(op, field, v);
  }

  lemma {:induction false} JoinIsQuiet(parts: seq<string>, sep: string)
    requires (forall i | 0 <= i < |parts| :: IsQuiet(parts[i])) && IsQuiet(sep)
    ensures IsQuiet(JoinText(parts, sep))
  {
    if parts == [] {
      SafeIsQuiet([]);
    } else if |parts| > 1 {
      hide IsQuiet;
      JoinIsQuiet(parts[1..], sep);
      QuietAppend(parts[0], sep);
      QuietAppend(parts[0] + sep, JoinText(parts[1..], sep));
    }
  }

  lemma ConnectivesAreQuiet()
    ensures IsQuiet(" AND ") && IsQuiet(" OR ") && IsQuiet("(") && IsQuiet(")")
  {
    SafeIsQuiet(" AND ");
    SafeIsQuiet(" OR ");
    SafeIsQuiet("(");
    SafeIsQuiet(")");
  }

  lemma GroupIsQuiet(t: string)
    requires IsQuiet(t)
    ensures IsQuiet("(" + t + ")")
  {
    ConnectivesAreQuiet();
    hide IsQuiet;
    QuietAppend("(", t);
    QuietAppend("(" + t, ")");
  }

  // ----- The query of a body

  function QueryText(body: string): string {
    body + " | head 500"
  }

  lemma DigitsRead()
    ensures UntilDigitsEnd("500") == 3
  {
    assert "500"[1..] == "00" && "00"[1..] == "0" && "0"[1..] == "";
    assert UntilDigitsEnd("") == 0;
    assert UntilDigitsEnd("0") == 1;
    assert UntilDigitsEnd("00") == 2;
  }

  lemma HeadIsRead()
    ensures Word(SkipSpaces(" head 500"), "head") == Some("500")
  {
    assert " head 500" == " " + "head 500";
    SkipBlank("head 500");
    assert "head 500" == "head" + " 500";
    StartsWithAppended("head", " 500");
    assert " 500" == " " + "500";
    SkipBlank("500");
  }

  lemma LimitIsRead()
    ensures Commands(" | head 500") == []
  {
    var t := "| head 500";
    assert " | head 500" == " " + t;
    SkipBlank(t);
    assert t[1..] == " head 500";
    hide UntilDigitsEnd, Word, SkipSpaces;
    HeadIsRead();
    DigitsRead();
    assert "500"[3..] == [];
    assert Commands([]) == [];
  }

  lemma LimitIsSafe()
    ensures SafeCommas(" | head 500") && '"' !in " | head 500"
  {
    NoCommasAreSafe(" | head 500");
  }

  lemma QueryIsTrimmed(body: string)
    requires body != [] && body[0] == '('
    ensures Trim(QueryText(body)) == QueryText(body)
  {
    var s := QueryText(body);
    assert s[0] == '(' && s[|s| - 1] == '0';
    TrimTrimmed(s);
  }

  lemma QueryIsKept(body: string)
    requires IsQuiet(body)
    ensures DropCommas(QueryText(body), false, []) == QueryText(body)
  {
    var limit := " | head 500";
    hide DropCommas, IsQuiet, SafeCommas;
    LimitIsSafe();
    QuietAt(body, limit, []);
    assert [] + body == body;
    SafeIsKept(limit, false, body);
  }

  lemma BodySearched(body: string, x: Expr)
    requires IsPrimary(body, x) && body[0] == '('
    ensures Search(body + " | head 500") == Some((x, " | head 500"))
  {
    var limit := " | head 500";
    StopsEverything(limit);
    PrimaryAt(body, x, limit);
    assert (body + limit)[0] == '(';
    hide Primary, AndTail, OrTail, SearchTail, AndExpr, OrExpr, Search, IsPrimary;
    assert [x] + [] == [x];
    AndReads(body + limit, x, limit, [], limit);
    OrReads(body + limit, x, limit, [], limit);
    SearchReads(body + limit, x, limit, [], limit);
  }

  // A parenthesised body that reads as x makes a query for x.
  lemma QueryReads(body: string, x: Expr)
    requires IsPrimary(body, x) && IsQuiet(body) && body[0] == '('
    ensures ParseMpl(QueryText(body)) == Some(x)
  {
    assert IsBlank([]);
    hide Search, DropCommas, Trim, Commands, IsPrimary, IsQuiet, IsBlank;
    QueryIsTrimmed(body);
    QueryIsKept(body);
    BodySearched(body, x);
    LimitIsRead();
  }
}
