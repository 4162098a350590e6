/** The opaque search_after token: a cursor as JSON, in hexadecimal. */
module CursorToken {
  import opened Wrappers
  import opened JsonValues
  import opened Text

  datatype SearchCursor = SearchCursor(timestamp: Utf8, id: Utf8)

  // ----- Base 16 (section 8 of RFC 4648)

  function HexDigit(n: nat): Byte
    requires n < 16
  {
    "0123456789abcdef"[n]
  }

  function HexValue(c: char): Option<nat> {
    if '0' <= c <= '9' then Some(c as int - '0' as int)
    else if 'a' <= c <= 'f' then Some(c as int - 'a' as int + 10)
    else if 'A' <= c <= 'F' then Some(c as int - 'A' as int + 10)
    else None
  }

  function HexEncode(bytes: Utf8): string {
    if bytes == [] then []
    else [HexDigit(bytes[0] as int / 16), HexDigit(bytes[0] as int % 16)] + HexEncode(bytes[1..])
  }

  function HexDecode(s: string): Option<Utf8> {
    if s == [] then Some([])
    else if |s| == 1 || HexValue(s[0]).None? || HexValue(s[1]).None? || HexDecode(s[2..]).None? then None
    else
      var n := HexValue(s[0]).value * 16 + HexValue(s[1]).value;
      if n >= 256 then None else Some([n as char] + HexDecode(s[2..]).value)
  }

  lemma HexDigitValue(n: nat)
    requires n < 16
    ensures HexValue(HexDigit(n)) == Some(n)
    ensures !IsWhitespace(HexDigit(n))
  {
  }

  lemma {:induction false} HexRoundTrip(bytes: Utf8)
    ensures HexDecode(HexEncode(bytes)) == Some(bytes)
    ensures forall c | c in HexEncode(bytes) :: !IsWhitespace(c)
  {
    if bytes != [] {
      var n := bytes[0] as int;
      var s := HexEncode(bytes);
      HexDigitValue(n / 16);
      HexDigitValue(n % 16);
      HexRoundTrip(bytes[1..]);
      assert s[0] == HexDigit(n / 16) && s[1] == HexDigit(n % 16) && s[2..] == HexEncode(bytes[1..]);
      assert n / 16 * 16 + n % 16 == n;
      assert bytes == [bytes[0]] + bytes[1..];
    }
  }

  lemma LowerHexDigit(n: nat)
    requires n < 16
    ensures '0' <= HexDigit(n) <= '9' || 'a' <= HexDigit(n) <= 'f'
  {
  }

  // Two digits a byte, in lower case.
  lemma {:induction false} HexIsLowerCase(bytes: Utf8)
    ensures |HexEncode(bytes)| == 2 * |bytes|
    ensures forall c | c in HexEncode(bytes) :: '0' <= c <= '9' || 'a' <= c <= 'f'
  {
    if bytes != [] {
      var a, b := HexDigit(bytes[0] as int / 16), HexDigit(bytes[0] as int % 16);
      LowerHexDigit(bytes[0] as int / 16);
      LowerHexDigit(bytes[0] as int % 16);
      HexIsLowerCase(bytes[1..]);
      hide HexDigit;
      assert HexEncode(bytes) == [a, b] + HexEncode(bytes[1..]);
    }
  }

  // The reader takes letters of either case.
  lemma {:induction false} HexReadsEitherCase(s: string)
    ensures HexDecode(ToLower(s)) == HexDecode(s)
  {
    if |s| > 1 {
      HexReadsEitherCase(s[2..]);
      assert ToLower(s)[2..] == ToLower(s[2..]);
    }
  }

  // ----- JSON strings (section 7 of RFC 8259)

  function EscapeByte(c: Byte): Utf8 {
    if c == '"' then "\\\""
    else if c == '\\' then "\\\\"
    else if c == '\U{0008}' then "\\b"
    else if c == '\U{000C}' then "\\f"
    else if c == '\n' then "\\n"
    else if c == '\r' then "\\r"
    else if c == '\t' then "\\t"
    else if c < ' ' then "\\u00" + [HexDigit(c as int / 16), HexDigit(c as int % 16)]
    else [c]
  }

  function Escape(t: Utf8): Utf8 {
    if t == [] then [] else EscapeByte(t[0]) + Escape(t[1..])
  }

  function Quote(t: Utf8): Utf8 {
    "\"" + Escape(t) + "\""
  }

  function AsByte(n: nat): Byte
    requires n < 256
  {
    n as char
  }

  // The UTF-8 bytes of a code point.
  function Utf8Bytes(n: nat): Utf8
    requires n < 0x11_0000
  {
    if n < 0x80 then [AsByte(n)]
    else if n < 0x800 then [AsByte(0xC0 + n / 0x40), AsByte(0x80 + n % 0x40)]
    else if n < 0x1_0000 then [AsByte(0xE0 + n / 0x1000), AsByte(0x80 + n / 0x40 % 0x40), AsByte(0x80 + n % 0x40)]
    else [AsByte(0xF0 + n / 0x4_0000), AsByte(0x80 + n / 0x1000 % 0x40), AsByte(0x80 + n / 0x40 % 0x40), AsByte(0x80 + n % 0x40)]
  }

  function Hex4(s: Utf8): Option<nat> {
    if |s| < 4 || HexValue(s[0]).None? || HexValue(s[1]).None? || HexValue(s[2]).None? || HexValue(s[3]).None? then None
    else Some(HexValue(s[0]).value * 0x1000 + HexValue(s[1]).value * 0x100
              + HexValue(s[2]).value * 0x10 + HexValue(s[3]).value)
  }

  function SimpleEscape(c: char): Option<Byte> {
    match c
    case '"' => Some('"')
    case '\\' => Some('\\')
    case '/' => Some('/')
    case 'b' => Some('\U{0008}')
    case 'f' => Some('\U{000C}')
    case 'n' => Some('\n')
    case 'r' => Some('\r')
    case 't' => Some('\t')
    case _ => None
  }

  // What follows a backslash: the bytes it stands for and the number of characters used.
  function Unescape(s: Utf8): (r: Option<(Utf8, nat)>)
    ensures r.Some? ==> 0 < r.value.1 <= |s|
  {
    if s == [] then None
    else if SimpleEscape(s[0]).Some? then
      var c: Byte := SimpleEscape(s[0]).value;
      Some(([c], 1))
    else if s[0] != 'u' then None
    else
      var unit := Hex4(s[1..]);
      if unit.None? || unit.value >= 0x1_0000 || 0xDC00 <= unit.value < 0xE000 then None
      else if 0xD800 <= unit.value < 0xDC00 then
        // a surrogate pair
        if |s| < 11 || s[5] != '\\' || s[6] != 'u' then None
        else
          var low := Hex4(s[7..]);
          if low.None? || !(0xDC00 <= low.value < 0xE000) then None
          else Some((Utf8Bytes(0x1_0000 + (unit.value - 0xD800) * 0x400 + (low.value - 0xDC00)), 11))
      else Some((Utf8Bytes(unit.value), 5))
  }

  // The string whose opening quote has been read, and what follows its closing quote.
  function ParseString(s: Utf8): (r: Option<(Utf8, Utf8)>)
    ensures r.Some? ==> |r.value.1| < |s|
    decreases |s|
  {
    if s == [] || s[0] < ' ' then None
    else if s[0] == '"' then Some(([], s[1..]))
    else if s[0] == '\\' then
      var u := Unescape(s[1..]);
      if u.None? then None
      else
        var rest := ParseString(s[1 + u.value.1..]);
        if rest.None? then None else Some((u.value.0 + rest.value.0, rest.value.1))
    else
      var rest := ParseString(s[1..]);
      if rest.None? then None else Some(([s[0]] + rest.value.0, rest.value.1))
  }

  lemma PlainByteParses(c: Byte, s: Utf8)
    requires c >= ' ' && c != '"' && c != '\\' && ParseString(s).Some?
    ensures ParseString([c] + s) == Some(([c] + ParseString(s).value.0, ParseString(s).value.1))
  {
    assert ([c] + s)[1..] == s;
  }

  lemma EscapeSequenceParses(u: Utf8, c: Byte, s: Utf8)
    requires Unescape(u + s) == Some(([c], |u|)) && ParseString(s).Some?
    ensures ParseString("\\" + u + s) == Some(([c] + ParseString(s).value.0, ParseString(s).value.1))
  {
    hide Unescape;
    var e: Utf8 := "\\" + u + s;
    assert e[1..] == u + s;
    assert e[1 + |u|..] == s;
  }

  lemma ControlByteUnescapes(c: Byte, s: Utf8)
    requires c < ' '
    ensures Unescape("u00" + [HexDigit(c as int / 16), HexDigit(c as int % 16)] + s) == Some(([c], 5))
  {
    var n := c as int;
    HexDigitValue(n / 16);
    HexDigitValue(n % 16);
    var e: Utf8 := "u00" + [HexDigit(n / 16), HexDigit(n % 16)] + s;
    assert e[1..][0] == '0' && e[1..][1] == '0' && e[1..][2] == HexDigit(n / 16) && e[1..][3] == HexDigit(n % 16);
    assert n / 16 * 0x10 + n % 16 == n;
    assert Hex4(e[1..]) == Some(n);
  }

  lemma SimpleEscapeUnescapes(x: Byte, c: Byte, s: Utf8)
    requires SimpleEscape(x) == Some(c)
    ensures Unescape([x] + s) == Some(([c], 1))
  {
  }

  lemma EscapeByteParses(c: Byte, s: Utf8)
    requires ParseString(s).Some?
    ensures ParseString(EscapeByte(c) + s) == Some(([c] + ParseString(s).value.0, ParseString(s).value.1))
  {
    hide ParseString, Unescape, HexDigit;
    if |EscapeByte(c)| == 1 {
      PlainByteParses(c, s);
    } else if |EscapeByte(c)| == 2 {
      var x: Byte := EscapeByte(c)[1];
      assert SimpleEscape(x) == Some(c);
      SimpleEscapeUnescapes(x, c, s);
      EscapeSequenceParses([x], c, s);
      assert EscapeByte(c) == "\\" + [x];
    } else {
      ControlByteUnescapes(c, s);
      var u: Utf8 := "u00" + [HexDigit(c as int / 16), HexDigit(c as int % 16)];
      EscapeSequenceParses(u, c, s);
      assert EscapeByte(c) == "\\" + u;
    }
  }

  lemma ClosingQuoteParses(rest: Utf8)
    ensures ParseString("\"" + rest) == Some(([], rest))
  {
    assert ("\"" + rest)[1..] == rest;
  }

  lemma {:induction false} QuoteParses(t: Utf8, rest: Utf8)
    ensures ParseString(Escape(t) + "\"" + rest) == Some((t, rest))
  {
    hide ParseString, EscapeByte;
    if t == [] {
      assert Escape(t) + "\"" + rest == "\"" + rest;
      ClosingQuoteParses(rest);
    } else {
      var after := Escape(t[1..]) + "\"" + rest;
      QuoteParses(t[1..], rest);
      EscapeByteParses(t[0], after);
      assert Escape(t) + "\"" + rest == EscapeByte(t[0]) + after;
      assert t == [t[0]] + t[1..];
    }
  }

  // ----- The JSON object of a cursor

  datatype Member = Member(name: Utf8, value: Utf8, rest: Utf8)

  function SkipSpace(s: Utf8): (r: Utf8)
    ensures |r| <= |s|
  {
    if s != [] && (s[0] == ' ' || s[0] == '\t' || s[0] == '\n' || s[0] == '\r') then SkipSpace(s[1..]) else s
  }

  // A string, with the white space before it.
  function ParseText(s: Utf8): (r: Option<(Utf8, Utf8)>)
    ensures r.Some? ==> |r.value.1| < |s|
  {
    var t := SkipSpace(s);
    if t == [] || t[0] != '"' then None else ParseString(t[1..])
  }

  // One "name":"value" member and the white space after it.
  function ParseMember(s: Utf8): (r: Option<Member>)
    ensures r.Some? ==> |r.value.rest| < |s|
  {
    var name := ParseText(s);
    if name.None? then None
    else
      var t := SkipSpace(name.value.1);
      if t == [] || t[0] != ':' then None
      else
        var value := ParseText(t[1..]);
        if value.None? then None else Some(Member(name.value.0, value.value.0, SkipSpace(value.value.1)))
  }

  // The members that remain, given the fields already read. Members of other names are skipped;
  // a field given twice, a missing field and anything after the object are errors.
  function ParseFields(s: Utf8, timestamp: Option<Utf8>, id: Option<Utf8>): Option<SearchCursor>
    decreases |s|
  {
    var m := ParseMember(s);
    if m.None? then None
    else
      var Member(name, value, rest) := m.value;
      var timestamp' := if name == TIMESTAMP then Some(value) else timestamp;
      var id' := if name == ID then Some(value) else id;
      if (name == TIMESTAMP && timestamp.Some?) || (name == ID && id.Some?) || rest == [] then None
      else if rest[0] == ',' then ParseFields(rest[1..], timestamp', id')
      else if rest[0] == '}' && timestamp'.Some? && id'.Some? && SkipSpace(rest[1..]) == []
      then Some(SearchCursor(timestamp'.value, id'.value))
      else None
  }

  function ParseCursor(s: Utf8): Option<SearchCursor> {
    var t := SkipSpace(s);
    if t == [] || t[0] != '{' then None else ParseFields(t[1..], None, None)
  }

  const TIMESTAMP: Utf8 := "timestamp"
  const ID: Utf8 := "id"

  function FieldJson(name: Utf8, value: Utf8): Utf8 {
    Quote(name) + ":" + Quote(value)
  }

  function MembersJson(first: Utf8, second: Utf8): Utf8 {
    first + "," + second
  }

  function CursorJson(c: SearchCursor): Utf8 {
    "{" + MembersJson(FieldJson(TIMESTAMP, c.timestamp), FieldJson(ID, c.id)) + "}"
  }

  lemma TextParses(t: Utf8, rest: Utf8)
    ensures ParseText(Quote(t) + rest) == Some((t, rest))
  {
    hide ParseString, Escape;
    QuoteParses(t, rest);
    var s := Quote(t) + rest;
    assert s[1..] == Escape(t) + "\"" + rest;
  }

  lemma MemberParses(name: Utf8, value: Utf8, rest: Utf8)
    requires rest != [] && (rest[0] == ',' || rest[0] == '}')
    ensures ParseMember(FieldJson(name, value) + rest) == Some(Member(name, value, rest))
  {
    hide Quote, ParseText;
    var after: Utf8 := ":" + Quote(value) + rest;
    TextParses(name, after);
    TextParses(value, rest);
    assert FieldJson(name, value) + rest == Quote(name) + after;
    assert after[1..] == Quote(value) + rest;
  }

  lemma CursorParses(c: SearchCursor)
    ensures ParseCursor(CursorJson(c)) == Some(c)
  {
    hide FieldJson, ParseMember;
    var last: Utf8 := FieldJson(ID, c.id) + "}";
    var first: Utf8 := FieldJson(TIMESTAMP, c.timestamp) + ("," + last);
    MemberParses(ID, c.id, "}");
    MemberParses(TIMESTAMP, c.timestamp, "," + last);
    assert ("," + last)[1..] == last;
    assert "}"[1..] == [];
    assert CursorJson(c) == "{" + first;
    assert ("{" + first)[1..] == first;
    assert ParseFields(last, Some(c.timestamp), None) == Some(c);
  }

  // ----- The token

  function EncodeSearchAfter(c: SearchCursor): string {
    HexEncode(CursorJson(c))
  }

  function DecodeSearchAfter(token: string): Option<SearchCursor> {
    var bytes := HexDecode(Trim(token));
    if bytes.None? then None else ParseCursor(bytes.value)
  }

  // Main result: the cursor comes back whatever its strings hold, and white space around the
  // token does not matter.
  lemma TokenRoundTrip(c: SearchCursor, before: string, after: string)
    requires IsBlank(before) && IsBlank(after)
    ensures DecodeSearchAfter(before + EncodeSearchAfter(c) + after) == Some(c)
  {
    hide ParseCursor, CursorJson, HexEncode, HexDecode;
    HexRoundTrip(CursorJson(c));
    TrimPadded(before, EncodeSearchAfter(c), after);
    CursorParses(c);
  }

  // So no two cursors share a token.
  lemma TokensAreDistinct(c: SearchCursor, d: SearchCursor)
    requires EncodeSearchAfter(c) == EncodeSearchAfter(d)
    ensures c == d
  {
    hide DecodeSearchAfter, EncodeSearchAfter;
    TokenRoundTrip(c, [], []);
    TokenRoundTrip(d, [], []);
  }
}
