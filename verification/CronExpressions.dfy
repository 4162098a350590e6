/** Cron expressions: how the schedulers normalise them, and when a provider has one. */
module CronExpressions {
  import opened Text
  import opened Wrappers

  function WordLength(s: string): (n: nat)
    ensures n <= |s| && forall i | 0 <= i < n :: !IsWhitespace(s[i])
    ensures n < |s| ==> IsWhitespace(s[n])
  {
    if s == [] || IsWhitespace(s[0]) then 0 else 1 + WordLength(s[1..])
  }

  // str::split_whitespace
  function Words(s: string): seq<string>
    decreases |s|
  {
    var t := TrimStart(s);
    if t == [] then [] else [t[..WordLength(t)]] + Words(t[WordLength(t)..])
  }

  // The scheduler wants six fields, seconds first; expressions are stored with five.
  function NormalizeCron(expr: string): string {
    if |Words(expr)| == 5 then "0 " + Trim(expr) else Trim(expr)
  }

  const MANUAL_VALUES: seq<string> := ["manual", "disabled", "off", "none"]

  // The sync_cron member of a provider's configuration, None when it is missing or not a string.
  function ParseSyncCron(syncCron: Option<string>): Option<string> {
    if syncCron.None? then None
    else
      var s := Trim(syncCron.value);
      if s == [] || ToLower(s) in MANUAL_VALUES then None else Some(s)
  }

  predicate IsWord(w: string) {
    w != [] && forall c | c in w :: !IsWhitespace(c)
  }

  predicate EndsWord(rest: string) {
    rest != [] ==> IsWhitespace(rest[0])
  }

  lemma WordLengthAt(w: string, rest: string)
    requires IsWord(w) && EndsWord(rest)
    ensures WordLength(w + rest) == |w|
  {
    hide IsWhitespace;
    var n, s := WordLength(w + rest), w + rest;
    assert forall i | 0 <= i < |w| :: s[i] in w;
    assert rest != [] ==> s[|w|] == rest[0];
  }

  lemma WordsFirst(w: string, rest: string)
    requires IsWord(w) && EndsWord(rest)
    ensures Words(w + rest) == [w] + Words(rest)
  {
    hide IsWhitespace;
    var s := w + rest;
    assert s[0] in w;
    assert TrimStart(s) == s;
    WordLengthAt(w, rest);
    assert s[..|w|] == w && s[|w|..] == rest;
  }

  lemma WordsSkip(before: string, s: string)
    requires IsBlank(before)
    ensures Words(before + s) == Words(s)
  {
    hide IsWhitespace, TrimStart;
    TrimStartPadded(before, s);
  }

  lemma PrefixIsWord(t: string, n: nat)
    requires 0 < n <= |t| && forall i | 0 <= i < n :: !IsWhitespace(t[i])
    ensures IsWord(t[..n])
  {
    hide IsWhitespace;
  }

  // What is trimmed at the start is a word and the rest.
  lemma FirstWord(t: string)
    requires t != [] ==> !IsWhitespace(t[0])
    ensures var w, rest := t[..WordLength(t)], t[WordLength(t)..];
      && (if t == [] then w == [] && rest == [] else IsWord(w) && EndsWord(rest)) && w + rest == t
  {
    hide IsWhitespace, WordLength, IsWord;
    if t != [] {
      PrefixIsWord(t, WordLength(t));
    }
  }

  // A string is blank, or some white space, a word, and the rest.
  lemma WordSplit(s: string) returns (before: string, w: string, rest: string)
    ensures IsBlank(before)
    ensures if w == [] then before == s && rest == [] else IsWord(w) && EndsWord(rest)
    ensures s == before + w + rest
  {
    hide IsWhitespace, TrimStart, WordLength, EndsWord, IsBlank;
    var t := TrimStart(s);
    TrimStartBlank(s);
    FirstWord(t);
    before, w, rest := s[..|s| - |t|], t[..WordLength(t)], t[WordLength(t)..];
    assert before + t == s;
    assert before + w + rest == before + (w + rest);
  }

  lemma {:induction false} WordsPaddedRight(s: string, after: string)
    requires IsBlank(after)
    ensures Words(s + after) == Words(s)
    decreases |s|
  {
    hide IsWhitespace, Words;
    var before, w, rest := WordSplit(s);
    if w == [] {
      WordsSkip(s + after, []);
      WordsSkip(s, []);
      assert s + after + [] == s + after && s + [] == s;
    } else {
      assert s == before + (w + rest) && s + after == before + (w + (rest + after));
      WordsSkip(before, w + rest);
      WordsSkip(before, w + (rest + after));
      WordsFirst(w, rest);
      assert EndsWord(rest + after) by {
        if rest == [] && after != [] { assert (rest + after)[0] in after; }
      }
      WordsFirst(w, rest + after);
      WordsPaddedRight(rest, after);
    }
  }

  lemma WordsTrim(s: string)
    ensures Words(Trim(s)) == Words(s)
  {
    hide IsWhitespace, TrimStart, TrimEnd, Words;
    var t := TrimStart(s);
    TrimStartBlank(s);
    WordsSkip(s[..|s| - |t|], t);
    assert s[..|s| - |t|] + t == s;
    TrimEndBlank(t);
    var r := TrimEnd(t);
    WordsPaddedRight(r, t[|r|..]);
    assert r + t[|r|..] == t;
  }

  lemma WordsPrefixed(s: string)
    ensures Words("0 " + s) == ["0"] + Words(s)
  {
    hide Words;
    assert "0 " + s == "0" + (" " + s);
    WordsFirst("0", " " + s);
    WordsSkip(" ", s);
  }

  lemma TrimIsTrimmed(s: string)
    ensures IsTrimmed(Trim(s))
  {
    var t, r := TrimStart(s), Trim(s);
    if r != [] {
      assert r[0] == t[0];
    }
  }

  lemma ZeroPrefixed(e: string)
    requires IsTrimmed(e) && e != []
    ensures Trim("0 " + e) == "0 " + e
  {
    var r: string := "0 " + e;
    assert r[0] == '0' && r[|r| - 1] == e[|e| - 1];
    TrimTrimmed(r);
  }

  // Main result: the fields are kept, with a zero seconds field before exactly five of them.
  lemma NormalizeKeepsFields(expr: string)
    ensures |Words(expr)| == 5 ==> Words(NormalizeCron(expr)) == ["0"] + Words(expr)
    ensures |Words(expr)| != 5 ==> Words(NormalizeCron(expr)) == Words(expr)
  {
    hide Words, Trim;
    WordsTrim(expr);
    if |Words(expr)| == 5 {
      WordsPrefixed(Trim(expr));
    }
  }

  lemma NormalFormIsTrimmed(expr: string)
    ensures Trim(NormalizeCron(expr)) == NormalizeCron(expr)
  {
    assert Words([]) == [];
    hide Words, Trim, IsTrimmed, IsWhitespace;
    TrimIsTrimmed(expr);
    if |Words(expr)| == 5 {
      WordsTrim(expr);
      ZeroPrefixed(Trim(expr));
    } else {
      TrimTrimmed(Trim(expr));
    }
  }

  lemma NormalForm(r: string)
    requires |Words(r)| != 5 && Trim(r) == r
    ensures NormalizeCron(r) == r
  {
    hide Words, Trim;
  }

  // Normalising again changes nothing, so a stored normal form stays equal to itself.
  lemma NormalizeTwice(expr: string)
    ensures NormalizeCron(NormalizeCron(expr)) == NormalizeCron(expr)
  {
    hide Words, Trim;
    var r := NormalizeCron(expr);
    NormalFormIsTrimmed(expr);
    NormalizeKeepsFields(expr);
    assert |Words(r)| != 5;
    hide NormalizeCron;
    NormalForm(r);
  }

  // ----- Which providers have an expression

  predicate Pads(text: string, before: string, s: string, after: string) {
    text == before + s + after && IsBlank(before) && IsBlank(after)
  }

  // s is the lower-case word in any mix of cases.
  predicate InAnyCase(s: string, word: string) {
    && |s| == |word|
    && forall i | 0 <= i < |s| :: s[i] == word[i] || ('A' <= s[i] <= 'Z' && s[i] as int + 32 == word[i] as int)
  }

  predicate IsManualWord(s: string) {
    InAnyCase(s, "manual") || InAnyCase(s, "disabled") || InAnyCase(s, "off") || InAnyCase(s, "none")
  }

  // The text turns automatic syncs off: one of four words, in any case, with white space around it.
  ghost predicate IsManual(text: string) {
    exists before, s, after :: Pads(text, before, s, after) && IsManualWord(s)
  }

  lemma TrimPads(text: string) returns (before: string, after: string)
    ensures Pads(text, before, Trim(text), after)
  {
    hide IsWhitespace, TrimStart, TrimEnd;
    var t := TrimStart(text);
    TrimStartBlank(text);
    TrimEndBlank(t);
    before, after := text[..|text| - |t|], t[|TrimEnd(t)|..];
    assert before + t == text && TrimEnd(t) + after == t;
    assert before + TrimEnd(t) + after == before + (TrimEnd(t) + after);
  }

  lemma TrimOfBlank(text: string)
    ensures Trim(text) == [] <==> IsBlank(text)
  {
    hide IsWhitespace, Trim;
    var before, after := TrimPads(text);
    if IsBlank(text) {
      TrimPadded(text, [], []);
      assert text + [] + [] == text;
    }
  }

  lemma LowerCase(s: string, word: string)
    requires forall i | 0 <= i < |word| :: !('A' <= word[i] <= 'Z')
    ensures ToLower(s) == word <==> InAnyCase(s, word)
  {
  }

  lemma ManualWords(s: string)
    ensures ToLower(s) in MANUAL_VALUES <==> IsManualWord(s)
  {
    LowerCase(s, "manual");
    LowerCase(s, "disabled");
    LowerCase(s, "off");
    LowerCase(s, "none");
    hide ToLower, InAnyCase;
  }

  lemma ManualHasNoBlanks(s: string)
    requires IsManualWord(s)
    ensures s != [] && forall c | c in s :: !IsWhitespace(c)
  {
  }

  // Main result: a provider has an expression exactly when its text holds something and is no manual value; the
  // expression has the words of the text.
  lemma AutomaticExactlyWhen(text: string)
    ensures ParseSyncCron(Some(text)).Some? <==> !IsBlank(text) && !IsManual(text)
    ensures ParseSyncCron(Some(text)).Some? ==> Words(ParseSyncCron(Some(text)).value) == Words(text)
  {
    hide IsWhitespace, Trim, ToLower, Words, IsManualWord, MANUAL_VALUES, Pads;
    TrimOfBlank(text);
    WordsTrim(text);
    ManualWords(Trim(text));
    var before, after := TrimPads(text);
    if IsManual(text) {
      var b, s, a :| Pads(text, b, s, a) && IsManualWord(s);
      ManualIsTrimmed(text, b, s, a);
    }
  }

  lemma ManualIsTrimmed(text: string, before: string, s: string, after: string)
    requires Pads(text, before, s, after) && IsManualWord(s)
    ensures Trim(text) == s && s != []
  {
    ManualHasNoBlanks(s);
    TrimPadded(before, s, after);
  }

  // A cron expression for the text: its words, with a zero seconds field before exactly five of them.
  predicate IsNormalOf(cron: string, text: string) {
    Words(cron) == (if |Words(text)| == 5 then ["0"] else []) + Words(text)
  }
}
