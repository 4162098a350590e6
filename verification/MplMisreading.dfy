/** Query texts that the parser refuses, or reads as something else than they were printed from. */
module MplMisreading {
  import opened MplParser
  import opened MplQueries
  import opened MplReading
  import opened MplSearch
  import opened MplValues
  import opened Text
  import opened Wrappers

  // ----- A piece of text, alone or repeated, as a query

  function Copies<T>(x: T, n: nat): (r: seq<T>)
    ensures |r| == n && forall i | 0 <= i < n :: r[i] == x
  {
    seq(n, i => x)
  }

  function CopiesQuery(text: string, n: nat): string {
    QueryText("(" + JoinText(Copies(text, n), " OR ") + ")")
  }

  // However often the text stands in the query, the event is not matched.
  ghost predicate IsLost(schema: Schema, e: Event, text: string) {
    forall n: nat | n > 0 && ParseMpl(CopiesQuery(text, n)).Some? :: !Matches(schema, e, ParseMpl(CopiesQuery(text, n)).value)
  }

  // What follows the first copy.
  function After(text: string, n: nat): string
    requires n > 0
  {
    Tail(Copies(text, n - 1), " OR ") + ")" + " | head 500"
  }

  // What can follow a piece inside the parentheses.
  predicate Follows(after: string) {
    after != [] && (after[0] == ' ' || after[0] == ')')
  }

  lemma QueryShape(text: string, n: nat)
    requires n > 0
    ensures CopiesQuery(text, n) == "(" + (text + After(text, n)) && Follows(After(text, n))
  {
    var parts := Copies(text, n);
    JoinTail(parts, " OR ");
    assert parts[1..] == Copies(text, n - 1);
    hide Tail;
    var tail := Tail(parts[1..], " OR ");
    assert "(" + (text + tail) + ")" + " | head 500" == "(" + (text + (tail + ")" + " | head 500"));
    TailEndsPiece(parts[1..], " OR ", ")" + " | head 500");
    assert tail + (")" + " | head 500") == After(text, n);
  }

  lemma {:induction false} JoinIsSafe(parts: seq<string>, sep: string)
    requires (forall i | 0 <= i < |parts| :: SafeCommas(parts[i])) && SafeCommas(sep)
    ensures SafeCommas(JoinText(parts, sep))
  {
    hide SafeCommas;
    if parts == [] {
      NoCommasAreSafe([]);
    } else if |parts| > 1 {
      JoinIsSafe(parts[1..], sep);
      SafeCommasAppend(parts[0], sep);
      SafeCommasAppend(parts[0] + sep, JoinText(parts[1..], sep));
    }
  }

  lemma LiteralsAreSafe()
    ensures SafeCommas(" OR ") && SafeCommas("(") && SafeCommas(") | head 500")
  {
    NoCommasAreSafe(" OR ");
    NoCommasAreSafe("(");
    NoCommasAreSafe(") | head 500");
  }

  lemma QueryIsSafe(text: string, n: nat)
    requires SafeCommas(text)
    ensures SafeCommas(CopiesQuery(text, n))
  {
    hide SafeCommas, JoinText;
    LiteralsAreSafe();
    var t := JoinText(Copies(text, n), " OR ");
    JoinIsSafe(Copies(text, n), " OR ");
    SafeCommasAppend("(", t);
    SafeCommasAppend("(" + t, ") | head 500");
    assert "(" + t + ") | head 500" == CopiesQuery(text, n);
  }

  // Neither trimming nor the comma rewriting changes the query.
  lemma QueryIsSearched(text: string, n: nat)
    requires SafeCommas(text) && n > 0
    ensures var r := Search(CopiesQuery(text, n));
      ParseMpl(CopiesQuery(text, n)) == if r.Some? && IsBlank(Commands(r.value.1)) then Some(r.value.0) else None
  {
    hide Search, DropCommas, Commands, IsBlank, Trim, SafeCommas, JoinText;
    var q := CopiesQuery(text, n);
    QueryIsSafe(text, n);
    SafeIsKept(q, false, []);
    QueryIsTrimmed("(" + JoinText(Copies(text, n), " OR ") + ")");
    assert [] + q == q;
  }

  // ----- Where the parser stops

  // No expression continues here.
  ghost predicate Blocks(rest: string) {
    AndTail(rest) == ([], rest) && OrTail(rest) == ([], rest) && SearchTail(rest) == ([], rest)
  }

  lemma BlocksWhen(rest: string, t: string)
    requires t == SkipSpaces(rest) && t != [] && t[0] != 'A' && t[0] != 'O' && rest[0] != ','
    requires IsSpace(rest[0]) ==> OrExpr(t).None?
    ensures Blocks(rest)
  {
    assert Separator(rest).Some? ==> Separator(rest).value == t;
    hide OrExpr, Word, AndTail, OrTail, SearchTail;
    NoConnective(t);
    NothingContinues(rest);
  }

  lemma SearchStops(s: string, x: Expr, rest: string)
    requires IsSolid(s) && Primary(s) == Some((x, rest)) && Blocks(rest)
    ensures Search(s) == Some((x, rest))
  {
    hide Primary, AndTail, OrTail, SearchTail, AndExpr, OrExpr, Search;
    assert [x] + [] == [x];
    AndReads(s, x, rest, [], rest);
    OrReads(s, x, rest, [], rest);
    SearchReads(s, x, rest, [], rest);
  }

  lemma NoSearch(s: string)
    requires IsSolid(s) && Primary(s).None?
    ensures OrExpr(s).None? && Search(s).None?
  {
    SkipNothing(s);
    hide Primary;
  }

  // A character that no primary expression starts with.
  lemma NothingStartsHere(s: string)
    requires s != [] && s[0] in ['=', '|', ')']
    ensures Primary(s).None? && OrExpr(s).None? && Search(s).None?
  {
    NotAt(s);
    assert |s| > 0 ==> s[..1][0] == s[0];
    assert !StartsWith(s, "!") && UntilNameEnds(s) == 0;
    assert Group(s).None? && FieldInList(s).None? && FieldCompare(s).None? && BareWord(s).None?;
    assert Word(s, "NOT").None?;
    hide Group, FieldInList, FieldCompare, BareWord, Word;
    assert Primary(s).None?;
    NoSearch(s);
  }

  // Only a group starts with a parenthesis.
  lemma OnlyGroups(s: string)
    requires s != [] && s[0] == '('
    ensures Primary(s) == Group(s)
  {
    NotAt(s);
    assert s[..1][0] == '(';
    assert UntilNameEnds(s) == 0 && UntilTokenEnds(s) == 0;
    assert FieldInList(s).None? && FieldCompare(s).None? && BareWord(s).None?;
    assert Word(s, "NOT").None?;
    hide Group, FieldInList, FieldCompare, BareWord, Word;
  }

  // ----- Texts that stop before they end

  // The text reads as x with a rest left over, where nothing can continue and no parenthesis closes.
  ghost predicate IsStuck(text: string, x: Expr, rest: string) {
    && IsSolid(text) && SafeCommas(text)
    && forall after | Follows(after) ::
         && Primary(text + after) == Some((x, rest + after)) && Blocks(rest + after)
         && SkipSpaces(rest + after) != [] && SkipSpaces(rest + after)[0] != ')'
  }

  lemma StuckGroup(s: string, x: Expr, rest: string)
    requires Search(s) == Some((x, rest)) && SkipSpaces(rest) != [] && SkipSpaces(rest)[0] != ')'
    ensures Group("(" + s).None?
  {
    hide Search, SkipSpaces;
    assert ("(" + s)[1..] == s;
  }

  lemma StuckAt(text: string, x: Expr, rest: string, after: string)
    requires IsStuck(text, x, rest) && Follows(after)
    ensures IsSolid(text) && Primary(text + after) == Some((x, rest + after)) && Blocks(rest + after)
    ensures SkipSpaces(rest + after) != [] && SkipSpaces(rest + after)[0] != ')'
  {
  }

  lemma StuckIsLost(schema: Schema, e: Event, text: string, x: Expr, rest: string)
    requires IsStuck(text, x, rest)
    ensures IsLost(schema, e, text)
  {
    assert SafeCommas(text);
    hide *;
    forall n: nat | n > 0 ensures ParseMpl(CopiesQuery(text, n)).None? {
      StuckFails(text, x, rest, n);
    }
    NoneIsLost(schema, e, text);
  }

  lemma NoneIsLost(schema: Schema, e: Event, text: string)
    requires forall n: nat | n > 0 :: ParseMpl(CopiesQuery(text, n)).None?
    ensures IsLost(schema, e, text)
  {
  }

  lemma Parenthesised(s: string)
    ensures IsSolid("(" + s) && ("(" + s)[0] == '('
  {
  }

  lemma StuckFails(text: string, x: Expr, rest: string, n: nat)
    requires IsStuck(text, x, rest) && SafeCommas(text) && n > 0
    ensures ParseMpl(CopiesQuery(text, n)).None?
  {
    hide *;
    var after := After(text, n);
    QueryShape(text, n);
    StuckAt(text, x, rest, after);
    SolidAppended(text, after);
    SearchStops(text + after, x, rest + after);
    StuckGroup(text + after, x, rest + after);
    Parenthesised(text + after);
    OnlyGroups("(" + (text + after));
    NoSearch("(" + (text + after));
    QueryIsSearched(text, n);
  }

  // ----- Texts that close the parenthesis early

  // The text reads as x up to a closing parenthesis, behind which nothing can continue.
  ghost predicate ClosesEarly(text: string, x: Expr, rest: string) {
    && IsSolid(text) && SafeCommas(text)
    && rest != [] && rest[0] != '|' && !IsWhitespace(rest[0])
    && forall after | Follows(after) ::
         Primary(text + after) == Some((x, ")" + rest + after)) && Blocks(rest + after)
  }

  lemma EarlyAt(text: string, x: Expr, rest: string, after: string)
    requires ClosesEarly(text, x, rest) && Follows(after)
    ensures IsSolid(text) && Primary(text + after) == Some((x, ")" + rest + after)) && Blocks(rest + after)
    ensures Commands(rest + after) == rest + after && !IsBlank(rest + after)
  {
    assert (rest + after)[0] == rest[0];
    assert rest[0] in rest + after;
    assert !IsSpace(rest[0]);
    SkipNothing(rest + after);
  }

  lemma EarlyGroup(s: string, x: Expr, rest: string)
    requires Search(s) == Some((x, ")" + rest))
    ensures Group("(" + s) == Some((x, rest))
  {
    SkipNothing(")" + rest);
    hide Search, SkipSpaces;
    assert ("(" + s)[1..] == s && (")" + rest)[1..] == rest;
  }

  lemma CloseBlocks(rest: string)
    ensures Blocks(")" + rest)
  {
    SkipNothing(")" + rest);
    BlocksWhen(")" + rest, ")" + rest);
  }

  lemma Shift(rest: string, after: string)
    ensures ")" + rest + after == ")" + (rest + after)
  {
  }

  lemma EarlyFails(text: string, x: Expr, rest: string, n: nat)
    requires ClosesEarly(text, x, rest) && SafeCommas(text) && n > 0
    ensures ParseMpl(CopiesQuery(text, n)).None?
  {
    hide *;
    var after := After(text, n);
    QueryShape(text, n);
    EarlyAt(text, x, rest, after);
    SolidAppended(text, after);
    Shift(rest, after);
    CloseBlocks(rest + after);
    SearchStops(text + after, x, ")" + (rest + after));
    EarlyGroup(text + after, x, rest + after);
    Parenthesised(text + after);
    OnlyGroups("(" + (text + after));
    SearchStops("(" + (text + after), x, rest + after);
    QueryIsSearched(text, n);
  }

  lemma EarlyIsLost(schema: Schema, e: Event, text: string, x: Expr, rest: string)
    requires ClosesEarly(text, x, rest)
    ensures IsLost(schema, e, text)
  {
    assert SafeCommas(text);
    hide *;
    forall n: nat | n > 0 ensures ParseMpl(CopiesQuery(text, n)).None? {
      EarlyFails(text, x, rest, n);
    }
    NoneIsLost(schema, e, text);
  }

  // ----- Texts that read as another condition

  lemma CopiesSearched(text: string, x: Expr, n: nat)
    requires IsPrimary(text, x) && n > 0
    ensures Search(CopiesQuery(text, n)) == Some((Disjunction(Copies(x, n)), " | head 500"))
  {
    hide IsPrimary, IsConjunct, Search, Disjunction;
    PrimaryIsConjunct(text, x);
    var body := "(" + JoinText(Copies(text, n), " OR ") + ")";
    GroupIsPrimary(Copies(text, n), Copies(x, n));
    assert body[0] == '(';
    BodySearched(body, Disjunction(Copies(x, n)));
  }

  lemma CopiesMatch(schema: Schema, e: Event, x: Expr, n: nat)
    requires n > 0 && !Matches(schema, e, x)
    ensures !Matches(schema, e, Disjunction(Copies(x, n)))
  {
  }

  lemma OtherIsLost(schema: Schema, e: Event, text: string, x: Expr)
    requires IsPrimary(text, x) && SafeCommas(text) && !Matches(schema, e, x)
    ensures IsLost(schema, e, text)
  {
    hide IsPrimary, SafeCommas, Search, Disjunction, Matches, ParseMpl, CopiesQuery, Commands;
    forall n: nat | n > 0 && ParseMpl(CopiesQuery(text, n)).Some?
      ensures !Matches(schema, e, ParseMpl(CopiesQuery(text, n)).value)
    {
      QueryIsSearched(text, n);
      CopiesSearched(text, x, n);
      CopiesMatch(schema, e, x, n);
    }
  }

  // ----- Texts that fall apart at a blank

  function Split(blank: char): string {
    "x=*x" + [blank] + "y*"
  }

  // What is left of a query of such texts behind the first x=*x, with k more copies to come.
  function Pieces(blank: char, k: nat): string {
    [blank] + ("y*" + if k == 0 then ")" + " | head 500" else " OR " + ("x=*x" + Pieces(blank, k - 1)))
  }

  function BehindPiece(blank: char, k: nat): string {
    if k == 0 then ")" + " | head 500" else " OR " + ("x=*x" + Pieces(blank, k - 1))
  }

  lemma CopiesGrow(text: string, k: nat)
    requires k > 0
    ensures Tail(Copies(text, k), " OR ") == " OR " + text + Tail(Copies(text, k - 1), " OR ")
  {
    assert Copies(text, k)[1..] == Copies(text, k - 1);
  }

  lemma SplitAppended(blank: char, rest: string)
    ensures " OR " + Split(blank) + rest == " OR " + ("x=*x" + ([blank] + ("y*" + rest)))
  {
  }

  lemma Associates(a: string, b: string, c: string)
    ensures a + b + c == a + (b + c)
  {
  }

  lemma {:induction false} CopiesArePieces(blank: char, k: nat)
    ensures [blank] + ("y*" + (Tail(Copies(Split(blank), k), " OR ") + ")" + " | head 500")) == Pieces(blank, k)
  {
    var text, limit := Split(blank), ")" + " | head 500";
    if k == 0 {
      assert Tail(Copies(text, k), " OR ") == [];
      assert [] + ")" + " | head 500" == limit;
    } else {
      var tail := Tail(Copies(text, k - 1), " OR ");
      CopiesArePieces(blank, k - 1);
      CopiesGrow(text, k);
      hide Split, Tail;
      Associates(" OR " + text, tail, limit);
      Associates(" OR " + text + tail, ")", " | head 500");
      Associates(tail, ")", " | head 500");
      SplitAppended(blank, tail + limit);
    }
  }

  lemma StartIsRead(rest: string)
    requires rest != [] && IsBreak(rest[0])
    ensures Primary("x=*x" + rest) == Some((Field("x", Eq, "*x"), rest))
  {
    assert !IsBreak('*') && !IsBreak('x');
    hide IsBreak;
    BreakEnds("*x", rest);
    assert ReadQuoted("*x" + rest, '"').None? && ReadQuoted("*x" + rest, '\'').None?;
    assert ("*x" + rest)[..2] == "*x" && ("*x" + rest)[2..] == rest;
    assert ReadValue("*x" + rest) == Some(("*x", rest));
    hide Primary, ReadValue;
    CompareReads("x", Eq, "=", "*x", "*x", rest);
    assert "x" + "=" + "*x" + rest == "x=*x" + rest;
  }

  lemma BlankBreaks(blank: char)
    requires IsSpace(blank)
    ensures IsBreak(blank)
  {
  }

  lemma {:induction false} TokenEnds(word: string, rest: string)
    requires (forall i | 0 <= i < |word| :: !EndsToken(word[i])) && rest != [] && EndsToken(rest[0])
    ensures UntilTokenEnds(word + rest) == |word|
  {
    if word == [] {
      assert word + rest == rest;
    } else {
      assert (word + rest)[1..] == word[1..] + rest;
      TokenEnds(word[1..], rest);
    }
  }

  lemma WordIsRead(word: string, rest: string)
    requires word != [] && (forall i | 0 <= i < |word| :: !EndsToken(word[i])) && rest != [] && EndsToken(rest[0])
    ensures BareWord(word + rest) == Some((if HasGlob(word) then Wildcard(word) else BareToken(word), rest))
  {
    TokenEnds(word, rest);
    assert (word + rest)[..|word|] == word && (word + rest)[|word|..] == rest;
  }

  lemma NoOperator(rest: string)
    requires rest != [] && rest[0] !in ['=', '<', '>'] && (rest[0] == '!' ==> |rest| > 1 && rest[1] != '=')
    ensures Operator(rest).None?
  {
    assert rest[..1][0] == rest[0];
    assert |rest| >= 2 ==> rest[..2][0] == rest[0] && rest[..2][1] == rest[1];
  }

  lemma NoListWord(t: string)
    requires t != [] && t[0] !in ['i', 'I']
    ensures |t| < 2 || ToLower(t[..2]) != "in"
  {
    assert |t| >= 2 ==> ToLower(t[..2])[0] != "in"[0];
  }

  lemma NoNotWord(t: string)
    requires t != [] && t[0] !in ['n', 'N']
    ensures !StartsWith(t, "NOT") && !StartsWith(t, "not")
  {
    assert |t| >= 3 ==> t[..3][0] == t[0];
  }

  lemma NoList(letter: char, rest: string)
    requires FieldName([letter] + rest) == Some(([letter], rest))
    requires SkipSpaces(rest) != [] && SkipSpaces(rest)[0] !in ['i', 'I', 'n', 'N']
    ensures FieldInList([letter] + rest).None?
  {
    var t := SkipSpaces(rest);
    assert Spaces(rest).Some? ==> Spaces(rest).value == t;
    hide SkipSpaces, FieldName, ToLower, StartsWith, Spaces;
    NoListWord(t);
    NoNotWord(t);
  }

  // A letter with no sign of a comparison and no list behind it.
  lemma NoComparison(letter: char, rest: string)
    requires letter in ['x', 'y'] && rest != [] && !IsNameChar(rest[0]) && Operator(rest).None?
    requires SkipSpaces(rest) != [] && SkipSpaces(rest)[0] !in ['i', 'I', 'n', 'N']
    ensures Primary([letter] + rest) == BareWord([letter] + rest)
  {
    var s := [letter] + rest;
    NotAt(s);
    assert !StartsWith(s, "!") by {
      assert s[..1][0] == letter;
    }
    assert Group(s).None? && Word(s, "NOT").None?;
    hide StartsWith, Operator, Group, FieldInList, BareWord, Word, FieldName;
    FieldNameReads([letter], rest);
    NoList(letter, rest);
    assert FieldCompare(s).None?;
    hide FieldCompare;
  }

  lemma EndIsRead(rest: string)
    requires Follows(rest) && SkipSpaces(rest) != [] && SkipSpaces(rest)[0] in ['O', ')']
    ensures Primary("y*" + rest) == Some((Wildcard("y*"), rest))
  {
    var after := "*" + rest;
    assert "y*" + rest == ['y'] + after;
    assert EndsToken(rest[0]) && !EndsToken('y') && !EndsToken('*');
    hide Primary, EndsToken, BareWord, Operator, IsNameChar;
    SkipNothing(after);
    NoOperator(after);
    StarEndsName();
    NoComparison('y', after);
    WordIsRead("y*", rest);
  }

  lemma StarEndsName()
    ensures !IsNameChar('*') && HasGlob("y*")
  {
    assert "y*"[1] == '*';
  }

  lemma OrBehindPiece(blank: char, k: nat)
    requires k > 0
    ensures BehindPiece(blank, k) == " " + "OR" + " " + ("x=*x" + Pieces(blank, k - 1))
    ensures SkipSpaces(BehindPiece(blank, k)) == "OR " + ("x=*x" + Pieces(blank, k - 1))
  {
    hide Pieces;
    var t := "OR " + ("x=*x" + Pieces(blank, k - 1));
    assert BehindPiece(blank, k) == " " + t;
    assert t[0] == 'O';
    SkipBlank(t);
  }

  lemma BehindPieceNoAnd(blank: char, k: nat)
    ensures var rest := BehindPiece(blank, k);
      Follows(rest) && SkipSpaces(rest) != [] && SkipSpaces(rest)[0] in ['O', ')'] && AndTail(rest) == ([], rest)
  {
    hide AndTail, OrTail, SearchTail, Pieces;
    if k == 0 {
      StopsEverything(")" + " | head 500");
      SkipNothing(")" + " | head 500");
    } else {
      OrBehindPiece(blank, k);
      OrWordStopsAnd("x=*x" + Pieces(blank, k - 1));
    }
  }

  lemma PieceStart(blank: char, k: nat)
    requires IsSpace(blank)
    ensures Pieces(blank, k)[0] == blank
    ensures Spaces(Pieces(blank, k)) == Some("y*" + BehindPiece(blank, k))
    ensures SkipSpaces(Pieces(blank, k)) == "y*" + BehindPiece(blank, k)
  {
    var s, t := Pieces(blank, k), "y*" + BehindPiece(blank, k);
    assert s == [blank] + t;
    assert s[1..] == t;
    SkipNothing(t);
  }

  lemma PiecesContinue(blank: char, k: nat)
    requires IsSpace(blank)
    ensures AndTail(Pieces(blank, k)) == ([], Pieces(blank, k)) && OrTail(Pieces(blank, k)) == ([], Pieces(blank, k))
  {
    PieceStart(blank, k);
    var t := "y*" + BehindPiece(blank, k);
    assert |t| >= 3 ==> t[..3][0] == 'y';
    assert t[..2][0] == 'y';
    assert Word(t, "AND").None? && Word(t, "OR").None?;
    hide Pieces, SkipSpaces, Word, BehindPiece;
  }

  // y* and, unless it is the last, the start of the next copy.
  lemma PieceReads(blank: char, k: nat) returns (x: Expr)
    requires IsSpace(blank)
    ensures OrExpr("y*" + BehindPiece(blank, k)) == Some((x, if k == 0 then ")" + " | head 500" else Pieces(blank, k - 1)))
  {
    var after, end := BehindPiece(blank, k), Wildcard("y*");
    hide AndTail, OrTail, Primary, AndExpr, OrExpr, Pieces, SkipSpaces, Word;
    BehindPieceNoAnd(blank, k);
    EndIsRead(after);
    AndReads("y*" + after, end, after, [], after);
    assert Conjunction([end] + []) == end;
    if k == 0 {
      StopsEverything(after);
      OrReads("y*" + after, end, after, [], after);
      x := Disjunction([end] + []);
    } else {
      var start, rest := Field("x", Eq, "*x"), Pieces(blank, k - 1);
      PieceStart(blank, k - 1);
      PiecesContinue(blank, k - 1);
      BlankBreaks(blank);
      StartIsRead(rest);
      AndReads("x=*x" + rest, start, rest, [], rest);
      assert Conjunction([start] + []) == start;
      OrBehindPiece(blank, k);
      WordBetweenBlanks("OR", "x=*x" + rest);
      OrTailStep(after, "x=*x" + rest, start, rest, [], rest);
      OrReads("y*" + after, end, after, [start] + [], rest);
      x := Disjunction([end] + ([start] + []));
    }
  }

  lemma SearchTailStep(s: string, t: string, x: Expr, after: string, xs: seq<Expr>, rest: string)
    requires Separator(s) == Some(t) && OrExpr(t) == Some((x, after)) && SearchTail(after) == (xs, rest)
    ensures SearchTail(s) == ([x] + xs, rest)
  {
    hide OrExpr, Separator;
  }

  lemma {:induction false} PiecesRead(blank: char, k: nat) returns (ys: seq<Expr>)
    requires IsSpace(blank)
    ensures SearchTail(Pieces(blank, k)) == (ys, ")" + " | head 500")
  {
    PieceStart(blank, k);
    assert Separator(Pieces(blank, k)) == Some("y*" + BehindPiece(blank, k));
    hide *;
    var x := PieceReads(blank, k);
    if k == 0 {
      CloseStops();
      SearchTailStep(Pieces(blank, k), "y*" + BehindPiece(blank, k), x, ")" + " | head 500", [], ")" + " | head 500");
      ys := [x] + [];
    } else {
      var zs := PiecesRead(blank, k - 1);
      SearchTailStep(Pieces(blank, k), "y*" + BehindPiece(blank, k), x, Pieces(blank, k - 1), zs, ")" + " | head 500");
      ys := [x] + zs;
    }
  }

  lemma CloseStops()
    ensures SearchTail(")" + " | head 500") == ([], ")" + " | head 500")
  {
    hide SearchTail, AndTail, OrTail;
    StopsEverything(")" + " | head 500");
  }

  lemma SplitShape(blank: char, n: nat)
    requires n > 0
    ensures CopiesQuery(Split(blank), n) == "(" + ("x=*x" + Pieces(blank, n - 1))
  {
    hide Pieces, Tail, CopiesQuery;
    QueryShape(Split(blank), n);
    CopiesArePieces(blank, n - 1);
    var tail := Tail(Copies(Split(blank), n - 1), " OR ") + ")" + " | head 500";
    assert Split(blank) + tail == "x=*x" + ([blank] + ("y*" + tail));
  }

  lemma StartIsSolid(rest: string)
    ensures IsSolid("x=*x" + rest)
  {
  }

  // The first condition is needed, whatever the others are.
  lemma SplitSearched(blank: char, n: nat) returns (ys: seq<Expr>)
    requires IsSpace(blank) && n > 0
    ensures Search(CopiesQuery(Split(blank), n)) == Some((Conjunction([Field("x", Eq, "*x")] + ys), " | head 500"))
  {
    hide *;
    var start, rest := Field("x", Eq, "*x"), Pieces(blank, n - 1);
    SplitShape(blank, n);
    ys := PiecesRead(blank, n - 1);
    PieceIsBlank(blank, n - 1);
    PiecesContinue(blank, n - 1);
    BlankBreaks(blank);
    StartIsRead(rest);
    StartIsSolid(rest);
    StartSearched("x=*x" + rest, start, rest, ys);
    ClosedSearch("x=*x" + rest, Conjunction([start] + ys));
  }

  lemma PieceIsBlank(blank: char, k: nat)
    ensures Pieces(blank, k) != [] && Pieces(blank, k)[0] == blank
  {
  }

  lemma StartSearched(s: string, x: Expr, rest: string, ys: seq<Expr>)
    requires IsSolid(s) && Primary(s) == Some((x, rest))
    requires AndTail(rest) == ([], rest) && OrTail(rest) == ([], rest) && SearchTail(rest) == (ys, ")" + " | head 500")
    ensures Search(s) == Some((Conjunction([x] + ys), ")" + " | head 500"))
  {
    hide Primary, AndTail, OrTail, SearchTail, AndExpr, OrExpr, Search;
    assert [x] + [] == [x];
    AndReads(s, x, rest, [], rest);
    OrReads(s, x, rest, [], rest);
    SearchReads(s, x, rest, ys, ")" + " | head 500");
  }

  lemma LimitBlocks()
    ensures Blocks(" | head 500")
  {
    hide SearchTail, AndTail, OrTail;
    StopsEverything(" | head 500");
  }

  lemma ClosedSearch(s: string, x: Expr)
    requires Search(s) == Some((x, ")" + " | head 500"))
    ensures Search("(" + s) == Some((x, " | head 500"))
  {
    hide *;
    EarlyGroup(s, x, " | head 500");
    Parenthesised(s);
    OnlyGroups("(" + s);
    LimitBlocks();
    SearchStops("(" + s, x, " | head 500");
  }

  lemma ConjunctionFails(schema: Schema, e: Event, x: Expr, ys: seq<Expr>)
    requires !Matches(schema, e, x)
    ensures !Matches(schema, e, Conjunction([x] + ys))
  {
    assert ([x] + ys)[0] == x;
  }

  lemma SplitIsLost(schema: Schema, e: Event, blank: char)
    requires IsSpace(blank) && !Matches(schema, e, Field("x", Eq, "*x"))
    ensures IsLost(schema, e, Split(blank))
  {
    assert ',' !in Split(blank);
    NoCommasAreSafe(Split(blank));
    hide SafeCommas, Search, Conjunction, Matches, ParseMpl, CopiesQuery, Commands, Split;
    forall n: nat | n > 0 && ParseMpl(CopiesQuery(Split(blank), n)).Some?
      ensures !Matches(schema, e, ParseMpl(CopiesQuery(Split(blank), n)).value)
    {
      var ys := SplitSearched(blank, n);
      QueryIsSearched(Split(blank), n);
      ConjunctionFails(schema, e, Field("x", Eq, "*x"), ys);
    }
  }
}
