/** The command tokenizer: quote state, code-unit offsets, and the free-text bodies sliced by them. */
module CommandTokenizer {
  import opened Options
  import opened Text

  datatype Token = Token(value: Str16, start: int)

  // The closing quote of an opening one.
  function Closing(c: CodeUnit): Option<CodeUnit> {
    if c == 0x22 || c == 0x27 || c == 0xFF02 then Some(c)
    else if c == 0x201C then Some(0x201D)
    else if c == 0x2018 then Some(0x2019)
    else None
  }

  // The tokenizer's locals; start is -1 outside a token.
  datatype Cursor = Cursor(current: Str16, start: int, closing: Option<CodeUnit>)

  const FRESH := Cursor([], -1, None)

  ghost predicate Good(cur: Cursor, i: nat) {
    && -1 <= cur.start < i
    && (cur.start == -1 ==> cur == FRESH)
  }

  function Left(cur: Cursor): seq<Token> {
    if cur.current == [] then [] else [Token(cur.current, cur.start)]
  }

  // An unquoted white space ends the token.
  predicate Ends(cur: Cursor, c: CodeUnit) {
    cur.closing.None? && Closing(c).None? && IsSpace(c)
  }

  function Next(cur: Cursor, c: CodeUnit, i: nat): Cursor {
    if cur.closing.Some? then
      if c == cur.closing.value then cur.(closing := None) else cur.(current := cur.current + [c])
    else if Ends(cur, c) then FRESH
    else
      var start := if cur.start == -1 then i else cur.start;
      if Closing(c).Some? then cur.(start := start, closing := Closing(c))
      else cur.(start := start, current := cur.current + [c])
  }

  // The tokens from offset i on, one code unit at a time.
  function Scan(s: Str16, i: nat, cur: Cursor): seq<Token>
    requires i <= |s|
    decreases |s| - i
  {
    if i == |s| then Left(cur)
    else (if Ends(cur, s[i]) then Left(cur) else []) + Scan(s, i + 1, Next(cur, s[i], i))
  }

  function Tokenize(s: Str16): seq<Token> {
    Scan(s, 0, FRESH)
  }

  function Values(tokens: seq<Token>): (r: seq<Str16>)
    ensures |r| == |tokens| && forall k | 0 <= k < |r| :: r[k] == tokens[k].value
  {
    seq(|tokens|, k requires 0 <= k < |tokens| => tokens[k].value)
  }

  function Shift(tokens: seq<Token>, d: int): (r: seq<Token>)
    ensures |r| == |tokens| && forall k | 0 <= k < |r| :: r[k] == Token(tokens[k].value, tokens[k].start + d)
  {
    seq(|tokens|, k requires 0 <= k < |tokens| => Token(tokens[k].value, tokens[k].start + d))
  }

  // --- Offsets ---

  // At the start of token k the tokenizer is fresh, and the tokens from there are the rest.
  ghost predicate FreshAt(s: Str16, tokens: seq<Token>, from: int, k: nat)
    requires k < |tokens|
  {
    var start := tokens[k].start;
    && 0 <= start < |s| && from <= start && tokens[k].value != []
    && (k > 0 ==> tokens[k - 1].start < start)
    && !IsSpace(s[start]) && Scan(s, start, FRESH) == tokens[k..]
  }

  ghost predicate AllFresh(s: Str16, tokens: seq<Token>, from: int) {
    forall k: nat | k < |tokens| :: FreshAt(s, tokens, from, k)
  }

  ghost predicate Resumes(s: Str16, i: nat, cur: Cursor)
    requires i <= |s|
  {
    cur.start >= 0 ==> cur.start < i && !IsSpace(s[cur.start]) && Scan(s, cur.start, FRESH) == Scan(s, i, cur)
  }

  lemma {:induction false} TokensAreFresh(s: Str16, i: nat, cur: Cursor)
    requires i <= |s| && Good(cur, i) && Resumes(s, i, cur)
    ensures AllFresh(s, Scan(s, i, cur), if cur.start == -1 then i else cur.start)
    decreases |s| - i
  {
    var tokens := Scan(s, i, cur);
    var from := if cur.start == -1 then i else cur.start;
    if i == |s| {
      assert tokens[0..] == tokens;
    } else {
      var c := s[i];
      var next := Next(cur, c, i);
      QuotesAreNotSpaces(c);
      var rest := Scan(s, i + 1, next);
      if Ends(cur, c) {
        TokensAreFresh(s, i + 1, next);
        PrependFresh(s, i, cur, rest);
      } else {
        assert tokens == rest;
        TokensAreFresh(s, i + 1, next);
      }
    }
  }

  lemma QuotesAreNotSpaces(c: CodeUnit)
    ensures Closing(c).Some? ==> !IsSpace(c)
  {
  }

  lemma PrependFresh(s: Str16, i: nat, cur: Cursor, rest: seq<Token>)
    requires i < |s| && Good(cur, i) && Resumes(s, i, cur) && Scan(s, i, cur) == Left(cur) + rest
    requires AllFresh(s, rest, i + 1)
    ensures AllFresh(s, Left(cur) + rest, if cur.start == -1 then i else cur.start)
  {
    hide Scan, Ends, Next, IsSpace;
    var tokens := Left(cur) + rest;
    var from := if cur.start == -1 then i else cur.start;
    if cur.current == [] {
      assert tokens == rest;
      forall k: nat | k < |tokens| ensures FreshAt(s, tokens, from, k) {
        assert FreshAt(s, rest, i + 1, k);
      }
    } else {
      forall k: nat | k < |tokens| ensures FreshAt(s, tokens, from, k) {
        if k == 0 {
          assert tokens[0..] == tokens;
        } else {
          assert FreshAt(s, rest, i + 1, k - 1);
          assert tokens[k..] == rest[k - 1..];
        }
      }
    }
  }

  // Scanning does not look back: offsets count from wherever the text begins.
  function Moved(cur: Cursor, d: int): Cursor {
    if cur.start == -1 then cur else cur.(start := cur.start - d)
  }

  lemma NextMoves(cur: Cursor, c: CodeUnit, i: nat, d: nat)
    requires d <= i && Good(cur, i) && (cur.start == -1 || cur.start >= d)
    ensures Next(Moved(cur, d), c, i - d) == Moved(Next(cur, c, i), d)
    ensures Good(Next(cur, c, i), i + 1) && (Next(cur, c, i).start == -1 || Next(cur, c, i).start >= d)
    ensures Ends(Moved(cur, d), c) == Ends(cur, c) && Left(cur) == Shift(Left(Moved(cur, d)), d)
  {
    hide Closing, IsSpace;
  }

  lemma ShiftConcat(a: seq<Token>, b: seq<Token>, d: int)
    ensures Shift(a + b, d) == Shift(a, d) + Shift(b, d)
  {
  }

  lemma {:induction false} ScanOfSuffix(s: Str16, d: nat, i: nat, cur: Cursor)
    requires d <= i <= |s| && Good(cur, i) && (cur.start == -1 || cur.start >= d)
    ensures Scan(s, i, cur) == Shift(Scan(s[d..], i - d, Moved(cur, d)), d)
    decreases |s| - i
  {
    hide Next, Ends, Left, Moved, Good, Shift, Scan;
    var moved, suffix := Moved(cur, d), s[d..];
    if i == |s| {
      NextMoves(cur, SPACE, i, d);
      NothingToScan(s, cur);
      NothingToScan(suffix, moved);
    } else {
      var c := s[i];
      assert c == suffix[i - d];
      NextMoves(cur, c, i, d);
      ScanOne(s, i, cur);
      ScanOne(suffix, i - d, moved);
      ScanOfSuffix(s, d, i + 1, Next(cur, c, i));
      var rest := Scan(suffix, i + 1 - d, Moved(Next(cur, c, i), d));
      ShiftConcat(if Ends(moved, c) then Left(moved) else [], rest, d);
      assert Shift([], d) == [] by { ShiftNothing(d); }
    }
  }

  lemma ShiftNothing(d: int)
    ensures Shift([], d) == []
  {
  }

  /** From the start of any token, the input tokenizes to the remaining tokens with shifted offsets. */
  lemma RetokenizeFromToken(s: Str16, k: nat)
    requires k < |Tokenize(s)|
    ensures var tokens := Tokenize(s);
            && 0 <= tokens[k].start < |s| && !IsSpace(s[tokens[k].start])
            && Tokenize(s[tokens[k].start..]) == Shift(tokens[k..], -tokens[k].start)
  {
    hide Scan, Next, Ends, IsSpace;
    var tokens := Tokenize(s);
    TokensAreFresh(s, 0, FRESH);
    assert FreshAt(s, tokens, 0, k);
    var d := tokens[k].start;
    ScanOfSuffix(s, d, d, FRESH);
    var again := Tokenize(s[d..]);
    assert tokens[k..] == Shift(again, d);
    assert again == Shift(Shift(again, d), -d);
  }

  /** Tokens are never empty, and their starts strictly increase inside the input. */
  lemma TokensAreOrdered(s: Str16)
    ensures var tokens := Tokenize(s);
            && (forall k | 0 <= k < |tokens| :: tokens[k].value != [] && 0 <= tokens[k].start < |s|)
            && (forall j, k | 0 <= j < k < |tokens| :: tokens[j].start < tokens[k].start)
  {
    hide Scan;
    var tokens := Tokenize(s);
    TokensAreFresh(s, 0, FRESH);
    forall k: nat | k < |tokens| ensures tokens[k].value != [] && 0 <= tokens[k].start < |s| {
      assert FreshAt(s, tokens, 0, k);
    }
    forall j: nat, k: nat | j < k < |tokens| ensures tokens[j].start < tokens[k].start {
      StartsIncrease(s, tokens, j, k);
    }
  }

  lemma {:induction false} StartsIncrease(s: Str16, tokens: seq<Token>, j: nat, k: nat)
    requires AllFresh(s, tokens, 0) && j < k < |tokens|
    ensures tokens[j].start < tokens[k].start
    decreases k
  {
    hide Scan;
    assert FreshAt(s, tokens, 0, k);
    if j < k - 1 {
      StartsIncrease(s, tokens, j, k - 1);
    }
  }

  // --- Quoting ---

  // A value and the quote that opens it.
  datatype Quoted = Quoted(open: CodeUnit, value: Str16)

  predicate Quotable(q: Quoted) {
    Closing(q.open).Some? && q.value != [] && Closing(q.open).value !in q.value
  }

  function Quote(q: Quoted): Str16
    requires Quotable(q)
  {
    [q.open] + q.value + [Closing(q.open).value]
  }

  // The quoted values joined by spaces.
  function Joined(qs: seq<Quoted>): Str16
    requires forall q | q in qs :: Quotable(q)
  {
    if qs == [] then []
    else if |qs| == 1 then Quote(qs[0])
    else Quote(qs[0]) + [SPACE] + Joined(qs[1..])
  }

  // The values, at the offsets of their opening quotes.
  function QuotedTokens(qs: seq<Quoted>, at: int): seq<Token> {
    if qs == [] then [] else [Token(qs[0].value, at)] + QuotedTokens(qs[1..], at + |qs[0].value| + 3)
  }

  // Inside a quote, everything up to the closing character is copied.
  lemma {:induction false} ScanInsideQuote(s: Str16, i: nat, n: nat, cur: Cursor)
    requires i + n < |s| && cur.closing == Some(s[i + n]) && cur.closing.value !in s[i..i + n]
    ensures Scan(s, i, cur) == Scan(s, i + n + 1, Cursor(cur.current + s[i..i + n], cur.start, None))
    decreases n
  {
    hide Closing, IsSpace, Scan;
    ScanOne(s, i, cur);
    var next := Next(cur, s[i], i);
    assert [] + Scan(s, i + 1, next) == Scan(s, i + 1, next);
    if n == 0 {
      assert cur.current + s[i..i + n] == cur.current;
    } else {
      assert s[i] in s[i..i + n];
      assert s[i + 1..i + n] == s[i..i + n][1..];
      ScanInsideQuote(s, i + 1, n - 1, next);
      assert cur.current + s[i..i + n] == cur.current + [s[i]] + s[i + 1..i + n];
    }
  }

  lemma ScanQuote(q: Quoted, rest: Str16)
    requires Quotable(q)
    ensures Scan(Quote(q) + rest, 0, FRESH) == Scan(Quote(q) + rest, |q.value| + 2, Cursor(q.value, 0, None))
  {
    hide Closing;
    var s := Quote(q) + rest;
    var n := |q.value|;
    assert s[0] == q.open && s[1..1 + n] == q.value && s[n + 1] == Closing(q.open).value;
    var cur := Cursor([], 0, Closing(q.open));
    assert Next(FRESH, s[0], 0) == cur;
    ScanInsideQuote(s, 1, n, cur);
    assert [] + q.value == q.value;
  }

  /** Tokenizing undoes quoting, and each start is the offset of the opening quote. */
  lemma {:induction false} TokenizeUndoesQuoting(qs: seq<Quoted>)
    requires forall q | q in qs :: Quotable(q)
    ensures Tokenize(Joined(qs)) == QuotedTokens(qs, 0)
  {
    hide Closing, IsSpace, Scan;
    if qs == [] {
      NothingToScan([], FRESH);
    } else {
      var q, n := qs[0], |qs[0].value|;
      var cur := Cursor(q.value, 0, None);
      if |qs| == 1 {
        assert Quote(q) + [] == Quote(q);
        ScanQuote(q, []);
        assert |Quote(q)| == n + 2;
        NothingToScan(Quote(q), cur);
        assert qs[1..] == [] && QuotedTokens(qs[1..], n + 3) == [];
      } else {
        var rest := Joined(qs[1..]);
        var s := Quote(q) + ([SPACE] + rest);
        assert Joined(qs) == s && s[n + 2] == SPACE && s[n + 3..] == rest;
        ScanQuote(q, [SPACE] + rest);
        SpaceEnds(s, n + 2, cur);
        ScanOfSuffix(s, n + 3, n + 3, FRESH);
        TokenizeUndoesQuoting(qs[1..]);
        ShiftQuoted(qs[1..], 0, n + 3);
      }
    }
  }

  lemma NothingToScan(s: Str16, cur: Cursor)
    ensures Scan(s, |s|, cur) == Left(cur)
  {
  }

  lemma SpaceEnds(s: Str16, i: nat, cur: Cursor)
    requires i < |s| && s[i] == SPACE && cur.closing.None?
    ensures Scan(s, i, cur) == Left(cur) + Scan(s, i + 1, FRESH)
  {
  }

  lemma {:induction false} ShiftQuoted(qs: seq<Quoted>, at: int, d: int)
    ensures Shift(QuotedTokens(qs, at), d) == QuotedTokens(qs, at + d)
  {
    if qs != [] {
      var first, rest := Token(qs[0].value, at), QuotedTokens(qs[1..], at + |qs[0].value| + 3);
      ShiftQuoted(qs[1..], at + |qs[0].value| + 3, d);
      ShiftConcat([first], rest, d);
      ShiftOne(first, d);
    }
  }

  lemma ShiftOne(token: Token, d: int)
    ensures Shift([token], d) == [Token(token.value, token.start + d)]
  {
  }

  // --- The loop over code points ---

  predicate IsSurrogate(c: CodeUnit) {
    0xD800 <= c <= 0xDFFF
  }

  // The code point at i, as `for (const char of input)` yields it: a surrogate pair in one piece.
  function CharAt(s: Str16, i: nat): (point: Str16)
    requires i < |s|
    ensures |point| == 1 || |point| == 2
    ensures i + |point| <= |s| && point == s[i..i + |point|]
    ensures |point| == 2 ==> forall c | c in point :: IsSurrogate(c)
  {
    if 0xD800 <= s[i] <= 0xDBFF && i + 1 < |s| && 0xDC00 <= s[i + 1] <= 0xDFFF then s[i..i + 2] else s[i..i + 1]
  }

  function ClosingOf(point: Str16): Option<CodeUnit> {
    if |point| == 1 then Closing(point[0]) else None
  }

  predicate HasSpace(point: Str16) {
    exists c :: c in point && IsSpace(c)
  }

  ghost predicate ClosesPlainly(cur: Cursor) {
    cur.closing.Some? ==> !IsSurrogate(cur.closing.value)
  }

  lemma ScanOne(s: Str16, i: nat, cur: Cursor)
    requires i < |s|
    ensures Scan(s, i, cur) == (if Ends(cur, s[i]) then Left(cur) else []) + Scan(s, i + 1, Next(cur, s[i], i))
  {
  }

  // A surrogate is copied: it is neither a quote nor a space.
  lemma SurrogateIsCopied(c: CodeUnit)
    requires IsSurrogate(c)
    ensures Closing(c).None? && !IsSpace(c)
  {
  }

  lemma ScanPair(s: Str16, i: nat, cur: Cursor)
    requires i + 2 <= |s| && IsSurrogate(s[i]) && IsSurrogate(s[i + 1]) && ClosesPlainly(cur) && Good(cur, i)
    ensures !HasSpace(s[i..i + 2])
    ensures var start := if cur.start == -1 then i else cur.start;
            Scan(s, i, cur) == Scan(s, i + 2, cur.(start := start, current := cur.current + s[i..i + 2]))
  {
    hide Closing, IsSpace, IsSurrogate, Scan;
    var a, b := s[i], s[i + 1];
    SurrogateIsCopied(a);
    SurrogateIsCopied(b);
    assert s[i..i + 2] == [a, b];
    ScanOne(s, i, cur);
    ScanOne(s, i + 1, Next(cur, a, i));
    assert (cur.current + [a]) + [b] == cur.current + [a, b];
    assert [] + ([] + Scan(s, i + 2, Next(Next(cur, a, i), b, i + 1)))
        == Scan(s, i + 2, Next(Next(cur, a, i), b, i + 1));
  }

  method TokenizeCommand(input: Str16) returns (tokens: seq<Token>)
    ensures tokens == Tokenize(input)
  {
    hide Scan, IsSpace, Closing, IsSurrogate;
    tokens := [];
    var current: Str16 := [];
    var start: int := -1;
    var closingQuote: Option<CodeUnit> := None;
    var offset := 0;
    assert [] + Tokenize(input) == Tokenize(input);
    while offset < |input|
      invariant offset <= |input|
      invariant Good(Cursor(current, start, closingQuote), offset)
          && ClosesPlainly(Cursor(current, start, closingQuote))
      invariant Tokenize(input) == tokens + Scan(input, offset, Cursor(current, start, closingQuote))
    {
      var point := CharAt(input, offset);
      var charStart := offset;
      ghost var cur := Cursor(current, start, closingQuote);
      CharScanned(input, offset, cur);
      offset := offset + |point|;
      if closingQuote.Some? {
        if point == [closingQuote.value] {
          closingQuote := None;
        } else {
          current := current + point;
        }
      } else {
        var close := ClosingOf(point);
        if close.Some? {
          if start == -1 { start := charStart; }
          closingQuote := close;
        } else if HasSpace(point) {
          if |current| > 0 {
            assert tokens + (Left(cur) + Scan(input, offset, FRESH))
                == (tokens + Left(cur)) + Scan(input, offset, FRESH);
            tokens := tokens + [Token(current, start)];
            current := [];
          } else {
            assert [] + Scan(input, offset, FRESH) == Scan(input, offset, FRESH);
          }
          start := -1;
        } else {
          if start == -1 { start := charStart; }
          current := current + point;
        }
      }
    }
    NothingToScan(input, Cursor(current, start, closingQuote));
    if |current| > 0 {
      tokens := tokens + [Token(current, start)];
    } else {
      assert tokens + [] == tokens;
    }
  }

  // The cursor after one code point, as the loop body computes it.
  function NextChar(cur: Cursor, point: Str16, i: nat): Cursor {
    var start := if cur.start == -1 then i else cur.start;
    if cur.closing.Some? then
      if point == [cur.closing.value] then cur.(closing := None) else cur.(current := cur.current + point)
    else if ClosingOf(point).Some? then cur.(start := start, closing := ClosingOf(point))
    else if HasSpace(point) then FRESH
    else cur.(start := start, current := cur.current + point)
  }

  // One code point moves the scan as its code units do.
  lemma CharScanned(s: Str16, i: nat, cur: Cursor)
    requires i < |s| && Good(cur, i) && ClosesPlainly(cur)
    ensures var point := CharAt(s, i);
            var ended := cur.closing.None? && ClosingOf(point).None? && HasSpace(point);
            && Scan(s, i, cur) == (if ended then Left(cur) else []) + Scan(s, i + |point|, NextChar(cur, point, i))
            && Good(NextChar(cur, point, i), i + |point|) && ClosesPlainly(NextChar(cur, point, i))
  {
    hide Closing, IsSpace, IsSurrogate, Scan;
    var point := CharAt(s, i);
    if |point| == 2 {
      assert s[i] == point[0] && s[i + 1] == point[1];
      ScanPair(s, i, cur);
      var next := Scan(s, i + 2, NextChar(cur, point, i));
      assert [] + next == next;
    } else {
      assert point == [s[i]];
      ScanOne(s, i, cur);
      QuotesAreNotSpaces(s[i]);
      ClosingIsPlain(s[i]);
      assert HasSpace(point) == IsSpace(s[i]);
    }
  }

  lemma ClosingIsPlain(c: CodeUnit)
    ensures Closing(c).Some? ==> !IsSurrogate(Closing(c).value)
  {
  }
}
