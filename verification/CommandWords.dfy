/** What a command line's tokens are, said by its words: bare characters and quoted texts between white space. */
module CommandWords {
  import opened Options
  import opened Text
  import opened CommandTokenizer

  // "...", '...', and the typographic pairs.
  predicate Quotes(open: CodeUnit, close: CodeUnit) {
    || (open == 0x22 && close == 0x22)
    || (open == 0x27 && close == 0x27)
    || (open == 0x201C && close == 0x201D)
    || (open == 0x2018 && close == 0x2019)
    || (open == 0xFF02 && close == 0xFF02)
  }

  // Unclosed is a quote that runs to the end of the input.
  datatype Part = Bare(c: CodeUnit) | Enclosed(open: CodeUnit, text: Str16, close: CodeUnit)
                | Unclosed(open: CodeUnit, text: Str16)

  predicate GoodPart(part: Part) {
    match part
    case Bare(c) => !IsSpace(c) && forall close :: !Quotes(c, close)
    case Enclosed(open, text, close) => Quotes(open, close) && close !in text
    case Unclosed(open, text) => exists close :: Quotes(open, close) && close !in text
  }

  function PartText(part: Part): Str16 {
    match part
    case Bare(c) => [c]
    case Enclosed(open, text, close) => [open] + text + [close]
    case Unclosed(open, text) => [open] + text
  }

  function PartValue(part: Part): Str16 {
    if part.Bare? then [part.c] else part.text
  }

  function WordText(word: seq<Part>): Str16 {
    if word == [] then [] else PartText(word[0]) + WordText(word[1..])
  }

  function WordValue(word: seq<Part>): Str16 {
    if word == [] then [] else PartValue(word[0]) + WordValue(word[1..])
  }

  // Only the last part may be unclosed, and only when nothing follows the word.
  predicate GoodWord(word: seq<Part>, last: bool) {
    && (forall p | p in word :: GoodPart(p))
    && forall k | 0 <= k < |word| && word[k].Unclosed? :: last && k == |word| - 1
  }

  // White space and the word after it.
  datatype Spaced = Spaced(gap: Str16, word: seq<Part>)

  // Words with white space between them; `tail` is what follows the last.
  predicate GoodLine(words: seq<Spaced>, tail: Str16) {
    && Blank(tail)
    && forall k | 0 <= k < |words| :: GoodPlace(words[k], k == 0, k == |words| - 1 && tail == [])
  }

  predicate GoodPlace(w: Spaced, first: bool, last: bool) {
    && Blank(w.gap) && (first || w.gap != [])
    && w.word != [] && GoodWord(w.word, last)
  }

  function LineText(words: seq<Spaced>, tail: Str16): Str16 {
    if words == [] then tail else words[0].gap + WordText(words[0].word) + LineText(words[1..], tail)
  }

  // Each word's value where it begins; words of empty quotes alone do not count.
  function WordTokens(words: seq<Spaced>, at: nat): seq<Token> {
    if words == [] then []
    else
      var w, start := words[0].word, at + |words[0].gap|;
      (if WordValue(w) == [] then [] else [Token(WordValue(w), start)]) + WordTokens(words[1..], start + |WordText(w)|)
  }

  lemma ClosingIs(c: CodeUnit)
    ensures forall close: CodeUnit :: Closing(c) == Some(close) <==> Quotes(c, close)
    ensures Closing(c).None? <==> forall close: CodeUnit :: !Quotes(c, close)
  {
    if Closing(c).Some? { assert Quotes(c, Closing(c).value); }
  }

  // Where white space or the end follows, the token is complete.
  lemma BreakHere(s: Str16, i: nat, cur: Cursor)
    requires i <= |s| && (i == |s| || (IsSpace(s[i]) && cur.closing.None?))
    ensures Scan(s, i, cur) == Left(cur) + Scan(s, i, FRESH)
  {
    hide IsSpace, Closing, Scan;
    if i == |s| {
      NothingToScan(s, cur);
      NothingToScan(s, FRESH);
      assert Left(cur) + [] == Left(cur);
    } else {
      QuotesAreNotSpaces(s[i]);
      ScanOne(s, i, cur);
      ScanOne(s, i, FRESH);
      assert [] + Scan(s, i + 1, FRESH) == Scan(s, i + 1, FRESH);
    }
  }

  lemma {:induction false} ScanGap(s: Str16, i: nat, n: nat)
    requires i + n <= |s| && Blank(s[i..i + n])
    ensures Scan(s, i, FRESH) == Scan(s, i + n, FRESH)
    decreases n
  {
    hide IsSpace, Closing, Scan;
    if n > 0 {
      assert s[i..i + n][0] == s[i] && s[i] in s[i..i + n];
      assert s[i + 1..i + n] == s[i..i + n][1..];
      QuotesAreNotSpaces(s[i]);
      ScanOne(s, i, FRESH);
      assert [] + Scan(s, i + 1, FRESH) == Scan(s, i + 1, FRESH);
      ScanGap(s, i + 1, n - 1);
    }
  }

  ghost predicate TextAt(s: Str16, i: nat, text: Str16) {
    i + |text| <= |s| && s[i..i + |text|] == text
  }

  lemma TextSplits(s: Str16, i: nat, a: Str16, b: Str16)
    ensures TextAt(s, i, a + b) <==> TextAt(s, i, a) && TextAt(s, i + |a|, b)
  {
    if i + |a| + |b| <= |s| {
      var whole := s[i..i + |a| + |b|];
      assert whole[..|a|] == s[i..i + |a|] && whole[|a|..] == s[i + |a|..i + |a| + |b|];
      assert whole == whole[..|a|] + whole[|a|..];
      assert (a + b)[..|a|] == a && (a + b)[|a|..] == b;
    }
  }

  lemma ScanBare(s: Str16, i: nat, cur: Cursor)
    requires i < |s| && GoodPart(Bare(s[i])) && cur.closing.None? && Good(cur, i)
    ensures Scan(s, i, cur)
         == Scan(s, i + 1, Cursor(cur.current + [s[i]], if cur.start == -1 then i else cur.start, None))
  {
    hide IsSpace, Closing, Scan;
    ClosingIs(s[i]);
    ScanOne(s, i, cur);
    var rest := Scan(s, i + 1, Next(cur, s[i], i));
    assert [] + rest == rest;
  }

  // The quote's first character: everything after it is copied until it closes.
  lemma ScanOpen(s: Str16, i: nat, cur: Cursor, close: CodeUnit)
    requires i < |s| && Quotes(s[i], close) && cur.closing.None? && Good(cur, i)
    ensures Scan(s, i, cur)
         == Scan(s, i + 1, Cursor(cur.current, if cur.start == -1 then i else cur.start, Some(close)))
  {
    hide IsSpace, Closing, Scan;
    ClosingIs(s[i]);
    ScanOne(s, i, cur);
    var rest := Scan(s, i + 1, Next(cur, s[i], i));
    assert [] + rest == rest;
  }

  lemma {:induction false} ScanToTheEnd(s: Str16, i: nat, cur: Cursor)
    requires i <= |s| && cur.closing.Some? && cur.closing.value !in s[i..]
    ensures Scan(s, i, cur) == Left(cur.(current := cur.current + s[i..]))
    decreases |s| - i
  {
    hide IsSpace, Closing, Scan;
    if i == |s| {
      NothingToScan(s, cur);
      assert cur.current + s[i..] == cur.current;
    } else {
      assert s[i..] == [s[i]] + s[i + 1..];
      ScanOne(s, i, cur);
      var next := Next(cur, s[i], i);
      assert [] + Scan(s, i + 1, next) == Scan(s, i + 1, next);
      ScanToTheEnd(s, i + 1, next);
      assert cur.current + [s[i]] + s[i + 1..] == cur.current + s[i..];
    }
  }

  // A part adds its value to the token and keeps its start.
  function Grown(cur: Cursor, i: nat, value: Str16): Cursor {
    Cursor(cur.current + value, if cur.start == -1 then i else cur.start, None)
  }

  lemma SliceOfSlice(s: Str16, i: nat, j: nat, a: nat, b: nat)
    requires i <= j <= |s| && a <= b <= j - i
    ensures s[i..j][a..b] == s[i + a..i + b]
  {
    assert forall k | 0 <= k < b - a :: s[i..j][a..b][k] == s[i..j][a + k] == s[i + (a + k)] == s[i + a..i + b][k];
  }

  lemma GrownTwice(cur: Cursor, i: nat, a: Str16, k: nat, b: Str16)
    ensures Grown(cur, i, a).closing.None?
    ensures Grown(Grown(cur, i, a), k, b) == Grown(cur, i, a + b)
  {
    var next := Grown(cur, i, a);
    assert next.current + b == cur.current + (a + b);
  }

  lemma ScanEnclosed(s: Str16, i: nat, part: Part, cur: Cursor)
    requires part.Enclosed? && GoodPart(part) && TextAt(s, i, PartText(part)) && cur.closing.None? && Good(cur, i)
    ensures Scan(s, i, cur) == Scan(s, i + |PartText(part)|, Grown(cur, i, part.text))
  {
    hide IsSpace, Closing, Scan, TextAt;
    var n, start := |part.text|, if cur.start == -1 then i else cur.start;
    EnclosedAt(s, i, part);
    ScanOpen(s, i, cur, part.close);
    ScanInsideQuote(s, i + 1, n, Cursor(cur.current, start, Some(part.close)));
  }

  lemma EnclosedAt(s: Str16, i: nat, part: Part)
    requires part.Enclosed? && TextAt(s, i, PartText(part))
    ensures var n := |part.text|;
            && i + n + 1 < |s| && |PartText(part)| == n + 2
            && s[i] == part.open && s[i + 1 + n] == part.close && s[i + 1..i + 1 + n] == part.text
  {
    var n := |part.text|;
    var text := s[i..i + n + 2];
    assert text == PartText(part);
    assert s[i] == text[0] && s[i + n + 1] == text[n + 1];
    SliceOfSlice(s, i, i + n + 2, 1, n + 1);
    assert text[1..n + 1] == part.text;
  }

  lemma ScanPart(s: Str16, i: nat, part: Part, cur: Cursor)
    requires !part.Unclosed? && GoodPart(part) && TextAt(s, i, PartText(part)) && cur.closing.None? && Good(cur, i)
    ensures Scan(s, i, cur) == Scan(s, i + |PartText(part)|, Grown(cur, i, PartValue(part)))
    ensures i + |PartText(part)| <= |s| && Good(Grown(cur, i, PartValue(part)), i + |PartText(part)|)
  {
    hide IsSpace, Closing, Scan;
    if part.Bare? {
      assert s[i] == s[i..i + 1][0] == part.c;
      ScanBare(s, i, cur);
    } else {
      ScanEnclosed(s, i, part, cur);
    }
  }

  // A whole word, up to the white space or the end that follows it.
  lemma {:induction false} ScanWord(s: Str16, i: nat, word: seq<Part>, cur: Cursor)
    requires word != [] && GoodWord(word, i + |WordText(word)| == |s|) && TextAt(s, i, WordText(word))
    requires cur.closing.None? && Good(cur, i)
    requires var j := i + |WordText(word)|; j < |s| ==> IsSpace(s[j])
    ensures var j := i + |WordText(word)|;
            Scan(s, i, cur) == Left(Grown(cur, i, WordValue(word))) + Scan(s, j, FRESH)
    decreases |word|
  {
    hide IsSpace, Closing, Scan, GoodPart, Left, GoodWord, TextAt, Grown, Good, PartText, PartValue;
    var part, rest := word[0], word[1..];
    FirstPart(word, i + |WordText(word)| == |s|);
    TextSplits(s, i, PartText(part), WordText(rest));
    if part.Unclosed? {
      UnclosedValue(part);
      ScanUnclosed(s, i, part, cur);
    } else {
      ScanPart(s, i, part, cur);
      var next, k := Grown(cur, i, PartValue(part)), i + |PartText(part)|;
      GrownTwice(cur, i, PartValue(part), k, WordValue(rest));
      if rest == [] {
        BreakHere(s, k, next);
      } else {
        ScanWord(s, k, rest, next);
      }
    }
  }

  lemma FirstPart(word: seq<Part>, last: bool)
    requires word != [] && GoodWord(word, last)
    ensures var part, rest := word[0], word[1..];
            && GoodPart(part) && (part.Unclosed? ==> last && rest == [])
            && GoodWord(rest, last)
            && WordText(word) == PartText(part) + WordText(rest) && WordValue(word) == PartValue(part) + WordValue(rest)
            && (rest == [] ==> WordText(word) == PartText(part) && WordValue(word) == PartValue(part))
  {
    hide GoodPart;
    assert word[0] in word;
  }

  lemma UnclosedValue(part: Part)
    requires part.Unclosed?
    ensures PartValue(part) == part.text
  {
  }

  lemma HeadAndRest(s: Str16, i: nat, c: CodeUnit, text: Str16)
    requires TextAt(s, i, [c] + text) && i + 1 + |text| == |s|
    ensures s[i] == c && s[i + 1..] == text
  {
    var whole := s[i..|s|];
    assert whole[0] == s[i] && whole[1..] == s[i + 1..] && ([c] + text)[1..] == text;
  }

  lemma ScanUnclosed(s: Str16, i: nat, part: Part, cur: Cursor)
    requires part.Unclosed? && GoodPart(part) && TextAt(s, i, PartText(part)) && i + |PartText(part)| == |s|
    requires cur.closing.None? && Good(cur, i)
    ensures Scan(s, i, cur) == Left(Grown(cur, i, part.text)) + Scan(s, |s|, FRESH)
    ensures WordValue([part]) == part.text
  {
    hide IsSpace, Closing, Scan;
    var close :| Quotes(part.open, close) && close !in part.text;
    HeadAndRest(s, i, part.open, part.text);
    ScanOpen(s, i, cur, close);
    ScanToTheEnd(s, i + 1, Cursor(cur.current, if cur.start == -1 then i else cur.start, Some(close)));
    NothingToScan(s, FRESH);
    assert WordValue([part]) == part.text + WordValue([]);
  }

  lemma {:induction false} ScanLine(s: Str16, i: nat, words: seq<Spaced>, tail: Str16)
    requires i <= |s| && s[i..] == LineText(words, tail) && GoodLine(words, tail)
    ensures Scan(s, i, FRESH) == WordTokens(words, i)
    decreases |words|
  {
    hide Scan, GoodLine, LineText, WordText, WordValue;
    if words == [] {
      ScanTail(s, i, tail);
    } else {
      ScanFirst(s, i, words, tail);
      RestOfLine(words, tail);
      ScanLine(s, i + |words[0].gap| + |WordText(words[0].word)|, words[1..], tail);
    }
  }

  lemma ScanTail(s: Str16, i: nat, tail: Str16)
    requires i <= |s| && s[i..] == LineText([], tail) && GoodLine([], tail)
    ensures Scan(s, i, FRESH) == []
  {
    hide Scan, IsSpace, GoodLine, LineText;
    JustTail(tail);
    assert s[i..i + |tail|] == tail;
    ScanGap(s, i, |tail|);
    NothingToScan(s, FRESH);
  }

  // The first word of what is left, and where the rest begins.
  lemma ScanFirst(s: Str16, i: nat, words: seq<Spaced>, tail: Str16)
    requires i <= |s| && words != [] && s[i..] == LineText(words, tail) && GoodLine(words, tail)
    ensures var word, j := words[0].word, i + |words[0].gap|;
            var k := j + |WordText(word)|;
            && k <= |s| && s[k..] == LineText(words[1..], tail)
            && Scan(s, i, FRESH)
                 == (if WordValue(word) == [] then [] else [Token(WordValue(word), j)]) + Scan(s, k, FRESH)
  {
    hide IsSpace, Scan, GoodLine, LineText, GoodWord, Blank, WordText, WordValue, Left, TextAt, Grown;
    var word, j := words[0].word, i + |words[0].gap|;
    LineTextOf(words, tail);
    FrontOfLine(s, i, words[0].gap, WordText(word), LineText(words[1..], tail));
    AfterWord(words, tail);
    ScanGap(s, i, |words[0].gap|);
    ScanWord(s, j, word, FRESH);
    WordToken(j, WordValue(word));
  }

  lemma JustTail(tail: Str16)
    requires GoodLine([], tail)
    ensures LineText([], tail) == tail && Blank(tail)
  {
  }

  lemma WordToken(at: nat, value: Str16)
    ensures Left(Grown(FRESH, at, value)) == if value == [] then [] else [Token(value, at)]
  {
    assert [] + value == value;
  }

  lemma FrontOfLine(s: Str16, i: nat, gap: Str16, text: Str16, rest: Str16)
    requires i <= |s| && s[i..] == gap + text + rest
    ensures var j := i + |gap|; var k := j + |text|;
            && k <= |s| && s[i..j] == gap && TextAt(s, j, text) && s[k..] == rest
            && (k == |s| <==> rest == []) && (k < |s| ==> s[k] == rest[0])
  {
    var j := i + |gap|;
    var k := j + |text|;
    var whole := s[i..];
    assert whole[..|gap|] == gap && whole[|gap|..|gap| + |text|] == text && whole[|gap| + |text|..] == rest;
    assert s[i..j] == whole[..|gap|] && s[j..k] == whole[|gap|..|gap| + |text|] && s[k..] == whole[|gap| + |text|..];
    assert k < |s| ==> s[k..][0] == s[k];
  }

  lemma RestOfLine(words: seq<Spaced>, tail: Str16)
    requires GoodLine(words, tail) && words != []
    ensures GoodLine(words[1..], tail)
  {
    hide GoodWord, Blank;
    forall k | 0 <= k < |words| - 1
      ensures GoodPlace(words[1..][k], k == 0, k == |words| - 2 && tail == [])
    {
      assert GoodPlace(words[k + 1], false, k + 1 == |words| - 1 && tail == []);
    }
  }

  // What follows a word is white space, or nothing.
  lemma AfterWord(words: seq<Spaced>, tail: Str16)
    requires GoodLine(words, tail) && words != []
    ensures var rest := LineText(words[1..], tail);
            && (rest != [] ==> IsSpace(rest[0]))
            && Blank(words[0].gap) && words[0].word != [] && GoodWord(words[0].word, rest == [])
            && (rest == [] <==> |words| == 1 && tail == [])
  {
    hide IsSpace, GoodWord, WordText;
    assert GoodPlace(words[0], true, |words| == 1 && tail == []);
    if |words| > 1 {
      assert GoodPlace(words[1], false, |words| == 2 && tail == []);
      assert words[1..][0] == words[1];
      assert words[1].gap[0] in words[1].gap;
    } else {
      assert LineText(words[1..], tail) == tail;
      assert tail != [] ==> tail[0] in tail;
    }
  }

  /** A line tokenizes to the values of its words, bare characters as they are and quoted texts without their quotes,
      each at the offset of its word. */
  lemma TokensAreTheWords(words: seq<Spaced>, tail: Str16)
    requires GoodLine(words, tail)
    ensures Tokenize(LineText(words, tail)) == WordTokens(words, 0)
  {
    hide Scan, GoodLine;
    var s := LineText(words, tail);
    assert s[0..] == s;
    ScanLine(s, 0, words, tail);
  }

  // --- Every input is such a line ---

  lemma PrependPart(part: Part, words: seq<Spaced>, tail: Str16)
    requires GoodLine(words, tail) && GoodPart(part) && (part.Unclosed? ==> words == [] && tail == [])
    ensures exists words', tail' ::
              GoodLine(words', tail') && LineText(words', tail') == PartText(part) + LineText(words, tail)
  {
    if words != [] && words[0].gap == [] {
      JoinPart(part, words, tail);
    } else {
      StartPart(part, words, tail);
    }
  }

  lemma JoinPart(part: Part, words: seq<Spaced>, tail: Str16)
    requires GoodLine(words, tail) && GoodPart(part) && !part.Unclosed? && words != [] && words[0].gap == []
    ensures var words' := [Spaced([], [part] + words[0].word)] + words[1..];
            GoodLine(words', tail) && LineText(words', tail) == PartText(part) + LineText(words, tail)
  {
    var word := [part] + words[0].word;
    var words' := [Spaced([], word)] + words[1..];
    assert GoodPlace(words[0], true, |words| == 1 && tail == []);
    GoodWordGrows(part, words[0].word, |words| == 1 && tail == []);
    hide GoodPart, IsSpace, GoodWord, WordText, PartText, LineText;
    LineTextOf(words, tail);
    LineTextOf(words', tail);
    assert words'[1..] == words[1..];
    NoGap(PartText(part), WordText(words[0].word), LineText(words[1..], tail));
    forall k | 0 <= k < |words'| ensures GoodPlace(words'[k], k == 0, k == |words'| - 1 && tail == []) {
      assert k > 0 ==> words'[k] == words[k] && GoodPlace(words[k], k == 0, k == |words| - 1 && tail == []);
    }
  }

  lemma NoGap(part: Str16, text: Str16, rest: Str16)
    ensures [] + (part + text) + rest == part + ([] + text + rest)
  {
  }

  lemma LineTextOf(words: seq<Spaced>, tail: Str16)
    requires words != []
    ensures LineText(words, tail) == words[0].gap + WordText(words[0].word) + LineText(words[1..], tail)
  {
  }

  lemma GoodWordGrows(part: Part, word: seq<Part>, last: bool)
    requires GoodPart(part) && !part.Unclosed? && word != [] && GoodWord(word, last)
    ensures GoodWord([part] + word, last) && WordText([part] + word) == PartText(part) + WordText(word)
  {
    hide GoodPart;
    assert ([part] + word)[1..] == word;
  }

  lemma OnePart(part: Part, last: bool)
    requires GoodPart(part) && (part.Unclosed? ==> last)
    ensures GoodWord([part], last) && WordText([part]) == PartText(part)
  {
    hide GoodPart;
    assert WordText([part]) == PartText(part) + WordText([part][1..]);
  }

  lemma StartPart(part: Part, words: seq<Spaced>, tail: Str16)
    requires GoodLine(words, tail) && GoodPart(part) && (part.Unclosed? ==> words == [] && tail == [])
    requires words != [] ==> words[0].gap != []
    ensures var words' := [Spaced([], [part])] + words;
            GoodLine(words', tail) && LineText(words', tail) == PartText(part) + LineText(words, tail)
  {
    var words' := [Spaced([], [part])] + words;
    OnePart(part, words == [] && tail == []);
    hide GoodPart, IsSpace, GoodWord, WordText, PartText, LineText;
    LineTextOf(words', tail);
    assert words'[1..] == words;
    assert [] + PartText(part) == PartText(part);
    forall k | 0 <= k < |words'| ensures GoodPlace(words'[k], k == 0, k == |words'| - 1 && tail == []) {
      assert k > 0 ==> words'[k] == words[k - 1] && GoodPlace(words[k - 1], k == 1, k == |words| && tail == []);
    }
  }

  lemma LongerGap(c: CodeUnit, gap: Str16, text: Str16, rest: Str16)
    ensures ([c] + gap) + text + rest == [c] + (gap + text + rest)
  {
  }

  lemma PrependSpace(c: CodeUnit, words: seq<Spaced>, tail: Str16)
    requires GoodLine(words, tail) && IsSpace(c)
    ensures exists words', tail' :: GoodLine(words', tail') && LineText(words', tail') == [c] + LineText(words, tail)
  {
    hide IsSpace, GoodWord, WordText;
    if words == [] {
      assert LineText([], [c] + tail) == [c] + tail;
      assert GoodLine([], [c] + tail);
    } else {
      var words' := words[0 := words[0].(gap := [c] + words[0].gap)];
      assert words'[1..] == words[1..];
      assert GoodPlace(words[0], true, |words| == 1 && tail == []);
      forall k | 0 <= k < |words'| ensures GoodPlace(words'[k], k == 0, k == |words'| - 1 && tail == []) {
        assert k > 0 ==> words'[k] == words[k] && GoodPlace(words[k], k == 0, k == |words| - 1 && tail == []);
      }
      LongerGap(c, words[0].gap, WordText(words[0].word), LineText(words[1..], tail));
      assert GoodLine(words', tail) && LineText(words', tail) == [c] + LineText(words, tail);
    }
  }

  /** Every input is a line of words in this sense. */
  lemma {:induction false} EveryInputIsALine(s: Str16)
    ensures exists words, tail :: GoodLine(words, tail) && LineText(words, tail) == s
    decreases |s|
  {
    hide GoodLine, LineText, IsSpace;
    if s == [] {
      NothingIsALine();
    } else {
      var c := s[0];
      if IsSpace(c) {
        EveryInputIsALine(s[1..]);
        var words, tail :| GoodLine(words, tail) && LineText(words, tail) == s[1..];
        PrependSpace(c, words, tail);
        assert s == [c] + s[1..];
      } else if exists close :: Quotes(c, close) {
        var close :| Quotes(c, close);
        QuoteBegins(s, close);
      } else {
        EveryInputIsALine(s[1..]);
        var words, tail :| GoodLine(words, tail) && LineText(words, tail) == s[1..];
        PrependPart(Bare(c), words, tail);
        assert s == [c] + s[1..];
      }
    }
  }

  lemma NothingIsALine()
    ensures GoodLine([], []) && LineText([], []) == []
  {
  }

  lemma QuoteBegins(s: Str16, close: CodeUnit)
    requires s != [] && Quotes(s[0], close)
    ensures exists words, tail :: GoodLine(words, tail) && LineText(words, tail) == s
    decreases |s|, 0
  {
    hide GoodLine, LineText, IsSpace;
    var body := s[1..];
    if close !in body {
      NothingIsALine();
      assert GoodPart(Unclosed(s[0], body));
      PrependPart(Unclosed(s[0], body), [], []);
      assert [s[0]] + body + [] == s;
    } else {
      var n := FirstAt(body, close);
      var rest := body[n + 1..];
      EveryInputIsALine(rest);
      var words, tail :| GoodLine(words, tail) && LineText(words, tail) == rest;
      PrependPart(Enclosed(s[0], body[..n], close), words, tail);
      QuotedFront(s, n);
    }
  }

  lemma QuotedFront(s: Str16, n: nat)
    requires n + 1 < |s|
    ensures s == [s[0]] + s[1..][..n] + [s[1..][n]] + s[1..][n + 1..]
  {
  }

  function FirstAt(s: Str16, c: CodeUnit): (n: nat)
    requires c in s
    ensures n < |s| && s[n] == c && c !in s[..n]
  {
    if s[0] == c then 0
    else
      assert s == [s[0]] + s[1..];
      var n := 1 + FirstAt(s[1..], c);
      assert s[..n] == [s[0]] + s[1..][..n - 1];
      n
  }
}
