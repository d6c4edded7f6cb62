/** The progress line buffer: summaries of `[PROGRESS]` lines out of a text stream cut into chunks. */
module ProgressLines {
  import opened Text

  // "[PROGRESS]"
  const PREFIX: Str16 := [0x5B, 0x50, 0x52, 0x4F, 0x47, 0x52, 0x45, 0x53, 0x53, 0x5D]
  const MAX_SUMMARY := 500
  const MAX_PENDING := 4096
  const ELLIPSIS: Str16 := [0x2E, 0x2E, 0x2E]

  predicate IsControl(c: CodeUnit) {
    c <= 0x08 || c == 0x0B || c == 0x0C || 0x0E <= c <= 0x1F || c == 0x7F
  }

  function DropControls(s: Str16): Str16 {
    if s == [] then [] else (if IsControl(s[0]) then [] else [s[0]]) + DropControls(s[1..])
  }

  function Sanitize(summary: Str16): (r: Str16)
    ensures |r| <= MAX_SUMMARY
  {
    var cleaned := Trim(DropControls(summary));
    if |cleaned| <= MAX_SUMMARY then cleaned else cleaned[..MAX_SUMMARY - 3] + ELLIPSIS
  }

  predicate NoControls(s: Str16) {
    forall i | 0 <= i < |s| :: !IsControl(s[i])
  }

  lemma {:induction false} DropControlsDrops(s: Str16)
    ensures NoControls(DropControls(s)) && (NoControls(s) ==> DropControls(s) == s)
  {
    if s != [] {
      DropControlsDrops(s[1..]);
      assert NoControls(s) ==> NoControls(s[1..]);
      assert s == [s[0]] + s[1..];
    }
  }

  // No white space at either end.
  predicate Tight(s: Str16) {
    s != [] ==> !IsSpace(s[0]) && !IsSpace(s[|s| - 1])
  }

  lemma TrimIsTight(s: Str16)
    ensures Tight(Trim(s)) && (Tight(s) ==> Trim(s) == s) && (NoControls(s) ==> NoControls(Trim(s)))
  {
    hide IsSpace, IsControl, Blank;
    var t := TrimStart(s);
    TrimStartCuts(s);
    TrimEndCuts(t);
    assert TrimEnd(t) != [] ==> TrimEnd(t)[0] == t[0];
  }

  /** A summary has no control characters and no white space at its ends; sanitizing it again changes nothing. */
  lemma SanitizeIsIdempotent(summary: Str16)
    ensures var r := Sanitize(summary); NoControls(r) && Tight(r) && Sanitize(r) == r
  {
    hide DropControls, Trim, IsSpace, IsControl, Blank;
    var r, cleaned := Sanitize(summary), Trim(DropControls(summary));
    DropControlsDrops(summary);
    TrimIsTight(DropControls(summary));
    DotIsPlain();
    assert NoControls(r);
    DropControlsDrops(r);
    TrimIsTight(r);
  }

  lemma DotIsPlain()
    ensures !IsControl(0x2E) && !IsSpace(0x2E)
  {
  }

  // extractLine on a raw line: nothing, or one non-empty summary.
  function Extract(raw: Str16): seq<Str16> {
    var line := StripCR(raw);
    if PREFIX <= line && Sanitize(line[|PREFIX|..]) != [] then [Sanitize(line[|PREFIX|..])] else []
  }

  // --- The buffer, as a function of its pending text ---

  // Taking complete lines off a text: what is left, and the summaries.
  function TakeLines(text: Str16): (r: (Str16, seq<Str16>))
    ensures LF !in r.0
  {
    var i := FirstLF(text);
    if i == |text| then
      assert text[..i] == text;
      (text, [])
    else
      var (rest, summaries) := TakeLines(text[i + 1..]);
      (rest, Extract(text[..i]) + summaries)
  }

  function TrimIfHopeless(pending: Str16): Str16 {
    if pending == [] then []
    else if pending <= PREFIX || PREFIX <= pending then
      if |pending| > MAX_PENDING then [] else pending
    else []
  }

  function Fed(pending: Str16, segment: Str16): (r: (Str16, seq<Str16>))
    ensures LF !in r.0 && |r.0| <= MAX_PENDING
  {
    var (rest, summaries) := TakeLines(pending + segment);
    (TrimIfHopeless(rest), summaries)
  }

  // Feeding the chunks and then flushing.
  function FeedAll(pending: Str16, chunks: seq<Str16>): seq<Str16>
    decreases |chunks|
  {
    if chunks == [] then Extract(pending)
    else
      var (pending', summaries) := Fed(pending, chunks[0]);
      summaries + FeedAll(pending', chunks[1..])
  }

  // --- The reference: the summaries of the whole lines ---

  function WholeLines(text: Str16): seq<Str16> {
    var i := FirstLF(text);
    if i == |text| then Extract(text) else Extract(text[..i]) + WholeLines(text[i + 1..])
  }

  // What one line can deliver when it arrives in one piece: an unterminated one only up to the pending limit.
  function Deliver(line: Str16, terminated: bool): seq<Str16> {
    if !terminated && |line| > MAX_PENDING then [] else Extract(line)
  }

  function DeliveredLines(text: Str16): seq<Str16> {
    var i := FirstLF(text);
    if i == |text| then Deliver(text, false) else Deliver(text[..i], true) + DeliveredLines(text[i + 1..])
  }

  // A chunk boundary after i code units of the line makes the buffer forget them.
  predicate Droppable(line: Str16, i: nat)
    requires i <= |line|
  {
    if PREFIX <= line then i > MAX_PENDING else !(line[..i] <= PREFIX)
  }

  // Forgetting any droppable start of the line would not change what it delivers.
  predicate SteadyLine(line: Str16, terminated: bool) {
    forall i | 0 < i <= |line| && Droppable(line, i) :: Deliver(line[i..], terminated) == Deliver(line, terminated)
  }

  predicate Steady(text: Str16) {
    var i := FirstLF(text);
    if i == |text| then SteadyLine(text, false) else SteadyLine(text[..i], true) && Steady(text[i + 1..])
  }

  // --- Lines and concatenation ---

  // One terminated line, taken off the front.
  lemma FirstLineOff(text: Str16)
    requires FirstLF(text) < |text|
    ensures var i := FirstLF(text);
            && TakeLines(text) == (TakeLines(text[i + 1..]).0, Extract(text[..i]) + TakeLines(text[i + 1..]).1)
            && DeliveredLines(text) == Extract(text[..i]) + DeliveredLines(text[i + 1..])
            && (Steady(text) ==> Steady(text[i + 1..]))
  {
    hide Extract, SteadyLine, FirstLF;
  }

  lemma NoLineOff(text: Str16)
    requires FirstLF(text) == |text|
    ensures TakeLines(text) == (text, [])
  {
    hide Extract, FirstLF;
  }

  // The complete lines of u come off first; the rest of u starts the lines of what follows.
  lemma {:induction false} TakeThenDeliver(u: Str16, v: Str16)
    ensures var (rest, summaries) := TakeLines(u);
            DeliveredLines(u + v) == summaries + DeliveredLines(rest + v) && (Steady(u + v) ==> Steady(rest + v))
  {
    hide Extract, SteadyLine, FirstLF, TakeLines, DeliveredLines, Steady;
    var i := FirstLF(u);
    if i == |u| {
      NoLineOff(u);
      assert [] + DeliveredLines(u + v) == DeliveredLines(u + v);
    } else {
      var w := u[i + 1..];
      assert (u + v)[..i] == u[..i];
      FirstLFIs(u + v, i);
      assert (u + v)[i + 1..] == w + v;
      FirstLineOff(u);
      FirstLineOff(u + v);
      TakeThenDeliver(w, v);
      var (rest, summaries) := TakeLines(w);
      assert Extract(u[..i]) + (summaries + DeliveredLines(rest + v)) == (Extract(u[..i]) + summaries)
          + DeliveredLines(rest + v);
    }
  }

  // A line start r of v's first line: how the two lines relate.
  lemma FirstLineOf(r: Str16, v: Str16)
    requires LF !in r
    ensures var i := FirstLF(v);
            FirstLF(r + v) == |r| + i && (r + v)[..|r| + i] == r + v[..i]
            && (i < |v| ==> (r + v)[|r| + i + 1..] == v[i + 1..])
  {
    hide FirstLF;
    var i := FirstLF(v);
    assert (r + v)[..|r| + i] == r + v[..i];
    FirstLFIs(r + v, |r| + i);
  }

  lemma DropFromLine(r: Str16, line: Str16, terminated: bool)
    requires r != [] && TrimIfHopeless(r) == [] && SteadyLine(r + line, terminated)
    ensures Deliver(r + line, terminated) == Deliver(line, terminated) && SteadyLine(line, terminated)
  {
    hide Extract, Deliver;
    var l := r + line;
    assert l[..|r|] == r && l[|r|..] == line;
    assert Droppable(l, |r|);
    forall i | 0 < i <= |line| && Droppable(line, i)
      ensures Deliver(line[i..], terminated) == Deliver(line, terminated)
    {
      assert l[|r| + i..] == line[i..];
      assert r == l[..|r| + i][..|r|];
      assert Droppable(l, |r| + i);
    }
  }

  // Forgetting a hopeless start changes nothing, in a steady text.
  lemma DropKeepsDelivery(r: Str16, v: Str16)
    requires LF !in r && r != [] && TrimIfHopeless(r) == [] && Steady(r + v)
    ensures DeliveredLines(r + v) == DeliveredLines(v) && Steady(v)
  {
    hide Extract, Deliver, SteadyLine, FirstLF, TrimIfHopeless;
    FirstLineOf(r, v);
    var i := FirstLF(v);
    assert i == |v| ==> v[..i] == v;
    DropFromLine(r, v[..i], i < |v|);
  }

  /** On a steady text every way of cutting it gives the same summaries. */
  lemma {:induction false} SteadyTextIgnoresChunks(pending: Str16, chunks: seq<Str16>)
    requires LF !in pending && TrimIfHopeless(pending) == pending && Steady(pending + Concat(chunks))
    ensures FeedAll(pending, chunks) == DeliveredLines(pending + Concat(chunks))
    decreases |chunks|
  {
    hide Extract, SteadyLine, FirstLF, TakeLines, Steady;
    if chunks == [] {
      assert pending + Concat(chunks) == pending;
      assert pending[..|pending|] == pending;
      FirstLFIs(pending, |pending|);
    } else {
      var u, v := pending + chunks[0], Concat(chunks[1..]);
      assert pending + Concat(chunks) == u + v;
      TakeThenDeliver(u, v);
      var rest := TakeLines(u).0;
      if TrimIfHopeless(rest) == rest {
        SteadyTextIgnoresChunks(rest, chunks[1..]);
      } else {
        DropKeepsDelivery(rest, v);
        assert [] + v == v;
        SteadyTextIgnoresChunks([], chunks[1..]);
      }
    }
  }

  // A flush delivers what is left of the last line.
  lemma FlushDelivers(rest: Str16)
    requires LF !in rest
    ensures Extract(TrimIfHopeless(rest)) == DeliveredLines(rest)
  {
    hide Sanitize, FirstLF;
    assert rest[..|rest|] == rest;
    FirstLFIs(rest, |rest|);
    assert rest != [] && !(rest <= PREFIX) && !(PREFIX <= rest) ==> !(PREFIX <= StripCR(rest));
  }

  // One chunk and a flush deliver each line, whatever the text.
  lemma OneChunk(text: Str16)
    ensures FeedAll([], [text]) == DeliveredLines(text)
  {
    hide Extract, FirstLF, TakeLines, DeliveredLines, TrimIfHopeless;
    assert [] + text == text;
    TakeThenDeliver(text, []);
    var (rest, summaries) := TakeLines(text);
    assert text + [] == text && rest + [] == rest;
    FlushDelivers(rest);
    var chunks := [text];
    assert chunks[1..] == [];
    assert FeedAll([], chunks) == summaries + FeedAll(TrimIfHopeless(rest), []);
  }

  // A text whose first k code units contain no line feed, cut after them.
  lemma CutInFirstLine(text: Str16, k: nat)
    requires var i := FirstLF(text);
             0 < k <= i && Droppable(text[..i], k) &&
             Deliver(text[..i][k..], i < |text|) != Deliver(text[..i], i < |text|)
    ensures Fed([], text[..k]) == ([], []) && DeliveredLines(text[k..]) != DeliveredLines(text)
  {
    hide FirstLF, TakeLines, Extract, Deliver, Droppable, DeliveredLines, TrimIfHopeless;
    var i := FirstLF(text);
    var start := text[..k];
    assert start == text[..i][..k] && [] + start == start;
    FirstLFIs(start, k);
    NoLineOff(start);
    DroppableIsDropped(text[..i], k);
    DeliveredAfterCut(text, k);
  }

  lemma DeliveredAfterCut(text: Str16, k: nat)
    requires var i := FirstLF(text); k <= i && Deliver(text[..i][k..], i < |text|) != Deliver(text[..i], i < |text|)
    ensures DeliveredLines(text[k..]) != DeliveredLines(text)
  {
    hide FirstLF, Extract, Deliver, DeliveredLines;
    var i := FirstLF(text);
    var line, after := text[..i], text[k..];
    assert after[..i - k] == line[k..];
    FirstLFIs(after, i - k);
    FirstDelivered(after);
    FirstDelivered(text);
    if i < |text| {
      assert after[i - k + 1..] == text[i + 1..];
      SameTail(Deliver(line[k..], true), Deliver(line, true), DeliveredLines(text[i + 1..]));
    }
  }

  lemma DroppableIsDropped(line: Str16, k: nat)
    requires 0 < k <= |line| && Droppable(line, k)
    ensures TrimIfHopeless(line[..k]) == []
  {
    assert PREFIX <= line[..k] ==> PREFIX <= line;
  }

  lemma FirstDelivered(text: Str16)
    ensures var i := FirstLF(text);
            if i == |text| then DeliveredLines(text) == Deliver(text[..i], false)
            else DeliveredLines(text) == Deliver(text[..i], true) + DeliveredLines(text[i + 1..])
  {
    hide Deliver, FirstLF;
    assert text[..|text|] == text;
  }

  // In an unsteady text, some single cut changes the summaries.
  lemma {:induction false} UnsteadyCut(text: Str16) returns (k: nat)
    requires !Steady(text)
    ensures k <= |text|
    ensures var (pending, summaries) := Fed([], text[..k]);
            pending == [] && summaries + DeliveredLines(text[k..]) != DeliveredLines(text)
  {
    hide Extract, FirstLF, TrimIfHopeless, Droppable, TakeLines, DeliveredLines;
    var i := FirstLF(text);
    assert text[..|text|] == text;
    if !SteadyLine(text[..i], i < |text|) {
      k :| 0 < k <= i && Droppable(text[..i], k) &&
          Deliver(text[..i][k..], i < |text|) != Deliver(text[..i], i < |text|);
      CutInFirstLine(text, k);
      assert [] + DeliveredLines(text[k..]) == DeliveredLines(text[k..]);
    } else {
      var rest := text[i + 1..];
      var m := UnsteadyCut(rest);
      k := i + 1 + m;
      assert text[k..] == rest[m..];
      assert text[..k] == text[..i] + [LF] + rest[..m];
      FeedFirstLine(text[..i], rest[..m]);
      FirstLineOff(text);
      var summaries := Fed([], rest[..m]).1;
      SameStart(Extract(text[..i]), summaries + DeliveredLines(rest[m..]), DeliveredLines(rest));
      assert (Extract(text[..i]) + summaries) + DeliveredLines(text[k..]) == Extract(text[..i])
          + (summaries + DeliveredLines(rest[m..]));
    }
  }

  lemma FeedFirstLine(line: Str16, rest: Str16)
    requires LF !in line
    ensures Fed([], line + [LF] + rest) == (Fed([], rest).0, Extract(line) + Fed([], rest).1)
  {
    hide Extract, TrimIfHopeless, FirstLF, TakeLines, DeliveredLines, Steady;
    var u := line + [LF] + rest;
    assert u[..|line|] == line && u[|line| + 1..] == rest && [] + u == u && [] + rest == rest;
    FirstLFIs(u, |line|);
    FirstLineOff(u);
  }

  lemma SameStart<A>(start: seq<A>, x: seq<A>, y: seq<A>)
    requires x != y
    ensures start + x != start + y
  {
    assert x == (start + x)[|start|..] && y == (start + y)[|start|..];
  }

  lemma SameTail<A>(x: seq<A>, y: seq<A>, tail: seq<A>)
    requires x != y
    ensures x + tail != y + tail
  {
    assert x == (x + tail)[..|x|] && y == (y + tail)[..|y|];
  }

  /** The summaries of a text do not depend on how it is cut into chunks, exactly when it is steady. */
  lemma ChunkIndependentExactlyWhen(text: Str16)
    ensures (forall chunks | Concat(chunks) == text :: FeedAll([], chunks) == DeliveredLines(text)) <==> Steady(text)
  {
    hide Extract, Deliver, DeliveredLines, TakeLines, Steady, FirstLF;
    if Steady(text) {
      forall chunks | Concat(chunks) == text ensures FeedAll([], chunks) == DeliveredLines(text) {
        assert [] + Concat(chunks) == text;
        SteadyTextIgnoresChunks([], chunks);
      }
    } else {
      var k := UnsteadyCut(text);
      var chunks := [text[..k], text[k..]];
      assert chunks[1..] == [text[k..]] && Concat([text[k..]]) == text[k..] + Concat([]);
      assert Concat(chunks) == text[..k] + text[k..] == text;
      OneChunk(text[k..]);
      assert FeedAll([], chunks) == Fed([], text[..k]).1 + FeedAll([], [text[k..]]);
      assert FeedAll([], chunks) != DeliveredLines(text);
    }
  }

  lemma OnlyPrefixedLinesExtract(line: Str16)
    ensures !(PREFIX <= line) ==> Extract(line) == []
  {
  }

  lemma UnterminatedAlone(line: Str16)
    requires LF !in line && |line| <= MAX_PENDING
    ensures FeedAll([], [line]) == Extract(line)
  {
    hide Extract, FirstLF, FeedAll;
    OneChunk(line);
    assert line[..|line|] == line;
    FirstLFIs(line, |line|);
    FirstDelivered(line);
  }

  lemma HopelessChunk(x: Str16, chunks: seq<Str16>)
    requires LF !in x && TrimIfHopeless(x) == []
    ensures FeedAll([], [x] + chunks) == FeedAll([], chunks)
  {
    hide Extract, FirstLF, TakeLines, TrimIfHopeless;
    assert [] + x == x && x[..|x|] == x;
    FirstLFIs(x, |x|);
    NoLineOff(x);
    assert ([x] + chunks)[1..] == chunks;
    assert [] + FeedAll([], chunks) == FeedAll([], chunks);
  }

  // "x[PROGRESS]a" in one piece gives nothing; cut after the x it gives "a".
  lemma MidLinePrefixDependsOnChunks()
    ensures FeedAll([], [[0x78] + PREFIX + [0x61]]) == []
    ensures FeedAll([], [[0x78]] + [PREFIX + [0x61]]) == [[0x61]]
  {
    hide FeedAll, Extract, TrimIfHopeless;
    UnterminatedAlone([0x78] + PREFIX + [0x61]);
    OnlyPrefixedLinesExtract([0x78] + PREFIX + [0x61]);
    UnterminatedAlone(PREFIX + [0x61]);
    ExtractAfterPrefix([0x61]);
    OneLetterIsHopeless(0x78);
    HopelessChunk([0x78], [PREFIX + [0x61]]);
  }

  lemma OneLetterIsHopeless(c: CodeUnit)
    requires c != PREFIX[0]
    ensures TrimIfHopeless([c]) == []
  {
  }

  lemma ExtractAfterPrefix(s: Str16)
    requires |s| == 1 && !IsControl(s[0]) && !IsSpace(s[0])
    ensures Extract(PREFIX + s) == [s]
  {
    hide Sanitize;
    assert (PREFIX + s)[|PREFIX|..] == s;
    OneLetterIsItself(s);
  }

  lemma OneLetterIsItself(s: Str16)
    requires |s| == 1 && !IsControl(s[0]) && !IsSpace(s[0])
    ensures Sanitize(s) == s
  {
    hide IsSpace, IsControl, Blank;
    assert s[1..] == [] && DropControls([]) == [];
    assert DropControls(s) == [s[0]] + [] == s;
    assert TrimStart(s) == s && TrimEnd(s) == s;
  }

  // --- Steadiness by occurrences of the prefix ---

  // Nothing but control characters and white space.
  predicate SaysNothing(body: Str16) {
    forall i | 0 <= i < |body| :: IsControl(body[i]) || IsSpace(body[i])
  }

  // No progress line, or one with nothing to say, or an unterminated one over the pending limit.
  predicate Silent(line: Str16, terminated: bool) {
    PREFIX <= line ==> SaysNothing(line[|PREFIX|..]) || (!terminated && |line| > MAX_PENDING)
  }

  lemma {:induction false} DroppedIsBlank(body: Str16)
    ensures Blank(DropControls(body)) <==> SaysNothing(body)
  {
    hide IsControl, IsSpace;
    if body != [] {
      var rest := body[1..];
      DroppedIsBlank(rest);
      assert SaysNothing(body) <==> (IsControl(body[0]) || IsSpace(body[0])) && SaysNothing(rest);
      BlankConcat(if IsControl(body[0]) then [] else [body[0]], DropControls(rest));
    }
  }

  lemma BlankConcat(a: Str16, b: Str16)
    ensures Blank(a + b) <==> Blank(a) && Blank(b)
  {
    hide IsSpace;
    assert forall c :: c in a + b <==> c in a || c in b;
  }

  lemma StripKeepsProgress(line: Str16)
    ensures PREFIX <= StripCR(line) <==> PREFIX <= line
    ensures PREFIX <= line ==> (SaysNothing(StripCR(line)[|PREFIX|..]) <==> SaysNothing(line[|PREFIX|..]))
  {
    hide IsControl;
    var n := |line| - 1;
    if PREFIX <= line && line[n] == CR {
      assert |PREFIX| == 10 && PREFIX[9] == 0x5D && line[9] == PREFIX[9];
      var stripped, body := StripCR(line), line[|PREFIX|..];
      assert stripped[..|PREFIX|] == line[..|PREFIX|];
      assert body == stripped[|PREFIX|..] + [CR];
      SpaceAtEndSaysNothing(stripped[|PREFIX|..]);
    }
  }

  lemma SpaceAtEndSaysNothing(body: Str16)
    ensures SaysNothing(body + [CR]) <==> SaysNothing(body)
  {
    assert forall i | 0 <= i < |body| :: (body + [CR])[i] == body[i];
    assert (body + [CR])[|body|] == CR && IsSpace(CR);
  }

  lemma SilentIs(line: Str16, terminated: bool)
    ensures Deliver(line, terminated) == [] <==> Silent(line, terminated)
  {
    hide DropControls, IsSpace, IsControl, SaysNothing, Blank, Trim;
    StripKeepsProgress(line);
    if PREFIX <= line {
      var body := StripCR(line)[|PREFIX|..];
      DroppedIsBlank(body);
      assert Sanitize(body) == [] <==> Blank(DropControls(body)) by { SanitizeBlank(body); }
    }
  }

  lemma SanitizeBlank(body: Str16)
    ensures Sanitize(body) == [] <==> Blank(DropControls(body))
  {
    hide DropControls, IsSpace, IsControl, Blank, Trim;
    TrimOfBlank(DropControls(body));
  }

  /** A line is steady exactly when an over-long progress line is silent, and no prefix that occurs after a droppable
      start begins anything that is not. */
  lemma SteadyLineExactlyWhen(line: Str16, terminated: bool)
    ensures SteadyLine(line, terminated) <==>
              && (PREFIX <= line && |line| > MAX_PENDING ==> Silent(line, terminated))
              && forall i | 0 < i <= |line| && Droppable(line, i) :: Silent(line[i..], terminated)
  {
    hide Deliver, Silent;
    SilentIs(line, terminated);
    forall i | 0 < i <= |line| ensures Deliver(line[i..], terminated) == [] <==> Silent(line[i..], terminated) {
      SilentIs(line[i..], terminated);
    }
    if PREFIX <= line {
      if |line| > MAX_PENDING {
        assert Droppable(line, |line|) && line[|line|..] == [];
        assert Silent([], terminated) by { EmptyIsSilent(terminated); }
      }
    } else {
      assert Silent(line, terminated) by { NoProgressIsSilent(line, terminated); }
    }
  }

  lemma EmptyIsSilent(terminated: bool)
    ensures Silent([], terminated)
  {
  }

  lemma NoProgressIsSilent(line: Str16, terminated: bool)
    requires !(PREFIX <= line)
    ensures Silent(line, terminated)
  {
  }

  // --- Clean texts ---

  // The prefix only at the start of the line, and a progress line within the pending limit.
  predicate CleanLine(line: Str16) {
    && (forall p | 0 < p <= |line| :: !(PREFIX <= line[p..]))
    && (PREFIX <= line ==> |line| <= MAX_PENDING)
  }

  predicate Clean(text: Str16) {
    var i := FirstLF(text);
    CleanLine(text[..i]) && (i < |text| ==> Clean(text[i + 1..]))
  }

  lemma CleanLineIsSteady(line: Str16, terminated: bool)
    requires CleanLine(line)
    ensures SteadyLine(line, terminated) && Deliver(line, terminated) == Extract(line)
  {
    hide Extract;
    OnlyPrefixedLinesExtract(line);
    forall i | 0 < i <= |line| && Droppable(line, i)
      ensures Deliver(line[i..], terminated) == Deliver(line, terminated)
    {
      OnlyPrefixedLinesExtract(line[i..]);
    }
  }

  lemma {:induction false} CleanIsSteady(text: Str16)
    requires Clean(text)
    ensures Steady(text) && DeliveredLines(text) == WholeLines(text)
  {
    hide Extract, SteadyLine, Deliver, CleanLine, FirstLF;
    var i := FirstLF(text);
    CleanLineIsSteady(text[..i], i < |text|);
    if i == |text| {
      assert text[..i] == text;
    } else {
      CleanIsSteady(text[i + 1..]);
    }
  }

  /** A clean text gives exactly the summaries of its whole lines, however it is cut. */
  lemma CleanTextGivesWholeLines(chunks: seq<Str16>)
    requires Clean(Concat(chunks))
    ensures FeedAll([], chunks) == WholeLines(Concat(chunks))
  {
    hide FeedAll, Concat, WholeLines, DeliveredLines, Steady, Clean, TrimIfHopeless;
    CleanIsSteady(Concat(chunks));
    assert [] + Concat(chunks) == Concat(chunks);
    assert TrimIfHopeless([]) == [] by { EmptyIsKept(); }
    SteadyTextIgnoresChunks([], chunks);
  }

  lemma EmptyIsKept()
    ensures TrimIfHopeless([]) == []
  {
  }

  /** Every way of cutting a text gives the summaries of its whole lines, exactly when the text is steady and no
      unterminated progress line is over the pending limit. */
  lemma WholeLinesExactlyWhen(text: Str16)
    ensures (forall chunks | Concat(chunks) == text :: FeedAll([], chunks) == WholeLines(text))
            <==> Steady(text) && DeliveredLines(text) == WholeLines(text)
  {
    hide FeedAll, WholeLines, DeliveredLines, Steady, Concat;
    ChunkIndependentExactlyWhen(text);
    OneChunk(text);
    ConcatOne(text);
    if DeliveredLines(text) == WholeLines(text) {
      assert (forall chunks | Concat(chunks) == text :: FeedAll([], chunks) == WholeLines(text))
             <==> (forall chunks | Concat(chunks) == text :: FeedAll([], chunks) == DeliveredLines(text));
    } else {
      assert FeedAll([], [text]) != WholeLines(text);
    }
  }

  lemma ConcatOne(text: Str16)
    ensures Concat([text]) == text
  {
    var chunks := [text];
    assert chunks[1..] == [] && Concat(chunks) == text + Concat([]) == text;
  }

  /** The last condition: an unterminated last line over the limit has no summary. */
  lemma {:induction false} DeliversWholeLinesExactlyWhen(text: Str16)
    ensures DeliveredLines(text) == WholeLines(text)
            <==> |LastLine(text)| <= MAX_PENDING || Extract(LastLine(text)) == []
  {
    hide Extract, Deliver, FirstLF, DeliveredLines, WholeLines;
    var i := FirstLF(text);
    FirstDelivered(text);
    WholeUnfolds(text);
    if i == |text| {
      assert text[..i] == text;
      DeliverUnterminated(text);
    } else {
      DeliversWholeLinesExactlyWhen(text[i + 1..]);
      assert Deliver(text[..i], true) == Extract(text[..i]) by { DeliverTerminated(text[..i]); }
      if DeliveredLines(text[i + 1..]) != WholeLines(text[i + 1..]) {
        SameStart(Extract(text[..i]), DeliveredLines(text[i + 1..]), WholeLines(text[i + 1..]));
      }
    }
  }

  // What follows the last line feed.
  function LastLine(text: Str16): Str16 {
    var i := FirstLF(text);
    if i == |text| then text else LastLine(text[i + 1..])
  }

  lemma WholeUnfolds(text: Str16)
    ensures var i := FirstLF(text);
            WholeLines(text) == if i == |text| then Extract(text) else Extract(text[..i]) + WholeLines(text[i + 1..])
  {
    hide Extract, FirstLF;
  }

  lemma DeliverUnterminated(line: Str16)
    ensures Deliver(line, false) == Extract(line) <==> |line| <= MAX_PENDING || Extract(line) == []
  {
    hide Extract;
  }

  lemma DeliverTerminated(line: Str16)
    ensures Deliver(line, true) == Extract(line)
  {
    hide Extract;
  }

  // --- Without the line-start condition: nothing is lost ---

  predicate IsSubseq<A(==)>(a: seq<A>, b: seq<A>) {
    a == [] || (b != [] && ((a[0] == b[0] && IsSubseq(a[1..], b[1..])) || IsSubseq(a, b[1..])))
  }

  lemma {:induction false} SubseqPrepend<A>(c: seq<A>, a: seq<A>, b: seq<A>)
    requires IsSubseq(a, b)
    ensures IsSubseq(a, c + b) && IsSubseq(c + a, c + b)
  {
    if c == [] {
      assert c + a == a && c + b == b;
    } else {
      SubseqPrepend(c[1..], a, b);
      assert (c + a)[1..] == c[1..] + a && (c + b)[1..] == c[1..] + b;
    }
  }

  // Progress lines within the pending limit; skip leaves the first line out of account.
  predicate Short(skip: bool, text: Str16) {
    var i := FirstLF(text);
    (skip || (PREFIX <= text[..i] ==> i <= MAX_PENDING)) && (i < |text| ==> Short(false, text[i + 1..]))
  }

  function Whole(skip: bool, text: Str16): seq<Str16> {
    var i := FirstLF(text);
    if !skip then WholeLines(text) else if i == |text| then [] else WholeLines(text[i + 1..])
  }

  lemma FirstWhole(text: Str16)
    ensures WholeLines(text) == Extract(text[..FirstLF(text)]) + Whole(true, text)
  {
    hide Extract, FirstLF;
    assert text[..|text|] == text;
  }

  lemma {:induction false} TakeThenWhole(skip: bool, u: Str16, v: Str16)
      returns (skipped: seq<Str16>, kept: seq<Str16>, skip': bool)
    ensures TakeLines(u).1 == skipped + kept && (!skip ==> skipped == [] && !skip')
    ensures Whole(skip, u + v) == kept + Whole(skip', TakeLines(u).0 + v)
    ensures Short(skip, u + v) ==> Short(skip', TakeLines(u).0 + v)
  {
    hide Extract, FirstLF, TakeLines, WholeLines;
    var i := FirstLF(u);
    if i == |u| {
      NoLineOff(u);
      skipped, kept, skip' := [], [], skip;
      assert [] + Whole(skip, u + v) == Whole(skip, u + v);
    } else {
      var w := u[i + 1..];
      assert (u + v)[..i] == u[..i];
      FirstLFIs(u + v, i);
      assert (u + v)[i + 1..] == w + v;
      FirstLineOff(u);
      FirstWhole(u + v);
      skipped, kept, skip' := TakeThenWhole(false, w, v);
      var first := Extract(u[..i]);
      if skip {
        skipped := first;
      } else {
        assert first + (kept + Whole(skip', TakeLines(w).0 + v)) == (first + kept) + Whole(skip', TakeLines(w).0 + v);
        kept := first + kept;
      }
    }
  }

  lemma DropSkipsFirst(skip: bool, r: Str16, v: Str16)
    requires LF !in r && r != [] && TrimIfHopeless(r) == [] && Short(skip, r + v)
    ensures Whole(skip, r + v) == Whole(true, v) && Short(true, v)
  {
    hide Extract, FirstLF, WholeLines, TrimIfHopeless, Short;
    FirstLineOf(r, v);
    ShortFirst(skip, r + v);
    ShortFirst(true, v);
    if !skip {
      FirstWhole(r + v);
      var line := r + v[..FirstLF(v)];
      HopelessStart(r, line);
      OnlyPrefixedLinesExtract(line);
      assert [] + Whole(true, r + v) == Whole(true, r + v);
    }
  }

  lemma {:induction false} ShortFirst(skip: bool, text: Str16)
    ensures var i := FirstLF(text);
            Short(skip, text) <==>
              (skip || (PREFIX <= text[..i] ==> i <= MAX_PENDING)) && (i < |text| ==> Short(false, text[i + 1..]))
  {
    hide FirstLF;
  }

  lemma HopelessStart(r: Str16, line: Str16)
    requires r != [] && TrimIfHopeless(r) == [] && r <= line && (PREFIX <= line ==> |line| <= MAX_PENDING)
    ensures !(PREFIX <= line)
  {
    PrefixesCompare(r, PREFIX, line);
  }

  lemma PrefixesCompare(a: Str16, b: Str16, line: Str16)
    requires a <= line
    ensures b <= line ==> a <= b || b <= a
  {
    if |a| <= |b| {
      assert b <= line ==> a == b[..|a|];
    } else {
      assert b <= line ==> b == a[..|b|];
    }
  }

  lemma {:induction false} WholeLinesSurviveFrom(skip: bool, pending: Str16, chunks: seq<Str16>)
    requires LF !in pending && TrimIfHopeless(pending) == pending && Short(skip, pending + Concat(chunks))
    ensures IsSubseq(Whole(skip, pending + Concat(chunks)), FeedAll(pending, chunks))
    decreases |chunks|
  {
    hide Extract, FirstLF, TakeLines, Short, Whole, IsSubseq, TrimIfHopeless;
    if chunks == [] {
      assert pending + Concat(chunks) == pending;
      FlushKeeps(skip, pending);
    } else {
      var u, v := pending + chunks[0], Concat(chunks[1..]);
      assert pending + Concat(chunks) == u + v;
      var skipped, kept, skip' := TakeThenWhole(skip, u, v);
      var rest := TakeLines(u).0;
      var pending' := TrimIfHopeless(rest);
      if pending' == rest {
        WholeLinesSurviveFrom(skip', rest, chunks[1..]);
      } else {
        TrimmedIsEmpty(rest);
        EmptyIsKept();
        DropSkipsFirst(skip', rest, v);
        assert [] + v == v;
        WholeLinesSurviveFrom(true, [], chunks[1..]);
      }
      SubseqPrepend(kept, Whole(skip', rest + v), FeedAll(pending', chunks[1..]));
      SubseqPrepend(skipped, Whole(skip, u + v), kept + FeedAll(pending', chunks[1..]));
      assert skipped + (kept + FeedAll(pending', chunks[1..])) == (skipped + kept) + FeedAll(pending', chunks[1..]);
    }
  }

  lemma TrimmedIsEmpty(rest: Str16)
    requires TrimIfHopeless(rest) != rest
    ensures rest != [] && TrimIfHopeless(rest) == []
  {
  }

  lemma FlushKeeps(skip: bool, pending: Str16)
    requires LF !in pending
    ensures IsSubseq(Whole(skip, pending), Extract(pending))
  {
    hide Extract, FirstLF;
    assert pending[..|pending|] == pending;
    FirstLFIs(pending, |pending|);
    SubseqPrepend(Extract(pending), [], []);
    assert Extract(pending) + [] == Extract(pending);
  }

  /** While progress lines stay within the limit, no summary of a whole line is lost or reordered. */
  lemma WholeLinesSurvive(chunks: seq<Str16>)
    requires Short(false, Concat(chunks))
    ensures IsSubseq(WholeLines(Concat(chunks)), FeedAll([], chunks))
  {
    hide FeedAll, Concat, WholeLines, Short, IsSubseq, TrimIfHopeless;
    EmptyIsKept();
    assert [] + Concat(chunks) == Concat(chunks);
    WholeLinesSurviveFrom(false, [], chunks);
  }

  // --- The class ---

  class ProgressLineBuffer {
    var pending: Str16

    constructor ()
      ensures pending == []
    {
      pending := [];
    }

    method Feed(segment: Str16) returns (summaries: seq<Str16>)
      modifies this
      ensures (pending, summaries) == Fed(old(pending), segment)
    {
      hide Extract, FirstLF, TrimIfHopeless, TakeLines;
      pending := pending + segment;
      ghost var text := pending;
      summaries := [];
      assert [] + TakeLines(text).1 == TakeLines(text).1;
      var newlineIndex := FirstLF(pending);
      while newlineIndex != |pending|
        invariant newlineIndex == FirstLF(pending)
        invariant TakeLines(text).0 == TakeLines(pending).0
        invariant TakeLines(text).1 == summaries + TakeLines(pending).1
        decreases |pending|
      {
        var line := pending[..newlineIndex];
        FirstLineOff(pending);
        pending := pending[newlineIndex + 1..];
        assert summaries + (Extract(line) + TakeLines(pending).1) == (summaries + Extract(line)) + TakeLines(pending).1;
        summaries := summaries + Extract(line);
        newlineIndex := FirstLF(pending);
      }
      NoLineOff(pending);
      assert summaries + [] == summaries;
      pending := TrimIfHopeless(pending);
    }

    method Flush() returns (summaries: seq<Str16>)
      modifies this
      ensures pending == [] && summaries == FeedAll(old(pending), [])
    {
      summaries := [];
      if |pending| > 0 {
        summaries := Extract(pending);
        pending := [];
      }
    }
  }
}
