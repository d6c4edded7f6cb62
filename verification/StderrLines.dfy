/** The lines of a child's stderr, reported as notes while the stream arrives in chunks. */
module StderrLines {
  import opened Text

  // The offset of the first carriage return or line feed, or the length.
  function FirstBreak(s: Str16): (i: nat)
    ensures i <= |s| && (i < |s| ==> s[i] == CR || s[i] == LF)
    ensures forall k | 0 <= k < i :: s[k] != CR && s[k] != LF
  {
    if s == [] || s[0] == CR || s[0] == LF then 0
    else
      assert s == [s[0]] + s[1..];
      1 + FirstBreak(s[1..])
  }

  lemma FirstBreakIs(s: Str16, i: nat)
    requires i <= |s| && (i < |s| ==> s[i] == CR || s[i] == LF) && forall k | 0 <= k < i :: s[k] != CR && s[k] != LF
    ensures FirstBreak(s) == i
  {
  }

  // The length of the separator \r\n, \r or \n that starts at i.
  function BreakLength(s: Str16, i: nat): nat
    requires i < |s|
  {
    if s[i] == CR && i + 1 < |s| && s[i + 1] == LF then 2 else 1
  }

  // text.split(/\r\n|\r|\n/)
  function Split(s: Str16): (pieces: seq<Str16>)
    ensures pieces != []
  {
    var i := FirstBreak(s);
    if i == |s| then [s] else [s[..i]] + Split(s[i + BreakLength(s, i)..])
  }

  // The note reported for a line: none for a blank one.
  function Note(line: Str16): seq<Str16> {
    var trimmed := TrimEnd(StripCR(line));
    if trimmed == [] then [] else [trimmed]
  }

  function Notes(lines: seq<Str16>): seq<Str16> {
    if lines == [] then [] else Note(lines[0]) + Notes(lines[1..])
  }

  // One chunk: the new tail, and the notes reported.
  function Data(tail: Str16, chunk: Str16): (Str16, seq<Str16>) {
    var matches := Split(tail + chunk);
    (matches[|matches| - 1], Notes(matches[..|matches| - 1]))
  }

  // The chunks, then the end of the stream.
  function Reported(tail: Str16, chunks: seq<Str16>): seq<Str16>
    decreases |chunks|
  {
    if chunks == [] then Note(tail)
    else
      var (tail', notes) := Data(tail, chunks[0]);
      notes + Reported(tail', chunks[1..])
  }

  // --- The reference ---

  // The non-blank pieces between CR and LF characters, right-trimmed.
  function PieceNotes(s: Str16): seq<Str16> {
    var i := FirstBreak(s);
    if i == |s| then Note(s) else Note(s[..i]) + PieceNotes(s[i + 1..])
  }

  lemma FirstPiece(a: Str16, rest: Str16)
    requires forall c | c in a :: c != CR && c != LF
    requires rest != [] && (rest[0] == CR || rest[0] == LF)
    ensures PieceNotes(a + rest) == Note(a) + PieceNotes(rest[1..])
  {
    hide Note, FirstBreak;
    var s := a + rest;
    assert s[..|a|] == a && s[|a| + 1..] == rest[1..];
    assert forall k | 0 <= k < |a| :: s[k] == a[k] && a[k] in a;
    FirstBreakIs(s, |a|);
  }

  /** Any CR or LF separates; a piece without one is a single line. With FirstPiece this fixes PieceNotes. */
  lemma {:induction false} BreakSeparates(a: Str16, c: CodeUnit, b: Str16)
    requires c == CR || c == LF
    ensures PieceNotes(a + [c] + b) == PieceNotes(a) + PieceNotes(b)
    decreases |a|
  {
    hide Note, FirstBreak, PieceNotes;
    var i := FirstBreak(a);
    if i == |a| {
      assert a + [c] + b == a + ([c] + b) && ([c] + b)[1..] == b;
      FirstPiece(a, [c] + b);
      OnePiece(a);
    } else {
      var first, rest := a[..i], a[i + 1..];
      assert a == first + a[i..] && a[i..][1..] == rest;
      assert a + [c] + b == first + (a[i..] + [c] + b);
      assert (a[i..] + [c] + b)[1..] == rest + [c] + b;
      FirstPiece(first, a[i..] + [c] + b);
      FirstPiece(first, a[i..]);
      BreakSeparates(rest, c, b);
      assert Note(first) + (PieceNotes(rest) + PieceNotes(b)) == (Note(first) + PieceNotes(rest)) + PieceNotes(b);
    }
  }

  lemma OnePiece(a: Str16)
    requires FirstBreak(a) == |a|
    ensures PieceNotes(a) == Note(a)
  {
  }

  lemma EmptyIsBlank()
    ensures Note([]) == [] && PieceNotes([]) == []
  {
  }

  // --- Chunks do not matter ---

  lemma NotesOfFirst(lines: seq<Str16>, first: Str16, rest: seq<Str16>)
    requires lines == [first] + rest
    ensures Notes(lines) == Note(first) + Notes(rest)
  {
    hide Note;
    assert lines[1..] == rest;
  }

  lemma {:induction false} NotesConcat(a: seq<Str16>, b: seq<Str16>)
    ensures Notes(a + b) == Notes(a) + Notes(b)
  {
    hide Note, Notes;
    if a == [] {
      NoNotes();
      assert a + b == b && [] + Notes(b) == Notes(b);
    } else {
      var first, rest := a[0], a[1..];
      NotesConcat(rest, b);
      assert a == [first] + rest && a + b == [first] + (rest + b);
      NotesOfFirst(a, first, rest);
      NotesOfFirst(a + b, first, rest + b);
      assert Note(first) + (Notes(rest) + Notes(b)) == (Note(first) + Notes(rest)) + Notes(b);
    }
  }

  lemma OneNote(line: Str16)
    ensures Notes([line]) == Note(line)
  {
    hide Note;
    var lines := [line];
    assert lines[1..] == [];
  }

  // A separator ends the first piece, also when it is a CR LF pair.
  lemma PiecesAfterBreak(first: Str16, gap: Str16, rest: Str16)
    requires forall c | c in first :: c != CR && c != LF
    requires gap == [CR] || gap == [LF] || gap == [CR, LF]
    ensures PieceNotes(first + gap + rest) == Note(first) + PieceNotes(rest)
  {
    hide Note, FirstBreak, PieceNotes;
    assert first + gap + rest == first + (gap + rest);
    FirstPiece(first, gap + rest);
    if |gap| == 2 {
      assert (gap + rest)[1..] == [] + ([LF] + rest) && ([LF] + rest)[1..] == rest;
      FirstPiece([], [LF] + rest);
      EmptyIsBlank();
      assert [] + PieceNotes(rest) == PieceNotes(rest);
    } else {
      assert (gap + rest)[1..] == rest;
    }
  }

  lemma GapIs(u: Str16, i: nat)
    requires i < |u| && (u[i] == CR || u[i] == LF)
    ensures var len := BreakLength(u, i);
            && i + len <= |u| && u == u[..i] + u[i..i + len] + u[i + len..]
            && (u[i..i + len] == [CR] || u[i..i + len] == [LF] || u[i..i + len] == [CR, LF])
  {
    if BreakLength(u, i) == 2 {
      assert u[i..i + 2] == [CR, LF];
    } else {
      assert u[i..i + 1] == [u[i]];
    }
  }

  lemma SplitUnfolds(u: Str16)
    ensures var i := FirstBreak(u);
            if i == |u| then Split(u) == [u]
            else i + BreakLength(u, i) <= |u| && Split(u) == [u[..i]] + Split(u[i + BreakLength(u, i)..])
  {
    hide FirstBreak;
  }

  lemma NoBreakBefore(u: Str16)
    ensures forall c | c in u[..FirstBreak(u)] :: c != CR && c != LF
  {
    var i := FirstBreak(u);
    assert forall k | 0 <= k < i :: u[..i][k] == u[k];
  }

  // Splitting off the complete pieces of u leaves a tail that starts the pieces of what follows.
  lemma {:induction false} SplitThenPieces(u: Str16, v: Str16)
    ensures var pieces := Split(u); var n := |pieces| - 1;
            PieceNotes(u + v) == Notes(pieces[..n]) + PieceNotes(pieces[n] + v)
  {
    hide Note, FirstBreak, PieceNotes, Split, BreakLength, Notes;
    SplitUnfolds(u);
    var i := FirstBreak(u);
    if i == |u| {
      assert Notes([]) == [] by { NoNotes(); }
      assert Split(u)[..0] == [] && [] + PieceNotes(u + v) == PieceNotes(u + v);
    } else {
      var len := BreakLength(u, i);
      GapIs(u, i);
      NoBreakBefore(u);
      var first, rest := u[..i], u[i + len..];
      PiecesAfterBreak(first, u[i..i + len], rest + v);
      assert u + v == first + u[i..i + len] + (rest + v);
      SplitThenPieces(rest, v);
      var pieces := Split(rest);
      var n := |pieces| - 1;
      assert ([first] + pieces)[..n + 1] == [first] + pieces[..n];
      NotesOfFirst([first] + pieces[..n], first, pieces[..n]);
      assert Note(first) + (Notes(pieces[..n]) + PieceNotes(pieces[n] + v))
          == (Note(first) + Notes(pieces[..n])) + PieceNotes(pieces[n] + v);
    }
  }

  lemma NoNotes()
    ensures Notes([]) == []
  {
  }

  lemma {:induction false} ReportedFrom(tail: Str16, chunks: seq<Str16>)
    requires FirstBreak(tail) == |tail|
    ensures Reported(tail, chunks) == PieceNotes(tail + Concat(chunks))
    decreases |chunks|
  {
    hide Note, FirstBreak, PieceNotes, Split, Notes;
    if chunks == [] {
      assert tail + Concat(chunks) == tail;
      OnePiece(tail);
    } else {
      var u, v := tail + chunks[0], Concat(chunks[1..]);
      assert tail + Concat(chunks) == u + v;
      SplitThenPieces(u, v);
      TailIsOnePiece(u);
      var pieces := Split(u);
      ReportedFrom(pieces[|pieces| - 1], chunks[1..]);
    }
  }

  lemma {:induction false} TailIsOnePiece(u: Str16)
    ensures var pieces := Split(u); var tail := pieces[|pieces| - 1]; FirstBreak(tail) == |tail|
  {
    hide FirstBreak;
    var i := FirstBreak(u);
    if i < |u| {
      TailIsOnePiece(u[i + BreakLength(u, i)..]);
    }
  }

  /** The notes are the non-blank pieces of the whole stream, however it was cut into chunks. */
  lemma NotesIgnoreChunks(chunks: seq<Str16>)
    ensures Reported([], chunks) == PieceNotes(Concat(chunks))
  {
    hide Reported, PieceNotes, Concat;
    assert [] + Concat(chunks) == Concat(chunks);
    ReportedFrom([], chunks);
  }

  // --- What a note says ---

  lemma {:induction false} TrimEndOfEnded(text: Str16, trail: Str16)
    requires text != [] && !IsSpace(text[|text| - 1]) && Blank(trail)
    ensures TrimEnd(text + trail) == text
    decreases |trail|
  {
    hide IsSpace;
    if trail == [] {
      assert text + trail == text;
    } else {
      var n := |trail| - 1;
      assert trail[n] in trail && (text + trail)[..|text| + n] == text + trail[..n];
      TrimEndOfEnded(text, trail[..n]);
    }
  }

  /** The note of a line is the line without the white space at its end; a blank line has none. */
  lemma NoteIsTheText(text: Str16, trail: Str16)
    requires Blank(trail)
    ensures Note(trail) == []
    ensures text != [] && !IsSpace(text[|text| - 1]) ==> Note(text + trail) == [text]
  {
    BlankStays(trail);
    TrimEndCuts(StripCR(trail));
    if text != [] && !IsSpace(text[|text| - 1]) {
      if trail == [] {
        assert text + trail == text && StripCR(text) == text by { EndsPlainly(text); }
        TrimEndOfEnded(text, []);
      } else {
        assert StripCR(text + trail) == text + StripCR(trail) by { StripsTheTrail(text, trail); }
        TrimEndOfEnded(text, StripCR(trail));
      }
    }
  }

  lemma BlankStays(trail: Str16)
    requires Blank(trail)
    ensures Blank(StripCR(trail))
  {
  }

  lemma EndsPlainly(text: Str16)
    requires text != [] && !IsSpace(text[|text| - 1])
    ensures StripCR(text) == text
  {
  }

  lemma StripsTheTrail(text: Str16, trail: Str16)
    requires trail != []
    ensures StripCR(text + trail) == text + StripCR(trail)
  {
    assert (text + trail)[|text + trail| - 1] == trail[|trail| - 1];
    assert (text + trail)[..|text + trail| - 1] == text + trail[..|trail| - 1];
  }

  // A line as it is printed: a text that shows, white space, and one of the three separators.
  datatype Printed = Printed(text: Str16, trail: Str16, gap: Str16)

  predicate GoodPrinted(p: Printed) {
    && p.text != [] && !IsSpace(p.text[|p.text| - 1]) && Blank(p.trail)
    && (forall c | c in p.text + p.trail :: c != 0x0D && c != 0x0A)
    && (p.gap == [0x0D] || p.gap == [0x0A] || p.gap == [0x0D, 0x0A])
  }

  function Output(ps: seq<Printed>): Str16 {
    if ps == [] then [] else ps[0].text + ps[0].trail + ps[0].gap + Output(ps[1..])
  }

  function Texts(ps: seq<Printed>): seq<Str16> {
    if ps == [] then [] else [ps[0].text] + Texts(ps[1..])
  }

  lemma {:induction false} PiecesOfOutput(ps: seq<Printed>)
    requires forall p | p in ps :: GoodPrinted(p)
    ensures PieceNotes(Output(ps)) == Texts(ps)
  {
    hide Note, FirstBreak, PieceNotes, IsSpace, Blank;
    if ps == [] {
      EmptyIsBlank();
    } else {
      assert GoodPrinted(ps[0]);
      PiecesAfterBreak(ps[0].text + ps[0].trail, ps[0].gap, Output(ps[1..]));
      NoteIsTheText(ps[0].text, ps[0].trail);
      PiecesOfOutput(ps[1..]);
    }
  }

  /** Lines printed with any of the separators are reported as they were, without the white space at their ends, however
      the stream is cut. */
  lemma PrintedLinesAreReported(ps: seq<Printed>, chunks: seq<Str16>)
    requires (forall p | p in ps :: GoodPrinted(p)) && Concat(chunks) == Output(ps)
    ensures Reported([], chunks) == Texts(ps)
  {
    hide Reported, PieceNotes, Concat, Output, GoodPrinted;
    NotesIgnoreChunks(chunks);
    PiecesOfOutput(ps);
  }

  // --- The capture ---

  class Capture {
    var stderr: Str16
    var stderrTail: Str16

    constructor ()
      ensures stderr == [] && stderrTail == []
    {
      stderr, stderrTail := [], [];
    }

    method OnData(text: Str16) returns (notes: seq<Str16>)
      modifies this
      ensures stderr == old(stderr) + text
      ensures (stderrTail, notes) == Data(old(stderrTail), text)
    {
      hide Note, Split;
      stderr := stderr + text;
      stderrTail := stderrTail + text;
      var matches := Split(stderrTail);
      stderrTail := matches[|matches| - 1];
      matches := matches[..|matches| - 1];
      notes := [];
      for i := 0 to |matches|
        invariant stderr == old(stderr) + text && stderrTail == Data(old(stderrTail), text).0
        invariant notes == Notes(matches[..i])
      {
        assert matches[..i + 1] == matches[..i] + [matches[i]];
        NotesConcat(matches[..i], [matches[i]]);
        OneNote(matches[i]);
        notes := notes + Note(matches[i]);
      }
      assert matches[..|matches|] == matches;
    }

    method OnClose() returns (notes: seq<Str16>)
      ensures notes == Reported(stderrTail, [])
    {
      notes := [];
      if |stderrTail| > 0 {
        notes := Note(stderrTail);
      } else {
        EmptyIsBlank();
      }
    }
  }
}
