/** What text a progress summary has, and progress reports that read back as they were written. */
module ProgressSummaries {
  import opened Text
  import opened ProgressLines

  // --- The text of a summary ---

  lemma {:induction false} DropControlsConcat(a: Str16, b: Str16)
    ensures DropControls(a + b) == DropControls(a) + DropControls(b)
  {
    hide IsControl;
    if a == [] {
      assert a + b == b;
    } else {
      assert (a + b)[1..] == a[1..] + b;
      DropControlsConcat(a[1..], b);
    }
  }

  lemma DropOne(c: CodeUnit)
    ensures DropControls([c]) == if IsControl(c) then [] else [c]
  {
    assert DropControls([c]) == (if IsControl(c) then [] else [c]) + DropControls([c][1..]);
  }

  lemma TrimDropsFront(c: CodeUnit, s: Str16)
    requires IsSpace(c)
    ensures Trim([c] + s) == Trim(s)
  {
    hide IsSpace;
    assert ([c] + s)[1..] == s;
  }

  lemma {:induction false} TrimStartBefore(s: Str16, c: CodeUnit)
    requires IsSpace(c)
    ensures TrimStart(s + [c]) == if TrimStart(s) == [] then [] else TrimStart(s) + [c]
  {
    hide IsSpace;
    if s == [] {
      assert TrimStart([c]) == TrimStart([c][1..]) == [];
      assert s + [c] == [c];
    } else {
      assert (s + [c])[1..] == s[1..] + [c];
      TrimStartBefore(s[1..], c);
    }
  }

  lemma TrimDropsEnd(s: Str16, c: CodeUnit)
    requires IsSpace(c)
    ensures Trim(s + [c]) == Trim(s)
  {
    hide IsSpace, TrimStart;
    TrimStartBefore(s, c);
    var t := TrimStart(s);
    assert (t + [c])[..|t|] == t;
  }

  /** Control characters anywhere, and white space at the ends, play no part in the summary. */
  lemma SanitizeIgnores(a: Str16, c: CodeUnit, b: Str16)
    ensures IsControl(c) ==> Sanitize(a + [c] + b) == Sanitize(a + b)
    ensures IsSpace(c) ==> Sanitize([c] + b) == Sanitize(b) && Sanitize(a + [c]) == Sanitize(a)
  {
    hide IsControl, IsSpace, DropControls, Trim;
    DropOne(c);
    DropControlsConcat(a + [c], b);
    DropControlsConcat(a, [c]);
    DropControlsConcat(a, b);
    DropControlsConcat([c], b);
    var before, after := DropControls(a), DropControls(b);
    assert before + [] == before && [] + after == after;
    if IsSpace(c) && !IsControl(c) {
      TrimDropsFront(c, after);
      TrimDropsEnd(before, c);
    }
  }

  // No control characters, no white space at the ends.
  predicate Plain(s: Str16) {
    (forall c | c in s :: !IsControl(c)) && (s != [] ==> !IsSpace(s[0]) && !IsSpace(s[|s| - 1]))
  }

  /** A plain text is its own summary up to 500 code units; of a longer one the summary is the first 497 and "...". */
  lemma SanitizeOfPlain(s: Str16)
    requires Plain(s)
    ensures Sanitize(s) == if |s| <= 500 then s else s[..497] + [0x2E, 0x2E, 0x2E]
  {
    hide IsControl, IsSpace, DropControls, Trim;
    DropControlsDrops(s);
    TrimIsTight(s);
  }

  // --- The line that carries it ---

  // "[PROGRESS]"
  const MARK: Str16 := [0x5B, 0x50, 0x52, 0x4F, 0x47, 0x52, 0x45, 0x53, 0x53, 0x5D]

  /** A line has a summary exactly when it starts with "[PROGRESS]" and what follows is not blank; a CR at its end does
      not count. */
  lemma ExtractsExactlyWhen(line: Str16)
    ensures !(MARK <= line) ==> Extract(line) == []
    ensures line == [] || line[|line| - 1] != 0x0D ==>
              forall body | line == MARK + body ::
                Extract(line) == Extract(line + [0x0D]) == if Sanitize(body) == [] then [] else [Sanitize(body)]
  {
    hide Sanitize;
    OnlyMarkedLinesExtract(line);
    assert (line + [0x0D])[..|line|] == line;
    forall body | line == MARK + body ensures line[|MARK|..] == body {
    }
  }

  lemma OnlyMarkedLinesExtract(line: Str16)
    ensures !(MARK <= line) ==> Extract(line) == []
  {
    hide Sanitize;
    assert MARK <= StripCR(line) ==> MARK <= line;
  }

  /** After a feed the unfinished line is kept exactly when it is the start of "[PROGRESS]", or starts with it, and has
      at most 4096 code units; otherwise it is forgotten. Flushing reports what is kept. */
  lemma PendingIsKeptExactlyWhen(pending: Str16, segment: Str16)
    ensures var rest := TakeLines(pending + segment).0;
            Fed(pending, segment).0 == if (rest <= MARK || MARK <= rest) && |rest| <= 4096 then rest else []
    ensures FeedAll(pending, []) == Extract(pending)
  {
    hide TakeLines, Extract;
  }

  // A report as a line: the prefix, a space, and a text of at most 500 code units that shows.
  function Report(summary: Str16): Str16 {
    MARK + [SPACE] + summary
  }

  predicate Reportable(summary: Str16) {
    summary != [] && |summary| <= 500 && Plain(summary) && LF !in summary && CleanLine(Report(summary))
  }

  function Reports(summaries: seq<Str16>): Str16 {
    if summaries == [] then [] else Report(summaries[0]) + [LF] + Reports(summaries[1..])
  }

  lemma ReportExtracts(summary: Str16)
    requires Reportable(summary)
    ensures Extract(Report(summary)) == [summary]
  {
    hide Sanitize, IsControl, IsSpace, CleanLine;
    var line, body := Report(summary), [SPACE] + summary;
    assert line == MARK + body;
    assert line[|line| - 1] == summary[|summary| - 1] != 0x0D by { EndsInNoCR(summary); }
    ExtractsExactlyWhen(line);
    SpaceIsSpace();
    SanitizeIgnores([], SPACE, summary);
    SanitizeOfPlain(summary);
  }

  lemma EndsInNoCR(s: Str16)
    requires s != [] && Plain(s)
    ensures s[|s| - 1] != 0x0D
  {
    assert IsSpace(0x0D);
  }

  lemma SpaceIsSpace()
    ensures IsSpace(SPACE)
  {
  }

  lemma ReportIsFirstLine(summary: Str16, rest: Str16)
    requires Reportable(summary)
    ensures var text := Report(summary) + [LF] + rest;
            FirstLF(text) == |Report(summary)| && text[..FirstLF(text)] == Report(summary)
            && text[FirstLF(text) + 1..] == rest
  {
    hide CleanLine, Plain;
    var line := Report(summary);
    var text := line + [LF] + rest;
    assert LF !in line;
    assert text[..|line|] == line;
    FirstLFIs(text, |line|);
  }

  lemma EmptyText()
    ensures Clean([]) && WholeLines([]) == []
  {
  }

  lemma {:induction false} ReportsAreWholeLines(summaries: seq<Str16>)
    requires forall s | s in summaries :: Reportable(s)
    ensures Clean(Reports(summaries)) && WholeLines(Reports(summaries)) == summaries
  {
    hide Reportable, Extract, FirstLF, Report;
    if summaries == [] {
      EmptyText();
    } else {
      var s, rest := summaries[0], Reports(summaries[1..]);
      ReportIsFirstLine(s, rest);
      ReportExtracts(s);
      ReportIsClean(s);
      ReportsAreWholeLines(summaries[1..]);
    }
  }

  lemma ReportIsClean(summary: Str16)
    requires Reportable(summary)
    ensures CleanLine(Report(summary))
  {
  }

  /** Reports written one to a line are read back as they were, however the stream is cut. */
  lemma ReportsReadBack(summaries: seq<Str16>, chunks: seq<Str16>)
    requires forall s | s in summaries :: Reportable(s)
    requires Concat(chunks) == Reports(summaries)
    ensures FeedAll([], chunks) == summaries
  {
    hide Reportable, FeedAll, Reports, Concat, WholeLines, Clean;
    ReportsAreWholeLines(summaries);
    CleanTextGivesWholeLines(chunks);
  }
}
