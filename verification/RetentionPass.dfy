/** The retention pass among the other uses of a log: passes that stop at an error, and passes whose
    awaits between `readdir`, `stat` and `rm` let writes in. */
module RetentionPass {
  import opened Sequences
  import opened LogRotation

  function Bytes(chunks: seq<Chunk>): seq<bv8> {
    if chunks == [] then [] else chunks[0] + Bytes(chunks[1..])
  }

  lemma {:induction false} BytesConcat(a: seq<Chunk>, b: seq<Chunk>)
    ensures Bytes(a + b) == Bytes(a) + Bytes(b)
  {
    if a == [] {
      assert a + b == b;
    } else {
      assert (a + b)[1..] == a[1..] + b;
      BytesConcat(a[1..], b);
    }
  }

  lemma BytesKeepSuffix(a: seq<Chunk>, b: seq<Chunk>)
    requires IsSuffix(a, b)
    ensures IsSuffix(Bytes(a), Bytes(b))
  {
    hide Bytes;
    var before := b[..|b| - |a|];
    assert b == before + a;
    BytesConcat(before, a);
    TailIsSuffix(Bytes(before), Bytes(a));
  }

  // --- What a log can come to hold ---

  ghost predicate Reachable(limits: Limits, s: State) {
    exists ss, steps :: IsRun(limits, ss, steps) && ss[|steps|] == s
  }

  lemma StepStaysReachable(limits: Limits, s: State, step: Step)
    requires Reachable(limits, s) && LogRotation.Enabled(limits, s, step)
    ensures Reachable(limits, LogRotation.Apply(limits, s, step))
  {
    hide LogRotation.Enabled, LogRotation.Apply;
    var ss, steps :| IsRun(limits, ss, steps) && ss[|steps|] == s;
    var ss', steps' := ss + [LogRotation.Apply(limits, s, step)], steps + [step];
    assert IsRun(limits, ss', steps') && ss'[|steps'|] == LogRotation.Apply(limits, s, step);
  }

  lemma ReachableHasInv(limits: Limits, s: State)
    requires Reachable(limits, s)
    ensures LogRotation.Inv(limits, s)
  {
    hide LogRotation.Inv;
    var ss, steps :| IsRun(limits, ss, steps) && ss[|steps|] == s;
    RunHasInv(limits, ss, steps);
  }

  lemma RunHasInv(limits: Limits, ss: seq<State>, steps: seq<Step>)
    requires IsRun(limits, ss, steps)
    ensures LogRotation.Inv(limits, ss[|steps|])
  {
    FilesHoldASuffix(limits, ss, steps, |steps|);
  }

  // --- Passes that stop ---

  function Kept(limits: Limits, dir: Directory, names: seq<nat>, cutoff: int): seq<Chunk> {
    Contents(PartlyCleaned(dir, names, cutoff), Generations(limits.maxFiles))
  }

  ghost predicate LinesAfter(limits: Limits, s: State, names: seq<nat>, cutoff: int) {
    IsSuffix(Kept(limits, s.dir, names, cutoff), s.stream)
  }

  ghost predicate BytesAfter(limits: Limits, s: State, names: seq<nat>, cutoff: int) {
    IsSuffix(Bytes(Kept(limits, s.dir, names, cutoff)), Bytes(s.stream))
  }

  // A pass over files read in this order may run in this state.
  ghost predicate MayRun(limits: Limits, s: State, listing: seq<nat>, cutoff: int) {
    Reachable(limits, s) && Listed(s.dir, listing) && cutoff <= s.now
  }

  // Whatever was written before, and wherever the pass stops, the appended lines keep a suffix.
  ghost predicate StopsSafely(limits: Limits, listing: seq<nat>) {
    forall s, cutoff, k | MayRun(limits, s, listing, cutoff) && 0 <= k <= |listing| ::
      LinesAfter(limits, s, listing[..k], cutoff)
  }

  // The same for the bytes.
  ghost predicate StopsSafelyInBytes(limits: Limits, listing: seq<nat>) {
    forall s, cutoff, k | MayRun(limits, s, listing, cutoff) && 0 <= k <= |listing| ::
      BytesAfter(limits, s, listing[..k], cutoff)
  }

  lemma DescendingStopsSafely(limits: Limits, listing: seq<nat>)
    requires Descends(listing)
    ensures StopsSafely(limits, listing)
  {
    hide Reachable, Listed, Descends, IsSuffix, Contents, PartlyCleaned;
    var n := Generations(limits.maxFiles);
    forall s, cutoff, k | MayRun(limits, s, listing, cutoff) && 0 <= k <= |listing|
      ensures LinesAfter(limits, s, listing[..k], cutoff)
    {
      ReachableHasInv(limits, s);
      DescendingKeepsLower(s.dir, listing, cutoff, s.now, k);
      var dir' := PartlyCleaned(s.dir, listing[..k], cutoff);
      LowerKeepsSuffix(s.dir, dir', n);
      SuffixIsTransitive(Contents(dir', n), Contents(s.dir, n), s.stream);
    }
  }

  // More than fits in a file, all ones or all zeros.
  function Filler(limits: Limits, high: bool): (chunk: Chunk)
    ensures |chunk| > 0 && |chunk| > limits.maxSizeBytes
  {
    seq(if limits.maxSizeBytes <= 0 then 1 else limits.maxSizeBytes + 1, _ => if high then 1 else 0)
  }

  // With k rotations to go until the numbers are those of the listing: from `high` on ones, below it zeros.
  function Growing(limits: Limits, listing: seq<nat>, high: nat, k: nat): Directory {
    map i: nat | i <= Generations(limits.maxFiles) && Named(listing, k, i) ::
      LogFile([Filler(limits, i + k >= high)], 0)
  }

  predicate Named(listing: seq<nat>, k: nat, i: nat) {
    i == 0 || i + k in listing
  }

  ghost predicate Fits(limits: Limits, listing: seq<nat>) {
    forall i | i in listing :: i <= Generations(limits.maxFiles)
  }

  lemma FillersRotate(limits: Limits, dir: Directory, high: bool, incoming: bool)
    requires 0 in dir && dir[0].chunks == [Filler(limits, high)]
    ensures NeedsRotation(dir, |Filler(limits, incoming)|, limits.maxSizeBytes)
  {
    var chunk := Filler(limits, high);
    assert [chunk][..0] == [];
    assert Size([]) == 0;
    assert Size([chunk]) == |chunk|;
  }

  lemma FirstWriteGrows(limits: Limits, listing: seq<nat>, high: nat)
    requires Fits(limits, listing)
    ensures var k := Generations(limits.maxFiles);
            var write := Write(Filler(limits, k >= high), Appended);
            LogRotation.Apply(limits, EMPTY, write).dir == Growing(limits, listing, high, k)
  {
    hide Filler, Size;
    var k := Generations(limits.maxFiles);
    var dir := Growing(limits, listing, high, k);
    var chunk := Filler(limits, k >= high);
    forall i: nat ensures i in dir <==> i == 0 {
      assert Named(listing, k, i) <==> i == 0 || i + k in listing;
    }
    assert [] + [chunk] == [chunk];
    assert dir == map[0 := LogFile([chunk], 0)];
  }

  lemma WriteGrows(limits: Limits, listing: seq<nat>, high: nat, k: nat)
    requires Fits(limits, listing) && k < Generations(limits.maxFiles) && k + 1 in listing
    ensures var dir := Growing(limits, listing, high, k + 1);
            var rotated := Rotated(dir, |Filler(limits, k >= high)|, limits.maxSizeBytes, limits.maxFiles);
            Append(rotated, Filler(limits, k >= high), 0) == Growing(limits, listing, high, k)
  {
    hide Filler, NeedsRotation, Shifted;
    var dir, dir' := Growing(limits, listing, high, k + 1), Growing(limits, listing, high, k);
    FillersRotate(limits, dir, k + 1 >= high, k >= high);
    var s := Shifted(dir, limits.maxFiles, 0);
    ShiftedIs(dir, limits.maxFiles, 0);
    forall i: nat | i > 0 ensures (i in s <==> i in dir') && (i in s ==> s[i] == dir'[i]) {
      assert Named(listing, k, i) <==> Named(listing, k + 1, i - 1);
      assert i in s ==> s[i] == dir[i - 1] && (i - 1) + (k + 1) == i + k;
    }
    assert Named(listing, k, 0) && Named(listing, k + 1, 0);
    var chunk := Filler(limits, k >= high);
    assert [] + [chunk] == [chunk];
    assert Append(s, chunk, 0) == dir';
  }

  lemma StoppedRotationGrows(limits: Limits, listing: seq<nat>, high: nat, k: nat)
    requires Fits(limits, listing) && k < Generations(limits.maxFiles) && k + 1 !in listing && high in listing
    ensures Shifted(Growing(limits, listing, high, k + 1), limits.maxFiles, 1) == Growing(limits, listing, high, k)
  {
    hide Filler, Shifted;
    var dir, dir' := Growing(limits, listing, high, k + 1), Growing(limits, listing, high, k);
    var s := Shifted(dir, limits.maxFiles, 1);
    ShiftedIs(dir, limits.maxFiles, 1);
    forall i: nat ensures (i in s <==> i in dir') && (i in s ==> s[i] == dir'[i]) {
      if i > 1 {
        assert Named(listing, k, i) <==> Named(listing, k + 1, i - 1);
        assert i in s ==> s[i] == dir[i - 1] && (i - 1) + (k + 1) == i + k;
      }
    }
    assert s == dir';
  }

  // Every listing within the range is what some run's directory holds.
  lemma {:induction false} GrowingIsReachable(limits: Limits, listing: seq<nat>, high: nat, k: nat)
    requires Fits(limits, listing) && high in listing && k <= Generations(limits.maxFiles)
    ensures exists s :: Reachable(limits, s) && s.dir == Growing(limits, listing, high, k) && s.now == 0
    decreases Generations(limits.maxFiles) - k
  {
    hide Reachable, Growing, Filler, Rotated, Append, Shifted, NeedsRotation;
    var chunk := Filler(limits, k >= high);
    if k == Generations(limits.maxFiles) {
      EmptyIsReachable(limits);
      StepStaysReachable(limits, EMPTY, Write(chunk, Appended));
      FirstWriteGrows(limits, listing, high);
    } else {
      GrowingIsReachable(limits, listing, high, k + 1);
      var s :| Reachable(limits, s) && s.dir == Growing(limits, listing, high, k + 1) && s.now == 0;
      if k + 1 in listing {
        StepStaysReachable(limits, s, Write(chunk, Appended));
        WriteGrows(limits, listing, high, k);
      } else {
        var dir' := Shifted(s.dir, limits.maxFiles, 1);
        GrowingRotates(limits, listing, high, k + 1, chunk);
        StepStaysReachable(limits, s, Write(chunk, Stopped(dir')));
        StoppedRotationGrows(limits, listing, high, k);
      }
    }
  }

  lemma GrowingRotates(limits: Limits, listing: seq<nat>, high: nat, k: nat, chunk: Chunk)
    requires chunk == Filler(limits, true) || chunk == Filler(limits, false)
    ensures NeedsRotation(Growing(limits, listing, high, k), |chunk|, limits.maxSizeBytes)
  {
    hide NeedsRotation, Filler;
    assert Named(listing, k, 0);
    FillersRotate(limits, Growing(limits, listing, high, k), k >= high, chunk == Filler(limits, true));
  }

  lemma EmptyIsReachable(limits: Limits)
    ensures Reachable(limits, EMPTY)
  {
    assert IsRun(limits, [EMPTY], []);
  }

  // --- Reading what is left, byte by byte ---

  lemma BytesOf(dir: Directory, n: nat)
    ensures var top := if n in dir then Bytes(dir[n].chunks) else [];
            Bytes(Contents(dir, n)) == top + if n == 0 then [] else Bytes(Contents(dir, n - 1))
  {
    hide Bytes, Contents;
    ContentsOf(dir, n);
    BytesConcat(if n in dir then dir[n].chunks else [], if n == 0 then [] else Contents(dir, n - 1));
    assert Bytes([]) == [] by { NoBytes(); }
  }

  lemma NoBytes()
    ensures Bytes([]) == []
  {
  }

  lemma OneChunkBytes(chunk: Chunk)
    ensures Bytes([chunk]) == chunk
  {
    assert [chunk][1..] == [];
    assert chunk + [] == chunk;
  }

  lemma {:induction false} ZerosReadZero(dir: Directory, n: nat)
    requires forall i | i in dir && i <= n :: forall x | x in Bytes(dir[i].chunks) :: x == 0
    ensures forall x | x in Bytes(Contents(dir, n)) :: x == 0
  {
    hide Contents, Bytes;
    BytesOf(dir, n);
    if n > 0 { ZerosReadZero(dir, n - 1); }
  }

  lemma {:induction false} FewerFilesReadLess(whole: Directory, part: Directory, low: nat, n: nat)
    requires forall i | i in part :: i in whole && part[i] == whole[i]
    requires low in whole && low !in part && Bytes(whole[low].chunks) != []
    ensures |Bytes(Contents(part, n))| + (if low <= n then 1 else 0) <= |Bytes(Contents(whole, n))|
  {
    hide Contents, Bytes;
    BytesOf(whole, n);
    BytesOf(part, n);
    if n > 0 { FewerFilesReadLess(whole, part, low, n - 1); }
  }

  // The byte right before this tail is a one.
  ghost predicate OneBefore(bytes: seq<bv8>, tail: seq<bv8>) {
    |tail| < |bytes| && bytes[|bytes| - |tail| - 1] == 1 && IsSuffix(tail, bytes)
  }

  lemma OneBeforeGrows(front: seq<bv8>, bytes: seq<bv8>, tail: seq<bv8>)
    requires OneBefore(bytes, tail)
    ensures OneBefore(front + bytes, tail)
  {
    TailIsSuffix(front, bytes);
    SuffixIsTransitive(tail, bytes, front + bytes);
  }

  lemma {:induction false} OneAboveLower(dir: Directory, high: nat, n: nat)
    requires 0 < high <= n && high in dir
    requires var top := Bytes(dir[high].chunks); top != [] && top[|top| - 1] == 1
    ensures OneBefore(Bytes(Contents(dir, n)), Bytes(Contents(dir, high - 1)))
  {
    hide Contents, Bytes, OneBefore;
    BytesOf(dir, n);
    if n == high {
      OneAtTheEnd(Bytes(dir[n].chunks), Bytes(Contents(dir, high - 1)));
    } else {
      OneAboveLower(dir, high, n - 1);
      OneBeforeGrows(if n in dir then Bytes(dir[n].chunks) else [], Bytes(Contents(dir, n - 1)),
                     Bytes(Contents(dir, high - 1)));
    }
  }

  lemma OneAtTheEnd(top: seq<bv8>, tail: seq<bv8>)
    requires top != [] && top[|top| - 1] == 1
    ensures OneBefore(top + tail, tail)
  {
    TailIsSuffix(top, tail);
  }

  // A one where the stream still has zeros.
  lemma OneTooEarly(bytes: seq<bv8>, tail: seq<bv8>, zeros: seq<bv8>, stream: seq<bv8>)
    requires OneBefore(bytes, tail) && |tail| < |zeros| && (forall x | x in zeros :: x == 0) && IsSuffix(zeros, stream)
    ensures !IsSuffix(bytes, stream)
  {
    hide OneBefore, IsSuffix;
    ZeroThere(|tail|, zeros, stream);
    if IsSuffix(bytes, stream) {
      OneThere(bytes, tail, stream);
    }
  }

  lemma ZeroThere(k: nat, zeros: seq<bv8>, stream: seq<bv8>)
    requires k < |zeros| && (forall x | x in zeros :: x == 0) && IsSuffix(zeros, stream)
    ensures k < |stream| && stream[|stream| - k - 1] == 0
  {
    assert zeros[|zeros| - k - 1] in zeros;
  }

  lemma OneThere(bytes: seq<bv8>, tail: seq<bv8>, stream: seq<bv8>)
    requires OneBefore(bytes, tail) && IsSuffix(bytes, stream)
    ensures |tail| < |stream| && stream[|stream| - |tail| - 1] == 1
  {
  }

  lemma GrownIs(limits: Limits, listing: seq<nat>, high: nat)
    requires Fits(limits, listing)
    ensures var dir := Growing(limits, listing, high, 0);
            forall i: nat :: (i in dir <==> i == 0 || i in listing)
                             && (i in dir ==> dir[i] == LogFile([Filler(limits, i >= high)], 0))
  {
    hide Filler;
    var dir := Growing(limits, listing, high, 0);
    forall i: nat
      ensures (i in dir <==> i == 0 || i in listing)
              && (i in dir ==> dir[i] == LogFile([Filler(limits, i >= high)], 0))
    {
      assert Named(listing, 0, i) <==> i == 0 || i + 0 in listing;
    }
  }

  lemma FillerBytes(limits: Limits, high: bool)
    ensures var bytes := Bytes([Filler(limits, high)]);
            bytes != [] && (forall x | x in bytes :: x == if high then 1 else 0) && bytes[|bytes| - 1] in bytes
  {
    OneChunkBytes(Filler(limits, high));
  }

  // What is left above and below a removed number, when a higher one stays.
  lemma LossShows(limits: Limits, whole: Directory, part: Directory, low: nat, high: nat, stream: seq<bv8>)
    requires forall i | i in whole :: whole[i].chunks == [Filler(limits, i >= high)]
    requires forall i | i in part :: i in whole && part[i] == whole[i]
    requires 0 < low < high <= Generations(limits.maxFiles) && low in whole && low !in part && high in part
    requires IsSuffix(Bytes(Contents(whole, Generations(limits.maxFiles))), stream)
    ensures !IsSuffix(Bytes(Contents(part, Generations(limits.maxFiles))), stream)
  {
    hide Contents, Bytes, Filler, IsSuffix, OneBefore;
    var n := Generations(limits.maxFiles);
    FillerBytes(limits, true);
    FillerBytes(limits, false);
    OneAboveLower(part, high, n);
    OneAboveLower(whole, high, n);
    ZerosReadZero(whole, high - 1);
    FewerFilesReadLess(whole, part, low, high - 1);
    var zeros, all := Bytes(Contents(whole, high - 1)), Bytes(Contents(whole, n));
    assert IsSuffix(zeros, all) by { OneBeforeIsSuffix(all, zeros); }
    SuffixIsTransitive(zeros, all, stream);
    OneTooEarly(Bytes(Contents(part, n)), Bytes(Contents(part, high - 1)), zeros, stream);
  }

  lemma OneBeforeIsSuffix(bytes: seq<bv8>, tail: seq<bv8>)
    requires OneBefore(bytes, tail)
    ensures IsSuffix(tail, bytes)
  {
  }

  /** Where a listing names a lower number before a higher one, some run's files lose bytes from the middle
      when a pass stops between the two. */
  lemma AscendingLosesSuffix(limits: Limits, listing: seq<nat>, a: nat, b: nat)
    requires NamesOnce(listing) && Fits(limits, listing)
    requires a < b < |listing| && 0 < listing[a] < listing[b]
    ensures exists s :: MayRun(limits, s, listing, 1) && !BytesAfter(limits, s, listing[..a + 1], 1)
  {
    hide Reachable, Contents, Bytes, Filler, IsSuffix, Growing, LogRotation.Inv;
    var high, low, n := listing[b], listing[a], Generations(limits.maxFiles);
    GrowingIsReachable(limits, listing, high, 0);
    var s :| Reachable(limits, s) && s.dir == Growing(limits, listing, high, 0) && s.now == 0;
    var late := s.(now := 1);
    StepStaysReachable(limits, s, Tick(1));
    ReachableHasSuffix(limits, late);
    GrownIs(limits, listing, high);
    var names := listing[..a + 1];
    var part := PartlyCleaned(s.dir, names, 1);
    assert low in listing && names[a] == low;
    assert high in listing && high !in names;
    LossShows(limits, s.dir, part, low, high, Bytes(s.stream));
    assert MayRun(limits, late, listing, 1) && !BytesAfter(limits, late, names, 1);
  }

  lemma ReachableHasSuffix(limits: Limits, s: State)
    requires Reachable(limits, s)
    ensures IsSuffix(Bytes(Contents(s.dir, Generations(limits.maxFiles))), Bytes(s.stream))
  {
    hide Reachable, Contents, Bytes, IsSuffix;
    ReachableHasInv(limits, s);
    BytesKeepSuffix(Contents(s.dir, Generations(limits.maxFiles)), s.stream);
  }

  /** A pass that may stop after any name keeps a suffix of the appended lines, and of their bytes, in everything a run
      can have written, exactly when the listing names the numbered files from the highest down. */
  lemma StoppedPassKeepsSuffixExactlyWhen(limits: Limits, listing: seq<nat>)
    requires NamesOnce(listing) && Fits(limits, listing)
    ensures StopsSafely(limits, listing) <==> Descends(listing)
    ensures StopsSafelyInBytes(limits, listing) <==> Descends(listing)
  {
    hide MayRun, IsSuffix, Kept, Bytes;
    if Descends(listing) { DescendingStopsSafely(limits, listing); }
    if StopsSafely(limits, listing) {
      forall s, cutoff, k | MayRun(limits, s, listing, cutoff) && 0 <= k <= |listing|
        ensures BytesAfter(limits, s, listing[..k], cutoff)
      {
        assert LinesAfter(limits, s, listing[..k], cutoff);
        BytesKeepSuffix(Kept(limits, s.dir, listing[..k], cutoff), s.stream);
      }
    }
    if !Descends(listing) {
      var a, b :| 0 <= a < b < |listing| && listing[a] > 0 && listing[b] > 0 && listing[a] <= listing[b];
      AscendingLosesSuffix(limits, listing, a, b);
    }
  }

  // --- Three lines, and a pass that stops after the first name ---

  const TWO_KEPT := Limits(1, 2)

  // After that many one-byte lines, each in a file of its own.
  const ONE_LINE := State(map[0 := LogFile([[1]], 0)], [[1]], 0)
  const TWO_LINES := State(map[1 := LogFile([[1]], 0), 0 := LogFile([[2]], 0)], [[1], [2]], 0)
  const THREE_LINES := State(map[2 := LogFile([[1]], 0), 1 := LogFile([[2]], 0), 0 := LogFile([[3]], 0)],
                             [[1], [2], [3]], 0)

  lemma OneByteRotates(dir: Directory, x: bv8, y: bv8, maxSizeBytes: int)
    requires maxSizeBytes == 1 && 0 in dir && dir[0].chunks == [[x]]
    ensures NeedsRotation(dir, |[y]|, maxSizeBytes)
  {
    assert [[x]][..0] == [];
    assert Size([[x]]) == Size([]) + 1;
  }

  lemma FirstLine(limits: Limits)
    ensures LogRotation.Apply(limits, EMPTY, Write([1], Appended)) == ONE_LINE
  {
    hide Size;
    var line: Chunk := [1];
    assert [] + [line] == [line];
  }

  lemma SecondLine()
    ensures LogRotation.Apply(TWO_KEPT, ONE_LINE, Write([2], Appended)) == TWO_LINES
  {
    hide NeedsRotation, Shifted;
    OneByteRotates(ONE_LINE.dir, 1, 2, 1);
    var s := Shifted(ONE_LINE.dir, 2, 0);
    ShiftedIs(ONE_LINE.dir, 2, 0);
    assert s == map[1 := LogFile([[1]], 0)];
    var line: Chunk := [2];
    assert [] + [line] == [line] && ONE_LINE.stream + [line] == TWO_LINES.stream;
  }

  lemma ThirdLine()
    ensures LogRotation.Apply(TWO_KEPT, TWO_LINES, Write([3], Appended)) == THREE_LINES
  {
    hide NeedsRotation, Shifted;
    OneByteRotates(TWO_LINES.dir, 2, 3, 1);
    var s := Shifted(TWO_LINES.dir, 2, 0);
    ShiftedIs(TWO_LINES.dir, 2, 0);
    assert s == map[2 := LogFile([[1]], 0), 1 := LogFile([[2]], 0)];
    var line: Chunk := [3];
    assert [] + [line] == [line] && TWO_LINES.stream + [line] == THREE_LINES.stream;
  }

  /** Three lines in three files; a pass that reads number 1 first and stops after it leaves the first and the last. */
  lemma StoppedPassLosesMiddleLine()
    ensures var s := THREE_LINES.(now := 1);
            && MayRun(TWO_KEPT, s, [1, 2], 1)
            && Kept(TWO_KEPT, s.dir, [1, 2][..1], 1) == [[1], [3]]
            && !LinesAfter(TWO_KEPT, s, [1, 2][..1], 1)
  {
    hide Reachable, Kept;
    ThreeLinesAreReachable();
    assert [1, 2][..1] == [1];
    OneStoppedPass();
    assert THREE_LINES.stream[1..][0] == [2];
  }

  lemma OneStoppedPass()
    ensures Kept(TWO_KEPT, THREE_LINES.dir, [1], 1) == [[1], [3]]
  {
    hide Contents;
    var part := PartlyCleaned(THREE_LINES.dir, [1], 1);
    assert part == map[2 := LogFile([[1]], 0), 0 := LogFile([[3]], 0)];
    ContentsOf(part, 0);
    ContentsOf(part, 1);
    ContentsOf(part, 2);
  }

  lemma ThreeLinesAreReachable()
    ensures Reachable(TWO_KEPT, THREE_LINES.(now := 1))
  {
    hide Reachable, LogRotation.Apply;
    EmptyIsReachable(TWO_KEPT);
    StepStaysReachable(TWO_KEPT, EMPTY, Write([1], Appended));
    FirstLine(TWO_KEPT);
    StepStaysReachable(TWO_KEPT, ONE_LINE, Write([2], Appended));
    SecondLine();
    StepStaysReachable(TWO_KEPT, TWO_LINES, Write([3], Appended));
    ThirdLine();
    StepStaysReachable(TWO_KEPT, THREE_LINES, Tick(1));
    TickOf(TWO_KEPT, THREE_LINES, 1);
  }

  lemma TickOf(limits: Limits, s: State, now: int)
    ensures LogRotation.Apply(limits, s, Tick(now)) == s.(now := now)
  {
  }
}
