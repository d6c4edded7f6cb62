/** Size-based rotation of a log file through numbered generations, over a directory held as a map
    from number to file: 0 is the live file, i stands for `<file>.i`. */
module LogRotation {
  import opened Sequences

  // What one append writes, as bytes.
  type Chunk = seq<bv8>

  datatype LogFile = LogFile(chunks: seq<Chunk>, mtime: int)

  type Directory = map<nat, LogFile>

  function Size(chunks: seq<Chunk>): nat {
    if chunks == [] then 0 else Size(chunks[..|chunks| - 1]) + |chunks[|chunks| - 1]|
  }

  function SizeAt(dir: Directory, i: nat): nat {
    if i in dir then Size(dir[i].chunks) else 0
  }

  // Reading the files from number n down to the live one.
  function Contents(dir: Directory, n: nat): seq<Chunk> {
    (if n in dir then dir[n].chunks else []) + if n == 0 then [] else Contents(dir, n - 1)
  }

  // --- Rotation ---

  // The generation that ends up as number k when the oldest one goes and everything from j on moves up by one;
  // numbers above maxFiles, left by an earlier setting, stay.
  function Source(maxFiles: nat, j: nat, k: nat): nat
    requires k != j
  {
    if k < j || k > maxFiles then k else k - 1
  }

  function Numbers(dir: Directory, maxFiles: nat, j: nat): set<nat> {
    dir.Keys + set k: nat | k <= maxFiles && k != j && Source(maxFiles, j, k) in dir
  }

  function Shifted(dir: Directory, maxFiles: nat, j: nat): Directory
    requires j <= maxFiles
  {
    map k | k in Numbers(dir, maxFiles, j) && k != j && Source(maxFiles, j, k) in dir :: dir[Source(maxFiles, j, k)]
  }

  predicate NeedsRotation(dir: Directory, incoming: nat, maxSizeBytes: int) {
    SizeAt(dir, 0) + incoming > maxSizeBytes && SizeAt(dir, 0) != 0
  }

  // A rotation that completes.
  function Rotated(dir: Directory, incoming: nat, maxSizeBytes: int, maxFiles: int): Directory {
    if !NeedsRotation(dir, incoming, maxSizeBytes) then dir
    else if maxFiles <= 0 then dir - {0}
    else Shifted(dir, maxFiles, 0)
  }

  // The directories an interrupted rotation can leave: nothing done, or the first few of its removes and renames.
  ghost predicate Interrupted(dir: Directory, incoming: nat, maxSizeBytes: int, maxFiles: int, dir': Directory) {
    || dir' == dir
    || (NeedsRotation(dir, incoming, maxSizeBytes) && maxFiles > 0
        && exists j | 0 <= j <= maxFiles :: dir' == Shifted(dir, maxFiles, j))
    || dir' == Rotated(dir, incoming, maxSizeBytes, maxFiles)
  }

  function Generations(maxFiles: int): nat {
    if maxFiles <= 0 then 0 else maxFiles
  }

  ghost predicate InRange(dir: Directory, n: nat) {
    forall i | i in dir :: i <= n
  }

  function Renamed(dir: Directory, i: nat, j: nat): Directory
    requires i in dir
  {
    (dir - {i})[j := dir[i]]
  }

  lemma ShiftedIs(dir: Directory, maxFiles: nat, j: nat)
    requires j <= maxFiles
    ensures var s := Shifted(dir, maxFiles, j);
            && j !in s
            && forall i: nat | i != j :: (i in s <==> Source(maxFiles, j, i) in dir)
                                         && (i in s ==> s[i] == dir[Source(maxFiles, j, i)])
  {
  }

  // One rename of the loop: generation j moves up to j + 1, or is missing.
  lemma ShiftStep(dir: Directory, maxFiles: nat, j: nat)
    requires j < maxFiles
    ensures var s := Shifted(dir, maxFiles, j + 1);
            && j + 1 !in s
            && (j in s <==> j in dir)
            && Shifted(dir, maxFiles, j) == if j in s then Renamed(s, j, j + 1) else s
  {
    var s, r := Shifted(dir, maxFiles, j + 1), Shifted(dir, maxFiles, j);
    forall k: nat ensures k in r <==> k in (if j in s then Renamed(s, j, j + 1) else s) {
      if k < j {
        assert Source(maxFiles, j, k) == Source(maxFiles, j + 1, k) == k;
      } else if j + 1 < k <= maxFiles {
        assert Source(maxFiles, j, k) == Source(maxFiles, j + 1, k) == k - 1;
      }
    }
  }

  lemma ShiftStart(dir: Directory, maxFiles: nat)
    ensures Shifted(dir, maxFiles, maxFiles) == dir - {maxFiles}
  {
    forall k: nat ensures k in Shifted(dir, maxFiles, maxFiles) <==> k in dir - {maxFiles} {
      if k < maxFiles { assert Source(maxFiles, maxFiles, k) == k; }
    }
  }

  lemma {:induction false} ShiftBelow(dir: Directory, maxFiles: nat, j: nat, n: nat)
    requires j <= maxFiles && n < j
    ensures Contents(Shifted(dir, maxFiles, j), n) == Contents(dir, n)
  {
    if n > 0 { ShiftBelow(dir, maxFiles, j, n - 1); }
  }

  lemma ShiftedAt(dir: Directory, maxFiles: nat, j: nat, n: nat)
    requires j <= n < maxFiles
    ensures var s := Shifted(dir, maxFiles, j);
            j !in s && (n in dir <==> n + 1 in s) && (n in dir ==> s[n + 1] == dir[n])
  {
    hide Contents;
    assert Source(maxFiles, j, n + 1) == n;
  }

  lemma ContentsOf(dir: Directory, n: nat)
    ensures Contents(dir, n) == (if n in dir then dir[n].chunks else []) + if n == 0 then [] else Contents(dir, n - 1)
  {
  }

  lemma {:induction false} ShiftAbove(dir: Directory, maxFiles: nat, j: nat, n: nat)
    requires j <= n < maxFiles
    ensures Contents(Shifted(dir, maxFiles, j), n + 1) == Contents(dir, n)
  {
    hide Shifted, Contents;
    var s := Shifted(dir, maxFiles, j);
    ShiftedAt(dir, maxFiles, j, n);
    ContentsOf(s, n + 1);
    ContentsOf(dir, n);
    if n > j {
      ShiftAbove(dir, maxFiles, j, n - 1);
    } else {
      ContentsOf(s, j);
      if j > 0 { ShiftBelow(dir, maxFiles, j, j - 1); }
    }
  }

  /** Dropping the oldest generation, and moving up those from any j on, loses that generation and nothing else. */
  lemma ShiftDropsOldest(dir: Directory, maxFiles: nat, j: nat)
    requires j <= maxFiles && maxFiles > 0
    ensures Contents(Shifted(dir, maxFiles, j), maxFiles) == Contents(dir, maxFiles - 1)
  {
    if j < maxFiles {
      ShiftAbove(dir, maxFiles, j, maxFiles - 1);
    } else {
      ShiftBelow(dir, maxFiles, j, maxFiles - 1);
    }
  }

  /** A rotation, complete or stopped after any of its steps, leaves the files' contents as they were or without the
      oldest generation (without the live file when no generations are kept), in the same order. */
  lemma RotationDropsOldest(dir: Directory, incoming: nat, maxSizeBytes: int, maxFiles: int, dir': Directory)
    requires Interrupted(dir, incoming, maxSizeBytes, maxFiles, dir')
    ensures var n := Generations(maxFiles);
            && (Contents(dir', n) == Contents(dir, n)
                || Contents(dir', n) == if n == 0 then [] else Contents(dir, n - 1))
            && (dir' == Rotated(dir, incoming, maxSizeBytes, maxFiles) && NeedsRotation(dir, incoming, maxSizeBytes) ==>
                  Contents(dir', n) == if n == 0 then [] else Contents(dir, n - 1))
            && IsSuffix(Contents(dir', n), Contents(dir, n))
            && (InRange(dir, n) ==> InRange(dir', n))
  {
    var n := Generations(maxFiles);
    if maxFiles > 0 {
      forall j | 0 <= j <= maxFiles ensures Contents(Shifted(dir, n, j), n) == Contents(dir, n - 1) {
        ShiftDropsOldest(dir, n, j);
      }
    }
  }

  // --- Appending, the clock, and retention ---

  function Append(dir: Directory, chunk: Chunk, now: int): Directory {
    dir[0 := LogFile((if 0 in dir then dir[0].chunks else []) + [chunk], now)]
  }

  lemma {:induction false} AppendAddsLast(dir: Directory, chunk: Chunk, now: int, n: nat)
    ensures Contents(Append(dir, chunk, now), n) == Contents(dir, n) + [chunk]
  {
    if n > 0 { AppendAddsLast(dir, chunk, now, n - 1); }
  }

  // A completed retention pass.
  function Cleaned(dir: Directory, cutoff: int): Directory {
    map i | i in dir && (i == 0 || dir[i].mtime >= cutoff) :: dir[i]
  }

  // Higher generations are not younger than lower ones, and nothing is from the future.
  ghost predicate MtimesOrdered(dir: Directory, now: int) {
    && (forall i | i in dir :: dir[i].mtime <= now)
    && (forall i, j | i in dir && j in dir && i < j :: dir[j].mtime <= dir[i].mtime)
  }

  // A pass stopped after these names.
  function PartlyCleaned(dir: Directory, names: seq<nat>, cutoff: int): Directory {
    map i | i in dir && (i == 0 || i !in names || dir[i].mtime >= cutoff) :: dir[i]
  }

  // Only generations above a certain number were removed.
  ghost predicate KeepsLower(dir: Directory, dir': Directory) {
    && (forall i | i in dir' :: i in dir && dir'[i] == dir[i])
    && (forall i, j | i in dir' && j in dir && j <= i :: j in dir')
  }

  lemma {:induction false} LowerKeepsSuffix(dir: Directory, dir': Directory, n: nat)
    requires KeepsLower(dir, dir')
    ensures IsSuffix(Contents(dir', n), Contents(dir, n))
    ensures n in dir' ==> Contents(dir', n) == Contents(dir, n)
  {
    hide IsSuffix, Contents;
    ContentsOf(dir, n);
    ContentsOf(dir', n);
    var top: seq<Chunk> := if n in dir then dir[n].chunks else [];
    var rest := if n == 0 then [] else Contents(dir, n - 1);
    if n in dir' {
      LowerIsWhole(dir, dir', n, n);
      TailIsSuffix([], Contents(dir, n));
      assert [] + Contents(dir, n) == Contents(dir, n);
    } else {
      TailIsSuffix(top, rest);
      if n == 0 {
        TailIsSuffix(top, []);
      } else {
        LowerKeepsSuffix(dir, dir', n - 1);
        assert [] + Contents(dir', n - 1) == Contents(dir', n - 1);
        SuffixIsTransitive(Contents(dir', n - 1), rest, top + rest);
      }
    }
  }

  // Below a generation that was kept, everything was kept.
  lemma {:induction false} LowerIsWhole(dir: Directory, dir': Directory, kept: nat, n: nat)
    requires KeepsLower(dir, dir') && kept in dir' && n <= kept
    ensures Contents(dir', n) == Contents(dir, n)
  {
    if n > 0 { LowerIsWhole(dir, dir', kept, n - 1); }
  }

  /** With modification times in order, a completed pass keeps a suffix. */
  lemma CleanedKeepsSuffix(dir: Directory, cutoff: int, now: int, n: nat)
    requires MtimesOrdered(dir, now)
    ensures IsSuffix(Contents(Cleaned(dir, cutoff), n), Contents(dir, n))
    ensures n in Cleaned(dir, cutoff) ==> Contents(Cleaned(dir, cutoff), n) == Contents(dir, n)
  {
    hide IsSuffix, Contents;
    LowerKeepsSuffix(dir, Cleaned(dir, cutoff), n);
  }

  // What readdir returns: each numbered file once, among other names that count as 0.
  ghost predicate Listed(dir: Directory, listing: seq<nat>) {
    && (forall i: nat | i > 0 :: i in dir <==> i in listing)
    && NamesOnce(listing)
  }

  predicate NamesOnce(listing: seq<nat>) {
    forall a, b | 0 <= a < b < |listing| && listing[a] > 0 :: listing[a] != listing[b]
  }

  predicate Descends(listing: seq<nat>) {
    forall a, b | 0 <= a < b < |listing| && listing[a] > 0 && listing[b] > 0 :: listing[a] > listing[b]
  }

  lemma DescendingKeepsLower(dir: Directory, listing: seq<nat>, cutoff: int, now: int, k: nat)
    requires MtimesOrdered(dir, now) && Listed(dir, listing) && Descends(listing) && k <= |listing|
    ensures KeepsLower(dir, PartlyCleaned(dir, listing[..k], cutoff))
  {
    var dir' := PartlyCleaned(dir, listing[..k], cutoff);
    forall i, j | i in dir' && j in dir && j <= i ensures j in dir' {
      if 0 < j < i && j in listing[..k] { HigherIsNamedEarlier(listing, k, i, j); }
    }
  }

  lemma HigherIsNamedEarlier(listing: seq<nat>, k: nat, i: nat, j: nat)
    requires Descends(listing) && k <= |listing| && 0 < j < i && i in listing && j in listing[..k]
    ensures i in listing[..k]
  {
    var p :| 0 <= p < k && listing[..k][p] == j;
    var q :| 0 <= q < |listing| && listing[q] == i;
    assert q < p && listing[..k][q] == i;
  }

  // --- Exactly what the operations do ---

  // All the bytes of a file.
  ghost function Length(chunks: seq<Chunk>): nat {
    if chunks == [] then 0 else |chunks[0]| + Length(chunks[1..])
  }

  lemma {:induction false} LengthConcat(a: seq<Chunk>, b: seq<Chunk>)
    ensures Length(a + b) == Length(a) + Length(b)
  {
    if a == [] {
      assert a + b == b;
    } else {
      assert (a + b)[1..] == a[1..] + b;
      LengthConcat(a[1..], b);
    }
  }

  lemma {:induction false} SizeIsLength(chunks: seq<Chunk>)
    ensures Size(chunks) == Length(chunks)
  {
    if chunks != [] {
      var front, last := chunks[..|chunks| - 1], chunks[|chunks| - 1];
      SizeIsLength(front);
      assert chunks == front + [last];
      LengthConcat(front, [last]);
      assert [last][1..] == [];
    }
  }

  /** A rotation is due exactly when the live file is there, not empty, and would grow over the limit; otherwise the
      directory stays as it is. */
  lemma RotatesExactlyWhen(dir: Directory, incoming: nat, maxSizeBytes: int, maxFiles: int)
    ensures NeedsRotation(dir, incoming, maxSizeBytes)
        <==> 0 in dir && Length(dir[0].chunks) > 0 && Length(dir[0].chunks) + incoming > maxSizeBytes
    ensures !NeedsRotation(dir, incoming, maxSizeBytes) ==> Rotated(dir, incoming, maxSizeBytes, maxFiles) == dir
    ensures NeedsRotation(dir, incoming, maxSizeBytes) ==> 0 !in Rotated(dir, incoming, maxSizeBytes, maxFiles)
  {
    hide Size, Length;
    if 0 in dir { SizeIsLength(dir[0].chunks); }
  }

  /** A completed pass removes exactly the numbered files from before the cutoff and changes no other file; an append
      adds its bytes to the live file, now, and touches no other. */
  lemma OthersAreUntouched(dir: Directory, cutoff: int, chunk: Chunk, now: int)
    ensures forall i: nat :: i in Cleaned(dir, cutoff) <==> i in dir && !(i > 0 && dir[i].mtime < cutoff)
    ensures forall i: nat | i in Cleaned(dir, cutoff) :: Cleaned(dir, cutoff)[i] == dir[i]
    ensures forall names: seq<nat> :: (forall i | i in dir && i > 0 :: i in names) ==>
              PartlyCleaned(dir, names, cutoff) == Cleaned(dir, cutoff)
    ensures PartlyCleaned(dir, [], cutoff) == dir
    ensures var dir' := Append(dir, chunk, now);
            && dir'.Keys == dir.Keys + {0} && dir'[0].mtime == now
            && dir'[0].chunks == (if 0 in dir then dir[0].chunks else []) + [chunk]
            && forall i: nat | i in dir && i > 0 :: dir'[i] == dir[i]
  {
  }

  // --- Whole runs ---

  // How one rotate-then-append ended.
  datatype Effect = Appended | AppendFailed | Stopped(dir: Directory)

  datatype State = State(dir: Directory, stream: seq<Chunk>, now: int)

  const EMPTY := State(map[], [], 0)

  // StopCleanUp is a pass that stopped after these names.
  datatype Step =
    | Write(chunk: Chunk, effect: Effect)
    | CleanUp(cutoff: int) | StopCleanUp(cutoff: int, names: seq<nat>)
    | Tick(now: int)

  datatype Limits = Limits(maxSizeBytes: int, maxFiles: int)

  predicate RemovesOld(step: Step) {
    step.CleanUp? || step.StopCleanUp?
  }

  ghost predicate Enabled(limits: Limits, s: State, step: Step) {
    match step
    case Write(chunk, effect) =>
      effect.Stopped? ==> Interrupted(s.dir, |chunk|, limits.maxSizeBytes, limits.maxFiles, effect.dir)
    case CleanUp(_) => true
    case StopCleanUp(_, names) => exists listing :: Listed(s.dir, listing) && Descends(listing) && names <= listing
    case Tick(now) => s.now <= now
  }

  function Apply(limits: Limits, s: State, step: Step): State {
    match step
    case Write(chunk, effect) =>
      var rotated := Rotated(s.dir, |chunk|, limits.maxSizeBytes, limits.maxFiles);
      (match effect
       case Appended => s.(dir := Append(rotated, chunk, s.now), stream := s.stream + [chunk])
       case AppendFailed => s.(dir := rotated)
       case Stopped(dir) => s.(dir := dir))
    case CleanUp(cutoff) => s.(dir := Cleaned(s.dir, cutoff))
    case StopCleanUp(cutoff, names) => s.(dir := PartlyCleaned(s.dir, names, cutoff))
    case Tick(now) => s.(now := now)
  }

  // Every file fits the size limit, unless it holds a single chunk that does not.
  ghost predicate Bounded(limits: Limits, s: State) {
    forall i | i in s.dir :: FileBounded(limits, s, s.dir[i])
  }

  ghost predicate FileBounded(limits: Limits, s: State, file: LogFile) {
    Size(file.chunks) <= limits.maxSizeBytes || exists c | c in s.stream :: Size(file.chunks) <= |c|
  }

  ghost predicate Inv(limits: Limits, s: State) {
    && InRange(s.dir, Generations(limits.maxFiles))
    && IsSuffix(Contents(s.dir, Generations(limits.maxFiles)), s.stream)
    && MtimesOrdered(s.dir, s.now)
    && Bounded(limits, s)
  }

  lemma ShiftKeepsFiles(limits: Limits, s: State, maxFiles: nat, j: nat)
    requires j <= maxFiles && MtimesOrdered(s.dir, s.now) && Bounded(limits, s)
    ensures MtimesOrdered(Shifted(s.dir, maxFiles, j), s.now) && Bounded(limits, s.(dir := Shifted(s.dir, maxFiles, j)))
  {
    hide Size;
    var dir' := Shifted(s.dir, maxFiles, j);
    forall k | k in dir' ensures FileBounded(limits, s.(dir := dir'), dir'[k]) {
      assert FileBounded(limits, s, s.dir[Source(maxFiles, j, k)]);
    }
    forall k, l | k in dir' && l in dir' && k < l ensures dir'[l].mtime <= dir'[k].mtime {
      assert Source(maxFiles, j, k) < Source(maxFiles, j, l);
    }
  }

  // Interrupted or complete, a rotation keeps each file's contents and age order.
  lemma RotationKeepsFiles(limits: Limits, s: State, incoming: nat, dir': Directory)
    requires Inv(limits, s) && Interrupted(s.dir, incoming, limits.maxSizeBytes, limits.maxFiles, dir')
    ensures Inv(limits, s.(dir := dir'))
  {
    hide Shifted, Contents, IsSuffix, NeedsRotation, FileBounded, InRange;
    var n := Generations(limits.maxFiles);
    RotationDropsOldest(s.dir, incoming, limits.maxSizeBytes, limits.maxFiles, dir');
    SuffixIsTransitive(Contents(dir', n), Contents(s.dir, n), s.stream);
    forall j | 0 <= j <= n
      ensures MtimesOrdered(Shifted(s.dir, n, j), s.now) && Bounded(limits, s.(dir := Shifted(s.dir, n, j)))
    {
      ShiftKeepsFiles(limits, s, n, j);
    }
    if dir' == s.dir - {0} {
      LiveFileGone(limits, s);
    }
  }

  lemma LiveFileGone(limits: Limits, s: State)
    requires MtimesOrdered(s.dir, s.now) && Bounded(limits, s)
    ensures MtimesOrdered(s.dir - {0}, s.now) && Bounded(limits, s.(dir := s.dir - {0}))
  {
    var dir' := s.dir - {0};
    forall k | k in dir' ensures FileBounded(limits, s.(dir := dir'), dir'[k]) {
      assert FileBounded(limits, s, s.dir[k]);
    }
  }

  // Appending to a file that is small enough, or to none, keeps it within bounds.
  lemma AppendKeepsBound(limits: Limits, s: State, chunk: Chunk)
    requires Bounded(limits, s) && !NeedsRotation(s.dir, |chunk|, limits.maxSizeBytes)
    ensures Bounded(limits, s.(dir := Append(s.dir, chunk, s.now), stream := s.stream + [chunk]))
  {
    var s' := s.(dir := Append(s.dir, chunk, s.now), stream := s.stream + [chunk]);
    var before := if 0 in s.dir then s.dir[0].chunks else [];
    assert (before + [chunk])[..|before|] == before;
    assert Size(before + [chunk]) == Size(before) + |chunk|;
    forall i | i in s'.dir ensures FileBounded(limits, s', s'.dir[i]) {
      if i == 0 {
        assert chunk in s'.stream;
      } else {
        assert FileBounded(limits, s, s.dir[i]);
        assert forall c | c in s.stream :: c in s'.stream;
      }
    }
  }

  lemma AppendKeepsInv(limits: Limits, s: State, chunk: Chunk)
    requires Inv(limits, s) && !NeedsRotation(s.dir, |chunk|, limits.maxSizeBytes)
    ensures Inv(limits, s.(dir := Append(s.dir, chunk, s.now), stream := s.stream + [chunk]))
  {
    hide Contents, Size, NeedsRotation, Bounded, IsSuffix;
    AppendAddsLast(s.dir, chunk, s.now, Generations(limits.maxFiles));
    SuffixGrows(Contents(s.dir, Generations(limits.maxFiles)), s.stream, chunk);
    AppendKeepsBound(limits, s, chunk);
  }

  lemma RemovalKeepsInv(limits: Limits, s: State, dir': Directory)
    requires Inv(limits, s) && KeepsLower(s.dir, dir')
    ensures Inv(limits, s.(dir := dir'))
  {
    hide Contents, IsSuffix, FileBounded;
    var n := Generations(limits.maxFiles);
    LowerKeepsSuffix(s.dir, dir', n);
    SuffixIsTransitive(Contents(dir', n), Contents(s.dir, n), s.stream);
    forall i | i in dir' ensures FileBounded(limits, s.(dir := dir'), dir'[i]) {
      assert FileBounded(limits, s, s.dir[i]);
      SameBound(limits, s, s.(dir := dir'), s.dir[i]);
    }
  }

  lemma SameBound(limits: Limits, s: State, s': State, file: LogFile)
    requires FileBounded(limits, s, file) && s.stream == s'.stream
    ensures FileBounded(limits, s', file)
  {
  }

  lemma WriteKeepsInv(limits: Limits, s: State, chunk: Chunk, effect: Effect)
    requires Inv(limits, s) && Enabled(limits, s, Write(chunk, effect))
    ensures Inv(limits, Apply(limits, s, Write(chunk, effect)))
  {
    hide Inv, Interrupted, Append;
    var rotated := Rotated(s.dir, |chunk|, limits.maxSizeBytes, limits.maxFiles);
    assert Interrupted(s.dir, |chunk|, limits.maxSizeBytes, limits.maxFiles, rotated) by {
      CompleteIsInterrupted(s.dir, |chunk|, limits);
    }
    RotationKeepsFiles(limits, s, |chunk|, rotated);
    match effect
    case Appended =>
      RotatedHasRoom(s.dir, |chunk|, limits);
      AppendKeepsInv(limits, s.(dir := rotated), chunk);
    case AppendFailed =>
    case Stopped(dir) => RotationKeepsFiles(limits, s, |chunk|, dir);
  }

  lemma CompleteIsInterrupted(dir: Directory, incoming: nat, limits: Limits)
    ensures Interrupted(dir, incoming, limits.maxSizeBytes, limits.maxFiles,
                        Rotated(dir, incoming, limits.maxSizeBytes, limits.maxFiles))
  {
  }

  // After a rotation no second one is due.
  lemma RotatedHasRoom(dir: Directory, incoming: nat, limits: Limits)
    ensures !NeedsRotation(Rotated(dir, incoming, limits.maxSizeBytes, limits.maxFiles), incoming, limits.maxSizeBytes)
  {
    hide Size;
  }

  lemma StepKeepsInv(limits: Limits, s: State, step: Step)
    requires Inv(limits, s) && Enabled(limits, s, step)
    ensures Inv(limits, Apply(limits, s, step))
  {
    hide Inv, Rotated, Interrupted, Append, Cleaned;
    match step
    case Write(chunk, effect) => WriteKeepsInv(limits, s, chunk, effect);
    case CleanUp(cutoff) => CleanUpKeepsInv(limits, s, cutoff);
    case StopCleanUp(cutoff, names) =>
      var listing :| Listed(s.dir, listing) && Descends(listing) && names <= listing;
      assert listing[..|names|] == names;
      InvHasOrder(limits, s);
      DescendingKeepsLower(s.dir, listing, cutoff, s.now, |names|);
      RemovalKeepsInv(limits, s, PartlyCleaned(s.dir, names, cutoff));
    case Tick(_) => TickKeepsInv(limits, s, step.now);
  }

  lemma InvHasOrder(limits: Limits, s: State)
    requires Inv(limits, s)
    ensures MtimesOrdered(s.dir, s.now)
  {
  }

  lemma CleanUpKeepsInv(limits: Limits, s: State, cutoff: int)
    requires Inv(limits, s)
    ensures Inv(limits, s.(dir := Cleaned(s.dir, cutoff)))
  {
    hide Inv;
    InvHasOrder(limits, s);
    RemovalKeepsInv(limits, s, Cleaned(s.dir, cutoff));
  }

  lemma TickKeepsInv(limits: Limits, s: State, now: int)
    requires Inv(limits, s) && s.now <= now
    ensures Inv(limits, s.(now := now))
  {
    hide Contents, IsSuffix, FileBounded;
    forall i | i in s.dir ensures FileBounded(limits, s.(now := now), s.dir[i]) {
      assert FileBounded(limits, s, s.dir[i]);
      SameBound(limits, s, s.(now := now), s.dir[i]);
    }
  }

  ghost predicate IsRun(limits: Limits, ss: seq<State>, steps: seq<Step>) {
    && |ss| == |steps| + 1
    && ss[0] == EMPTY
    && forall i | 0 <= i < |steps| :: Enabled(limits, ss[i], steps[i]) && ss[i + 1] == Apply(limits, ss[i], steps[i])
  }

  lemma {:induction false} NothingStored(n: nat)
    ensures Contents(map[], n) == []
  {
    if n > 0 { NothingStored(n - 1); }
  }

  /** In every run of rotations, appends and retention passes, reading the files from the highest
      number down to the live one gives a suffix of the appended stream, and every file keeps its bound. */
  lemma {:induction false} FilesHoldASuffix(limits: Limits, ss: seq<State>, steps: seq<Step>, n: nat)
    requires IsRun(limits, ss, steps) && n <= |steps|
    ensures IsSuffix(Contents(ss[n].dir, Generations(limits.maxFiles)), ss[n].stream)
    ensures Bounded(limits, ss[n]) && Inv(limits, ss[n])
  {
    if n == 0 {
      NothingStored(Generations(limits.maxFiles));
    } else {
      FilesHoldASuffix(limits, ss, steps, n - 1);
      StepKeepsInv(limits, ss[n - 1], steps[n - 1]);
    }
  }

  predicate Rotates(limits: Limits, s: State, step: Step) {
    step.Write? && NeedsRotation(s.dir, |step.chunk|, limits.maxSizeBytes)
  }

  // How many of the first n steps came to rotate.
  function Rotations(limits: Limits, ss: seq<State>, steps: seq<Step>, n: nat): nat
    requires n <= |steps| < |ss|
  {
    if n == 0 then 0
    else Rotations(limits, ss, steps, n - 1) + if Rotates(limits, ss[n - 1], steps[n - 1]) then 1 else 0
  }

  /** Without retention passes nothing is lost before more rotations than generations, complete or not. */
  lemma {:induction false} NothingLostEarly(limits: Limits, ss: seq<State>, steps: seq<Step>, n: nat)
    requires IsRun(limits, ss, steps) && n <= |steps| && forall i | 0 <= i < n :: !RemovesOld(steps[i])
    requires Rotations(limits, ss, steps, n) <= Generations(limits.maxFiles)
    ensures Contents(ss[n].dir, Generations(limits.maxFiles)) == ss[n].stream
    ensures InRange(ss[n].dir, Rotations(limits, ss, steps, n))
  {
    hide Shifted, Contents, Rotated, Interrupted, NeedsRotation;
    if n == 0 {
      NothingStored(Generations(limits.maxFiles));
    } else {
      NothingLostEarly(limits, ss, steps, n - 1);
      StepKeepsAll(limits, ss[n - 1], steps[n - 1], Rotations(limits, ss, steps, n - 1));
    }
  }

  lemma StepKeepsAll(limits: Limits, s: State, step: Step, k: nat)
    requires Enabled(limits, s, step) && !RemovesOld(step)
    requires Contents(s.dir, Generations(limits.maxFiles)) == s.stream
    requires InRange(s.dir, k) && k + (if Rotates(limits, s, step) then 1 else 0) <= Generations(limits.maxFiles)
    ensures var s' := Apply(limits, s, step);
            && Contents(s'.dir, Generations(limits.maxFiles)) == s'.stream
            && InRange(s'.dir, k + if Rotates(limits, s, step) then 1 else 0)
  {
    hide Contents, NeedsRotation, Interrupted, Rotated;
    if step.Write? {
      var n, incoming := Generations(limits.maxFiles), |step.chunk|;
      var rotated := Rotated(s.dir, incoming, limits.maxSizeBytes, limits.maxFiles);
      CompleteIsInterrupted(s.dir, incoming, limits);
      RotationKeepsAll(limits, s, incoming, k, rotated);
      if step.effect.Stopped? {
        RotationKeepsAll(limits, s, incoming, k, step.effect.dir);
      }
      AppendAddsLast(rotated, step.chunk, s.now, n);
    }
  }

  lemma RotationKeepsAll(limits: Limits, s: State, incoming: nat, k: nat, dir': Directory)
    requires Interrupted(s.dir, incoming, limits.maxSizeBytes, limits.maxFiles, dir') && InRange(s.dir, k)
    requires var more := if NeedsRotation(s.dir, incoming, limits.maxSizeBytes) then 1 else 0;
             k + more <= Generations(limits.maxFiles)
    ensures var n := Generations(limits.maxFiles);
            var more := if NeedsRotation(s.dir, incoming, limits.maxSizeBytes) then 1 else 0;
            Contents(dir', n) == Contents(s.dir, n) && InRange(dir', k + more)
  {
    hide Contents, Shifted, NeedsRotation;
    var n := Generations(limits.maxFiles);
    if NeedsRotation(s.dir, incoming, limits.maxSizeBytes) {
      ContentsOf(s.dir, n);
      assert [] + Contents(s.dir, n - 1) == Contents(s.dir, n - 1);
      forall j | 0 <= j <= n
        ensures Contents(Shifted(s.dir, n, j), n) == Contents(s.dir, n) && InRange(Shifted(s.dir, n, j), k + 1)
      {
        ShiftDropsOldest(s.dir, n, j);
        ShiftInRange(s.dir, n, j, k);
      }
    }
  }

  lemma ShiftInRange(dir: Directory, maxFiles: nat, j: nat, k: nat)
    requires j <= maxFiles && InRange(dir, k)
    ensures InRange(Shifted(dir, maxFiles, j), k + 1)
  {
    hide Contents;
  }

  /** The directory itself, changed in place by removes and renames. Each of them may be the one that
      throws: `budget` is how many file operations succeed before that. */
  class LogDirectory {
    var files: Directory
    var budget: nat

    constructor (files: Directory, budget: nat)
      ensures this.files == files && this.budget == budget
    {
      this.files := files;
      this.budget := budget;
    }

    method Remove(i: nat) returns (ok: bool)
      modifies this
      ensures ok == (old(budget) > 0) && budget == (if ok then old(budget) - 1 else 0)
      ensures files == if ok then old(files) - {i} else old(files)
    {
      if budget == 0 {
        return false;
      }
      budget := budget - 1;
      files := files - {i};
      return true;
    }

    // rename() overwrites its target; renaming a missing file fails with ENOENT, which callers tell apart.
    method Rename(i: nat, j: nat) returns (ok: bool, missing: bool)
      requires i != j
      modifies this
      ensures ok ==> i in old(files) && files == Renamed(old(files), i, j)
      ensures !ok ==> files == old(files)
      ensures missing ==> i !in old(files)
      ensures !ok && !missing ==> old(budget) == 0
      ensures budget == if old(budget) == 0 then 0 else old(budget) - 1
      ensures ok ==> !missing
    {
      if budget == 0 {
        return false, false;
      }
      budget := budget - 1;
      if i !in files {
        return false, true;
      }
      files := (files - {i})[j := files[i]];
      return true, false;
    }

    method RotateIfNeeded(incoming: nat, maxSizeBytes: int, maxFiles: int) returns (completed: bool)
      modifies this
      ensures Interrupted(old(files), incoming, maxSizeBytes, maxFiles, files)
      ensures completed ==> files == Rotated(old(files), incoming, maxSizeBytes, maxFiles)
      ensures old(budget) > Generations(maxFiles) ==> completed
    {
      hide Shifted;
      var currentSize := if 0 in files then Size(files[0].chunks) else 0;
      if currentSize + incoming <= maxSizeBytes {
        return true;
      }
      if currentSize == 0 {
        return true;
      }
      if maxFiles <= 0 {
        completed := Remove(0);
        return;
      }
      var ok := Remove(maxFiles);
      if !ok {
        return false;
      }
      var index := maxFiles - 1;
      ShiftStart(old(files), maxFiles);
      while index >= 1
        invariant 0 <= index < maxFiles
        invariant files == Shifted(old(files), maxFiles, index + 1)
        invariant old(budget) > maxFiles ==> budget > index
      {
        ShiftStep(old(files), maxFiles, index);
        var renamed, missing := Rename(index, index + 1);
        if !renamed && !missing {
          return false;
        }
        index := index - 1;
      }
      ShiftStep(old(files), maxFiles, 0);
      var renamed, missing := Rename(0, 1);
      if !renamed {
        return false;
      }
      return true;
    }

    // `listing` is what readdir returned, in any order; the live file's name never matches.
    method CleanupExpired(listing: seq<nat>, cutoff: int) returns (completed: bool, done: nat)
      requires forall i :: i in files && i > 0 ==> i in listing
      modifies this
      ensures done <= |listing| && files == PartlyCleaned(old(files), listing[..done], cutoff)
      ensures completed ==> files == Cleaned(old(files), cutoff)
      ensures old(budget) >= |listing| ==> completed
    {
      done := 0;
      while done < |listing|
        invariant done <= |listing|
        invariant files == PartlyCleaned(old(files), listing[..done], cutoff)
        invariant old(budget) >= |listing| ==> budget >= |listing| - done
      {
        var candidate := listing[done];
        assert listing[..done + 1] == listing[..done] + [candidate];
        if candidate > 0 && candidate in files && files[candidate].mtime < cutoff {
          var ok := Remove(candidate);
          if !ok {
            return false, done;
          }
        }
        done := done + 1;
      }
      assert listing[..done] == listing;
      return true, done;
    }
  }
}
