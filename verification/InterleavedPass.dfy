/** A retention pass cut at its awaits: `readdir`, then per name `stat` and perhaps `rm`, with writes
    coming in between. */
module InterleavedPass {
  import opened Options
  import opened Sequences
  import opened LogRotation
  import opened RetentionPass

  // The pass has looked at the first `next` names; `condemned` waits for its rm.
  datatype PassState = PassState(log: State, files: seq<nat>, next: nat, condemned: Option<nat>, cutoff: int)

  const FRESH := PassState(EMPTY, [], 0, None, 0)

  // Throw is a stat or rm that fails.
  datatype PassStep =
    | Log(step: LogRotation.Step)
    | Readdir(listing: seq<nat>, cutoff: int) | Stat | Remove | Throw

  predicate Idle(p: PassState) {
    p.condemned.None? && p.next >= |p.files|
  }

  ghost predicate MayStep(limits: Limits, p: PassState, step: PassStep) {
    match step
    case Log(s) => !RemovesOld(s) && LogRotation.Enabled(limits, p.log, s)
    case Readdir(listing, cutoff) => Idle(p) && Listed(p.log.dir, listing) && cutoff <= p.log.now
    case Stat => p.condemned.None? && p.next < |p.files|
    case Remove => p.condemned.Some?
    case Throw => !Idle(p)
  }

  function AfterStat(p: PassState): PassState
    requires p.next < |p.files|
  {
    var name := p.files[p.next];
    var expired := name > 0 && name in p.log.dir && p.log.dir[name].mtime < p.cutoff;
    p.(next := p.next + 1, condemned := if expired then Some(name) else None)
  }

  ghost function After(limits: Limits, p: PassState, step: PassStep): PassState
    requires MayStep(limits, p, step)
  {
    match step
    case Log(s) => p.(log := LogRotation.Apply(limits, p.log, s))
    case Readdir(listing, cutoff) => p.(files := listing, next := 0, cutoff := cutoff)
    case Stat => AfterStat(p)
    case Remove => p.(log := Without(p.log, p.condemned.value), condemned := None)
    case Throw => p.(next := |p.files|, condemned := None)
  }

  /** A stat condemns exactly a numbered file that is there and from before the cutoff; nothing else changes but the
      place in the listing. */
  lemma StatCondemnsExactlyWhen(p: PassState)
    requires p.next < |p.files|
    ensures var name, p' := p.files[p.next], AfterStat(p);
            && (forall i: nat :: p'.condemned == Some(i) <==>
                  i == name && i > 0 && i in p.log.dir && p.log.dir[i].mtime < p.cutoff)
            && p' == p.(next := p.next + 1, condemned := p'.condemned)
  {
  }

  function Without(s: State, i: nat): State {
    s.(dir := s.dir - {i})
  }

  // When no rotation may come due: no limit, between a name's stat and its rm, or from readdir to the pass's end.
  datatype Quiet = Never | BeforeRm | WholePass

  // `ordered`: readdir lists from the highest number down.
  datatype Discipline = Discipline(ordered: bool, quiet: Quiet)

  predicate MustBeQuiet(d: Discipline, p: PassState) {
    match d.quiet
    case Never => false
    case BeforeRm => p.condemned.Some?
    case WholePass => !Idle(p)
  }

  ghost predicate Allowed(limits: Limits, d: Discipline, p: PassState, step: PassStep) {
    && MayStep(limits, p, step)
    && (d.ordered && step.Readdir? ==> Descends(step.listing))
    && (step.Log? && Rotates(limits, p.log, step.step) ==> !MustBeQuiet(d, p))
  }

  const ANY := Discipline(false, Never)

  ghost predicate IsPassRun(limits: Limits, d: Discipline, ps: seq<PassState>, steps: seq<PassStep>) {
    && |ps| == |steps| + 1
    && ps[0] == FRESH
    && forall i | 0 <= i < |steps| :: Allowed(limits, d, ps[i], steps[i]) && ps[i + 1] == After(limits, ps[i], steps[i])
  }

  ghost predicate HoldsSuffix(limits: Limits, s: State) {
    IsSuffix(Contents(s.dir, Generations(limits.maxFiles)), s.stream)
  }

  // --- A remove keeps a suffix exactly when it takes the highest file ---

  // Nothing is numbered above the file an rm is about to take.
  ghost predicate TakesTop(p: PassState, step: PassStep) {
    step.Remove? && p.condemned.Some? && p.condemned.value in p.log.dir ==> InRange(p.log.dir, p.condemned.value)
  }

  // Every file got at least one line.
  ghost predicate Filled(dir: Directory) {
    forall i | i in dir :: dir[i].chunks != []
  }

  ghost predicate Sound(limits: Limits, dir: Directory) {
    InRange(dir, Generations(limits.maxFiles)) && Filled(dir)
  }

  lemma ShiftKeepsFilled(dir: Directory, maxFiles: nat, j: nat)
    requires j <= maxFiles && Filled(dir)
    ensures Filled(Shifted(dir, maxFiles, j))
  {
    hide Shifted;
    ShiftedIs(dir, maxFiles, j);
  }

  lemma RotationKeepsSound(limits: Limits, dir: Directory, incoming: nat, dir': Directory)
    requires Sound(limits, dir) && Interrupted(dir, incoming, limits.maxSizeBytes, limits.maxFiles, dir')
    ensures Sound(limits, dir')
  {
    hide Shifted, Contents, Filled, InRange, IsSuffix, NeedsRotation;
    RotationDropsOldest(dir, incoming, limits.maxSizeBytes, limits.maxFiles, dir');
    forall j | 0 <= j <= Generations(limits.maxFiles)
      ensures Filled(Shifted(dir, Generations(limits.maxFiles), j))
    {
      ShiftKeepsFilled(dir, Generations(limits.maxFiles), j);
    }
    FewerKeepsSound(limits, dir, 0);
  }

  lemma FewerKeepsSound(limits: Limits, dir: Directory, i: nat)
    requires Sound(limits, dir)
    ensures Sound(limits, dir - {i})
  {
  }

  lemma AppendKeepsSound(limits: Limits, dir: Directory, chunk: Chunk, now: int)
    requires Sound(limits, dir)
    ensures Sound(limits, Append(dir, chunk, now))
  {
  }

  lemma LogStepKeepsSound(limits: Limits, s: State, step: LogRotation.Step)
    requires Sound(limits, s.dir) && LogRotation.Enabled(limits, s, step) && !RemovesOld(step)
    ensures Sound(limits, LogRotation.Apply(limits, s, step).dir)
    ensures s.stream <= LogRotation.Apply(limits, s, step).stream
  {
    hide Sound, Rotated, Interrupted, Append;
    if step.Write? {
      var rotated := Rotated(s.dir, |step.chunk|, limits.maxSizeBytes, limits.maxFiles);
      CompleteIsInterrupted(s.dir, |step.chunk|, limits);
      RotationKeepsSound(limits, s.dir, |step.chunk|, rotated);
      AppendKeepsSound(limits, rotated, step.chunk, s.now);
      if step.effect.Stopped? {
        RotationKeepsSound(limits, s.dir, |step.chunk|, step.effect.dir);
      }
    }
  }

  lemma StepKeepsSound(limits: Limits, p: PassState, step: PassStep)
    requires Sound(limits, p.log.dir) && MayStep(limits, p, step)
    ensures var p' := After(limits, p, step); Sound(limits, p'.log.dir) && p.log.stream <= p'.log.stream
  {
    hide Sound, LogRotation.Enabled, LogRotation.Apply;
    match step
    case Log(s) => LogStepKeepsSound(limits, p.log, s);
    case Remove => FewerKeepsSound(limits, p.log.dir, p.condemned.value);
    case _ =>
  }

  lemma {:induction false} RunKeepsSound(limits: Limits, d: Discipline, ps: seq<PassState>, steps: seq<PassStep>,
      n: nat)
    requires IsPassRun(limits, d, ps, steps) && n <= |steps|
    ensures Sound(limits, ps[n].log.dir)
  {
    hide Sound, MayStep, After;
    if n == 0 {
      EmptyIsSound(limits);
    } else {
      RunKeepsSound(limits, d, ps, steps, n - 1);
      assert Allowed(limits, d, ps[n - 1], steps[n - 1]);
      StepKeepsSound(limits, ps[n - 1], steps[n - 1]);
    }
  }

  lemma EmptyIsSound(limits: Limits)
    ensures Sound(limits, EMPTY.dir)
  {
  }

  lemma {:induction false} StreamGrows(limits: Limits, d: Discipline, ps: seq<PassState>, steps: seq<PassStep>, m: nat,
      n: nat)
    requires IsPassRun(limits, d, ps, steps) && m <= n <= |steps|
    ensures ps[m].log.stream <= ps[n].log.stream
    decreases n
  {
    hide Sound, MayStep, After;
    if m < n {
      StreamGrows(limits, d, ps, steps, m, n - 1);
      RunKeepsSound(limits, d, ps, steps, n - 1);
      assert Allowed(limits, d, ps[n - 1], steps[n - 1]);
      StepKeepsSound(limits, ps[n - 1], steps[n - 1]);
    }
  }

  // The files numbered from n down to i + 1.
  ghost function Above(dir: Directory, i: nat, n: nat): seq<Chunk> {
    if n <= i then [] else (if n in dir then dir[n].chunks else []) + Above(dir, i, n - 1)
  }

  lemma {:induction false} ReadsThrough(dir: Directory, i: nat, n: nat)
    requires i <= n
    ensures Contents(dir, n) == Above(dir, i, n) + Contents(dir, i)
  {
    hide Contents;
    if i < n {
      ContentsOf(dir, n);
      ReadsThrough(dir, i, n - 1);
    } else {
      assert [] + Contents(dir, n) == Contents(dir, n);
    }
  }

  lemma {:induction false} AboveWithout(dir: Directory, i: nat, n: nat)
    ensures Above(dir - {i}, i, n) == Above(dir, i, n)
  {
    if i < n { AboveWithout(dir, i, n - 1); }
  }

  lemma {:induction false} BelowWithout(dir: Directory, i: nat, n: nat)
    requires n < i
    ensures Contents(dir - {i}, n) == Contents(dir, n)
  {
    hide Contents;
    ContentsOf(dir, n);
    ContentsOf(dir - {i}, n);
    if n > 0 { BelowWithout(dir, i, n - 1); }
  }

  lemma {:induction false} AboveIsFilled(dir: Directory, i: nat, j: nat, n: nat)
    requires i < j <= n && j in dir && Filled(dir)
    ensures Above(dir, i, n) != []
  {
    if j < n { AboveIsFilled(dir, i, j, n - 1); }
  }

  ghost predicate AllDifferent(stream: seq<Chunk>) {
    forall a, b | 0 <= a < b < |stream| :: stream[a] != stream[b]
  }

  // In a stream without repetitions a piece cannot go from the middle of what is read.
  lemma MiddleIsMissed(above: seq<Chunk>, file: seq<Chunk>, below: seq<Chunk>, stream: seq<Chunk>)
    requires above != [] && file != [] && AllDifferent(stream) && IsSuffix(above + (file + below), stream)
    ensures !IsSuffix(above + below, stream)
  {
    hide IsSuffix, AllDifferent;
    var a, f, b := |above|, |file|, |below|;
    LastOfFront(above, file + below, stream);
    if IsSuffix(above + below, stream) {
      LastOfFront(above, below, stream);
      DifferentAt(stream, |stream| - b - f - 1, |stream| - b - 1);
    }
  }

  lemma LastOfFront(front: seq<Chunk>, rest: seq<Chunk>, stream: seq<Chunk>)
    requires front != [] && IsSuffix(front + rest, stream)
    ensures |rest| < |stream| && stream[|stream| - |rest| - 1] == front[|front| - 1]
  {
    var whole := front + rest;
    assert whole[|front| - 1] == front[|front| - 1];
    assert stream[|stream| - |whole|..][|front| - 1] == stream[|stream| - |rest| - 1];
  }

  lemma DifferentAt(stream: seq<Chunk>, a: nat, b: nat)
    requires AllDifferent(stream) && a < b < |stream|
    ensures stream[a] != stream[b]
  {
  }

  lemma CutFromMiddleShows(limits: Limits, s: State, i: nat)
    requires Sound(limits, s.dir) && HoldsSuffix(limits, s) && AllDifferent(s.stream)
    requires i in s.dir && !InRange(s.dir, i)
    ensures !HoldsSuffix(limits, Without(s, i))
  {
    hide Contents, IsSuffix, Above, AllDifferent;
    var n, cut := Generations(limits.maxFiles), s.dir - {i};
    var j :| j in s.dir && j > i;
    var below := if i == 0 then [] else Contents(s.dir, i - 1);
    ReadsThrough(s.dir, i, n);
    ReadsThrough(cut, i, n);
    AboveWithout(s.dir, i, n);
    AboveIsFilled(s.dir, i, j, n);
    ContentsOf(s.dir, i);
    ContentsOf(cut, i);
    if i > 0 { BelowWithout(s.dir, i, i - 1); }
    assert [] + below == below;
    MiddleIsMissed(Above(s.dir, i, n), s.dir[i].chunks, below, s.stream);
  }

  lemma TopRemoveKeepsInv(limits: Limits, s: State, i: nat)
    requires LogRotation.Inv(limits, s) && (i in s.dir ==> InRange(s.dir, i))
    ensures LogRotation.Inv(limits, Without(s, i))
  {
    hide LogRotation.Inv;
    RemovalKeepsInv(limits, s, s.dir - {i});
  }

  lemma StepKeepsInv(limits: Limits, p: PassState, step: PassStep)
    requires LogRotation.Inv(limits, p.log) && MayStep(limits, p, step) && TakesTop(p, step)
    ensures LogRotation.Inv(limits, After(limits, p, step).log)
  {
    hide LogRotation.Inv, LogRotation.Enabled, LogRotation.Apply, InRange;
    match step
    case Log(s) => LogRotation.StepKeepsInv(limits, p.log, s);
    case Remove => TopRemoveKeepsInv(limits, p.log, p.condemned.value);
    case _ =>
  }

  lemma {:induction false} TopRemovesKeepInv(limits: Limits, d: Discipline, ps: seq<PassState>, steps: seq<PassStep>,
      n: nat)
    requires IsPassRun(limits, d, ps, steps) && n <= |steps| && forall m | 0 <= m < n :: TakesTop(ps[m], steps[m])
    ensures LogRotation.Inv(limits, ps[n].log)
  {
    hide LogRotation.Inv, MayStep, After, TakesTop;
    if n == 0 {
      EmptyHasInv(limits);
    } else {
      TopRemovesKeepInv(limits, d, ps, steps, n - 1);
      assert Allowed(limits, d, ps[n - 1], steps[n - 1]);
      StepKeepsInv(limits, ps[n - 1], steps[n - 1]);
    }
  }

  lemma EmptyHasInv(limits: Limits)
    ensures LogRotation.Inv(limits, EMPTY)
  {
    NothingStored(Generations(limits.maxFiles));
  }

  lemma InvHoldsSuffix(limits: Limits, s: State)
    requires LogRotation.Inv(limits, s)
    ensures HoldsSuffix(limits, s)
  {
  }

  /** Where no two lines are equal, a run's files read as a suffix of the stream at all times exactly when every rm
      found no file with a higher number than the one it took, in whatever order readdir listed them. */
  lemma RunKeepsSuffixExactlyWhen(limits: Limits, ps: seq<PassState>, steps: seq<PassStep>)
    requires IsPassRun(limits, ANY, ps, steps) && AllDifferent(ps[|steps|].log.stream)
    ensures (forall n | 0 <= n <= |steps| :: HoldsSuffix(limits, ps[n].log))
        <==> (forall n | 0 <= n < |steps| :: TakesTop(ps[n], steps[n]))
  {
    hide MayStep, After, HoldsSuffix, TakesTop, AllDifferent;
    if forall n | 0 <= n < |steps| :: TakesTop(ps[n], steps[n]) {
      forall n | 0 <= n <= |steps| ensures HoldsSuffix(limits, ps[n].log) {
        TopRemovesKeepInv(limits, ANY, ps, steps, n);
        InvHoldsSuffix(limits, ps[n].log);
      }
    }
    if forall n | 0 <= n <= |steps| :: HoldsSuffix(limits, ps[n].log) {
      forall n | 0 <= n < |steps| ensures TakesTop(ps[n], steps[n]) {
        SuffixMeansTop(limits, ps, steps, n);
      }
    }
  }

  lemma SuffixMeansTop(limits: Limits, ps: seq<PassState>, steps: seq<PassStep>, n: nat)
    requires IsPassRun(limits, ANY, ps, steps) && AllDifferent(ps[|steps|].log.stream) && n < |steps|
    requires HoldsSuffix(limits, ps[n].log) && HoldsSuffix(limits, ps[n + 1].log)
    ensures TakesTop(ps[n], steps[n])
  {
    hide HoldsSuffix, LogRotation.Enabled, LogRotation.Apply, Sound, InRange;
    var p, step := ps[n], steps[n];
    assert Allowed(limits, ANY, p, step) && ps[n + 1] == After(limits, p, step);
    RunKeepsSound(limits, ANY, ps, steps, n);
    StreamGrows(limits, ANY, ps, steps, n, |steps|);
    if step.Remove? && p.condemned.value in p.log.dir && !InRange(p.log.dir, p.condemned.value) {
      CutFromMiddleShows(limits, p.log, p.condemned.value);
    }
  }

  // --- Disciplines ---

  ghost predicate CanReach(limits: Limits, d: Discipline, p: PassState) {
    exists ps, steps :: IsPassRun(limits, d, ps, steps) && ps[|steps|] == p
  }

  // What every disciplined run comes to is readable as a suffix.
  ghost predicate Safe(limits: Limits, d: Discipline) {
    forall p | CanReach(limits, d, p) :: HoldsSuffix(limits, p.log)
  }

  // While a pass is on, in an orderly run: the numbers are those listed, and what stat let pass is not expired.
  ghost predicate Progress(p: PassState)
    requires p.next <= |p.files|
  {
    && Descends(p.files)
    && (forall j | j in p.log.dir && j > 0 :: j in p.files)
    && (forall j | j in p.log.dir && j > 0 && j in p.files[..p.next] ::
          p.condemned == Some(j) || p.log.dir[j].mtime >= p.cutoff)
  }

  ghost predicate Condemns(p: PassState)
    requires p.next <= |p.files|
  {
    p.condemned.Some? ==>
      var i := p.condemned.value;
      p.next > 0 && i == p.files[p.next - 1] > 0 && (i in p.log.dir ==> p.log.dir[i].mtime < p.cutoff)
  }

  ghost predicate Orderly(p: PassState) {
    p.next <= |p.files| && (!Idle(p) ==> Progress(p) && Condemns(p))
  }

  const ORDERLY := Discipline(true, WholePass)

  // A write without a rotation touches the live file only.
  lemma QuietStep(limits: Limits, s: State, step: LogRotation.Step)
    requires LogRotation.Enabled(limits, s, step) && !RemovesOld(step) && !Rotates(limits, s, step)
    ensures var dir' := LogRotation.Apply(limits, s, step).dir;
            forall j: nat | j > 0 :: (j in dir' <==> j in s.dir) && (j in dir' ==> dir'[j] == s.dir[j])
  {
    hide Shifted, NeedsRotation;
  }

  lemma LogStepKeepsOrderly(limits: Limits, p: PassState, s: LogRotation.Step)
    requires Orderly(p) && Allowed(limits, ORDERLY, p, Log(s))
    ensures Orderly(p.(log := LogRotation.Apply(limits, p.log, s)))
  {
    hide LogRotation.Apply, LogRotation.Enabled, Rotates, Descends;
    if !Idle(p) { QuietStep(limits, p.log, s); }
  }

  lemma StatKeepsOrderly(p: PassState)
    requires Orderly(p) && p.condemned.None? && p.next < |p.files|
    ensures Orderly(AfterStat(p))
  {
    hide Descends;
    assert p.files[..p.next + 1] == p.files[..p.next] + [p.files[p.next]];
  }

  lemma StepKeepsOrderly(limits: Limits, p: PassState, step: PassStep)
    requires Orderly(p) && Allowed(limits, ORDERLY, p, step)
    ensures Orderly(After(limits, p, step))
  {
    hide LogRotation.Apply, LogRotation.Enabled, Rotates, Descends;
    match step
    case Log(s) => LogStepKeepsOrderly(limits, p, s);
    case Stat => StatKeepsOrderly(p);
    case _ =>
  }

  lemma OrderlyTakesTop(limits: Limits, p: PassState, step: PassStep)
    requires Orderly(p) && LogRotation.Inv(limits, p.log)
    ensures TakesTop(p, step)
  {
    hide Contents, IsSuffix, Bounded;
    if step.Remove? && p.condemned.Some? && p.condemned.value in p.log.dir {
      forall j | j in p.log.dir && j > 0 ensures j <= p.condemned.value {
        HigherWasPassed(p.files, p.next, j);
      }
    }
  }

  lemma HigherWasPassed(files: seq<nat>, next: nat, j: nat)
    requires Descends(files) && 0 < next <= |files| && 0 < files[next - 1] && j in files
    ensures files[next - 1] < j ==> j in files[..next]
  {
    var q :| 0 <= q < |files| && files[q] == j;
    assert q < next ==> files[..next][q] == j;
  }

  lemma {:induction false} OrderlyRunsTakeTop(limits: Limits, ps: seq<PassState>, steps: seq<PassStep>, n: nat)
    requires IsPassRun(limits, ORDERLY, ps, steps) && n <= |steps|
    ensures Orderly(ps[n]) && LogRotation.Inv(limits, ps[n].log)
  {
    hide LogRotation.Inv, MayStep, After, Orderly, TakesTop;
    if n == 0 {
      EmptyHasInv(limits);
      FreshIsOrderly();
    } else {
      OrderlyRunsTakeTop(limits, ps, steps, n - 1);
      var p, step := ps[n - 1], steps[n - 1];
      assert Allowed(limits, ORDERLY, p, step);
      OrderlyTakesTop(limits, p, step);
      StepKeepsOrderly(limits, p, step);
      StepKeepsInv(limits, p, step);
    }
  }

  lemma FreshIsOrderly()
    ensures Orderly(FRESH)
  {
  }

  lemma OrderlyIsSafe(limits: Limits)
    ensures Safe(limits, ORDERLY)
  {
    hide MayStep, After, HoldsSuffix, Orderly, LogRotation.Inv;
    forall p | CanReach(limits, ORDERLY, p) ensures HoldsSuffix(limits, p.log) {
      var ps, steps :| IsPassRun(limits, ORDERLY, ps, steps) && ps[|steps|] == p;
      OrderlyRunsTakeTop(limits, ps, steps, |steps|);
      InvHoldsSuffix(limits, p.log);
    }
  }

  // A single numbered file is always the highest.
  lemma {:induction false} OneGenerationTakesTop(limits: Limits, d: Discipline, ps: seq<PassState>,
      steps: seq<PassStep>, n: nat)
    requires IsPassRun(limits, d, ps, steps) && n <= |steps| && limits.maxFiles <= 1
    ensures ps[n].condemned.Some? ==> ps[n].condemned.value > 0
    ensures LogRotation.Inv(limits, ps[n].log)
  {
    hide LogRotation.Inv, LogRotation.Enabled, LogRotation.Apply;
    if n == 0 {
      EmptyHasInv(limits);
    } else {
      OneGenerationTakesTop(limits, d, ps, steps, n - 1);
      var p, step := ps[n - 1], steps[n - 1];
      assert Allowed(limits, d, p, step);
      OneIsTop(limits, p.log, if p.condemned.Some? then p.condemned.value else 1);
      StepKeepsInv(limits, p, step);
    }
  }

  lemma OneIsTop(limits: Limits, s: State, i: nat)
    requires LogRotation.Inv(limits, s) && limits.maxFiles <= 1 <= i
    ensures InRange(s.dir, i)
  {
  }

  lemma OneGenerationIsSafe(limits: Limits, d: Discipline)
    requires limits.maxFiles <= 1
    ensures Safe(limits, d)
  {
    hide MayStep, After, HoldsSuffix, LogRotation.Inv;
    forall p | CanReach(limits, d, p) ensures HoldsSuffix(limits, p.log) {
      var ps, steps :| IsPassRun(limits, d, ps, steps) && ps[|steps|] == p;
      OneGenerationTakesTop(limits, d, ps, steps, |steps|);
      InvHoldsSuffix(limits, p.log);
    }
  }

  // --- Two runs that lose the middle of three lines ---

  lemma CanStep(limits: Limits, d: Discipline, p: PassState, step: PassStep)
    requires CanReach(limits, d, p) && Allowed(limits, d, p, step)
    ensures CanReach(limits, d, After(limits, p, step))
  {
    hide MayStep, After;
    var ps, steps :| IsPassRun(limits, d, ps, steps) && ps[|steps|] == p;
    var ps', steps' := ps + [After(limits, p, step)], steps + [step];
    assert IsPassRun(limits, d, ps', steps') && ps'[|steps'|] == After(limits, p, step);
  }

  function First(limits: Limits): Chunk { Filler(limits, true) }
  function Later(limits: Limits): Chunk { Filler(limits, false) }

  function OneFile(limits: Limits): State {
    State(map[0 := LogFile([First(limits)], 0)], [First(limits)], 0)
  }

  function TwoFiles(limits: Limits): State {
    State(map[1 := LogFile([First(limits)], 0), 0 := LogFile([Later(limits)], 0)], [First(limits), Later(limits)], 1)
  }

  function ThreeFiles(limits: Limits): State {
    State(map[2 := LogFile([First(limits)], 0), 1 := LogFile([Later(limits)], 0), 0 := LogFile([Later(limits)], 1)],
          [First(limits), Later(limits), Later(limits)], 1)
  }

  lemma WriteOne(limits: Limits)
    ensures LogRotation.Apply(limits, EMPTY, Write(First(limits), Appended)) == OneFile(limits)
    ensures !Rotates(limits, EMPTY, Write(First(limits), Appended))
  {
    hide Size, First;
    assert [] + [First(limits)] == [First(limits)];
  }

  lemma WriteTwo(limits: Limits)
    requires limits.maxFiles >= 2
    ensures LogRotation.Apply(limits, OneFile(limits), Write(Later(limits), Appended)).(now := 1) == TwoFiles(limits)
  {
    hide NeedsRotation, Shifted, Filler;
    var dir, line := OneFile(limits).dir, Later(limits);
    FillersRotate(limits, dir, true, false);
    ShiftedIs(dir, limits.maxFiles, 0);
    assert Shifted(dir, limits.maxFiles, 0) == map[1 := LogFile([First(limits)], 0)];
    assert [] + [line] == [line] && OneFile(limits).stream + [line] == TwoFiles(limits).stream;
  }

  lemma WriteThree(limits: Limits)
    requires limits.maxFiles >= 2
    ensures LogRotation.Apply(limits, TwoFiles(limits), Write(Later(limits), Appended)) == ThreeFiles(limits)
  {
    hide NeedsRotation, Shifted, Filler;
    var dir, line := TwoFiles(limits).dir, Later(limits);
    FillersRotate(limits, dir, false, false);
    ShiftedIs(dir, limits.maxFiles, 0);
    assert Shifted(dir, limits.maxFiles, 0) == map[2 := LogFile([First(limits)], 0), 1 := LogFile([line], 0)];
    assert [] + [line] == [line] && TwoFiles(limits).stream + [line] == ThreeFiles(limits).stream;
  }

  lemma {:induction false} NothingAbove(dir: Directory, i: nat, n: nat)
    requires InRange(dir, i)
    ensures Above(dir, i, n) == []
  {
    if i < n { NothingAbove(dir, i, n - 1); }
  }

  lemma MiddleLost(limits: Limits)
    requires limits.maxFiles >= 2
    ensures !HoldsSuffix(limits, Without(ThreeFiles(limits), 1))
  {
    hide First, Later, Contents, ThreeFiles;
    FirstAndLast(limits);
    LinesDiffer(limits);
    assert ThreeFiles(limits).stream == [First(limits), Later(limits), Later(limits)] by { ThreeLines(limits); }
    NoSuffix(First(limits), Later(limits));
  }

  lemma ThreeLines(limits: Limits)
    ensures ThreeFiles(limits).stream == [First(limits), Later(limits), Later(limits)]
  {
  }

  lemma NoSuffix(a: Chunk, b: Chunk)
    requires a != b
    ensures !IsSuffix([a, b], [a, b, b])
  {
    assert [a, b, b][1..][0] == b;
  }

  lemma FirstAndLast(limits: Limits)
    requires limits.maxFiles >= 2
    ensures Contents(Without(ThreeFiles(limits), 1).dir, limits.maxFiles) == [First(limits), Later(limits)]
  {
    hide Filler, First, Later, Contents, Above;
    var dir := Without(ThreeFiles(limits), 1).dir;
    ReadsThrough(dir, 2, limits.maxFiles);
    NothingAbove(dir, 2, limits.maxFiles);
    ContentsOf(dir, 2);
    ContentsOf(dir, 1);
    ContentsOf(dir, 0);
    Sums(First(limits), Later(limits));
  }

  lemma Sums(a: Chunk, b: Chunk)
    ensures [] + ([a] + ([] + ([b] + []))) == [a, b]
  {
  }

  lemma LinesDiffer(limits: Limits)
    ensures First(limits) != Later(limits)
  {
    assert First(limits)[0] != Later(limits)[0];
  }

  lemma FreshIsReached(limits: Limits, d: Discipline)
    ensures CanReach(limits, d, FRESH)
  {
    assert IsPassRun(limits, d, [FRESH], []);
  }

  lemma TwoFilesReached(limits: Limits, d: Discipline)
    requires limits.maxFiles >= 2
    ensures CanReach(limits, d, FRESH.(log := TwoFiles(limits)))
  {
    hide CanReach, First, Later, Rotates;
    FreshIsReached(limits, d);
    WriteOne(limits);
    CanStep(limits, d, FRESH, Log(Write(First(limits), Appended)));
    var one := FRESH.(log := OneFile(limits));
    CanStep(limits, d, one, Log(Write(Later(limits), Appended)));
    var two := After(limits, one, Log(Write(Later(limits), Appended)));
    CanStep(limits, d, two, Log(Tick(1)));
    WriteTwo(limits);
  }

  // Number 1 read before number 2.
  lemma UnorderedLoses(limits: Limits, d: Discipline)
    requires limits.maxFiles >= 2 && !d.ordered
    ensures !Safe(limits, d)
  {
    hide CanReach, First, Later, Rotates, HoldsSuffix, LogRotation.Apply;
    TwoFilesReached(limits, d);
    var p2 := FRESH.(log := TwoFiles(limits));
    CanStep(limits, d, p2, Log(Write(Later(limits), Appended)));
    WriteThree(limits);
    var p3 := p2.(log := ThreeFiles(limits));
    CanStep(limits, d, p3, Readdir([1, 2], 1));
    var read := p3.(files := [1, 2], cutoff := 1);
    CanStep(limits, d, read, Stat);
    CanStep(limits, d, AfterStat(read), Remove);
    var end := After(limits, AfterStat(read), Remove);
    assert end.log == Without(ThreeFiles(limits), 1);
    MiddleLost(limits);
  }

  // A rotation after readdir and before the stat of number 1.
  lemma RotationInPassLoses(limits: Limits, d: Discipline)
    requires limits.maxFiles >= 2 && d.quiet != WholePass
    ensures !Safe(limits, d)
  {
    hide CanReach, First, Later, Rotates, HoldsSuffix, LogRotation.Apply;
    TwoFilesReached(limits, d);
    var p2 := FRESH.(log := TwoFiles(limits));
    CanStep(limits, d, p2, Readdir([1], 1));
    var read := p2.(files := [1], cutoff := 1);
    CanStep(limits, d, read, Log(Write(Later(limits), Appended)));
    WriteThree(limits);
    var rotated := read.(log := ThreeFiles(limits));
    CanStep(limits, d, rotated, Stat);
    CanStep(limits, d, AfterStat(rotated), Remove);
    var end := After(limits, AfterStat(rotated), Remove);
    assert end.log == Without(ThreeFiles(limits), 1);
    MiddleLost(limits);
  }

  /** In every run of a discipline the files read as a suffix at all times, exactly when readdir lists from the highest
      number down and no rotation comes between readdir and the pass's end, or when at most one generation is kept;
      keeping rotations out between stat and rm is not enough. */
  lemma DisciplineIsSafeExactlyWhen(limits: Limits, d: Discipline)
    ensures Safe(limits, d) <==> (d.ordered && d.quiet == WholePass) || limits.maxFiles <= 1
  {
    hide CanReach, HoldsSuffix;
    if limits.maxFiles <= 1 {
      OneGenerationIsSafe(limits, d);
    } else if !d.ordered {
      UnorderedLoses(limits, d);
    } else if d.quiet != WholePass {
      RotationInPassLoses(limits, d);
    } else {
      OrderlyIsSafe(limits);
    }
  }
}
