/** The perf log writer: lines go through an append chain onto the rotating log, and the writer
    switches itself off after `threshold` failed writes in a row. */
module PerfLogWriter {
  import opened LogRotation
  import opened Sequences

  datatype Fate = Written | FailedToWrite | Skipped

  // A flush() call: first waits for the chain as it was called, then for the chain as it is then.
  datatype Flush = First(called: nat, until: nat) | Second(called: nat, until: nat) | Finished(called: nat)

  // Batches are numbered in chain order; the first |fates| of them have been drained.
  datatype WriterState = WriterState(
    pending: seq<Chunk>,
    batches: seq<seq<Chunk>>,
    fates: seq<Fate>,
    consecutiveFailures: nat,
    disabled: bool,
    notified: bool,
    notices: nat,               // calls of onPermanentFailure
    accepted: seq<Chunk>,       // lines enqueue() did not drop
    flushes: seq<Flush>,
    log: LogRotation.State
  )

  const FRESH := WriterState([], [], [], 0, false, false, 0, [], [], LogRotation.EMPTY)

  // Only the enqueued lines' own bytes reach the file.
  function Join(batch: seq<Chunk>): Chunk {
    if batch == [] then [] else batch[0] + Join(batch[1..])
  }

  // --- Specification of the steps ---

  function ScheduleDrain(s: WriterState): WriterState {
    if s.disabled || s.pending == [] then s
    else s.(pending := [], batches := s.batches + [s.pending])
  }

  function Enqueue(s: WriterState, line: Chunk): WriterState {
    if s.disabled then s
    else ScheduleDrain(s.(pending := s.pending + [line], accepted := s.accepted + [line]))
  }

  // drainBatch on the next batch of the chain; `effect` is how far its file operations got.
  function Drain(threshold: int, limits: Limits, s: WriterState, effect: Effect): WriterState
    requires |s.fates| < |s.batches|
  {
    var batch := s.batches[|s.fates|];
    if s.disabled then s.(fates := s.fates + [Skipped])
    else
      var s' := s.(log := LogRotation.Apply(limits, s.log, LogRotation.Write(Join(batch), effect)));
      if effect == Appended then s'.(fates := s.fates + [Written], consecutiveFailures := 0)
      else
        var failures := s.consecutiveFailures + 1;
        if failures >= threshold then
          s'.(fates := s.fates + [FailedToWrite], consecutiveFailures := failures, disabled := true, pending := [],
              notified := true, notices := s.notices + if s.notified then 0 else 1)
        else s'.(fates := s.fates + [FailedToWrite], consecutiveFailures := failures)
  }

  function CallFlush(s: WriterState): WriterState {
    var s' := ScheduleDrain(s);
    s'.(flushes := s.flushes + [First(|s.batches|, |s'.batches|)])
  }

  function FlushAdvances(s: WriterState, f: nat): WriterState
    requires f < |s.flushes|
  {
    s.(flushes := s.flushes[f := match s.flushes[f]
                                 case First(called, _) => Second(called, |s.batches|)
                                 case Second(called, _) => Finished(called)
                                 case Finished(called) => Finished(called)])
  }

  datatype Step =
    | DoEnqueue(line: Chunk) | DoDrain(effect: Effect)
    | DoFlush | Advance(flush: nat)
    | Elapse(now: int) | CleanLog(pass: LogRotation.Step)

  ghost predicate Enabled(limits: Limits, s: WriterState, step: Step) {
    match step
    case DoEnqueue(_) => true
    case DoDrain(effect) =>
      |s.fates| < |s.batches| && LogRotation.Enabled(limits, s.log,
          LogRotation.Write(Join(s.batches[|s.fates|]), effect))
    case DoFlush => true
    case Advance(f) => f < |s.flushes| && !s.flushes[f].Finished? && s.flushes[f].until <= |s.fates|
    case Elapse(now) => s.log.now <= now
    case CleanLog(pass) => LogRotation.RemovesOld(pass) && LogRotation.Enabled(limits, s.log, pass)
  }

  ghost function Apply(threshold: int, limits: Limits, s: WriterState, step: Step): WriterState
    requires Enabled(limits, s, step)
  {
    match step
    case DoEnqueue(line) => Enqueue(s, line)
    case DoDrain(effect) => Drain(threshold, limits, s, effect)
    case DoFlush => CallFlush(s)
    case Advance(f) => FlushAdvances(s, f)
    case Elapse(now) => s.(log := LogRotation.Apply(limits, s.log, LogRotation.Tick(now)))
    case CleanLog(pass) => if s.disabled then s else s.(log := LogRotation.Apply(limits, s.log, pass))
  }

  // --- Invariant ---

  // The lines whose fate is Written, in order.
  function WrittenLines(lines: seq<Chunk>, fates: seq<Fate>): seq<Chunk>
    requires |fates| <= |lines|
  {
    if fates == [] then []
    else WrittenLines(lines, fates[..|fates| - 1]) + if fates[|fates| - 1] == Written then [lines[|fates| - 1]] else []
  }

  // How many writes in a row have failed at the end of fates.
  function TrailingFailures(fates: seq<Fate>): nat {
    if fates == [] || fates[|fates| - 1] != FailedToWrite then 0 else 1 + TrailingFailures(fates[..|fates| - 1])
  }

  // A threshold below one still takes a failure to reach.
  function Needed(threshold: int): nat {
    if threshold <= 1 then 1 else threshold
  }

  ghost predicate RunOfFailures(fates: seq<Fate>, n: nat, needed: nat) {
    needed <= n <= |fates| && forall i | n - needed <= i < n :: fates[i] == FailedToWrite
  }

  // Up to here the writer was on; afterwards every batch is skipped.
  ghost predicate SwitchedOffAt(threshold: int, s: WriterState, n: nat) {
    && n <= |s.fates|
    && (forall i | 0 <= i < n :: s.fates[i] != Skipped)
    && (forall i | n <= i < |s.fates| :: s.fates[i] == Skipped)
    && (forall i | 0 <= i < n :: TrailingFailures(s.fates[..i]) < Needed(threshold))
    && (s.disabled ==> TrailingFailures(s.fates[..n]) == Needed(threshold))
    && (!s.disabled ==> n == |s.fates| && s.consecutiveFailures == TrailingFailures(s.fates[..n]) < Needed(threshold))
  }

  ghost predicate FlushOk(s: WriterState, f: Flush) {
    && (f.First? || f.Second? ==> f.called <= f.until <= |s.batches|)
    && (f.Second? || f.Finished? ==> f.called <= |s.fates|)
  }

  // One line per batch, and the flushes and notices that go with them.
  ghost predicate Books(s: WriterState) {
    && s.pending == []
    && |s.fates| <= |s.batches| == |s.accepted|
    && (forall i | 0 <= i < |s.batches| :: s.batches[i] == [s.accepted[i]])
    && s.notified == s.disabled && s.notices == (if s.disabled then 1 else 0)
    && (forall f | 0 <= f < |s.flushes| :: FlushOk(s, s.flushes[f]))
  }

  ghost predicate Switched(threshold: int, s: WriterState) {
    exists n: nat :: SwitchedOffAt(threshold, s, n)
  }

  ghost predicate LogOk(limits: Limits, s: WriterState) {
    && LogRotation.Inv(limits, s.log)
    && |s.fates| <= |s.accepted|
    && s.log.stream == WrittenLines(s.accepted, s.fates)
  }

  ghost predicate Inv(threshold: int, limits: Limits, s: WriterState) {
    Books(s) && Switched(threshold, s) && LogOk(limits, s)
  }

  lemma {:induction false} WrittenLinesExtend(lines: seq<Chunk>, lines': seq<Chunk>, fates: seq<Fate>)
    requires |fates| <= |lines| && lines <= lines'
    ensures WrittenLines(lines', fates) == WrittenLines(lines, fates)
  {
    if fates != [] { WrittenLinesExtend(lines, lines', fates[..|fates| - 1]); }
  }

  lemma {:induction false} TrailingOfExtended(fates: seq<Fate>, fate: Fate)
    ensures TrailingFailures(fates + [fate]) == if fate == FailedToWrite then TrailingFailures(fates) + 1 else 0
  {
    assert (fates + [fate])[..|fates|] == fates;
  }

  lemma DrainKeepsSwitch(threshold: int, limits: Limits, s: WriterState, effect: Effect, n: nat)
    requires SwitchedOffAt(threshold, s, n) && |s.fates| < |s.batches|
    ensures var s' := Drain(threshold, limits, s, effect);
            SwitchedOffAt(threshold, s', if s.disabled then n else n + 1)
  {
    hide LogRotation.Apply, TrailingFailures;
    var s' := Drain(threshold, limits, s, effect);
    var fate := s'.fates[|s.fates|];
    assert s'.fates == s.fates + [fate];
    TrailingOfExtended(s.fates, fate);
    forall i | 0 <= i <= |s.fates| ensures s'.fates[..i] == s.fates[..i] {}
    assert s'.fates[..|s'.fates|] == s'.fates && s.fates[..|s.fates|] == s.fates;
  }

  lemma DrainKeepsBooks(threshold: int, limits: Limits, s: WriterState, effect: Effect)
    requires Books(s) && |s.fates| < |s.batches|
    ensures Books(Drain(threshold, limits, s, effect))
  {
    hide LogRotation.Apply;
    var s' := Drain(threshold, limits, s, effect);
    forall f | 0 <= f < |s.flushes| ensures FlushOk(s', s.flushes[f]) {
      assert FlushOk(s, s.flushes[f]);
    }
  }

  lemma WrittenSnoc(lines: seq<Chunk>, fates: seq<Fate>, fate: Fate)
    requires |fates| < |lines|
    ensures WrittenLines(lines, fates + [fate])
         == WrittenLines(lines, fates) + if fate == Written then [lines[|fates|]] else []
  {
    assert (fates + [fate])[..|fates|] == fates;
  }

  // What draining the next batch does to the log and the fates.
  lemma DrainEffect(threshold: int, limits: Limits, s: WriterState, effect: Effect)
    requires Books(s) && |s.fates| < |s.batches|
    ensures var s' := Drain(threshold, limits, s, effect);
            && s'.accepted == s.accepted
            && s'.fates == s.fates
                 + [if s.disabled then Skipped else if effect == Appended then Written else FailedToWrite]
            && s'.log == if s.disabled then s.log
                         else LogRotation.Apply(limits, s.log, LogRotation.Write(s.accepted[|s.fates|], effect))
  {
    hide LogRotation.Apply, FlushOk;
    OneLineBatch(s.accepted[|s.fates|]);
  }

  lemma WriteStream(limits: Limits, log: LogRotation.State, chunk: Chunk, effect: Effect)
    ensures LogRotation.Apply(limits, log, LogRotation.Write(chunk, effect)).stream
         == log.stream + if effect == Appended then [chunk] else []
  {
  }

  lemma DrainKeepsLog(threshold: int, limits: Limits, s: WriterState, effect: Effect)
    requires Books(s) && LogOk(limits, s) && Enabled(limits, s, DoDrain(effect))
    ensures LogOk(limits, Drain(threshold, limits, s, effect))
  {
    DrainEffect(threshold, limits, s, effect);
    BatchIsLine(s);
    hide LogRotation.Inv, LogRotation.Enabled, LogRotation.Apply, Books, Drain, WrittenLines, Join;
    var s', line := Drain(threshold, limits, s, effect), s.accepted[|s.fates|];
    WrittenSnoc(s.accepted, s.fates, s'.fates[|s.fates|]);
    assert WrittenLines(s.accepted, s.fates) + [] == WrittenLines(s.accepted, s.fates);
    if !s.disabled {
      LogRotation.StepKeepsInv(limits, s.log, LogRotation.Write(line, effect));
      WriteStream(limits, s.log, line, effect);
    }
  }

  lemma BatchIsLine(s: WriterState)
    requires Books(s) && |s.fates| < |s.batches|
    ensures |s.fates| < |s.accepted| && Join(s.batches[|s.fates|]) == s.accepted[|s.fates|]
  {
    hide FlushOk;
    OneLineBatch(s.accepted[|s.fates|]);
  }

  lemma OneLineBatch(line: Chunk)
    ensures Join([line]) == line
  {
    assert Join([line]) == line + Join([]) == line;
  }

  lemma DrainKeepsInv(threshold: int, limits: Limits, s: WriterState, effect: Effect)
    requires Inv(threshold, limits, s) && Enabled(limits, s, DoDrain(effect))
    ensures Inv(threshold, limits, Drain(threshold, limits, s, effect))
  {
    hide LogOk, Books, SwitchedOffAt, Drain;
    var n: nat :| SwitchedOffAt(threshold, s, n);
    DrainKeepsSwitch(threshold, limits, s, effect, n);
    DrainKeepsBooks(threshold, limits, s, effect);
    DrainKeepsLog(threshold, limits, s, effect);
  }

  // Nothing drained: the switch stays where it was.
  lemma SameSwitch(threshold: int, s: WriterState, s': WriterState)
    requires Switched(threshold, s)
    requires s'.fates == s.fates && s'.disabled == s.disabled && s'.consecutiveFailures == s.consecutiveFailures
    ensures Switched(threshold, s')
  {
    hide TrailingFailures;
    var n: nat :| SwitchedOffAt(threshold, s, n);
    assert SwitchedOffAt(threshold, s', n);
  }

  lemma EnqueueKeepsInv(threshold: int, limits: Limits, s: WriterState, line: Chunk)
    requires Inv(threshold, limits, s)
    ensures Inv(threshold, limits, Enqueue(s, line))
  {
    hide LogRotation.Inv, Switched;
    var s' := Enqueue(s, line);
    SameSwitch(threshold, s, s');
    WrittenLinesExtend(s.accepted, s'.accepted, s.fates);
    assert [] + [line] == [line];
    forall f | 0 <= f < |s.flushes| ensures FlushOk(s', s.flushes[f]) {
      assert FlushOk(s, s.flushes[f]);
    }
  }

  lemma FlushKeepsInv(threshold: int, limits: Limits, s: WriterState, s': WriterState)
    requires Inv(threshold, limits, s)
    requires s' == CallFlush(s) || exists f: nat :: Enabled(limits, s, Advance(f)) && s' == FlushAdvances(s, f)
    ensures Inv(threshold, limits, s')
  {
    hide LogRotation.Inv, Switched;
    SameSwitch(threshold, s, s');
    forall f | 0 <= f < |s'.flushes| ensures FlushOk(s', s'.flushes[f]) {
      assert f < |s.flushes| ==> FlushOk(s, s.flushes[f]);
    }
  }

  lemma LogChangeKeepsInv(threshold: int, limits: Limits, s: WriterState, log: LogRotation.State)
    requires Inv(threshold, limits, s) && LogRotation.Inv(limits, log) && log.stream == s.log.stream
    ensures Inv(threshold, limits, s.(log := log))
  {
    hide LogRotation.Inv, Switched;
    var s' := s.(log := log);
    SameSwitch(threshold, s, s');
    forall f | 0 <= f < |s.flushes| ensures FlushOk(s', s.flushes[f]) {
      assert FlushOk(s, s.flushes[f]);
    }
  }

  lemma LogOkHasInv(limits: Limits, s: WriterState)
    requires LogOk(limits, s)
    ensures LogRotation.Inv(limits, s.log)
  {
  }

  lemma StepKeepsInv(threshold: int, limits: Limits, s: WriterState, step: Step)
    requires Inv(threshold, limits, s) && Enabled(limits, s, step)
    ensures Inv(threshold, limits, Apply(threshold, limits, s, step))
  {
    hide LogRotation.Inv, LogRotation.Enabled, LogOk, Books, Switched, Enqueue, Drain, CallFlush, FlushAdvances;
    match step
    case DoEnqueue(line) => EnqueueKeepsInv(threshold, limits, s, line);
    case DoDrain(effect) => DrainKeepsInv(threshold, limits, s, effect);
    case DoFlush => FlushKeepsInv(threshold, limits, s, CallFlush(s));
    case Advance(f) => FlushKeepsInv(threshold, limits, s, FlushAdvances(s, f));
    case Elapse(now) =>
      LogOkHasInv(limits, s);
      LogRotation.TickKeepsInv(limits, s.log, now);
      LogChangeKeepsInv(threshold, limits, s, s.log.(now := now));
    case CleanLog(pass) =>
      LogOkHasInv(limits, s);
      LogRotation.StepKeepsInv(limits, s.log, pass);
      LogChangeKeepsInv(threshold, limits, s, LogRotation.Apply(limits, s.log, pass));
  }

  ghost predicate IsRun(threshold: int, limits: Limits, ss: seq<WriterState>, steps: seq<Step>) {
    && |ss| == |steps| + 1
    && ss[0] == FRESH
    && forall i | 0 <= i < |steps| :: Enabled(limits, ss[i], steps[i])
        && ss[i + 1] == Apply(threshold, limits, ss[i], steps[i])
  }

  lemma {:induction false} EveryRunKeepsInv(threshold: int, limits: Limits, ss: seq<WriterState>, steps: seq<Step>,
      n: nat)
    requires IsRun(threshold, limits, ss, steps) && n <= |steps|
    ensures Inv(threshold, limits, ss[n])
  {
    if n == 0 {
      NothingStored(Generations(limits.maxFiles));
      assert SwitchedOffAt(threshold, FRESH, 0);
    } else {
      EveryRunKeepsInv(threshold, limits, ss, steps, n - 1);
      StepKeepsInv(threshold, limits, ss[n - 1], steps[n - 1]);
    }
  }

  /** In every run the log receives the accepted lines in order with only unwritten ones left out,
      and its files hold a suffix of that. */
  lemma LogHoldsWrittenLines(threshold: int, limits: Limits, ss: seq<WriterState>, steps: seq<Step>, n: nat)
    requires IsRun(threshold, limits, ss, steps) && n < |ss|
    ensures |ss[n].fates| <= |ss[n].accepted|
    ensures ss[n].log.stream == WrittenLines(ss[n].accepted, ss[n].fates)
    ensures IsSuffix(Contents(ss[n].log.dir, Generations(limits.maxFiles)), WrittenLines(ss[n].accepted, ss[n].fates))
  {
    EveryRunKeepsInv(threshold, limits, ss, steps, n);
  }

  lemma {:induction false} TrailingIsRun(fates: seq<Fate>, n: nat, needed: nat)
    requires n <= |fates|
    ensures TrailingFailures(fates[..n]) >= needed <==> RunOfFailures(fates, n, needed)
    decreases n
  {
    if n > 0 && needed > 0 {
      assert fates[..n][..n - 1] == fates[..n - 1];
      TrailingIsRun(fates, n - 1, needed - 1);
    }
  }

  /** The writer is off exactly when some `threshold` writes in a row have failed; it has then notified
      exactly once, and every batch after those failures is skipped. */
  lemma OffExactlyWhenThresholdFailed(threshold: int, limits: Limits, ss: seq<WriterState>, steps: seq<Step>, n: nat)
    requires IsRun(threshold, limits, ss, steps) && n < |ss|
    ensures ss[n].disabled <==> exists k: nat :: RunOfFailures(ss[n].fates, k, Needed(threshold))
    ensures ss[n].notices == if ss[n].disabled then 1 else 0
    ensures forall k: nat | RunOfFailures(ss[n].fates, k, Needed(threshold)) ::
              forall i | k <= i < |ss[n].fates| :: ss[n].fates[i] == Skipped
  {
    EveryRunKeepsInv(threshold, limits, ss, steps, n);
    var s := ss[n];
    var m: nat :| SwitchedOffAt(threshold, s, m);
    TrailingIsRun(s.fates, m, Needed(threshold));
    forall k: nat | RunOfFailures(s.fates, k, Needed(threshold)) ensures s.disabled && k == m {
      TrailingIsRun(s.fates, k, Needed(threshold));
      assert s.fates[k - 1] == FailedToWrite;
    }
  }

  // What the steps so far amount to: the lines accepted, and the fate of each batch drained.
  ghost function AcceptedBy(ss: seq<WriterState>, steps: seq<Step>, n: nat): seq<Chunk>
    requires n <= |steps| < |ss|
  {
    if n == 0 then []
    else AcceptedBy(ss, steps, n - 1)
         + if steps[n - 1].DoEnqueue? && !ss[n - 1].disabled then [steps[n - 1].line] else []
  }

  ghost function FatesBy(ss: seq<WriterState>, steps: seq<Step>, n: nat): seq<Fate>
    requires n <= |steps| < |ss|
  {
    if n == 0 then []
    else FatesBy(ss, steps, n - 1)
         + if !steps[n - 1].DoDrain? then []
           else [if ss[n - 1].disabled then Skipped
                 else if steps[n - 1].effect == Appended then Written else FailedToWrite]
  }

  /** In every run the writer has accepted exactly the lines enqueued while it was on, in that order, each a batch of
      its own, and drained them with the outcomes their file operations had. */
  lemma {:induction false} WriterRecordsItsCalls(threshold: int, limits: Limits, ss: seq<WriterState>,
      steps: seq<Step>, n: nat)
    requires IsRun(threshold, limits, ss, steps) && n <= |steps|
    ensures ss[n].accepted == AcceptedBy(ss, steps, n) && ss[n].fates == FatesBy(ss, steps, n)
    ensures |ss[n].batches| == |ss[n].accepted|
    ensures forall i | 0 <= i < |ss[n].batches| :: ss[n].batches[i] == [ss[n].accepted[i]]
  {
    hide Enabled, Apply, Books, Switched, LogOk;
    EveryRunKeepsInv(threshold, limits, ss, steps, n);
    BooksSay(ss[n]);
    if n > 0 {
      WriterRecordsItsCalls(threshold, limits, ss, steps, n - 1);
      EveryRunKeepsInv(threshold, limits, ss, steps, n - 1);
      StepIsRecorded(threshold, limits, ss[n - 1], steps[n - 1]);
    }
  }

  lemma BooksSay(s: WriterState)
    requires Books(s)
    ensures |s.batches| == |s.accepted| && forall i | 0 <= i < |s.batches| :: s.batches[i] == [s.accepted[i]]
  {
  }

  lemma StepIsRecorded(threshold: int, limits: Limits, s: WriterState, step: Step)
    requires Books(s) && Enabled(limits, s, step)
    ensures var s' := Apply(threshold, limits, s, step);
            && s'.accepted == s.accepted + (if step.DoEnqueue? && !s.disabled then [step.line] else [])
            && s'.fates == s.fates
                 + (if !step.DoDrain? then []
                    else [if s.disabled then Skipped else if step.effect == Appended then Written else FailedToWrite])
  {
    hide LogRotation.Enabled, LogRotation.Apply, FlushOk, Join;
    assert s.accepted + [] == s.accepted && s.fates + [] == s.fates;
  }

  /** Once off, the writer stays off and never touches its files, its notices or its accepted lines again. */
  lemma {:induction false} OffIsFinal(threshold: int, limits: Limits, ss: seq<WriterState>, steps: seq<Step>, m: nat,
      n: nat)
    requires IsRun(threshold, limits, ss, steps) && m <= n < |ss| && ss[m].disabled
    ensures var s, s' := ss[m], ss[n];
            && s'.disabled
            && s'.log.dir == s.log.dir && s'.log.stream == s.log.stream
            && s'.accepted == s.accepted && s'.notices == s.notices
    decreases n
  {
    hide LogRotation.Enabled;
    if m < n {
      OffIsFinal(threshold, limits, ss, steps, m, n - 1);
      assert Enabled(limits, ss[n - 1], steps[n - 1]);
      assert ss[n] == Apply(threshold, limits, ss[n - 1], steps[n - 1]);
    }
  }

  /** A flush() that returned has seen every line accepted before it was called written, failed or skipped. */
  lemma FlushWaitsForEarlierLines(threshold: int, limits: Limits, ss: seq<WriterState>, steps: seq<Step>, m: nat,
      n: nat, f: nat)
    requires IsRun(threshold, limits, ss, steps) && m < n < |ss| && steps[m] == DoFlush && f == |ss[m].flushes|
    requires f < |ss[n].flushes| && ss[n].flushes[f].Finished?
    ensures |ss[m].accepted| <= |ss[n].fates|
  {
    EveryRunKeepsInv(threshold, limits, ss, steps, m);
    EveryRunKeepsInv(threshold, limits, ss, steps, n);
    FlushKeepsCall(threshold, limits, ss, steps, m, n, f);
    assert FlushOk(ss[n], ss[n].flushes[f]);
  }

  /** It has also seen the lines accepted while it was waiting: up to the end of its first wait, where it starts to wait
      for the chain as it then is. */
  lemma {:induction false} FlushWaitsForLinesMeanwhile(threshold: int, limits: Limits, ss: seq<WriterState>,
      steps: seq<Step>, m: nat, n: nat, f: nat) returns (k: nat)
    requires IsRun(threshold, limits, ss, steps) && m < n < |ss| && steps[m] == DoFlush && f == |ss[m].flushes|
    requires f < |ss[n].flushes| && !ss[n].flushes[f].First?
    ensures m < k < n && steps[k] == Advance(f) && ss[k].flushes[f].First?
    ensures ss[n].flushes[f].Second? ==> ss[n].flushes[f].until == |ss[k].accepted|
    ensures ss[n].flushes[f].Finished? ==> |ss[k].accepted| <= |ss[n].fates|
    decreases n
  {
    hide Enabled, Apply, Inv;
    var s, step := ss[n - 1], steps[n - 1];
    EveryRunKeepsInv(threshold, limits, ss, steps, n - 1);
    if m + 1 < n { FlushKeepsCall(threshold, limits, ss, steps, m, n - 1, f); }
    FlushAt(threshold, limits, s, step, f);
    if m + 1 < n {
      if s.flushes[f].First? {
        k := n - 1;
      } else {
        k := FlushWaitsForLinesMeanwhile(threshold, limits, ss, steps, m, n - 1, f);
      }
    }
  }

  // What a step does to flush call f.
  lemma FlushAt(threshold: int, limits: Limits, s: WriterState, step: Step, f: nat)
    requires Inv(threshold, limits, s) && Enabled(limits, s, step) && f <= |s.flushes|
    ensures var s' := Apply(threshold, limits, s, step);
            && |s.fates| <= |s'.fates| && |s.flushes| <= |s'.flushes|
            && (f == |s.flushes| && f < |s'.flushes| ==> s'.flushes[f].First?)
            && (f < |s.flushes| && s'.flushes[f] != s.flushes[f] ==>
                  && step == Advance(f)
                  && (s.flushes[f].First? ==> s'.flushes[f] == Second(s.flushes[f].called, |s.accepted|))
                  && (s.flushes[f].Second? ==> s'.flushes[f].Finished? && s.flushes[f].until <= |s'.fates|)
                  && !s.flushes[f].Finished?)
  {
    hide LogRotation.Enabled, LogRotation.Apply, Switched, LogOk, FlushOk, Join;
  }

  lemma {:induction false} FlushKeepsCall(threshold: int, limits: Limits, ss: seq<WriterState>, steps: seq<Step>,
      m: nat, n: nat, f: nat)
    requires IsRun(threshold, limits, ss, steps) && m < n < |ss| && steps[m] == DoFlush && f == |ss[m].flushes|
    ensures f < |ss[n].flushes| && ss[n].flushes[f].called == |ss[m].batches|
    decreases n
  {
    if m + 1 < n { FlushKeepsCall(threshold, limits, ss, steps, m, n - 1, f); }
    assert ss[n] == Apply(threshold, limits, ss[n - 1], steps[n - 1]);
  }

  /** The writer as the closure it is; `batches` and `fates` stand for the promise chain. */
  class Writer {
    const threshold: int
    const limits: Limits
    var pending: seq<Chunk>
    var batches: seq<seq<Chunk>>
    var fates: seq<Fate>
    var consecutiveFailures: nat
    var disabled: bool
    var notified: bool
    var notices: nat
    var accepted: seq<Chunk>
    var flushes: seq<Flush>
    var log: LogRotation.State

    ghost function View(): WriterState
      reads this
    {
      WriterState(pending, batches, fates, consecutiveFailures, disabled, notified, notices, accepted, flushes, log)
    }

    constructor (threshold: int, limits: Limits)
      ensures View() == FRESH && this.threshold == threshold && this.limits == limits
    {
      this.threshold, this.limits := threshold, limits;
      pending, batches, fates, accepted, flushes := [], [], [], [], [];
      consecutiveFailures, disabled, notified, notices, log := 0, false, false, 0, LogRotation.EMPTY;
    }

    method Schedule()
      modifies this
      ensures View() == ScheduleDrain(old(View()))
    {
      if disabled || pending == [] {
        return;
      }
      var batch := pending;
      pending := [];
      batches := batches + [batch];
    }

    method EnqueueLine(line: Chunk)
      modifies this
      ensures View() == Enqueue(old(View()), line)
    {
      if disabled {
        return;
      }
      pending := pending + [line];
      accepted := accepted + [line];
      Schedule();
    }

    method DrainBatch(effect: Effect)
      requires |fates| < |batches|
      modifies this
      ensures View() == Drain(threshold, limits, old(View()), effect)
    {
      hide LogRotation.Apply, Join;
      var batch := batches[|fates|];
      if disabled {
        fates := fates + [Skipped];
        return;
      }
      log := LogRotation.Apply(limits, log, LogRotation.Write(Join(batch), effect));
      if effect == Appended {
        fates := fates + [Written];
        consecutiveFailures := 0;
      } else {
        fates := fates + [FailedToWrite];
        consecutiveFailures := consecutiveFailures + 1;
        if consecutiveFailures >= threshold {
          disabled := true;
          pending := [];
          if !notified {
            notified := true;
            notices := notices + 1;
          }
        }
      }
    }

    // flush() up to its first await; the number of the call.
    method StartFlush() returns (f: nat)
      modifies this
      ensures View() == CallFlush(old(View())) && f == |old(flushes)|
    {
      f := |flushes|;
      var called := |batches|;
      Schedule();
      flushes := flushes + [First(called, |batches|)];
    }

    // The awaited part of the chain has drained: flush() awaits the chain once more, or returns.
    method ResumeFlush(f: nat)
      requires f < |flushes|
      modifies this
      ensures View() == FlushAdvances(old(View()), f)
    {
      var flush := flushes[f];
      if flush.First? {
        flushes := flushes[f := Second(flush.called, |batches|)];
      } else if flush.Second? {
        flushes := flushes[f := Finished(flush.called)];
      }
    }
  }
}
