/** The debounced state store: saves coalesce into a pending state and a resolver list, a timer or a
    flush() loop starts a write cycle, and each async function is cut at its awaits into steps. */
module DebouncedStateStore {
  import opened Options

  datatype SaveStatus = Unsettled | Resolved | Rejected

  // One runOneFlushCycle() that got past its guards, with the state and resolvers it took along.
  datatype Cycle = Cycle(
    state: nat,            // the save whose state is written
    resolvers: seq<nat>,   // the saves this write settles
    begun: nat,            // how many saves had been accepted when the write began
    ok: Option<bool>,      // None while delegate.save is pending
    cleared: bool,         // `flushing` was reset by its finally
    continued: bool        // the code after `await this.flushing` has run
  )

  // Where a flush() call is suspended.
  datatype Await = OnCycle(cycle: nat) | OnFlushing(cycle: nat) | Returned | Failed

  datatype Flush = Flush(disposing: bool, at: Await)

  // Accepted saves are numbered; save i carries state i.
  datatype State = State(
    pending: Option<nat>,
    resolvers: seq<nat>,
    timer: bool,
    flushing: Option<nat>,
    disposed: bool,
    saves: seq<SaveStatus>,
    cycles: seq<Cycle>,
    flushes: seq<Flush>
  )

  const EMPTY := State(None, [], false, None, false, [], [], [])

  // --- Specification of the steps ---

  function ScheduleFlush(s: State): State {
    if s.timer || s.flushing.Some? then s else s.(timer := true)
  }

  // A save on a disposed store is refused and changes nothing.
  function Save(s: State): State {
    if s.disposed then s
    else
      var i := |s.saves|;
      ScheduleFlush(s.(pending := Some(i), resolvers := s.resolvers + [i], saves := s.saves + [Unsettled]))
  }

  // The part of runOneFlushCycle() up to its first await.
  function BeginCycle(s: State): State {
    if s.flushing.Some? || s.pending.None? then s
    else
      s.(pending := None, resolvers := [], flushing := Some(|s.cycles|),
         cycles := s.cycles + [Cycle(s.pending.value, s.resolvers, |s.saves|, None, false, false)])
  }

  function TimerFires(s: State): State {
    BeginCycle(s.(timer := false))
  }

  function SettleAll(saves: seq<SaveStatus>, ids: seq<nat>, status: SaveStatus): (r: seq<SaveStatus>)
    ensures |r| == |saves|
    ensures forall i | 0 <= i < |saves| :: r[i] == if i in ids then status else saves[i]
  {
    seq(|saves|, i requires 0 <= i < |saves| => if i in ids then status else saves[i])
  }

  ghost predicate CanSettle(s: State) {
    s.flushing.Some? && s.flushing.value < |s.cycles| && s.cycles[s.flushing.value].ok.None?
  }

  // delegate.save settles; the cycle's resolvers follow.
  function DelegateSettles(s: State, ok: bool): State
    requires CanSettle(s)
  {
    var c := s.flushing.value;
    s.(saves := SettleAll(s.saves, s.cycles[c].resolvers, if ok then Resolved else Rejected),
       cycles := s.cycles[c := s.cycles[c].(ok := Some(ok))])
  }

  ghost predicate CanClear(s: State) {
    s.flushing.Some? && s.flushing.value < |s.cycles| && s.cycles[s.flushing.value].ok.Some?
  }

  function FlushingCleared(s: State): State
    requires CanClear(s)
  {
    var c := s.flushing.value;
    s.(flushing := None, cycles := s.cycles[c := s.cycles[c].(cleared := true)])
  }

  // With an onError that throws, the cycle's promise rejects after a failed write.
  predicate Throws(onErrorThrows: bool, cycle: Cycle) {
    onErrorThrows && cycle.ok == Some(false)
  }

  ghost predicate CanContinue(s: State, c: nat) {
    c < |s.cycles| && s.cycles[c].cleared && !s.cycles[c].continued
  }

  function Continue(onErrorThrows: bool, s: State, c: nat): State
    requires CanContinue(s, c)
  {
    var s' := s.(cycles := s.cycles[c := s.cycles[c].(continued := true)]);
    if !Throws(onErrorThrows, s.cycles[c]) && s.pending.Some? && !s.disposed then ScheduleFlush(s') else s'
  }

  // One turn of flush()'s while loop, up to its next await or its end.
  function Iterate(s: State, f: nat): State
    requires f < |s.flushes|
  {
    if s.pending.None? && s.flushing.None? && !s.timer then
      s.(flushes := s.flushes[f := s.flushes[f].(at := Returned)])
    else
      var s0 := s.(timer := false);
      if s.flushing.Some? then
        s0.(flushes := s.flushes[f := s.flushes[f].(at := OnFlushing(s.flushing.value))])
      else if s.pending.Some? then
        BeginCycle(s0).(flushes := s.flushes[f := s.flushes[f].(at := OnCycle(|s.cycles|))])
      else
        s0.(flushes := s.flushes[f := s.flushes[f].(at := Returned)])
  }

  // flush(), or dispose() when disposing.
  function CallFlush(s: State, disposing: bool): State {
    Iterate(s.(disposed := s.disposed || disposing, flushes := s.flushes + [Flush(disposing, Returned)]), |s.flushes|)
  }

  ghost predicate CanWake(s: State, f: nat) {
    && f < |s.flushes|
    && match s.flushes[f].at
       case OnCycle(c) => c < |s.cycles| && s.cycles[c].continued
       case OnFlushing(c) => c < |s.cycles| && s.cycles[c].cleared
       case _ => false
  }

  function Wake(onErrorThrows: bool, s: State, f: nat): State
    requires CanWake(s, f)
  {
    if s.flushes[f].at.OnCycle? && Throws(onErrorThrows, s.cycles[s.flushes[f].at.cycle]) then
      s.(flushes := s.flushes[f := s.flushes[f].(at := Failed)])
    else
      Iterate(s, f)
  }

  datatype Step =
    | DoSave | DoFlush(disposing: bool)
    | Timer | Settle(ok: bool) | Clear | DoContinue(cycle: nat) | DoWake(flush: nat)

  // Steps the store takes on its own, without a caller.
  predicate Internal(step: Step) {
    !step.DoSave? && !step.DoFlush?
  }

  ghost predicate Enabled(s: State, step: Step) {
    match step
    case DoSave => true
    case DoFlush(_) => true
    case Timer => s.timer
    case Settle(_) => CanSettle(s)
    case Clear => CanClear(s)
    case DoContinue(c) => CanContinue(s, c)
    case DoWake(f) => CanWake(s, f)
  }

  ghost function Apply(onErrorThrows: bool, s: State, step: Step): State
    requires Enabled(s, step)
  {
    match step
    case DoSave => Save(s)
    case DoFlush(disposing) => CallFlush(s, disposing)
    case Timer => TimerFires(s)
    case Settle(ok) => DelegateSettles(s, ok)
    case Clear => FlushingCleared(s)
    case DoContinue(c) => Continue(onErrorThrows, s, c)
    case DoWake(f) => Wake(onErrorThrows, s, f)
  }

  // --- What every run keeps, whatever onError does ---

  function Hi(s: State): nat {
    if s.cycles == [] then 0 else s.cycles[|s.cycles| - 1].begun
  }

  ghost predicate IsRange(ids: seq<nat>, lo: nat, hi: nat) {
    lo <= hi && |ids| == hi - lo && forall k | 0 <= k < |ids| :: ids[k] == lo + k
  }

  // Each cycle takes the saves since the previous one and writes the newest of their states.
  ghost predicate CycleOk(s: State, c: nat)
    requires c < |s.cycles|
  {
    var cycle := s.cycles[c];
    && IsRange(cycle.resolvers, if c == 0 then 0 else s.cycles[c - 1].begun, cycle.begun)
    && cycle.state + 1 == cycle.begun && cycle.resolvers != []
    && cycle.begun <= |s.saves|
    && (cycle.continued ==> cycle.cleared)
    && (cycle.cleared ==> cycle.ok.Some?)
    && (cycle.cleared <==> s.flushing != Some(c))
    && (forall i | i in cycle.resolvers ::
          s.saves[i] == match cycle.ok case None => Unsettled case Some(ok) => if ok then Resolved else Rejected)
  }

  ghost predicate FlushOk(s: State, f: nat)
    requires f < |s.flushes|
  {
    var fl := s.flushes[f];
    && ((fl.at.OnCycle? || fl.at.OnFlushing?) ==> fl.at.cycle < |s.cycles|)
    && (fl.disposing ==> s.disposed)
    && (fl.disposing && fl.at == Returned ==> Quiet(s))
  }

  ghost predicate Quiet(s: State) {
    s.pending.None? && s.flushing.None? && !s.timer
  }

  ghost predicate Inv(s: State) {
    && (forall c | 0 <= c < |s.cycles| :: CycleOk(s, c))
    && (s.flushing.Some? ==> s.cycles != [] && s.flushing.value == |s.cycles| - 1)
    && IsRange(s.resolvers, Hi(s), |s.saves|)
    && s.pending == (if s.resolvers == [] then None else Some(|s.saves| - 1))
    && (forall i | Hi(s) <= i < |s.saves| :: s.saves[i] == Unsettled)
    && (s.timer ==> s.flushing.None? && s.pending.Some?)
    && (forall f | 0 <= f < |s.flushes| :: FlushOk(s, f))
  }

  lemma SaveKeepsInv(s: State)
    requires Inv(s)
    ensures Inv(Save(s))
  {
    var s' := Save(s);
    forall c | 0 <= c < |s'.cycles| ensures CycleOk(s', c) {
      assert CycleOk(s, c);
    }
    forall f | 0 <= f < |s'.flushes| ensures FlushOk(s', f) {
      assert FlushOk(s, f);
    }
  }

  lemma BeginCycleKeepsInv(s: State)
    requires Inv(s) && !s.timer
    ensures Inv(BeginCycle(s))
  {
    var s' := BeginCycle(s);
    forall c | 0 <= c < |s'.cycles| ensures CycleOk(s', c) {
      if c < |s.cycles| { assert CycleOk(s, c); }
    }
    forall f | 0 <= f < |s'.flushes| ensures FlushOk(s', f) {
      assert FlushOk(s, f);
    }
  }

  lemma SettleKeepsInv(s: State, ok: bool)
    requires Inv(s) && CanSettle(s)
    ensures Inv(DelegateSettles(s, ok))
  {
    var s' := DelegateSettles(s, ok);
    forall c | 0 <= c < |s'.cycles| ensures CycleOk(s', c) {
      assert CycleOk(s, c);
      RangesAreDisjoint(s, c, s.flushing.value);
    }
    forall f | 0 <= f < |s'.flushes| ensures FlushOk(s', f) {
      assert FlushOk(s, f);
    }
    assert CycleOk(s, s.flushing.value);
  }

  lemma {:induction false} BegunIsMonotone(s: State, c: nat, d: nat)
    requires Inv(s) && c <= d < |s.cycles|
    ensures s.cycles[c].begun <= s.cycles[d].begun
  {
    if c < d {
      BegunIsMonotone(s, c, d - 1);
      assert CycleOk(s, d);
    }
  }

  lemma RangesAreDisjoint(s: State, c: nat, d: nat)
    requires Inv(s) && c <= d < |s.cycles|
    ensures c < d ==> forall i | i in s.cycles[c].resolvers :: i !in s.cycles[d].resolvers
  {
    if c < d {
      BegunIsMonotone(s, c, d - 1);
      assert CycleOk(s, c) && CycleOk(s, d);
    }
  }

  lemma ClearKeepsInv(s: State)
    requires Inv(s) && CanClear(s)
    ensures Inv(FlushingCleared(s))
  {
    var s' := FlushingCleared(s);
    forall c | 0 <= c < |s'.cycles| ensures CycleOk(s', c) {
      assert CycleOk(s, c);
    }
    forall f | 0 <= f < |s'.flushes| ensures FlushOk(s', f) {
      assert FlushOk(s, f);
    }
  }

  lemma ContinueKeepsInv(onErrorThrows: bool, s: State, c: nat)
    requires Inv(s) && CanContinue(s, c)
    ensures Inv(Continue(onErrorThrows, s, c))
  {
    var s' := Continue(onErrorThrows, s, c);
    forall d | 0 <= d < |s'.cycles| ensures CycleOk(s', d) {
      assert CycleOk(s, d);
    }
    forall f | 0 <= f < |s'.flushes| ensures FlushOk(s', f) {
      assert FlushOk(s, f);
    }
  }

  // One turn of the flush loop, for a loop that is not parked as a finished disposal.
  lemma IterateKeepsInv(s: State, f: nat)
    requires f < |s.flushes| && (s.flushes[f].disposing ==> s.disposed)
    requires Inv(s.(flushes := s.flushes[f := s.flushes[f].(at := Failed)]))
    ensures Inv(Iterate(s, f))
  {
    var parked := s.(flushes := s.flushes[f := s.flushes[f].(at := Failed)]);
    var s' := Iterate(s, f);
    var at := s'.flushes[f].at;
    assert s'.flushes == parked.flushes[f := parked.flushes[f].(at := at)];
    if Quiet(s) {
      MoveKeepsInv(parked, f, at);
    } else {
      TimerOffKeepsInv(parked);
      var s0 := parked.(timer := false);
      if s.flushing.None? && s.pending.Some? {
        BeginCycleKeepsInv(s0);
        MoveKeepsInv(BeginCycle(s0), f, at);
      } else {
        MoveKeepsInv(s0, f, at);
      }
    }
  }

  // Moving one flush call to a new await keeps the invariant.
  lemma MoveKeepsInv(s: State, f: nat, at: Await)
    requires Inv(s) && f < |s.flushes|
    requires (at.OnCycle? || at.OnFlushing?) ==> at.cycle < |s.cycles|
    requires at == Returned ==> Quiet(s)
    ensures Inv(s.(flushes := s.flushes[f := s.flushes[f].(at := at)]))
  {
    var s' := s.(flushes := s.flushes[f := s.flushes[f].(at := at)]);
    forall c | 0 <= c < |s.cycles| ensures CycleOk(s', c) {
      assert CycleOk(s, c);
    }
    forall g | 0 <= g < |s.flushes| ensures FlushOk(s', g) {
      assert FlushOk(s, g) && FlushOk(s, f);
    }
  }

  lemma StepKeepsInv(onErrorThrows: bool, s: State, step: Step)
    requires Inv(s) && Enabled(s, step)
    ensures Inv(Apply(onErrorThrows, s, step))
  {
    match step
    case DoSave => SaveKeepsInv(s);
    case DoFlush(disposing) =>
      var f := |s.flushes|;
      var s0 := s.(disposed := s.disposed || disposing, flushes := s.flushes + [Flush(disposing, Failed)]);
      ParkKeepsInv(s, s0);
      var s1 := s.(disposed := s0.disposed, flushes := s.flushes + [Flush(disposing, Returned)]);
      assert s1.flushes[f := s1.flushes[f].(at := Failed)] == s0.flushes;
      IterateKeepsInv(s1, f);
    case Timer =>
      TimerOffKeepsInv(s);
      BeginCycleKeepsInv(s.(timer := false));
    case Settle(ok) => SettleKeepsInv(s, ok);
    case Clear => ClearKeepsInv(s);
    case DoContinue(c) => ContinueKeepsInv(onErrorThrows, s, c);
    case DoWake(f) =>
      assert FlushOk(s, f);
      var s0 := s.(flushes := s.flushes[f := s.flushes[f].(at := Failed)]);
      ParkKeepsInv(s, s0);
      IterateKeepsInv(s, f);
  }

  lemma TimerOffKeepsInv(s: State)
    requires Inv(s)
    ensures Inv(s.(timer := false))
  {
    forall c | 0 <= c < |s.cycles| ensures CycleOk(s.(timer := false), c) {
      assert CycleOk(s, c);
    }
    forall f | 0 <= f < |s.flushes| ensures FlushOk(s.(timer := false), f) {
      assert FlushOk(s, f);
    }
  }

  // Adding or failing flush calls disturbs nothing else.
  lemma ParkKeepsInv(s: State, s0: State)
    requires Inv(s) && s0 == s.(disposed := s0.disposed, flushes := s0.flushes) && (s.disposed ==> s0.disposed)
    requires |s.flushes| <= |s0.flushes|
    requires forall f | 0 <= f < |s0.flushes| ::
               (f < |s.flushes| && s0.flushes[f] == s.flushes[f])
               || (s0.flushes[f].at == Failed && (s0.flushes[f].disposing ==> s0.disposed))
    ensures Inv(s0)
  {
    forall c | 0 <= c < |s.cycles| ensures CycleOk(s0, c) {
      assert CycleOk(s, c);
    }
    forall f | 0 <= f < |s0.flushes| ensures FlushOk(s0, f) {
      if f < |s.flushes| { assert FlushOk(s, f); }
    }
  }

  // --- A pending state is never stranded ---

  ghost predicate Active(s: State, f: nat) {
    f < |s.flushes| && (s.flushes[f].at.OnCycle? || s.flushes[f].at.OnFlushing?)
  }

  // Nothing is left that would ever write the pending state.
  ghost predicate Stranded(s: State) {
    && s.pending.Some? && !s.timer && s.flushing.None?
    && (forall c: nat :: !CanContinue(s, c))
    && (forall f: nat :: !Active(s, f))
  }

  ghost predicate DisposerActive(s: State) {
    exists f: nat :: Active(s, f) && s.flushes[f].disposing
  }

  ghost predicate Alive(s: State) {
    !Stranded(s) && (s.disposed ==> Quiet(s) || DisposerActive(s))
  }

  lemma StepKeepsAlive(s: State, step: Step)
    requires Inv(s) && Alive(s) && Enabled(s, step)
    ensures Alive(Apply(false, s, step))
  {
    var s' := Apply(false, s, step);
    match step
    case DoSave => KeepsFlushesAlive(s, s');
    case DoFlush(disposing) =>
      assert Quiet(s') || Active(s', |s.flushes|);
      KeepsFlushesAlive(s, s');
    case Timer => KeepsFlushesAlive(s, s');
    case Settle(ok) => KeepsFlushesAlive(s, s');
    case Clear =>
      assert CycleOk(s, s.flushing.value);
      assert CanContinue(s', s.flushing.value);
      KeepsFlushesAlive(s, s');
    case DoContinue(c) =>
      KeepsFlushesAlive(s, s');
    case DoWake(f) =>
      assert Quiet(s') || Active(s', f);
      if !Quiet(s') && s.disposed && DisposerActive(s) {
        var g: nat :| Active(s, g) && s.flushes[g].disposing;
        assert Active(s', g) && s'.flushes[g].disposing;
      }
  }

  lemma KeepsFlushesAlive(s: State, s': State)
    requires |s.flushes| <= |s'.flushes| && forall f | 0 <= f < |s.flushes| :: s'.flushes[f] == s.flushes[f]
    ensures DisposerActive(s) ==> DisposerActive(s')
    ensures forall f: nat | Active(s, f) :: Active(s', f)
  {
    if DisposerActive(s) {
      var f: nat :| Active(s, f) && s.flushes[f].disposing;
      assert Active(s', f) && s'.flushes[f].disposing;
    }
  }

  ghost predicate IsRun(onErrorThrows: bool, ss: seq<State>, steps: seq<Step>) {
    && |ss| == |steps| + 1
    && ss[0] == EMPTY
    && forall i | 0 <= i < |steps| :: Enabled(ss[i], steps[i]) && ss[i + 1] == Apply(onErrorThrows, ss[i], steps[i])
  }

  lemma {:induction false} EveryRunKeepsInv(onErrorThrows: bool, ss: seq<State>, steps: seq<Step>, n: nat)
    requires IsRun(onErrorThrows, ss, steps) && n <= |steps|
    ensures Inv(ss[n])
    ensures !onErrorThrows ==> Alive(ss[n])
  {
    if n > 0 {
      EveryRunKeepsInv(onErrorThrows, ss, steps, n - 1);
      StepKeepsInv(onErrorThrows, ss[n - 1], steps[n - 1]);
      if !onErrorThrows { StepKeepsAlive(ss[n - 1], steps[n - 1]); }
    }
  }

  // A failed write whose onError throws ends runOneFlushCycle() before it re-arms the timer for a newer save.
  const STRANDING_STEPS := [DoSave, Timer, DoSave, Settle(false), Clear, DoContinue(0)]

  lemma ThrowingOnErrorStrands() returns (ss: seq<State>)
    ensures IsRun(true, ss, STRANDING_STEPS) && Stranded(ss[|ss| - 1])
  {
    var s1 := Save(EMPTY);
    var s2 := TimerFires(s1);
    var s3 := Save(s2);
    var s4 := DelegateSettles(s3, false);
    var s5 := FlushingCleared(s4);
    var s6 := Continue(true, s5, 0);
    ss := [EMPTY, s1, s2, s3, s4, s5, s6];
    assert Apply(true, EMPTY, DoSave) == s1;
  }

  /** A pending state is never stranded in any run, exactly when onError does not throw. */
  lemma NeverStrandedExactlyWhen(onErrorThrows: bool)
    ensures (forall ss, steps, i | IsRun(onErrorThrows, ss, steps) && 0 <= i < |ss| :: !Stranded(ss[i]))
        <==> !onErrorThrows
  {
    if onErrorThrows {
      var ss := ThrowingOnErrorStrands();
      assert IsRun(true, ss, STRANDING_STEPS) && Stranded(ss[|ss| - 1]);
    } else {
      forall ss, steps, i | IsRun(onErrorThrows, ss, steps) && 0 <= i < |ss| ensures !Stranded(ss[i]) {
        EveryRunKeepsInv(onErrorThrows, ss, steps, i);
      }
    }
  }

  // --- Writes and what a resolved save means ---

  /** Delegate writes never overlap and carry strictly newer states. */
  lemma WritesAreSerial(s: State, c: nat, d: nat)
    requires Inv(s) && c < d < |s.cycles|
    ensures s.cycles[c].ok.Some? && s.cycles[c].state < s.cycles[d].state
  {
    BegunIsMonotone(s, c, d - 1);
    assert CycleOk(s, c) && CycleOk(s, d);
  }

  lemma {:induction false} CycleOf(s: State, i: nat, d: nat) returns (c: nat)
    requires Inv(s) && d < |s.cycles| && i < s.cycles[d].begun
    ensures c <= d && i in s.cycles[c].resolvers
  {
    assert CycleOk(s, d);
    var lo := if d == 0 then 0 else s.cycles[d - 1].begun;
    if lo <= i {
      c := d;
      assert s.cycles[d].resolvers[i - lo] == i;
    } else {
      c := CycleOf(s, i, d - 1);
    }
  }

  /** A save that resolved is on disk: a write that began after it was accepted, carrying its state
      or a newer one, succeeded. A save that rejected saw such a write fail. */
  lemma SettledMeansWritten(s: State, i: nat) returns (c: nat)
    requires Inv(s) && i < |s.saves| && s.saves[i] != Unsettled
    ensures c < |s.cycles| && i < s.cycles[c].begun && i <= s.cycles[c].state
    ensures s.cycles[c].ok == Some(s.saves[i] == Resolved)
  {
    c := CycleOf(s, i, |s.cycles| - 1);
    assert CycleOk(s, c);
  }

  /** A settled save keeps its outcome: no step settles it again. */
  lemma SettledForGood(onErrorThrows: bool, s: State, step: Step, i: nat)
    requires Inv(s) && Enabled(s, step) && i < |s.saves| && s.saves[i] != Unsettled
    ensures i < |Apply(onErrorThrows, s, step).saves| && Apply(onErrorThrows, s, step).saves[i] == s.saves[i]
  {
    if step.Settle? {
      assert CycleOk(s, s.flushing.value);
    }
  }

  // --- What the callers and the delegate did, read off the steps alone ---

  predicate DisposedBy(steps: seq<Step>) {
    exists i | 0 <= i < |steps| :: steps[i] == DoFlush(true)
  }

  // The saves that came before any dispose().
  function AcceptedBy(steps: seq<Step>): nat {
    if steps == [] then 0
    else
      var before := steps[..|steps| - 1];
      AcceptedBy(before) + if steps[|steps| - 1].DoSave? && !DisposedBy(before) then 1 else 0
  }

  // The flush() and dispose() calls: true for dispose().
  function FlushesBy(steps: seq<Step>): seq<bool> {
    if steps == [] then []
    else
      var last := steps[|steps| - 1];
      FlushesBy(steps[..|steps| - 1]) + if last.DoFlush? then [last.disposing] else []
  }

  // How the delegate's writes ended, in order.
  function OutcomesBy(steps: seq<Step>): seq<bool> {
    if steps == [] then []
    else
      var last := steps[|steps| - 1];
      OutcomesBy(steps[..|steps| - 1]) + if last.Settle? then [last.ok] else []
  }

  ghost predicate Recorded(s: State, disposed: bool, accepted: nat, flushes: seq<bool>, outcomes: seq<bool>) {
    && s.disposed == disposed
    && |s.saves| == accepted
    && |s.flushes| == |flushes| && (forall f | 0 <= f < |flushes| :: s.flushes[f].disposing == flushes[f])
    && |outcomes| <= |s.cycles|
    && forall c | 0 <= c < |s.cycles| :: s.cycles[c].ok == if c < |outcomes| then Some(outcomes[c]) else None
  }

  // New cycles have not settled, and the old ones are as they were.
  ghost predicate SameOutcomes(s: State, s': State) {
    && |s.cycles| <= |s'.cycles|
    && forall c | 0 <= c < |s'.cycles| :: s'.cycles[c].ok == if c < |s.cycles| then s.cycles[c].ok else None
  }

  // No flush call was made, and one that came back left the store quiet.
  ghost predicate SameCallers(s: State, s': State) {
    && |s'.flushes| == |s.flushes|
    && forall f | 0 <= f < |s.flushes| ::
         s'.flushes[f].disposing == s.flushes[f].disposing
         && (s'.flushes[f].at == Returned ==> s.flushes[f].at == Returned || Quiet(s'))
  }

  lemma IterateOutline(s: State, f: nat)
    requires f < |s.flushes|
    ensures var s' := Iterate(s, f);
            && s'.disposed == s.disposed && s'.saves == s.saves
            && SameOutcomes(s, s') && SameCallers(s, s')
            && (s'.flushes[f].at == Returned ==> Quiet(s'))
  {
  }

  lemma CallOutline(s: State, disposing: bool)
    ensures var s', f := CallFlush(s, disposing), |s.flushes|;
            && s'.disposed == (s.disposed || disposing) && s'.saves == s.saves && SameOutcomes(s, s')
            && |s'.flushes| == f + 1 && s'.flushes[f].disposing == disposing
            && (s'.flushes[f].at == Returned ==> Quiet(s'))
            && forall g | 0 <= g < f :: s'.flushes[g].disposing == s.flushes[g].disposing
                                        && (s'.flushes[g].at == Returned ==> s.flushes[g].at == Returned || Quiet(s'))
  {
    hide Iterate, Quiet;
    var called := s.(disposed := s.disposed || disposing, flushes := s.flushes + [Flush(disposing, Returned)]);
    IterateOutline(called, |s.flushes|);
  }

  lemma StepOutline(onErrorThrows: bool, s: State, step: Step)
    requires Enabled(s, step) && !step.DoFlush? && !step.Settle?
    ensures var s' := Apply(onErrorThrows, s, step);
            && s'.disposed == s.disposed
            && |s'.saves| == |s.saves| + (if step.DoSave? && !s.disposed then 1 else 0)
            && SameOutcomes(s, s') && SameCallers(s, s')
  {
    hide Iterate, Quiet;
    if step.DoWake? { IterateOutline(s, step.flush); }
  }

  // What one step adds to the record.
  lemma StepIsRecorded(onErrorThrows: bool, s: State, step: Step, accepted: nat, flushes: seq<bool>,
      outcomes: seq<bool>)
    requires Inv(s) && Enabled(s, step) && Recorded(s, s.disposed, accepted, flushes, outcomes)
    ensures Recorded(Apply(onErrorThrows, s, step), s.disposed || step == DoFlush(true),
                     accepted + (if step.DoSave? && !s.disposed then 1 else 0),
                     flushes + (if step.DoFlush? then [step.disposing] else []),
                     outcomes + (if step.Settle? then [step.ok] else []))
  {
    hide Recorded, Inv, CallFlush;
    assert flushes + [] == flushes;
    match step
    case Settle(ok) => SettleIsRecorded(s, ok, accepted, flushes, outcomes);
    case DoFlush(disposing) => FlushIsRecorded(s, disposing, accepted, flushes, outcomes);
    case _ => OtherIsRecorded(onErrorThrows, s, step, accepted, flushes, outcomes);
  }

  lemma FlushIsRecorded(s: State, disposing: bool, accepted: nat, flushes: seq<bool>, outcomes: seq<bool>)
    requires Recorded(s, s.disposed, accepted, flushes, outcomes)
    ensures Recorded(CallFlush(s, disposing), s.disposed || disposing, accepted, flushes + [disposing], outcomes + [])
  {
    hide CallFlush, Quiet;
    CallOutline(s, disposing);
    assert outcomes + [] == outcomes;
  }

  lemma OtherIsRecorded(onErrorThrows: bool, s: State, step: Step, accepted: nat, flushes: seq<bool>,
      outcomes: seq<bool>)
    requires Enabled(s, step) && !step.DoFlush? && !step.Settle?
    requires Recorded(s, s.disposed, accepted, flushes, outcomes)
    ensures Recorded(Apply(onErrorThrows, s, step), s.disposed,
                     accepted + (if step.DoSave? && !s.disposed then 1 else 0), flushes + [], outcomes + [])
  {
    hide Apply, Enabled, Quiet;
    StepOutline(onErrorThrows, s, step);
    assert flushes + [] == flushes && outcomes + [] == outcomes;
  }

  lemma SettleIsRecorded(s: State, ok: bool, accepted: nat, flushes: seq<bool>, outcomes: seq<bool>)
    requires Inv(s) && CanSettle(s) && Recorded(s, s.disposed, accepted, flushes, outcomes)
    ensures Recorded(DelegateSettles(s, ok), s.disposed, accepted, flushes, outcomes + [ok])
  {
    hide CycleOk, FlushOk, IsRange;
    var d := s.flushing.value;
    EarlierAreSettled(s, d);
    assert |outcomes| <= d;
    assert |outcomes| < |s.cycles| && s.cycles[|outcomes|].ok.None?;
    assert d == |outcomes|;
  }

  lemma EarlierAreSettled(s: State, d: nat)
    requires Inv(s) && d < |s.cycles|
    ensures forall c | 0 <= c < d :: s.cycles[c].ok.Some?
  {
    forall c | 0 <= c < d ensures s.cycles[c].ok.Some? { WritesAreSerial(s, c, d); }
  }

  /** In every run the store has accepted exactly the saves made before any dispose(), knows whether it is disposed, and
      its writes ended as the delegate said, in that order. */
  lemma {:induction false} StoreRecordsItsCalls(onErrorThrows: bool, ss: seq<State>, steps: seq<Step>, n: nat)
    requires IsRun(onErrorThrows, ss, steps) && n <= |steps|
    ensures var past := steps[..n];
            Recorded(ss[n], DisposedBy(past), AcceptedBy(past), FlushesBy(past), OutcomesBy(past))
  {
    hide Recorded, Apply, Enabled, Inv, AcceptedBy, FlushesBy, OutcomesBy, DisposedBy;
    if n == 0 {
      NothingRecorded();
      NothingDone();
      assert steps[..0] == [];
    } else {
      StoreRecordsItsCalls(onErrorThrows, ss, steps, n - 1);
      EveryRunKeepsInv(onErrorThrows, ss, steps, n - 1);
      var before, last := steps[..n - 1], steps[n - 1];
      assert steps[..n] == before + [last];
      RecordedDisposal(ss[n - 1], DisposedBy(before), AcceptedBy(before), FlushesBy(before), OutcomesBy(before));
      StepIsRecorded(onErrorThrows, ss[n - 1], last, AcceptedBy(before), FlushesBy(before), OutcomesBy(before));
      OneMoreStep(before, last);
    }
  }

  lemma NothingDone()
    ensures !DisposedBy([]) && AcceptedBy([]) == 0 && FlushesBy([]) == [] && OutcomesBy([]) == []
  {
  }

  lemma OneMoreStep(before: seq<Step>, last: Step)
    ensures var past := before + [last];
            && DisposedBy(past) == (DisposedBy(before) || last == DoFlush(true))
            && AcceptedBy(past) == AcceptedBy(before) + (if last.DoSave? && !DisposedBy(before) then 1 else 0)
            && FlushesBy(past) == FlushesBy(before) + (if last.DoFlush? then [last.disposing] else [])
            && OutcomesBy(past) == OutcomesBy(before) + (if last.Settle? then [last.ok] else [])
  {
    var past := before + [last];
    DisposedSoFar(before, last);
    hide DisposedBy;
    assert past[..|past| - 1] == before && past[|past| - 1] == last;
  }

  lemma NothingRecorded()
    ensures Recorded(EMPTY, false, 0, [], [])
  {
  }

  lemma RecordedDisposal(s: State, disposed: bool, accepted: nat, flushes: seq<bool>, outcomes: seq<bool>)
    requires Recorded(s, disposed, accepted, flushes, outcomes)
    ensures s.disposed == disposed
  {
  }

  lemma DisposedSoFar(before: seq<Step>, last: Step)
    ensures DisposedBy(before + [last]) <==> DisposedBy(before) || last == DoFlush(true)
  {
    var past := before + [last];
    assert past[|before|] == last;
    assert forall i | 0 <= i < |before| :: past[i] == before[i];
  }

  /** An accepted save becomes the pending state and the last resolver, and is sure to be written: a timer is armed or a
      write is on its way. A refused one changes nothing. */
  lemma SaveIsPending(s: State)
    requires Inv(s)
    ensures var s', i := Save(s), |s.saves|;
            if s.disposed then s' == s
            else
              && s'.saves == s.saves + [Unsettled]
              && s'.pending == Some(i) && s'.resolvers == s.resolvers + [i]
              && (s'.timer || s'.flushing.Some?)
              && s'.flushing == s.flushing && s'.cycles == s.cycles && s'.flushes == s.flushes && !s'.disposed
  {
  }

  /** When a write settles, exactly the saves it took along settle, with its outcome. */
  lemma WriteSettlesItsSaves(s: State, ok: bool)
    requires Inv(s) && CanSettle(s)
    ensures var s', c := DelegateSettles(s, ok), s.flushing.value;
            && |s'.saves| == |s.saves|
            && forall i | 0 <= i < |s.saves| ::
                 s'.saves[i] == if (if c == 0 then 0 else s.cycles[c - 1].begun) <= i < s.cycles[c].begun
                                then (if ok then Resolved else Rejected) else s.saves[i]
  {
    var c := s.flushing.value;
    assert CycleOk(s, c);
    var ids, lo := s.cycles[c].resolvers, if c == 0 then 0 else s.cycles[c - 1].begun;
    forall i | lo <= i < s.cycles[c].begun ensures i in ids {
      assert ids[i - lo] == i;
    }
  }

  lemma {:induction false} SettledStays(onErrorThrows: bool, ss: seq<State>, steps: seq<Step>, m: nat, n: nat, i: nat)
    requires IsRun(onErrorThrows, ss, steps) && m <= n < |ss| && i < |ss[m].saves| && ss[m].saves[i] != Unsettled
    ensures i < |ss[n].saves| && ss[n].saves[i] == ss[m].saves[i]
    decreases n
  {
    hide Apply, Enabled, Inv;
    if m < n {
      SettledStays(onErrorThrows, ss, steps, m, n - 1, i);
      EveryRunKeepsInv(onErrorThrows, ss, steps, n - 1);
      SettledForGood(onErrorThrows, ss[n - 1], steps[n - 1], i);
    }
  }

  lemma {:induction false} CallsStay(onErrorThrows: bool, ss: seq<State>, steps: seq<Step>, m: nat, n: nat)
    requires IsRun(onErrorThrows, ss, steps) && m <= n < |ss|
    ensures |ss[m].saves| <= |ss[n].saves| && |ss[m].flushes| <= |ss[n].flushes|
    decreases n
  {
    hide Apply, Enabled;
    if m < n {
      CallsStay(onErrorThrows, ss, steps, m, n - 1);
      ReturnsWhenQuiet(onErrorThrows, ss[n - 1], steps[n - 1]);
    }
  }

  // A flush() call comes back only in a step that leaves the store quiet.
  lemma ReturnsWhenQuiet(onErrorThrows: bool, s: State, step: Step)
    requires Enabled(s, step)
    ensures var s' := Apply(onErrorThrows, s, step);
            && |s.saves| <= |s'.saves| && |s.flushes| <= |s'.flushes|
            && forall f | 0 <= f < |s'.flushes| && s'.flushes[f].at == Returned ::
                 (f < |s.flushes| && s.flushes[f].at == Returned) || Quiet(s')
  {
    hide Quiet;
    match step
    case Settle(_) =>
    case DoFlush(disposing) =>
      CallOutline(s, disposing);
      hide CallFlush;
    case _ =>
      StepOutline(onErrorThrows, s, step);
      hide Apply, Enabled;
  }

  /** A flush() or dispose() that has returned has seen every save accepted before it was called settled. */
  lemma {:induction false} FlushMeansSettled(onErrorThrows: bool, ss: seq<State>, steps: seq<Step>, m: nat, n: nat)
    requires IsRun(onErrorThrows, ss, steps) && m < n < |ss| && steps[m].DoFlush?
    requires |ss[m].flushes| < |ss[n].flushes| && ss[n].flushes[|ss[m].flushes|].at == Returned
    ensures |ss[m].saves| <= |ss[n].saves| && forall i | 0 <= i < |ss[m].saves| :: ss[n].saves[i] != Unsettled
    decreases n
  {
    hide Apply, Enabled, Inv;
    var f := |ss[m].flushes|;
    CallsStay(onErrorThrows, ss, steps, m, n);
    ReturnsWhenQuiet(onErrorThrows, ss[n - 1], steps[n - 1]);
    if Quiet(ss[n]) {
      EveryRunKeepsInv(onErrorThrows, ss, steps, n);
      QuietIsSettled(ss[n]);
    } else {
      FlushMeansSettled(onErrorThrows, ss, steps, m, n - 1);
      forall i | 0 <= i < |ss[m].saves| ensures ss[n].saves[i] != Unsettled {
        SettledStays(onErrorThrows, ss, steps, n - 1, n, i);
      }
    }
  }

  /** A flush() fails exactly when the write it was waiting for failed and onError threw. */
  lemma FlushFailsExactlyWhen(onErrorThrows: bool, s: State, f: nat)
    requires Inv(s) && CanWake(s, f)
    ensures Wake(onErrorThrows, s, f).flushes[f].at == Failed
        <==> onErrorThrows
             && exists c: nat | c < |s.cycles| :: s.flushes[f].at == OnCycle(c) && s.cycles[c].ok == Some(false)
  {
  }

  /** Once dispose() has returned, every accepted save is settled and the last write carried the last accepted state. */
  lemma DisposedIsFlushed(onErrorThrows: bool, ss: seq<State>, steps: seq<Step>, n: nat, f: nat)
    requires IsRun(onErrorThrows, ss, steps) && n < |ss|
    requires f < |ss[n].flushes| && ss[n].flushes[f].disposing && ss[n].flushes[f].at == Returned
    ensures forall i | 0 <= i < |ss[n].saves| :: ss[n].saves[i] != Unsettled
    ensures ss[n].saves != [] ==> ss[n].cycles != [] && ss[n].cycles[|ss[n].cycles| - 1].state == |ss[n].saves| - 1
    ensures Save(ss[n]) == ss[n]
  {
    EveryRunKeepsInv(onErrorThrows, ss, steps, n);
    assert FlushOk(ss[n], f);
    QuietIsSettled(ss[n]);
  }

  lemma QuietIsSettled(s: State)
    requires Inv(s) && Quiet(s)
    ensures forall i | 0 <= i < |s.saves| :: s.saves[i] != Unsettled
    ensures s.saves != [] ==> s.cycles != [] && s.cycles[|s.cycles| - 1].state == |s.saves| - 1
  {
    forall i | 0 <= i < |s.saves| ensures s.saves[i] != Unsettled {
      var c := CycleOf(s, i, |s.cycles| - 1);
      assert CycleOk(s, c);
    }
    if s.cycles != [] { assert CycleOk(s, |s.cycles| - 1); }
  }

  // --- flush() terminates once saves stop ---

  ghost function CycleFuel(cycle: Cycle): nat {
    (if cycle.ok.Some? then 0 else 1) + (if cycle.cleared then 0 else 1) + (if cycle.continued then 0 else 2)
  }

  // The cycles a suspended flush may still have to see, out of `total`.
  ghost function FlushFuel(fl: Flush, total: nat): nat {
    if (fl.at.OnCycle? || fl.at.OnFlushing?) && fl.at.cycle < total then total - fl.at.cycle else 0
  }

  ghost function CyclesFuel(cycles: seq<Cycle>): nat {
    if cycles == [] then 0 else CyclesFuel(cycles[..|cycles| - 1]) + CycleFuel(cycles[|cycles| - 1])
  }

  ghost function FlushesFuel(flushes: seq<Flush>, total: nat): nat {
    if flushes == [] then 0 else FlushesFuel(flushes[..|flushes| - 1], total) + FlushFuel(flushes[|flushes| - 1], total)
  }

  ghost function Total(s: State): nat {
    |s.cycles| + if s.pending.Some? then 1 else 0
  }

  ghost function Fuel(s: State): nat {
    (if s.pending.Some? then 6 else 0) + (if s.timer then 1 else 0) + CyclesFuel(s.cycles)
        + FlushesFuel(s.flushes, Total(s))
  }

  lemma {:induction false} CyclesFuelAt(cycles: seq<Cycle>, c: nat, cycle: Cycle)
    requires c < |cycles|
    ensures CyclesFuel(cycles[c := cycle]) == CyclesFuel(cycles) - CycleFuel(cycles[c]) + CycleFuel(cycle)
  {
    var n := |cycles| - 1;
    if c < n {
      CyclesFuelAt(cycles[..n], c, cycle);
      assert cycles[c := cycle][..n] == cycles[..n][c := cycle];
    } else {
      assert cycles[c := cycle][..n] == cycles[..n];
    }
  }

  lemma {:induction false} FlushesFuelAt(flushes: seq<Flush>, total: nat, f: nat, fl: Flush)
    requires f < |flushes|
    ensures FlushesFuel(flushes[f := fl], total) == FlushesFuel(flushes, total) - FlushFuel(flushes[f], total)
        + FlushFuel(fl, total)
  {
    var n := |flushes| - 1;
    if f < n {
      FlushesFuelAt(flushes[..n], total, f, fl);
      assert flushes[f := fl][..n] == flushes[..n][f := fl];
    } else {
      assert flushes[f := fl][..n] == flushes[..n];
    }
  }

  lemma BeginCycleFuel(s: State)
    requires s.flushing.None? && s.pending.Some?
    ensures Fuel(BeginCycle(s)) == Fuel(s) - 2 && Total(BeginCycle(s)) == Total(s)
  {
    var s' := BeginCycle(s);
    assert s'.cycles[..|s.cycles|] == s.cycles;
  }

  /** Each step the store takes on its own uses up fuel, so without further calls the steps run out. */
  lemma InternalStepUsesFuel(onErrorThrows: bool, s: State, step: Step)
    requires Inv(s) && Enabled(s, step) && Internal(step)
    ensures Fuel(Apply(onErrorThrows, s, step)) < Fuel(s)
  {
    hide CyclesFuel, FlushesFuel, Iterate;
    var s' := Apply(onErrorThrows, s, step);
    match step
    case Timer => BeginCycleFuel(s.(timer := false));
    case Settle(_) => CyclesFuelAt(s.cycles, s.flushing.value, s'.cycles[s.flushing.value]);
    case Clear =>
      assert CycleOk(s, s.flushing.value);
      CyclesFuelAt(s.cycles, s.flushing.value, s'.cycles[s.flushing.value]);
    case DoContinue(c) => CyclesFuelAt(s.cycles, c, s'.cycles[c]);
    case DoWake(f) => WakeUsesFuel(onErrorThrows, s, f);
  }

  lemma WakeUsesFuel(onErrorThrows: bool, s: State, f: nat)
    requires Inv(s) && CanWake(s, f)
    ensures Fuel(Wake(onErrorThrows, s, f)) < Fuel(s)
  {
    hide CyclesFuel, FlushesFuel;
    var s' := Wake(onErrorThrows, s, f);
    var c := s.flushes[f].at.cycle;
    assert FlushOk(s, f) && CycleOk(s, c);
    assert s'.flushes == s.flushes[f := s'.flushes[f]];
    FlushesFuelAt(s.flushes, Total(s), f, s'.flushes[f]);
    if s'.flushes[f].at.OnCycle? {
      BeginCycleFuel(s.(timer := false));
      assert s'.cycles == BeginCycle(s.(timer := false)).cycles;
    } else {
      assert s'.cycles == s.cycles && s'.pending == s.pending;
    }
  }

  lemma ActiveHasStep(s: State, f: nat)
    requires Inv(s) && Active(s, f) && s.flushing.None?
    ensures CanWake(s, f) || CanContinue(s, s.flushes[f].at.cycle)
  {
    assert FlushOk(s, f) && CycleOk(s, s.flushes[f].at.cycle);
  }

  /** When no step is left, nothing is pending, every flush() has returned and every save is settled. */
  lemma RestIsFlushed(ss: seq<State>, steps: seq<Step>, n: nat)
    requires IsRun(false, ss, steps) && n < |ss|
    requires forall step | Internal(step) :: !Enabled(ss[n], step)
    ensures Quiet(ss[n])
    ensures forall f: nat :: !Active(ss[n], f)
    ensures forall i | 0 <= i < |ss[n].saves| :: ss[n].saves[i] != Unsettled
  {
    EveryRunKeepsInv(false, ss, steps, n);
    var s := ss[n];
    assert !Enabled(s, Timer) && !Enabled(s, Settle(true)) && !Enabled(s, Clear);
    assert s.flushing.None?;
    forall c: nat ensures !CanContinue(s, c) {
      assert !Enabled(s, DoContinue(c));
    }
    forall f: nat ensures !Active(s, f) {
      assert !Enabled(s, DoWake(f));
      if Active(s, f) { ActiveHasStep(s, f); }
    }
    QuietIsSettled(s);
  }

  /** The store as the object it is. Its async methods are cut at their awaits; `saves`, `cycles`
      and `flushes` stand for the promises and suspended calls the runtime keeps. */
  class Store {
    const onErrorThrows: bool
    var pending: Option<nat>
    var resolvers: seq<nat>
    var timer: bool
    var flushing: Option<nat>
    var disposed: bool
    var saves: seq<SaveStatus>
    var cycles: seq<Cycle>
    var flushes: seq<Flush>

    ghost function View(): State
      reads this
    {
      State(pending, resolvers, timer, flushing, disposed, saves, cycles, flushes)
    }

    constructor (onErrorThrows: bool)
      ensures Inv(View()) && View() == EMPTY && this.onErrorThrows == onErrorThrows
    {
      this.onErrorThrows := onErrorThrows;
      pending, resolvers, timer, flushing, disposed := None, [], false, None, false;
      saves, cycles, flushes := [], [], [];
    }

    method ArmTimer()
      modifies this
      ensures View() == ScheduleFlush(old(View()))
    {
      if timer || flushing.Some? {
        return;
      }
      timer := true;
    }

    method SaveState() returns (accepted: bool)
      requires Inv(View())
      modifies this
      ensures Inv(View()) && View() == Save(old(View()))
      ensures accepted == !old(disposed)
    {
      SaveKeepsInv(View());
      if disposed {
        return false;
      }
      var i := |saves|;
      saves := saves + [Unsettled];
      pending := Some(i);
      resolvers := resolvers + [i];
      ArmTimer();
      return true;
    }

    method RunOneFlushCycle()
      modifies this
      ensures View() == BeginCycle(old(View()))
    {
      if flushing.Some? {
        return;
      }
      if pending.None? {
        return;
      }
      var state, taken := pending.value, resolvers;
      pending := None;
      resolvers := [];
      flushing := Some(|cycles|);
      cycles := cycles + [Cycle(state, taken, |saves|, None, false, false)];
    }

    method OnTimer()
      requires Inv(View()) && timer
      modifies this
      ensures Inv(View()) && View() == TimerFires(old(View()))
    {
      StepKeepsInv(onErrorThrows, View(), Timer);
      timer := false;
      RunOneFlushCycle();
    }

    // The resolver loop after `await delegate.save(state)`, for either outcome.
    method OnDelegateSettled(ok: bool)
      requires Inv(View()) && CanSettle(View())
      modifies this
      ensures Inv(View()) && View() == DelegateSettles(old(View()), ok)
    {
      SettleKeepsInv(View(), ok);
      var c := flushing.value;
      var taken, before := cycles[c].resolvers, saves;
      assert CycleOk(View(), c);
      cycles := cycles[c := cycles[c].(ok := Some(ok))];
      for k := 0 to |taken|
        invariant |saves| == |before|
        invariant forall i | 0 <= i < |before| ::
            saves[i] == if i in taken[..k] then (if ok then Resolved else Rejected) else before[i]
        invariant View() == old(View()).(saves := saves, cycles := old(cycles)[c := old(cycles)[c].(ok := Some(ok))])
      {
        saves := saves[taken[k] := if ok then Resolved else Rejected];
      }
      assert taken[..|taken|] == taken;
      assert saves == SettleAll(before, taken, if ok then Resolved else Rejected);
    }

    method OnFinally()
      requires Inv(View()) && CanClear(View())
      modifies this
      ensures Inv(View()) && View() == FlushingCleared(old(View()))
    {
      ClearKeepsInv(View());
      var c := flushing.value;
      flushing := None;
      cycles := cycles[c := cycles[c].(cleared := true)];
    }

    method OnCycleAwaited(c: nat)
      requires Inv(View()) && CanContinue(View(), c)
      modifies this
      ensures Inv(View()) && View() == Continue(onErrorThrows, old(View()), c)
    {
      ContinueKeepsInv(onErrorThrows, View(), c);
      cycles := cycles[c := cycles[c].(continued := true)];
      if Throws(onErrorThrows, cycles[c]) {
        return;
      }
      if pending.Some? && !disposed {
        ArmTimer();
      }
    }

    // flush()'s loop, resumed or entered, until it awaits again or ends.
    method FlushLoop(f: nat)
      requires f < |flushes|
      modifies this
      ensures View() == Iterate(old(View()), f)
    {
      while pending.Some? || flushing.Some? || timer
        invariant f < |flushes| && View() == old(View()).(timer := timer)
        invariant timer == old(timer) || (!timer && pending.None? && flushing.None?)
        decreases timer
      {
        if timer {
          timer := false;
        }
        if flushing.Some? {
          flushes := flushes[f := flushes[f].(at := OnFlushing(flushing.value))];
          return;
        } else if pending.Some? {
          flushes := flushes[f := flushes[f].(at := OnCycle(|cycles|))];
          RunOneFlushCycle();
          return;
        }
      }
      flushes := flushes[f := flushes[f].(at := Returned)];
    }

    method StartFlush(disposing: bool) returns (f: nat)
      requires Inv(View())
      modifies this
      ensures Inv(View()) && View() == CallFlush(old(View()), disposing)
    {
      StepKeepsInv(onErrorThrows, View(), DoFlush(disposing));
      f := |flushes|;
      disposed := disposed || disposing;
      flushes := flushes + [Flush(disposing, Returned)];
      FlushLoop(f);
    }

    // A flush() whose await settled: it fails with the cycle it awaited, or goes on.
    method ResumeFlush(f: nat)
      requires Inv(View()) && CanWake(View(), f)
      modifies this
      ensures Inv(View()) && View() == Wake(onErrorThrows, old(View()), f)
    {
      StepKeepsInv(onErrorThrows, View(), DoWake(f));
      var at := flushes[f].at;
      if at.OnCycle? && Throws(onErrorThrows, cycles[at.cycle]) {
        flushes := flushes[f := flushes[f].(at := Failed)];
        return;
      }
      FlushLoop(f);
    }
  }
}
