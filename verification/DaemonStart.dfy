/** Interleaved start() calls of the daemon controller over the pid file and the status file; no process dies and nobody
    stops. */
module DaemonStart {
  import opened Options

  datatype PidFile = Absent | Empty | Holds(pid: nat)

  // Where a start() call stands; from AtClear to AtCleanup it owns the open pid file.
  datatype Starter =
    | AtLoadPid
    | AtLoadStatus(loaded: Option<nat>)
    | AtOpen
    | AtClear
    | AtSpawn
    | AtWrite(pid: nat)
    | AtCleanup
    | AtWait(pid: nat)
    | Started(pid: nat)
    | TimedOut(pid: nat)
    | AlreadyRunning(pid: nat)
    | Refused                     // threw: status missing, or the pid file exists
    | Failed                      // threw: a file operation or the spawn failed

  // Daemons are numbered by pid; lost counts those whose pid the starter failed to write,
  // failures every file operation or spawn that threw.
  datatype Machine = Machine(pidFile: PidFile, status: Option<nat>, starters: seq<Starter>, daemons: nat, lost: nat,
      failures: nat)

  const STOPPED := Machine(Absent, None, [], 0, 0, 0)

  datatype Step =
    | Begin
    | LoadPid(i: nat)
    | LoadStatus(i: nat)
    | OpenExclusive(i: nat)
    | ClearStatus(i: nat, ok: bool)
    | Spawn(i: nat, ok: bool)
    | WritePid(i: nat, ok: bool)
    | Cleanup(i: nat, ok: bool)
    | Throw(i: nat)               // reading a file, preparing the directory, opening or closing the pid file failed
    | Poll(i: nat, stop: bool)
    | TimeOut(i: nat)
    | DaemonWritesPid(d: nat)
    | DaemonWritesStatus(d: nat)

  predicate At(m: Machine, i: nat, s: Starter) {
    i < |m.starters| && m.starters[i] == s
  }

  // Outside the part of start() whose errors lead to the clean-up.
  predicate CanThrow(s: Starter) {
    s.AtLoadPid? || s.AtLoadStatus? || s.AtOpen? || s.AtWait?
  }

  predicate Enabled(m: Machine, step: Step) {
    match step
    case Begin => true
    case LoadPid(i) => At(m, i, AtLoadPid)
    case LoadStatus(i) => i < |m.starters| && m.starters[i].AtLoadStatus?
    case OpenExclusive(i) => At(m, i, AtOpen)
    case ClearStatus(i, _) => At(m, i, AtClear)
    case Spawn(i, _) => At(m, i, AtSpawn)
    case WritePid(i, _) => i < |m.starters| && m.starters[i].AtWrite?
    case Cleanup(i, _) => At(m, i, AtCleanup)
    case Throw(i) => i < |m.starters| && CanThrow(m.starters[i])
    case Poll(i, _) => i < |m.starters| && m.starters[i].AtWait?
    case TimeOut(i) => i < |m.starters| && m.starters[i].AtWait?
    case DaemonWritesPid(d) => d < m.daemons
    case DaemonWritesStatus(d) => d < m.daemons
  }

  function Move(m: Machine, i: nat, s: Starter): Machine
    requires i < |m.starters|
  {
    m.(starters := m.starters[i := s])
  }

  // An empty or missing pid file reads as no pid.
  function LoadedPid(f: PidFile): Option<nat> {
    if f.Holds? then Some(f.pid) else None
  }

  // getStatus() after loadPid(), and start()'s reaction to it.
  function CheckStatus(m: Machine, i: nat, loaded: Option<nat>): Machine
    requires i < |m.starters|
  {
    if loaded.None? then Move(m, i, AtOpen)
    else if loaded.value >= m.daemons then Move(m.(pidFile := Absent, status := None), i, AtOpen)
    else if m.status.None? then Move(m, i, Refused)
    else Move(m, i, AlreadyRunning(loaded.value))
  }

  function PollOnce(m: Machine, i: nat, pid: nat, stop: bool): Machine
    requires i < |m.starters|
  {
    if m.status == Some(pid) then Move(m, i, Started(pid))
    else if pid >= m.daemons then Move(m.(pidFile := Absent, status := None), i, Failed)
    else if stop then Move(m, i, Started(pid))
    else m
  }

  function Apply(m: Machine, step: Step): Machine
    requires Enabled(m, step)
  {
    match step
    case Begin => m.(starters := m.starters + [AtLoadPid])
    case LoadPid(i) => Move(m, i, AtLoadStatus(LoadedPid(m.pidFile)))
    case LoadStatus(i) => CheckStatus(m, i, m.starters[i].loaded)
    case OpenExclusive(i) => if m.pidFile.Absent? then Move(m.(pidFile := Empty), i, AtClear) else Move(m, i, Refused)
    case ClearStatus(i, ok) =>
      if ok then Move(m.(status := None), i, AtSpawn) else Move(m.(failures := m.failures + 1), i, AtCleanup)
    case Spawn(i, ok) =>
      if ok then Move(m.(daemons := m.daemons + 1), i, AtWrite(m.daemons))
      else Move(m.(failures := m.failures + 1), i, AtCleanup)
    case WritePid(i, ok) =>
      var pid := m.starters[i].pid;
      if ok then Move(m.(pidFile := Holds(pid)), i, AtWait(pid))
      else Move(m.(lost := m.lost + 1, failures := m.failures + 1), i, AtCleanup)
    case Cleanup(i, ok) => Move(if ok then m.(pidFile := Absent) else m, i, Failed)
    case Throw(i) => Move(m.(failures := m.failures + 1), i, Failed)
    case Poll(i, stop) => PollOnce(m, i, m.starters[i].pid, stop)
    case TimeOut(i) => Move(m, i, TimedOut(m.starters[i].pid))
    case DaemonWritesPid(d) => m.(pidFile := Holds(d))
    case DaemonWritesStatus(d) => m.(status := Some(d))
  }

  // --- Invariant ---

  predicate Owns(s: Starter) {
    s.AtClear? || s.AtSpawn? || s.AtWrite? || s.AtCleanup?
  }

  // A call that has spawned a daemon.
  predicate Spawned(s: Starter) {
    s.AtWrite? || s.AtWait? || s.Started? || s.TimedOut?
  }

  predicate Lost(s: Starter) {
    s.Refused? || s.AlreadyRunning?
  }

  ghost predicate Locked(m: Machine) {
    exists i :: 0 <= i < |m.starters| && Owns(m.starters[i])
  }

  // What one call knows and owns.
  predicate StarterOk(m: Machine, s: Starter) {
    && (Owns(s) ==> !m.pidFile.Absent?)
    && (s.AtClear? || s.AtSpawn? || s.AtCleanup? ==> m.daemons == m.lost)
    && (s.AtWrite? ==> m.daemons == m.lost + 1)
    && (s.AtLoadStatus? && s.loaded.Some? ==> s.loaded.value < m.daemons)
    && (Spawned(s) ==> s.pid < m.daemons)
    && (s.AlreadyRunning? ==> s.pid < m.daemons)
    && (Lost(s) && m.failures == 0 ==> !m.pidFile.Absent?)
    && (s.Failed? || s.AtCleanup? ==> m.failures > 0)
  }

  ghost predicate FilesOk(m: Machine) {
    && m.lost <= m.failures && m.daemons <= m.lost + 1
    && (m.pidFile.Absent? ==> m.daemons == m.lost)
    && (m.pidFile.Holds? ==> m.pidFile.pid < m.daemons)
    && (m.status.Some? ==> m.status.value < m.daemons)
  }

  // Two calls never own the file together, nor wait for the same daemon.
  predicate Apart(s: Starter, t: Starter) {
    !(Owns(s) && Owns(t)) && (Spawned(s) && Spawned(t) ==> s.pid != t.pid)
  }

  ghost predicate Inv(m: Machine) {
    && FilesOk(m)
    && (m.pidFile.Empty? && m.failures == 0 ==> Locked(m))
    && (forall i | 0 <= i < |m.starters| :: StarterOk(m, m.starters[i]))
    && (forall i, j | 0 <= i < j < |m.starters| :: Apart(m.starters[i], m.starters[j]))
  }

  // The call that a step moves; another call's number when it moves none.
  function Mover(m: Machine, step: Step): nat {
    if step.Begin? || step.DaemonWritesPid? || step.DaemonWritesStatus? then |m.starters| else step.i
  }

  lemma FilesKept(m: Machine, step: Step)
    requires FilesOk(m) && Enabled(m, step)
    requires Mover(m, step) < |m.starters| ==> StarterOk(m, m.starters[Mover(m, step)])
    ensures FilesOk(Apply(m, step))
  {
  }

  lemma MoverKept(m: Machine, step: Step)
    requires FilesOk(m) && Enabled(m, step) && Mover(m, step) < |m.starters| && StarterOk(m, m.starters[Mover(m, step)])
    ensures StarterOk(Apply(m, step), Apply(m, step).starters[Mover(m, step)])
  {
  }

  lemma BystanderKept(m: Machine, step: Step, s: Starter)
    requires FilesOk(m) && Enabled(m, step) && StarterOk(m, s)
    requires Mover(m, step) < |m.starters| ==>
               StarterOk(m, m.starters[Mover(m, step)]) && Apart(s, m.starters[Mover(m, step)])
    ensures StarterOk(Apply(m, step), s)
  {
  }

  lemma ApartKept(m: Machine, step: Step, s: Starter)
    requires FilesOk(m) && Enabled(m, step) && StarterOk(m, s)
    requires Mover(m, step) < |m.starters| && StarterOk(m, m.starters[Mover(m, step)])
        && Apart(s, m.starters[Mover(m, step)])
    ensures Apart(s, Apply(m, step).starters[Mover(m, step)])
  {
  }

  lemma OthersStay(m: Machine, step: Step, i: nat)
    requires Enabled(m, step) && i < |Apply(m, step).starters| && i != Mover(m, step)
    ensures i < |m.starters| && Apply(m, step).starters[i] == m.starters[i]
  {
  }

  lemma StepKeepsInv(m: Machine, step: Step)
    requires Inv(m) && Enabled(m, step)
    ensures Inv(Apply(m, step))
  {
    hide Locked, FilesOk, StarterOk, Apart, Apply, Enabled;
    EmptyStaysLocked(m, step);
    var m', k := Apply(m, step), Mover(m, step);
    NewCalls(m, step);
    FilesKept(m, step);
    forall i | 0 <= i < |m'.starters| ensures StarterOk(m', m'.starters[i]) {
      if i == k {
        if k < |m.starters| { MoverKept(m, step); } else { FreshIsOk(m'); }
      } else {
        OthersStay(m, step, i);
        ApartBothWays(m, i, k);
        BystanderKept(m, step, m.starters[i]);
      }
    }
    forall i, j | 0 <= i < j < |m'.starters| ensures Apart(m'.starters[i], m'.starters[j]) {
      if i != k { OthersStay(m, step, i); }
      if j != k { OthersStay(m, step, j); }
      if k == |m.starters| && j == k {
        FreshIsApart(m'.starters[i]);
      } else if j == k {
        ApartKept(m, step, m.starters[i]);
      } else if i == k {
        ApartBothWays(m, j, k);
        ApartKept(m, step, m.starters[j]);
        ApartSwaps(m'.starters[j], m'.starters[i]);
      }
    }
  }

  lemma NewCalls(m: Machine, step: Step)
    requires Enabled(m, step)
    ensures var n, n', k := |m.starters|, |Apply(m, step).starters|, Mover(m, step);
            && n <= n' <= n + 1 && (k < n ==> n' == n)
            && (n < n' ==> Apply(m, step).starters[n] == AtLoadPid && k == n)
  {
  }

  lemma FreshIsOk(m: Machine)
    ensures StarterOk(m, AtLoadPid)
  {
  }

  lemma FreshIsApart(s: Starter)
    ensures Apart(s, AtLoadPid)
  {
  }

  lemma ApartSwaps(s: Starter, t: Starter)
    requires Apart(s, t)
    ensures Apart(t, s)
  {
  }

  lemma ApartBothWays(m: Machine, i: nat, k: nat)
    requires Inv(m) && i < |m.starters| && i != k
    ensures k < |m.starters| ==> Apart(m.starters[i], m.starters[k])
  {
    hide FilesOk, StarterOk, Locked;
    assert k < i ==> Apart(m.starters[k], m.starters[i]);
  }

  lemma EmptyStaysLocked(m: Machine, step: Step)
    requires Inv(m) && Enabled(m, step)
    ensures Apply(m, step).pidFile.Empty? && Apply(m, step).failures == 0 ==> Locked(Apply(m, step))
  {
    var m' := Apply(m, step);
    if m'.pidFile.Empty? && m'.failures == 0 {
      if m.pidFile.Empty? {
        var i :| 0 <= i < |m.starters| && Owns(m.starters[i]);
        assert Owns(m'.starters[i]);
      } else {
        assert Owns(m'.starters[step.i]);
      }
    }
  }

  // --- Runs ---

  ghost predicate IsRun(ms: seq<Machine>, steps: seq<Step>) {
    && |ms| == |steps| + 1 && ms[0] == STOPPED
    && forall n | 0 <= n < |steps| :: Enabled(ms[n], steps[n]) && ms[n + 1] == Apply(ms[n], steps[n])
  }

  lemma {:induction false} EveryRunKeepsInv(ms: seq<Machine>, steps: seq<Step>, n: nat)
    requires IsRun(ms, steps) && n < |ms|
    ensures Inv(ms[n])
    decreases n
  {
    hide Inv, Apply, Enabled;
    if n == 0 {
      assert Inv(STOPPED) by { StoppedIsGood(); }
    } else {
      EveryRunKeepsInv(ms, steps, n - 1);
      StepKeepsInv(ms[n - 1], steps[n - 1]);
    }
  }

  lemma StoppedIsGood()
    ensures Inv(STOPPED)
  {
  }

  /** From no pid file, however the starts interleave, at most one daemon is alive beyond those whose pid could not be
      written. */
  lemma AtMostOneDaemon(ms: seq<Machine>, steps: seq<Step>, n: nat)
    requires IsRun(ms, steps) && n < |ms|
    ensures ms[n].daemons <= 1 + ms[n].lost
  {
    EveryRunKeepsInv(ms, steps, n);
  }

  predicate Ended(s: Starter) {
    s.Started? || s.TimedOut? || s.AlreadyRunning? || s.Refused? || s.Failed?
  }

  /** While no pid write fails, one call at most has spawned; every other ended call was refused, failed, or reported
      that one daemon as running. */
  lemma OneWinner(ms: seq<Machine>, steps: seq<Step>, n: nat, i: nat, j: nat)
    requires IsRun(ms, steps) && n < |ms| && ms[n].lost == 0
    requires i < |ms[n].starters| && j < |ms[n].starters| && i != j && Spawned(ms[n].starters[i])
        && Ended(ms[n].starters[j])
    ensures var winner, other := ms[n].starters[i], ms[n].starters[j];
            other.Refused? || other.Failed? || other == AlreadyRunning(winner.pid)
  {
    hide Locked, Apply, Enabled;
    EveryRunKeepsInv(ms, steps, n);
    assert StarterOk(ms[n], ms[n].starters[i]) && StarterOk(ms[n], ms[n].starters[j]);
  }

  /** When every call has ended and no file operation or spawn failed, exactly one daemon is alive. */
  lemma SomebodyWins(ms: seq<Machine>, steps: seq<Step>, n: nat)
    requires IsRun(ms, steps) && n < |ms| && ms[n].failures == 0
    requires ms[n].starters != [] && forall i | 0 <= i < |ms[n].starters| :: Ended(ms[n].starters[i])
    ensures ms[n].daemons == 1
  {
    hide Apply, Enabled;
    EveryRunKeepsInv(ms, steps, n);
    assert StarterOk(ms[n], ms[n].starters[0]);
  }

  // --- What each call answers ---

  /** After reading the pid and the status a call answers that a daemon is running exactly when the pid is alive and the
      status is there, refuses exactly when it is alive without a status, and otherwise goes on to claim the pid file,
      having dropped both files of a dead one. */
  lemma DecisionExactlyWhen(m: Machine, i: nat)
    requires Enabled(m, LoadStatus(i))
    ensures var m', pid := Apply(m, LoadStatus(i)), m.starters[i].loaded;
            var alive := pid.Some? && pid.value < m.daemons;
            && (forall p: nat :: m'.starters[i] == AlreadyRunning(p) <==> pid == Some(p) && alive && m.status.Some?)
            && (m'.starters[i].Refused? <==> alive && m.status.None?)
            && (m'.starters[i].AtOpen? <==> !alive)
            && (m'.pidFile, m'.status) == (if pid.Some? && !alive then (Absent, None) else (m.pidFile, m.status))
            && m'.daemons == m.daemons
  {
  }

  /** A call reads the pid that the file holds; a daemon writes its own pid and status. */
  lemma FilesAreRead(m: Machine, i: nat, d: nat)
    ensures Enabled(m, LoadPid(i)) ==>
              Apply(m, LoadPid(i)) == Move(m, i, AtLoadStatus(match m.pidFile
                                                              case Holds(pid) => Some(pid)
                                                              case _ => None))
    ensures Enabled(m, DaemonWritesPid(d)) ==> Apply(m, DaemonWritesPid(d)) == m.(pidFile := Holds(d))
    ensures Enabled(m, DaemonWritesStatus(d)) ==> Apply(m, DaemonWritesStatus(d)) == m.(status := Some(d))
  {
  }

  /** A call gets the pid file exactly when there is none, empty until a pid is written, and is refused otherwise. */
  lemma ClaimExactlyWhen(m: Machine, i: nat)
    requires Enabled(m, OpenExclusive(i))
    ensures var m' := Apply(m, OpenExclusive(i));
            && (m'.starters[i].AtClear? <==> m.pidFile.Absent?) && (m'.starters[i].Refused? <==> !m.pidFile.Absent?)
            && m'.pidFile == (if m.pidFile.Absent? then Empty else m.pidFile)
            && m'.status == m.status && m'.daemons == m.daemons
  {
  }

  /** A waiting call has started once the status names its own daemon, or it was told to stop waiting for a live one;
      it fails on a dead one, and waits in every other case. */
  lemma PollExactlyWhen(m: Machine, i: nat, stop: bool)
    requires Enabled(m, Poll(i, stop))
    ensures var m', pid := Apply(m, Poll(i, stop)), m.starters[i].pid;
            var alive, ready := pid < m.daemons, m.status == Some(pid);
            && (m'.starters[i] == Started(pid) <==> ready || (alive && stop))
            && (m'.starters[i].Failed? <==> !ready && !alive)
            && (m'.starters[i] == AtWait(pid) <==> !ready && alive && !stop)
  {
  }

  /** A spawn adds one daemon, whose pid is the next and goes into the pid file; a call whose clear, spawn or pid write
      failed spawns nothing more, and its clean-up takes the pid file away. */
  lemma SpawnAndWrite(m: Machine, i: nat, ok: bool)
    ensures Enabled(m, ClearStatus(i, ok)) ==>
              var m' := Apply(m, ClearStatus(i, ok));
              && m'.starters[i] == (if ok then AtSpawn else AtCleanup)
              && m'.status == (if ok then None else m.status) && m'.daemons == m.daemons
    ensures Enabled(m, Spawn(i, ok)) ==>
              var m' := Apply(m, Spawn(i, ok));
              && m'.daemons == m.daemons + (if ok then 1 else 0)
              && m'.starters[i] == (if ok then AtWrite(m.daemons) else AtCleanup) && m'.pidFile == m.pidFile
    ensures Enabled(m, WritePid(i, ok)) ==>
              var m', pid := Apply(m, WritePid(i, ok)), m.starters[i].pid;
              && m'.starters[i] == (if ok then AtWait(pid) else AtCleanup)
              && m'.pidFile == (if ok then Holds(pid) else m.pidFile) && m'.daemons == m.daemons
    ensures Enabled(m, Cleanup(i, ok)) ==>
              var m' := Apply(m, Cleanup(i, ok));
              m'.starters[i] == Failed && m'.pidFile == (if ok then Absent else m.pidFile)
  {
  }

  // --- Exactly when ---

  // Unless they may fail, every pid write succeeds.
  predicate WritesOk(mayFail: bool, steps: seq<Step>) {
    forall i | 0 <= i < |steps| && steps[i].WritePid? :: mayFail || steps[i].ok
  }

  lemma {:induction false} NoPidIsLost(ms: seq<Machine>, steps: seq<Step>, n: nat)
    requires IsRun(ms, steps) && WritesOk(false, steps) && n < |ms|
    ensures ms[n].lost == 0
    decreases n
  {
    if n > 0 {
      NoPidIsLost(ms, steps, n - 1);
      assert ms[n] == Apply(ms[n - 1], steps[n - 1]);
    }
  }

  function Last(ms: seq<Machine>): Machine
    requires ms != []
  {
    ms[|ms| - 1]
  }

  lemma Extend(ms: seq<Machine>, steps: seq<Step>, step: Step) returns (ms': seq<Machine>, steps': seq<Step>)
    requires IsRun(ms, steps) && Enabled(Last(ms), step)
    ensures ms' != [] && IsRun(ms', steps') && Last(ms') == Apply(Last(ms), step)
  {
    hide Apply, Enabled;
    ms', steps' := ms + [Apply(Last(ms), step)], steps + [step];
    forall n | 0 <= n < |steps'| ensures Enabled(ms'[n], steps'[n]) && ms'[n + 1] == Apply(ms'[n], steps'[n]) {
      if n < |steps| {
        assert ms'[n] == ms[n] && ms'[n + 1] == ms[n + 1] && steps'[n] == steps[n];
      }
    }
  }

  // A call that runs alone up to its spawn.
  lemma StartAlone(ms: seq<Machine>, steps: seq<Step>) returns (ms': seq<Machine>, steps': seq<Step>)
    requires ms != [] && IsRun(ms, steps) && Last(ms).pidFile.Absent?
    ensures ms' != [] && IsRun(ms', steps')
    ensures Last(ms').daemons == Last(ms).daemons + 1 && Last(ms').lost == Last(ms).lost
    ensures At(Last(ms'), |Last(ms).starters|, AtWrite(Last(ms).daemons))
  {
    hide IsRun;
    var i := |Last(ms).starters|;
    ms', steps' := Extend(ms, steps, Begin);
    ms', steps' := Extend(ms', steps', LoadPid(i));
    ms', steps' := Extend(ms', steps', LoadStatus(i));
    ms', steps' := Extend(ms', steps', OpenExclusive(i));
    ms', steps' := Extend(ms', steps', ClearStatus(i, true));
    ms', steps' := Extend(ms', steps', Spawn(i, true));
  }

  /** A run with two daemons: the first caller cannot write its daemon's pid and drops the pid file, and a second one
      starts. */
  lemma LostPidAllowsSecondDaemon() returns (ms: seq<Machine>, steps: seq<Step>)
    ensures IsRun(ms, steps) && Last(ms).daemons == 2 && Last(ms).lost == 1
  {
    ms, steps := [STOPPED], [];
    assert IsRun(ms, steps);
    ms, steps := StartAlone(ms, steps);
    ms, steps := WriteFails(ms, steps);
    ms, steps := StartAlone(ms, steps);
  }

  lemma WriteFails(ms: seq<Machine>, steps: seq<Step>) returns (ms': seq<Machine>, steps': seq<Step>)
    requires IsRun(ms, steps) && At(Last(ms), 0, AtWrite(0))
    ensures IsRun(ms', steps') && Last(ms').pidFile.Absent?
    ensures Last(ms').daemons == Last(ms).daemons && Last(ms').lost == Last(ms).lost + 1
  {
    hide IsRun;
    ms', steps' := Extend(ms, steps, WritePid(0, false));
    ms', steps' := Extend(ms', steps', Cleanup(0, true));
  }

  /** From no pid file, at most one daemon is alive in every run, exactly when no pid write fails. */
  lemma AtMostOneDaemonExactlyWhen(mayFail: bool)
    ensures (forall ms: seq<Machine>, steps, n | IsRun(ms, steps) && WritesOk(mayFail, steps) && 0 <= n < |ms| ::
        ms[n].daemons <= 1)
            <==> !mayFail
  {
    hide IsRun;
    if mayFail {
      var ms, steps := LostPidAllowsSecondDaemon();
      assert WritesOk(mayFail, steps) && ms[|ms| - 1].daemons == 2;
    } else {
      forall ms: seq<Machine>, steps, n | IsRun(ms, steps) && WritesOk(mayFail, steps) && 0 <= n < |ms|
          ensures ms[n].daemons <= 1 {
        AtMostOneDaemon(ms, steps, n);
        NoPidIsLost(ms, steps, n);
      }
    }
  }

  // --- The class ---

  /** start() as the controllers run it, cut at its awaits; the files and the processes are shared by all calls. */
  class DaemonController {
    var pidFile: PidFile
    var status: Option<nat>
    var starters: seq<Starter>
    var daemons: nat
    var lost: nat
    var failures: nat

    ghost function View(): Machine
      reads this
    {
      Machine(pidFile, status, starters, daemons, lost, failures)
    }

    constructor ()
      ensures View() == STOPPED
    {
      pidFile, status, starters, daemons, lost, failures := Absent, None, [], 0, 0, 0;
    }

    method BeginStart() returns (i: nat)
      modifies this
      ensures View() == Apply(old(View()), Begin) && i == |old(starters)|
    {
      i := |starters|;
      starters := starters + [AtLoadPid];
    }

    method ReadPid(i: nat)
      requires Enabled(View(), LoadPid(i))
      modifies this
      ensures View() == Apply(old(View()), LoadPid(i))
    {
      var pid: Option<nat> := None;
      if pidFile.Holds? {
        pid := Some(pidFile.pid);
      }
      starters := starters[i := AtLoadStatus(pid)];
    }

    method ClearRuntimeFiles()
      modifies this
      ensures View() == old(View()).(pidFile := Absent, status := None)
    {
      pidFile := Absent;
      status := None;
    }

    // The rest of getStatus(), and the two early exits of start().
    method DecideStart(i: nat)
      requires Enabled(View(), LoadStatus(i))
      modifies this
      ensures View() == Apply(old(View()), LoadStatus(i))
    {
      var pid := starters[i].loaded;
      var loadedStatus := status;
      if pid.None? {
        starters := starters[i := AtOpen];
        return;
      }
      if pid.value >= daemons {
        ClearRuntimeFiles();
        starters := starters[i := AtOpen];
        return;
      }
      if loadedStatus.None? {
        starters := starters[i := Refused];
        return;
      }
      starters := starters[i := AlreadyRunning(pid.value)];
    }

    method OpenPidFileExclusive(i: nat)
      requires Enabled(View(), OpenExclusive(i))
      modifies this
      ensures View() == Apply(old(View()), OpenExclusive(i))
    {
      if !pidFile.Absent? {
        starters := starters[i := Refused];
        return;
      }
      pidFile := Empty;
      starters := starters[i := AtClear];
    }

    method ClearStatusFile(i: nat, ok: bool)
      requires Enabled(View(), ClearStatus(i, ok))
      modifies this
      ensures View() == Apply(old(View()), ClearStatus(i, ok))
    {
      if ok {
        status := None;
        starters := starters[i := AtSpawn];
      } else {
        failures := failures + 1;
        starters := starters[i := AtCleanup];
      }
    }

    method SpawnDetached(i: nat, ok: bool)
      requires Enabled(View(), Spawn(i, ok))
      modifies this
      ensures View() == Apply(old(View()), Spawn(i, ok))
    {
      if ok {
        starters := starters[i := AtWrite(daemons)];
        daemons := daemons + 1;
      } else {
        failures := failures + 1;
        starters := starters[i := AtCleanup];
      }
    }

    method WritePidFile(i: nat, ok: bool)
      requires Enabled(View(), WritePid(i, ok))
      modifies this
      ensures View() == Apply(old(View()), WritePid(i, ok))
    {
      var pid := starters[i].pid;
      if ok {
        pidFile := Holds(pid);
        starters := starters[i := AtWait(pid)];
      } else {
        lost, failures := lost + 1, failures + 1;
        starters := starters[i := AtCleanup];
      }
    }

    // The catch block; its own errors are swallowed.
    method DropPidFile(i: nat, ok: bool)
      requires Enabled(View(), Cleanup(i, ok))
      modifies this
      ensures View() == Apply(old(View()), Cleanup(i, ok))
    {
      if ok {
        pidFile := Absent;
      }
      starters := starters[i := Failed];
    }

    method PollStartup(i: nat, shouldStopWaiting: bool)
      requires Enabled(View(), Poll(i, shouldStopWaiting))
      modifies this
      ensures View() == Apply(old(View()), Poll(i, shouldStopWaiting))
    {
      var pid := starters[i].pid;
      if status == Some(pid) {
        starters := starters[i := Started(pid)];
        return;
      }
      if pid >= daemons {
        ClearRuntimeFiles();
        starters := starters[i := Failed];
        return;
      }
      if shouldStopWaiting {
        starters := starters[i := Started(pid)];
      }
    }
  }
}
