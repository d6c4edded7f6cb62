/** The coordinator wake-up locks: per coordinator session the tail of its wake-ups, removed once idle. */
module WakeLocks {
  import opened Options
  import opened PromiseLoop
  import KeyedFifo

  // `tracked` is next.catch(() => {}), finally() is registered on it, and both handlers wake again.
  const WIRING := Wiring(true, OnTail, true, true)

  datatype State = State(loop: Loop<string>, locks: map<string, nat>)

  const EMPTY := State(Loop([], []), map[])

  function Gate(locks: map<string, nat>, session: string): Option<nat> {
    if session in locks then Some(locks[session]) else None
  }

  // tracked.finally: the entry goes only if it still is this wake-up's.
  function Release(locks: map<string, nat>, session: string, t: nat): map<string, nat> {
    if session in locks && locks[session] == t then locks - {session} else locks
  }

  ghost predicate LockOk(s: State, session: string)
    requires session in s.locks
  {
    IsLatest(s.loop, s.locks[session], session) && !s.loop.tasks[s.locks[session]].cleaned
  }

  // An entry exists exactly while wake-ups of its session are unfinished, and is the newest of them.
  ghost predicate Locked(s: State) {
    && (forall k | k in s.locks :: LockOk(s, k))
    && (forall t | 0 <= t < |s.loop.tasks| && !s.loop.tasks[t].cleaned :: s.loop.tasks[t].key in s.locks)
  }

  ghost predicate Inv(s: State) {
    LoopInv(WIRING, s.loop) && Locked(s)
  }

  datatype Step = Wake(session: string) | Reaction | Settle(task: nat, ok: bool)

  ghost predicate Enabled(s: State, step: Step) {
    match step
    case Wake(session) => session in s.locks ==> s.locks[session] < |s.loop.tasks|
    case Reaction => HeadReady(s.loop)
    case Settle(t, _) => CanFinish(s.loop, t)
  }

  ghost function Apply(s: State, step: Step): State
    requires Enabled(s, step)
  {
    match step
    case Wake(session) =>
      State(Submit(WIRING, s.loop, session, Gate(s.locks, session)), s.locks[session := |s.loop.tasks|])
    case Reaction =>
      var l, j := RunHead(WIRING, s.loop), s.loop.jobs[0];
      State(l, if j.Cleanup? then Release(s.locks, s.loop.tasks[j.task].key, j.task) else s.locks)
    case Settle(t, ok) => s.(loop := SettleResult(WIRING, s.loop, t, ok))
  }

  // The step of the abstract queue that a step amounts to; None leaves the queues alone.
  ghost function QueueStepOf(s: State, step: Step): Option<KeyedFifo.Step<string>>
    requires Enabled(s, step)
  {
    match step
    case Wake(session) => Some(KeyedFifo.Submit(session))
    case Reaction => if s.loop.jobs[0].Start? then Some(KeyedFifo.Start(s.loop.jobs[0].task)) else None
    case Settle(t, ok) => Some(KeyedFifo.Finish(t, ok))
  }

  ghost predicate FollowsQueue(s: State, step: Step, s': State) {
    Enabled(s, step) && QueuesMove(s.loop, QueueStepOf(s, step), s'.loop)
  }

  lemma GateIsGood(s: State, session: string)
    requires Inv(s)
    ensures GoodGate(WIRING, s.loop, session, Gate(s.locks, session))
  {
    if session in s.locks {
      assert LockOk(s, session);
    } else {
      forall p | 0 <= p < |s.loop.tasks| && s.loop.tasks[p].key == session ensures Closed(WIRING, s.loop.tasks[p]) {
        assert FlagsOk(WIRING, s.loop, p);
      }
    }
  }

  lemma WakeKeepsInv(s: State, session: string)
    requires Inv(s)
    ensures Enabled(s, Wake(session)) && Inv(Apply(s, Wake(session)))
  {
    GateIsGood(s, session);
    SubmitKeepsInv(WIRING, s.loop, session, Gate(s.locks, session));
    WakeKeepsLocks(s, session);
  }

  lemma WakeKeepsLocks(s: State, session: string)
    requires Locked(s) && Enabled(s, Wake(session))
    ensures Locked(Apply(s, Wake(session)))
  {
    var s', n := Apply(s, Wake(session)), |s.loop.tasks|;
    assert forall t | 0 <= t < n :: s'.loop.tasks[t] == s.loop.tasks[t].(tailRx := s'.loop.tasks[t].tailRx);
    forall k | k in s'.locks ensures LockOk(s', k) {
      if k != session { assert LockOk(s, k); }
    }
  }

  lemma ReactionKeepsInv(s: State)
    requires Inv(s) && s.loop.jobs != []
    ensures HeadReady(s.loop) && Inv(Apply(s, Reaction))
  {
    RunHeadKeepsInv(WIRING, s.loop);
    var s', j := Apply(s, Reaction), s.loop.jobs[0];
    assert j in s.loop.jobs && Due(WIRING, s.loop, j) && FlagsOk(WIRING, s.loop, j.task);
    forall k | k in s'.locks ensures LockOk(s', k) {
      assert LockOk(s, k);
    }
    forall t | 0 <= t < |s'.loop.tasks| && !s'.loop.tasks[t].cleaned ensures s'.loop.tasks[t].key in s'.locks {
      assert s.loop.tasks[t].key in s.locks;
      assert LockOk(s, s.loop.tasks[t].key);
    }
  }

  lemma SettleKeepsLocks(s: State, t: nat, ok: bool)
    requires Locked(s) && CanFinish(s.loop, t)
    ensures Locked(Apply(s, Settle(t, ok)))
  {
    var s' := Apply(s, Settle(t, ok));
    forall k | k in s'.locks ensures LockOk(s', k) {
      assert LockOk(s, k);
    }
  }

  lemma StepKeepsInv(s: State, step: Step)
    requires Inv(s) && Enabled(s, step)
    ensures Inv(Apply(s, step)) && FollowsQueue(s, step, Apply(s, step))
  {
    hide LoopInv, Abs, Locked, CanFinish;
    match step {
      case Wake(session) =>
        WakeKeepsInv(s, session);
        SubmitRefines(WIRING, s.loop, session, Gate(s.locks, session));
      case Reaction =>
        ReactionKeepsInv(s);
        RunHeadRefines(WIRING, s.loop);
      case Settle(t, ok) =>
        FinishKeepsInv(WIRING, s.loop, t, ok);
        FinishRefines(WIRING, s.loop, t, ok);
        SettleKeepsLocks(s, t, ok);
    }
    StepMovesQueues(WIRING, s.loop, QueueStepOf(s, step), Apply(s, step).loop);
  }

  ghost predicate IsRun(ss: seq<State>, steps: seq<Step>) {
    && |ss| == |steps| + 1
    && ss[0] == EMPTY
    && forall i | 0 <= i < |steps| :: Enabled(ss[i], steps[i]) && ss[i + 1] == Apply(ss[i], steps[i])
  }

  /** Every run of the wake-up locks is a run of the per-session queues. */
  lemma {:induction false} EveryRunFollowsQueues(ss: seq<State>, steps: seq<Step>, n: nat)
    requires IsRun(ss, steps) && n <= |steps|
    ensures Inv(ss[n]) && KeyedFifo.Inv(Abs(ss[n].loop))
    ensures forall i | 0 <= i < n :: FollowsQueue(ss[i], steps[i], ss[i + 1])
  {
    hide Apply, Enabled, FollowsQueue, LoopInv, Abs;
    if n == 0 {
      EmptyLoopIsGood(WIRING, EMPTY.loop);
    } else {
      EveryRunFollowsQueues(ss, steps, n - 1);
      StepKeepsInv(ss[n - 1], steps[n - 1]);
    }
    AbsKeepsInv(WIRING, ss[n].loop);
  }

  lemma LockIsHeld(s: State, session: string)
    requires Locked(s) && session in s.locks
    ensures exists t | 0 <= t < |s.loop.tasks| :: !s.loop.tasks[t].cleaned
  {
    assert LockOk(s, session);
  }

  /** In every run the wake-ups of one session never overlap, start in order, hold a lock entry
      while unfinished, and at rest have all run and left no entry, rejected or not. */
  lemma WakesRunInOrder(ss: seq<State>, steps: seq<Step>, i: nat)
    requires IsRun(ss, steps) && i < |ss|
    ensures var tasks := ss[i].loop.tasks;
            && (forall p, t | 0 <= p < t < |tasks| && tasks[p].key == tasks[t].key && tasks[t].started ::
                tasks[p].result.Some?)
            && (forall t | 0 <= t < |tasks| && !tasks[t].cleaned :: tasks[t].key in ss[i].locks)
            && (Idle(ss[i].loop) ==> ss[i].locks == map[] && forall t | 0 <= t < |tasks| :: Closed(WIRING, tasks[t]))
  {
    EveryRunFollowsQueues(ss, steps, i);
    assert InOrder(WIRING, ss[i].loop);
    if Idle(ss[i].loop) {
      IdleIsAllClosed(WIRING, ss[i].loop);
      forall k ensures k !in ss[i].locks {
        if k in ss[i].locks { LockIsHeld(ss[i], k); }
      }
    }
  }

  class Locks {
    var locks: map<string, nat>
    var loop: Loop<string>

    ghost function View(): State
      reads this
    {
      State(loop, locks)
    }

    constructor ()
      ensures Inv(View()) && View() == EMPTY
    {
      locks, loop := map[], Loop([], []);
    }

    method WakeCoordinator(session: string) returns (task: nat)
      requires Inv(View())
      modifies this
      ensures Enabled(old(View()), Wake(session))
      ensures Inv(View()) && View() == Apply(old(View()), Wake(session))
    {
      WakeKeepsInv(View(), session);
      var previous := if session in locks then Some(locks[session]) else None;
      task := |loop.tasks|;
      loop := Submit(WIRING, loop, session, previous);
      locks := locks[session := task];
    }

    method RunNext()
      requires Inv(View()) && loop.jobs != []
      modifies this
      ensures HeadReady(old(loop)) && Inv(View()) && View() == Apply(old(View()), Reaction)
    {
      ReactionKeepsInv(View());
      var job := loop.jobs[0];
      loop := RunHead(WIRING, loop);
      if job.Cleanup? {
        var session := loop.tasks[job.task].key;
        if session in locks && locks[session] == job.task {
          locks := locks - {session};
        }
      }
    }
  }
}
