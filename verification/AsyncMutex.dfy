/** AsyncMutex: one chain, whose tail is the promise each call releases when it is done. */
module AsyncMutex {
  import opened Options
  import opened PromiseLoop
  import KeyedFifo

  // Release is a separate, always fulfilled promise; `await previous` would not survive a rejection.
  const WIRING := Wiring(true, NoHook, true, false)

  datatype Key = TheLock

  datatype State = State(loop: Loop<Key>, tail: Option<nat>)

  const EMPTY := State(Loop([], []), None)

  ghost predicate Inv(s: State) {
    && LoopInv(WIRING, s.loop)
    && (forall t | 0 <= t < |s.loop.tasks| :: s.loop.tasks[t].key == TheLock)
    && s.tail == if s.loop.tasks == [] then None else Some(|s.loop.tasks| - 1)
  }

  datatype Step = Call | Reaction | Settle(task: nat, ok: bool)

  ghost predicate Enabled(s: State, step: Step) {
    match step
    case Call => s.tail.Some? ==> s.tail.value < |s.loop.tasks|
    case Reaction => HeadReady(s.loop)
    case Settle(t, _) => CanFinish(s.loop, t)
  }

  ghost function Apply(s: State, step: Step): State
    requires Enabled(s, step)
  {
    match step
    case Call => State(Submit(WIRING, s.loop, TheLock, s.tail), Some(|s.loop.tasks|))
    case Reaction => s.(loop := RunHead(WIRING, s.loop))
    case Settle(t, ok) => s.(loop := SettleResult(WIRING, s.loop, t, ok))
  }

  // The step of the abstract queue that a step amounts to; None leaves the queues alone.
  ghost function QueueStepOf(s: State, step: Step): Option<KeyedFifo.Step<Key>>
    requires Enabled(s, step)
  {
    match step
    case Call => Some(KeyedFifo.Submit(TheLock))
    case Reaction => if s.loop.jobs[0].Start? then Some(KeyedFifo.Start(s.loop.jobs[0].task)) else None
    case Settle(t, ok) => Some(KeyedFifo.Finish(t, ok))
  }

  ghost predicate FollowsQueue(s: State, step: Step, s': State) {
    Enabled(s, step) && QueuesMove(s.loop, QueueStepOf(s, step), s'.loop)
  }

  lemma StepKeepsInv(s: State, step: Step)
    requires Inv(s) && Enabled(s, step)
    ensures Inv(Apply(s, step)) && FollowsQueue(s, step, Apply(s, step))
  {
    match step {
      case Call =>
        SubmitKeepsInv(WIRING, s.loop, TheLock, s.tail);
        SubmitRefines(WIRING, s.loop, TheLock, s.tail);
      case Reaction =>
        RunHeadKeepsInv(WIRING, s.loop);
        RunHeadRefines(WIRING, s.loop);
      case Settle(t, ok) =>
        FinishKeepsInv(WIRING, s.loop, t, ok);
        FinishRefines(WIRING, s.loop, t, ok);
    }
    StepMovesQueues(WIRING, s.loop, QueueStepOf(s, step), Apply(s, step).loop);
  }

  ghost predicate IsRun(ss: seq<State>, steps: seq<Step>) {
    && |ss| == |steps| + 1
    && ss[0] == EMPTY
    && forall i | 0 <= i < |steps| :: Enabled(ss[i], steps[i]) && ss[i + 1] == Apply(ss[i], steps[i])
  }

  /** Every run of the mutex is a run of one first-come-first-served queue. */
  lemma {:induction false} EveryRunFollowsQueue(ss: seq<State>, steps: seq<Step>, n: nat)
    requires IsRun(ss, steps) && n <= |steps|
    ensures Inv(ss[n]) && KeyedFifo.Inv(Abs(ss[n].loop))
    ensures forall i | 0 <= i < n :: FollowsQueue(ss[i], steps[i], ss[i + 1])
  {
    hide Apply, Enabled, FollowsQueue, LoopInv, Abs;
    if n == 0 {
      EmptyLoopIsGood(WIRING, EMPTY.loop);
    } else {
      EveryRunFollowsQueue(ss, steps, n - 1);
      StepKeepsInv(ss[n - 1], steps[n - 1]);
    }
    AbsKeepsInv(WIRING, ss[n].loop);
  }

  /** In every run at most one critical section is open, and they open in call order. */
  lemma MutualExclusion(ss: seq<State>, steps: seq<Step>, i: nat)
    requires IsRun(ss, steps) && i < |ss|
    ensures var tasks := ss[i].loop.tasks;
            forall p, t | 0 <= p < t < |tasks| && tasks[t].started :: tasks[p].started && tasks[p].result.Some?
    ensures Idle(ss[i].loop) ==> forall t | 0 <= t < |ss[i].loop.tasks| :: Closed(WIRING, ss[i].loop.tasks[t])
  {
    EveryRunFollowsQueue(ss, steps, i);
    assert InOrder(WIRING, ss[i].loop);
    if Idle(ss[i].loop) { IdleIsAllClosed(WIRING, ss[i].loop); }
  }

  class Mutex {
    var tail: Option<nat>
    var loop: Loop<Key>

    ghost function View(): State
      reads this
    {
      State(loop, tail)
    }

    constructor ()
      ensures Inv(View()) && View() == EMPTY
    {
      tail, loop := None, Loop([], []);
    }

    method Run() returns (task: nat)
      requires Inv(View())
      modifies this
      ensures Inv(View()) && View() == Apply(old(View()), Call)
    {
      StepKeepsInv(View(), Call);
      var previous := tail;
      task := |loop.tasks|;
      tail := Some(task);
      loop := Submit(WIRING, loop, TheLock, previous);
    }
  }
}
