/** The bridge request scheduler's normal lane: per session a pending count and a tail promise that
    is always fulfilled, dropped when the count returns to zero and the record is still the stored one. */
module BridgeScheduler {
  import opened Options
  import opened PromiseLoop
  import KeyedFifo

  // `tail` is derived from the result, finally() sits on the result, and only fulfilment starts a successor.
  const WIRING := Wiring(true, OnResult, true, false)

  datatype SessionState = SessionState(pendingNormals: int, tail: Option<nat>)

  datatype State = State(loop: Loop<string>, sessions: map<string, nat>, records: seq<SessionState>, recordOf: seq<nat>)

  const EMPTY := State(Loop([], []), map[], [], [])

  // --- Specification of the operations ---

  ghost predicate Wf(s: State) {
    && |s.recordOf| == |s.loop.tasks|
    && (forall t | 0 <= t < |s.recordOf| :: s.recordOf[t] < |s.records|)
    && (forall k | k in s.sessions :: s.sessions[k] < |s.records|)
    && (forall r | 0 <= r < |s.records| && s.records[r].tail.Some? :: s.records[r].tail.value < |s.loop.tasks|)
  }

  function GetSession(s: State, name: string): (State, nat) {
    if name in s.sessions then (s, s.sessions[name])
    else (s.(sessions := s.sessions[name := |s.records|], records := s.records + [SessionState(0, None)]), |s.records|)
  }

  function Run(s: State, name: string): State
    requires Wf(s)
  {
    var (s0, r) := GetSession(s, name);
    var rec := s0.records[r];
    State(Submit(WIRING, s.loop, name, rec.tail), s0.sessions,
          s0.records[r := SessionState(rec.pendingNormals + 1, Some(|s.loop.tasks|))], s.recordOf + [r])
  }

  // The finally reaction of task t, with its identity check.
  function Finally(s: State, t: nat): State
    requires t < |s.loop.tasks| == |s.recordOf| && s.recordOf[t] < |s.records|
  {
    var r, name := s.recordOf[t], s.loop.tasks[t].key;
    var rec := s.records[r].(pendingNormals := s.records[r].pendingNormals - 1);
    s.(records := s.records[r := rec],
       sessions :=
         if rec.pendingNormals == 0 && name in s.sessions && s.sessions[name] == r then s.sessions - {name}
         else s.sessions)
  }

  function RunReaction(s: State): State
    requires Wf(s) && HeadReady(s.loop)
  {
    var s' := s.(loop := RunHead(WIRING, s.loop));
    if s.loop.jobs[0].Cleanup? then Finally(s', s.loop.jobs[0].task) else s'
  }

  // --- Invariant ---

  ghost function Open(s: State, r: nat): set<nat>
    requires |s.recordOf| == |s.loop.tasks|
  {
    set t | 0 <= t < |s.loop.tasks| && s.recordOf[t] == r && !s.loop.tasks[t].cleaned
  }

  // A stored record counts its session's unfinished tasks, has some, and ends in the newest.
  ghost predicate RecordOk(s: State, name: string)
    requires Wf(s) && name in s.sessions
  {
    var r := s.sessions[name];
    && s.records[r].pendingNormals == |Open(s, r)| > 0
    && s.records[r].tail.Some?
    && IsLatest(s.loop, s.records[r].tail.value, name)
    && s.recordOf[s.records[r].tail.value] == r
  }

  ghost predicate Tracked(s: State, t: nat)
    requires Wf(s) && t < |s.loop.tasks|
  {
    s.loop.tasks[t].key in s.sessions && s.sessions[s.loop.tasks[t].key] == s.recordOf[t]
  }

  ghost predicate Bookkept(s: State) {
    && Wf(s)
    && (forall k | k in s.sessions :: RecordOk(s, k))
    && (forall t | 0 <= t < |s.loop.tasks| && !s.loop.tasks[t].cleaned :: Tracked(s, t))
    && (forall k, t | k in s.sessions && 0 <= t < |s.recordOf| && s.recordOf[t] == s.sessions[k] ::
        s.loop.tasks[t].key == k)
  }

  ghost predicate Inv(s: State) {
    LoopInv(WIRING, s.loop) && Bookkept(s)
  }

  // --- Every step keeps it ---

  lemma GateIsGood(s: State, name: string)
    requires Inv(s)
    ensures var gate := if name in s.sessions then s.records[s.sessions[name]].tail else None;
            GoodGate(WIRING, s.loop, name, gate)
  {
    if name in s.sessions {
      assert RecordOk(s, name);
    } else {
      forall p | 0 <= p < |s.loop.tasks| && s.loop.tasks[p].key == name ensures Closed(WIRING, s.loop.tasks[p]) {
        assert s.loop.tasks[p].cleaned || Tracked(s, p);
        assert FlagsOk(WIRING, s.loop, p);
      }
    }
  }

  // What submitting a task to record r of session `name` changes.
  ghost predicate Adds(s: State, s': State, name: string, r: nat) {
    var n := |s.loop.tasks|;
    && Wf(s) && Wf(s')
    && |s'.loop.tasks| == n + 1 && s'.recordOf == s.recordOf + [r]
    && (forall t | 0 <= t < n ::
          s'.loop.tasks[t].key == s.loop.tasks[t].key && s'.loop.tasks[t].cleaned == s.loop.tasks[t].cleaned)
    && s'.loop.tasks[n].key == name && !s'.loop.tasks[n].cleaned
    && s'.sessions == s.sessions[name := r]
    && (if name in s.sessions then s.sessions[name] == r else r == |s.records|)
    && (forall x | 0 <= x < |s.records| && x != r :: x < |s'.records| && s'.records[x] == s.records[x])
    && r < |s'.records|
    && s'.records[r] == SessionState((if name in s.sessions then s.records[r].pendingNormals else 0) + 1, Some(n))
  }

  lemma RunAdds(s: State, name: string)
    requires Wf(s)
    ensures Adds(s, Run(s, name), name, GetSession(s, name).1)
  {
    var s', n := Run(s, name), |s.loop.tasks|;
    assert forall t | 0 <= t < n :: s'.loop.tasks[t] == s.loop.tasks[t].(tailRx := s'.loop.tasks[t].tailRx);
  }

  lemma AddOpens(s: State, s': State, name: string, r: nat, x: nat)
    requires Adds(s, s', name, r)
    ensures |Open(s', x)| == |Open(s, x)| + if x == r then 1 else 0
    ensures name !in s.sessions ==> Open(s, r) == {}
  {
    AddedFlags(s, s', name, r);
    hide Adds, Wf;
    OpenGrows(s, s', r, x);
  }

  lemma OpenGrows(s: State, s': State, r: nat, x: nat)
    requires var n := |s.loop.tasks|;
             && |s.recordOf| == n && |s'.loop.tasks| == n + 1 && s'.recordOf == s.recordOf + [r]
             && (forall t | 0 <= t < n :: s'.loop.tasks[t].cleaned == s.loop.tasks[t].cleaned)
             && !s'.loop.tasks[n].cleaned
    ensures |Open(s', x)| == |Open(s, x)| + if x == r then 1 else 0
  {
    var n := |s.loop.tasks|;
    assert forall t | 0 <= t < n :: s'.recordOf[t] == s.recordOf[t];
    if x == r {
      assert Open(s', x) == Open(s, x) + {n};
      assert n !in Open(s, x);
    } else {
      assert Open(s', x) == Open(s, x);
    }
  }

  lemma AddedFlags(s: State, s': State, name: string, r: nat)
    requires Adds(s, s', name, r)
    ensures var n := |s.loop.tasks|;
            && |s.recordOf| == n && |s'.loop.tasks| == n + 1 && s'.recordOf == s.recordOf + [r]
            && (forall t | 0 <= t < n :: s'.loop.tasks[t].cleaned == s.loop.tasks[t].cleaned)
            && !s'.loop.tasks[n].cleaned
            && (name !in s.sessions ==> forall t | 0 <= t < n :: s.recordOf[t] != r)
  {
  }

  lemma AddKeepsRecord(s: State, s': State, name: string, r: nat, k: string)
    requires Adds(s, s', name, r) && k in s'.sessions
    requires k in s.sessions ==> RecordOk(s, k) && (k != name ==> s.sessions[k] != r)
    ensures RecordOk(s', k)
  {
    AddOpens(s, s', name, r, s'.sessions[k]);
  }

  lemma AddKeepsBook(s: State, s': State, name: string, r: nat)
    requires Bookkept(s) && Adds(s, s', name, r)
    ensures Bookkept(s')
  {
    hide RecordOk;
    forall k | k in s.sessions && k != name ensures s.sessions[k] != r {
      RecordsDiffer(s, k, name);
    }
    forall k | k in s'.sessions ensures RecordOk(s', k) {
      AddKeepsRecord(s, s', name, r, k);
    }
    forall t | 0 <= t < |s'.loop.tasks| && !s'.loop.tasks[t].cleaned ensures Tracked(s', t) {
      assert t < |s.loop.tasks| ==> Tracked(s, t);
    }
  }

  // Two sessions never share a record.
  lemma RecordsDiffer(s: State, k: string, name: string)
    requires Bookkept(s) && k in s.sessions && k != name
    ensures GetSession(s, name).1 != s.sessions[k]
  {
    assert RecordOk(s, k);
  }

  lemma RunKeepsInv(s: State, name: string)
    requires Inv(s)
    ensures Inv(Run(s, name))
  {
    hide RecordOk, LoopInv;
    var (s0, r) := GetSession(s, name);
    GateIsGood(s, name);
    SubmitKeepsInv(WIRING, s.loop, name, s0.records[r].tail);
    RunAdds(s, name);
    AddKeepsBook(s, Run(s, name), name, r);
  }

  // The bookkeeping only looks at keys and at which tasks have cleaned up.
  lemma SameFlagsKeepBook(s: State, l: Loop<string>)
    requires Bookkept(s) && |l.tasks| == |s.loop.tasks|
    requires forall t | 0 <= t < |l.tasks| ::
               l.tasks[t].key == s.loop.tasks[t].key && l.tasks[t].cleaned == s.loop.tasks[t].cleaned
    ensures Bookkept(s.(loop := l))
  {
    var s' := s.(loop := l);
    forall k | k in s'.sessions ensures RecordOk(s', k) {
      assert RecordOk(s, k);
      SameFlagsKeepRecord(s, l, k);
    }
    hide RecordOk;
    assert forall t | 0 <= t < |l.tasks| && !l.tasks[t].cleaned :: Tracked(s, t);
  }

  lemma SameFlagsKeepRecord(s: State, l: Loop<string>, k: string)
    requires Wf(s) && |l.tasks| == |s.loop.tasks| && k in s.sessions && RecordOk(s, k)
    requires forall t | 0 <= t < |l.tasks| ::
               l.tasks[t].key == s.loop.tasks[t].key && l.tasks[t].cleaned == s.loop.tasks[t].cleaned
    ensures Wf(s.(loop := l)) && RecordOk(s.(loop := l), k)
  {
    assert Open(s.(loop := l), s.sessions[k]) == Open(s, s.sessions[k]);
  }

  ghost predicate AtFinally(s: State, t: nat) {
    && Wf(s) && HeadReady(s.loop) && s.loop.jobs[0] == Cleanup(t) && !s.loop.tasks[t].cleaned
    && Tracked(s, t) && RecordOk(s, s.loop.tasks[t].key)
  }

  lemma FinallyOpen(s: State, t: nat, x: nat)
    requires AtFinally(s, t)
    ensures |RunReaction(s).recordOf| == |RunReaction(s).loop.tasks|
    ensures Open(RunReaction(s), x) == Open(s, x) - {t}
    ensures t in Open(s, x) <==> x == s.recordOf[t]
  {
    FinallyChanges(s, t);
    hide RunReaction, RecordOk, Tracked;
  }

  lemma FinallyKeepsRecord(s: State, t: nat, k: string)
    requires AtFinally(s, t) && k in s.sessions && RecordOk(s, k)
    requires k in RunReaction(s).sessions && Wf(RunReaction(s))
    requires s.sessions[k] == s.recordOf[t] ==> k == s.loop.tasks[t].key
    ensures RecordOk(RunReaction(s), k)
  {
    FinallyOpen(s, t, s.sessions[k]);
    FinallyChanges(s, t);
    FinallyRecord(s, t, k);
    hide RunReaction, AtFinally, Wf, Open;
    var s', r := RunReaction(s), s.sessions[k];
    if r == s.recordOf[t] {
      assert |Open(s, r) - {t}| == |Open(s, r)| - 1;
    } else {
      assert Open(s, r) - {t} == Open(s, r);
    }
  }

  // A record that is still stored has the tail it had, and one task less when it was t's.
  lemma FinallyRecord(s: State, t: nat, k: string)
    requires AtFinally(s, t) && k in s.sessions
    requires s.sessions[k] == s.recordOf[t] ==> k == s.loop.tasks[t].key
    ensures var s', r := RunReaction(s), s.sessions[k]; k in s'.sessions ==>
            && r < |s'.records| && s'.records[r].tail == s.records[r].tail
            && s'.records[r].pendingNormals == s.records[r].pendingNormals - (if r == s.recordOf[t] then 1 else 0)
            && (r == s.recordOf[t] ==> s'.records[r].pendingNormals != 0)
  {
    hide RecordOk;
  }

  lemma FinallyKeepsTracked(s: State, t: nat, u: nat)
    requires AtFinally(s, t) && u < |s.loop.tasks| && u != t && !s.loop.tasks[u].cleaned && Tracked(s, u)
    requires Wf(RunReaction(s))
    ensures u < |RunReaction(s).loop.tasks| && Tracked(RunReaction(s), u)
  {
    FinallyChanges(s, t);
    if s.loop.tasks[u].key == s.loop.tasks[t].key {
      FinallyOpen(s, t, s.recordOf[t]);
      assert u in Open(s, s.recordOf[t]) - {t};
      assert |Open(s, s.recordOf[t]) - {t}| == |Open(s, s.recordOf[t])| - 1;
      hide Open;
    }
  }

  // What a finally reaction leaves alone.
  lemma FinallyChanges(s: State, t: nat)
    requires AtFinally(s, t)
    ensures var s' := RunReaction(s);
            && Wf(s') && s'.recordOf == s.recordOf && |s'.loop.tasks| == |s.loop.tasks|
            && (forall k | k in s'.sessions :: k in s.sessions && s'.sessions[k] == s.sessions[k])
            && (forall u | 0 <= u < |s.loop.tasks| ::
                  && s'.loop.tasks[u].key == s.loop.tasks[u].key
                  && s'.loop.tasks[u].cleaned == (s.loop.tasks[u].cleaned || u == t))
  {
    hide RecordOk, Tracked;
  }

  lemma FinallyKeepsBook(s: State, t: nat)
    requires Bookkept(s) && AtFinally(s, t)
    ensures Bookkept(RunReaction(s))
  {
    hide RecordOk, RunReaction, Tracked, HeadReady;
    var s' := RunReaction(s);
    FinallyChanges(s, t);
    FinallyOwner(s, t);
    forall k | k in s'.sessions ensures RecordOk(s', k) {
      FinallyKeepsRecord(s, t, k);
    }
    forall u | 0 <= u < |s'.loop.tasks| && !s'.loop.tasks[u].cleaned ensures Tracked(s', u) {
      assert Tracked(s, u);
      FinallyKeepsTracked(s, t, u);
    }
  }

  lemma FinallyOwner(s: State, t: nat)
    requires Bookkept(s) && AtFinally(s, t)
    ensures t < |s.loop.tasks|
    ensures forall k | k in s.sessions && s.sessions[k] == s.recordOf[t] :: k == s.loop.tasks[t].key
  {
    hide RecordOk, RunReaction, Tracked;
  }

  lemma RunReactionKeepsInv(s: State)
    requires Inv(s) && s.loop.jobs != []
    ensures HeadReady(s.loop) && Inv(RunReaction(s))
  {
    RunHeadKeepsInv(WIRING, s.loop);
    var j := s.loop.jobs[0];
    assert j in s.loop.jobs && Due(WIRING, s.loop, j);
    hide LoopInv, RecordOk;
    if j.Cleanup? {
      assert Tracked(s, j.task);
      FinallyKeepsBook(s, j.task);
    } else {
      SameFlagsKeepBook(s, RunHead(WIRING, s.loop));
    }
  }

  lemma TaskSettlesKeepsInv(s: State, t: nat, ok: bool)
    requires Inv(s) && CanFinish(s.loop, t)
    ensures Inv(s.(loop := SettleResult(WIRING, s.loop, t, ok)))
  {
    hide LoopInv, RecordOk;
    FinishKeepsInv(WIRING, s.loop, t, ok);
    SameFlagsKeepBook(s, SettleResult(WIRING, s.loop, t, ok));
  }

  // --- Whole runs ---

  datatype Step = Call(name: string) | Reaction | Settle(task: nat, ok: bool)

  ghost predicate Enabled(s: State, step: Step) {
    && Wf(s)
    && match step
       case Call(_) => true
       case Reaction => HeadReady(s.loop)
       case Settle(t, _) => CanFinish(s.loop, t)
  }

  ghost function Apply(s: State, step: Step): State
    requires Enabled(s, step)
  {
    match step
    case Call(name) => Run(s, name)
    case Reaction => RunReaction(s)
    case Settle(t, ok) => s.(loop := SettleResult(WIRING, s.loop, t, ok))
  }

  // The step of the abstract queue that a step amounts to; None leaves the queues alone.
  ghost function QueueStepOf(s: State, step: Step): Option<KeyedFifo.Step<string>>
    requires Enabled(s, step)
  {
    match step
    case Call(name) => Some(KeyedFifo.Submit(name))
    case Reaction => if s.loop.jobs[0].Start? then Some(KeyedFifo.Start(s.loop.jobs[0].task)) else None
    case Settle(t, ok) => Some(KeyedFifo.Finish(t, ok))
  }

  ghost predicate FollowsQueue(s: State, step: Step, s': State) {
    Enabled(s, step) && QueuesMove(s.loop, QueueStepOf(s, step), s'.loop)
  }

  lemma StepKeepsInv(s: State, step: Step)
    requires Inv(s) && Enabled(s, step)
    ensures Inv(Apply(s, step)) && FollowsQueue(s, step, Apply(s, step))
  {
    hide LoopInv, RecordOk;
    match step {
      case Call(name) =>
        RunKeepsInv(s, name);
        var (s0, r) := GetSession(s, name);
        SubmitRefines(WIRING, s.loop, name, s0.records[r].tail);
      case Reaction =>
        RunReactionKeepsInv(s);
        RunHeadRefines(WIRING, s.loop);
      case Settle(t, ok) =>
        TaskSettlesKeepsInv(s, t, ok);
        FinishRefines(WIRING, s.loop, t, ok);
    }
    StepMovesQueues(WIRING, s.loop, QueueStepOf(s, step), Apply(s, step).loop);
  }

  ghost predicate IsRun(ss: seq<State>, steps: seq<Step>) {
    && |ss| == |steps| + 1
    && ss[0] == EMPTY
    && forall i | 0 <= i < |steps| :: Enabled(ss[i], steps[i]) && ss[i + 1] == Apply(ss[i], steps[i])
  }

  /** Every run of the scheduler's normal lane is a run of the per-session queues. */
  lemma {:induction false} EveryRunFollowsQueues(ss: seq<State>, steps: seq<Step>, n: nat)
    requires IsRun(ss, steps) && n <= |steps|
    ensures Inv(ss[n]) && KeyedFifo.Inv(Abs(ss[n].loop))
    ensures forall i | 0 <= i < n :: FollowsQueue(ss[i], steps[i], ss[i + 1])
  {
    hide Apply, Enabled, FollowsQueue, LoopInv, Abs;
    if n == 0 {
      EmptyLoopIsGood(WIRING, EMPTY.loop);
    } else {
      EveryRunFollowsQueues(ss, steps, n - 1);
      StepKeepsInv(ss[n - 1], steps[n - 1]);
    }
    AbsKeepsInv(WIRING, ss[n].loop);
  }

  lemma RecordHasWork(s: State, name: string)
    requires Bookkept(s) && name in s.sessions
    ensures exists t | 0 <= t < |s.loop.tasks| :: !s.loop.tasks[t].cleaned
  {
    assert RecordOk(s, name);
    var t :| t in Open(s, s.sessions[name]);
  }

  /** In every run the requests of one session never overlap and start in order, a session entry
      exists while they are unfinished, and at rest all have run, rejected or not, with no entry left. */
  lemma RequestsRunInOrder(ss: seq<State>, steps: seq<Step>, i: nat)
    requires IsRun(ss, steps) && i < |ss|
    ensures var tasks := ss[i].loop.tasks;
            && (forall p, t | 0 <= p < t < |tasks| && tasks[p].key == tasks[t].key && tasks[t].started ::
                tasks[p].result.Some?)
            && (forall t | 0 <= t < |tasks| && !tasks[t].cleaned :: tasks[t].key in ss[i].sessions)
            && (Idle(ss[i].loop) ==> ss[i].sessions == map[] && forall t | 0 <= t < |tasks| :: Closed(WIRING, tasks[t]))
  {
    EveryRunFollowsQueues(ss, steps, i);
    var s := ss[i];
    assert InOrder(WIRING, s.loop);
    assert forall t | 0 <= t < |s.loop.tasks| && !s.loop.tasks[t].cleaned :: Tracked(s, t);
    if Idle(s.loop) {
      IdleIsAllClosed(WIRING, s.loop);
      forall k ensures k !in s.sessions {
        if k in s.sessions { RecordHasWork(s, k); }
      }
    }
  }

  class Scheduler {
    var sessions: map<string, nat>
    var records: seq<SessionState>
    var recordOf: seq<nat>
    var loop: Loop<string>

    ghost function View(): State
      reads this
    {
      State(loop, sessions, records, recordOf)
    }

    constructor ()
      ensures Inv(View()) && View() == EMPTY
    {
      sessions, records, recordOf, loop := map[], [], [], Loop([], []);
    }

    method CreateSessionState(name: string) returns (record: nat)
      requires name !in sessions
      modifies this
      ensures (View(), record) == GetSession(old(View()), name)
    {
      record := |records|;
      records := records + [SessionState(0, None)];
      sessions := sessions[name := record];
    }

    method Submit(name: string) returns (task: nat)
      requires Inv(View())
      modifies this
      ensures Inv(View()) && View() == Run(old(View()), name)
    {
      hide LoopInv, RecordOk;
      RunKeepsInv(View(), name);
      task := |loop.tasks|;
      var record;
      if name in sessions {
        record := sessions[name];
      } else {
        record := CreateSessionState(name);
      }
      recordOf := recordOf + [record];
      loop := PromiseLoop.Submit(WIRING, loop, name, records[record].tail);
      records := records[record := SessionState(records[record].pendingNormals + 1, Some(task))];
    }

    method RunNext()
      requires Inv(View()) && loop.jobs != []
      modifies this
      ensures HeadReady(old(loop)) && Inv(View()) && View() == RunReaction(old(View()))
    {
      hide LoopInv, RecordOk;
      RunReactionKeepsInv(View());
      var job := loop.jobs[0];
      loop := RunHead(WIRING, loop);
      if job.Cleanup? {
        var record, name := recordOf[job.task], loop.tasks[job.task].key;
        records := records[record := records[record].(pendingNormals := records[record].pendingNormals - 1)];
        if records[record].pendingNormals == 0 && name in sessions && sessions[name] == record {
          sessions := sessions - {name};
        }
      }
    }
  }
}
