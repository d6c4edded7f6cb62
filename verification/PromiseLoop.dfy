/** Promise chains on a FIFO queue of reaction jobs (sections 9.5 and 27.2 of ECMA-262).

    A submitted task t owns two promises: its result, settled when the task settles, and its tail,
    the promise a later submission of the same key is chained behind. A Wiring says how a scheduler
    connects the two and where it registers its clean-up reaction; the schedulers differ only in
    that wiring and in the bookkeeping they keep beside it. */
module PromiseLoop {
  import opened Options
  import KeyedFifo

  // Start(t) calls the task; Forward(t) settles t's tail from its result; Cleanup(t) is t's finally reaction.
  datatype Job = Start(task: nat) | Forward(task: nat) | Cleanup(task: nat)

  datatype Hook = OnResult | OnTail | NoHook

  datatype Wiring = Wiring(
    hop: bool,            // the tail is a promise derived from the result, not the result itself
    cleanup: Hook,        // which promise the clean-up reaction is registered on
    swallows: bool,       // the derived tail is fulfilled whatever the result was
    startsOnReject: bool  // the successor is registered for both outcomes of the tail
  )

  // Promise fields are None while pending and Some(fulfilled?) once settled.
  datatype Task<K> = Task(
    key: K,
    gate: Option<nat>,    // the task whose tail this one was chained behind; None is Promise.resolve()
    started: bool,
    result: Option<bool>,
    tail: Option<bool>,
    cleaned: bool,
    tailRx: seq<Job>      // reactions registered on the tail, oldest first
  )

  datatype Loop<K> = Loop(tasks: seq<Task<K>>, jobs: seq<Job>)

  // The two arrangements the schedulers use: without a hop the tail is the result.
  ghost predicate Arranged(w: Wiring) {
    !w.hop ==> w.cleanup != OnResult
  }

  // A rejected result cannot keep the successor from starting.
  ghost predicate Resilient(w: Wiring) {
    (w.hop && w.swallows) || w.startsOnReject
  }

  function Submit<K>(w: Wiring, l: Loop<K>, key: K, gate: Option<nat>): (r: Loop<K>)
    requires gate.Some? ==> gate.value < |l.tasks|
    ensures |r.tasks| == |l.tasks| + 1
  {
    var t := |l.tasks|;
    var added := Task(key, gate, false, None, None, false, if w.cleanup == OnTail then [Cleanup(t)] else []);
    if gate.None? || l.tasks[gate.value].tail.Some? then
      Loop(l.tasks + [added], l.jobs + [Start(t)])
    else
      var g := l.tasks[gate.value];
      Loop(l.tasks[gate.value := g.(tailRx := g.tailRx + [Start(t)])] + [added], l.jobs)
  }

  function SettleTail<K>(l: Loop<K>, t: nat, ok: bool): (r: Loop<K>)
    requires t < |l.tasks|
    ensures |r.tasks| == |l.tasks|
  {
    Loop(l.tasks[t := l.tasks[t].(tail := Some(ok), tailRx := [])], l.jobs + l.tasks[t].tailRx)
  }

  function SettleResult<K>(w: Wiring, l: Loop<K>, t: nat, ok: bool): (r: Loop<K>)
    requires t < |l.tasks|
    ensures |r.tasks| == |l.tasks|
  {
    var settled := l.tasks[t := l.tasks[t].(result := Some(ok))];
    if !w.hop then SettleTail(Loop(settled, l.jobs), t, ok)
    else Loop(settled, l.jobs + [Forward(t)] + if w.cleanup == OnResult then [Cleanup(t)] else [])
  }

  // The head of the queue refers to a task that exists, with whatever the reaction reads already settled.
  ghost predicate HeadReady<K>(l: Loop<K>) {
    && l.jobs != []
    && var t := l.jobs[0].task;
       && t < |l.tasks|
       && (l.jobs[0].Forward? ==> l.tasks[t].result.Some?)
       && (l.tasks[t].gate.Some? ==> l.tasks[t].gate.value < |l.tasks|)
  }

  // Runs the reaction at the head of the queue. The scheduler's own bookkeeping for Cleanup comes on top.
  function RunHead<K>(w: Wiring, l: Loop<K>): (r: Loop<K>)
    requires HeadReady(l)
    ensures |r.tasks| == |l.tasks|
  {
    var rest := l.(jobs := l.jobs[1..]);
    match l.jobs[0]
    case Start(t) =>
      var gate := l.tasks[t].gate;
      if gate.Some? && l.tasks[gate.value].tail == Some(false) && !w.startsOnReject then
        SettleResult(w, rest, t, false)  // the rejection passes the task by
      else
        rest.(tasks := l.tasks[t := l.tasks[t].(started := true)])
    case Forward(t) => SettleTail(rest, t, w.swallows || l.tasks[t].result.value)
    case Cleanup(t) => rest.(tasks := l.tasks[t := l.tasks[t].(cleaned := true)])
  }

  // A task is closed when nothing of it is left to happen.
  ghost predicate Closed<K>(w: Wiring, task: Task<K>) {
    task.started && task.result.Some? && task.tail.Some? && (w.cleanup != NoHook ==> task.cleaned)
  }

  ghost predicate IsLatest<K(!new)>(l: Loop<K>, g: nat, key: K) {
    && g < |l.tasks|
    && l.tasks[g].key == key
    && forall p | g < p < |l.tasks| :: l.tasks[p].key != key
  }

  ghost predicate AllClosed<K(!new)>(w: Wiring, l: Loop<K>, key: K, n: nat)
    requires n <= |l.tasks|
  {
    forall p | 0 <= p < n && l.tasks[p].key == key :: Closed(w, l.tasks[p])
  }

  // What a scheduler's bookkeeping owes when it picks the promise to chain a new task behind.
  ghost predicate GoodGate<K(!new)>(w: Wiring, l: Loop<K>, key: K, gate: Option<nat>) {
    && (gate.Some? ==> IsLatest(l, gate.value, key))
    && (gate.None? ==> AllClosed(w, l, key, |l.tasks|))
  }

  ghost predicate GateOpen<K>(l: Loop<K>, t: nat)
    requires t < |l.tasks|
  {
    var gate := l.tasks[t].gate;
    gate.None? || (gate.value < |l.tasks| && l.tasks[gate.value].tail.Some?)
  }

  ghost predicate Due<K>(w: Wiring, l: Loop<K>, j: Job) {
    && j.task < |l.tasks|
    && var task := l.tasks[j.task];
       match j
       case Start(t) => !task.started && GateOpen(l, t)
       case Forward(_) => w.hop && task.result.Some? && task.tail.None?
       case Cleanup(_) =>
         && !task.cleaned
         && ((w.cleanup == OnResult && task.result.Some?) || (w.cleanup == OnTail && task.tail.Some?))
  }

  ghost predicate Registered<K>(w: Wiring, l: Loop<K>, t: nat, j: Job) {
    match j
    case Start(u) => u < |l.tasks| && l.tasks[u].gate == Some(t)
    case Forward(_) => false
    case Cleanup(u) => u == t && w.cleanup == OnTail
  }

  ghost predicate NoDup<A>(s: seq<A>) {
    forall i, j | 0 <= i < j < |s| :: s[i] != s[j]
  }

  // A task waits for the latest earlier task of its key, or for nothing once all of those are closed.
  ghost predicate GateOk<K(!new)>(w: Wiring, l: Loop<K>, t: nat)
    requires t < |l.tasks|
  {
    var key, gate := l.tasks[t].key, l.tasks[t].gate;
    && (gate.Some? ==>
          && gate.value < t
          && l.tasks[gate.value].key == key
          && forall p | gate.value < p < t :: l.tasks[p].key != key)
    && (gate.None? ==> AllClosed(w, l, key, t))
  }

  ghost predicate FlagsOk<K>(w: Wiring, l: Loop<K>, t: nat)
    requires t < |l.tasks|
  {
    var task := l.tasks[t];
    && (task.started ==> GateOpen(l, t))
    && (task.result.Some? ==> task.started)
    && (task.tail.Some? ==> task.result.Some?)
    && (!w.hop ==> task.tail == task.result)
    && (task.tail.Some? ==> task.tail.value || w.startsOnReject)
    && (task.cleaned ==> w.cleanup != NoHook && task.tail.Some?)
  }

  // Tasks of one key never overlap and start in submission order.
  ghost predicate InOrder<K(!new)>(w: Wiring, l: Loop<K>) {
    forall p, t | 0 <= p < t < |l.tasks| && l.tasks[p].key == l.tasks[t].key && l.tasks[t].started ::
      Closed(w, l.tasks[p])
  }

  ghost predicate JobsOk<K(!new)>(w: Wiring, l: Loop<K>) {
    && NoDup(l.jobs)
    && (forall j :: j in l.jobs <==> Due(w, l, j))
    && (forall i | 0 <= i < |l.jobs| :: InFront(w, l, l.jobs[i], l.jobs[..i]))
  }

  // A queued start has the clean-up of the task it waited for in front of it, if that is still to
  // run; a queued clean-up has the hop of its own task in front of it.
  ghost predicate InFront<K>(w: Wiring, l: Loop<K>, j: Job, before: seq<Job>) {
    && (j.Start? && j.task < |l.tasks| && l.tasks[j.task].gate.Some? && w.cleanup != NoHook ==>
          var g := l.tasks[j.task].gate.value;
          g < |l.tasks| && (l.tasks[g].cleaned || Cleanup(g) in before))
    && (j.Cleanup? && j.task < |l.tasks| ==> l.tasks[j.task].tail.Some? || Forward(j.task) in before)
  }

  ghost predicate RxOk<K(!new)>(w: Wiring, l: Loop<K>, t: nat)
    requires t < |l.tasks|
  {
    var task := l.tasks[t];
    && (task.tail.Some? ==> task.tailRx == [])
    && (task.tail.None? ==>
          && NoDup(task.tailRx)
          && (forall j :: j in task.tailRx <==> Registered(w, l, t, j))
          && (w.cleanup == OnTail ==> task.tailRx != [] && task.tailRx[0] == Cleanup(t)))
  }

  ghost predicate LoopInv<K(!new)>(w: Wiring, l: Loop<K>) {
    && (forall t | 0 <= t < |l.tasks| :: GateOk(w, l, t))
    && (forall t | 0 <= t < |l.tasks| :: FlagsOk(w, l, t))
    && InOrder(w, l)
    && JobsOk(w, l)
    && (forall t | 0 <= t < |l.tasks| :: RxOk(w, l, t))
  }

  ghost predicate CanFinish<K>(l: Loop<K>, t: nat) {
    t < |l.tasks| && l.tasks[t].started && l.tasks[t].result.None?
  }

  // --- Every step keeps the invariant ---

  lemma SubmitKeepsInv<K(!new)>(w: Wiring, l: Loop<K>, key: K, gate: Option<nat>)
    requires Arranged(w) && Resilient(w) && LoopInv(w, l) && GoodGate(w, l, key, gate)
    ensures LoopInv(w, Submit(w, l, key, gate))
  {
    SubmitOrder(w, l, key, gate);
    SubmitJobs(w, l, key, gate);
    SubmitReactions(w, l, key, gate);
  }

  lemma SubmitOrder<K(!new)>(w: Wiring, l: Loop<K>, key: K, gate: Option<nat>)
    requires LoopInv(w, l) && GoodGate(w, l, key, gate)
    ensures var r := Submit(w, l, key, gate);
            InOrder(w, r) && forall t | 0 <= t < |r.tasks| :: GateOk(w, r, t) && FlagsOk(w, r, t)
  {
    var r := Submit(w, l, key, gate);
    var n := |l.tasks|;
    assert forall t | 0 <= t < n :: r.tasks[t] == l.tasks[t].(tailRx := r.tasks[t].tailRx);
    forall t | 0 <= t < |r.tasks| ensures GateOk(w, r, t) && FlagsOk(w, r, t) {
      if t < n { assert GateOk(w, l, t) && FlagsOk(w, l, t); }
    }
    forall p, t | 0 <= p < t < |r.tasks| && r.tasks[p].key == r.tasks[t].key && r.tasks[t].started
      ensures Closed(w, r.tasks[p])
    {
      assert t < n;
      assert Closed(w, l.tasks[p]);
    }
  }

  lemma SubmitJobs<K(!new)>(w: Wiring, l: Loop<K>, key: K, gate: Option<nat>)
    requires Arranged(w) && LoopInv(w, l) && GoodGate(w, l, key, gate)
    ensures JobsOk(w, Submit(w, l, key, gate))
  {
    var r := Submit(w, l, key, gate);
    var n := |l.tasks|;
    assert forall t | 0 <= t < n :: r.tasks[t] == l.tasks[t].(tailRx := r.tasks[t].tailRx);
    assert !Due(w, l, Start(n));
    forall j ensures j in r.jobs <==> Due(w, r, j) {
      if j.task < n {
        assert GateOk(w, l, j.task);
        assert Due(w, l, j) <==> Due(w, r, j);
      }
    }
    forall i | 0 <= i < |r.jobs| ensures InFront(w, r, r.jobs[i], r.jobs[..i]) {
      SubmitInFront(w, l, key, gate, i);
    }
  }

  lemma SubmitInFront<K(!new)>(w: Wiring, l: Loop<K>, key: K, gate: Option<nat>, i: nat)
    requires Arranged(w) && LoopInv(w, l) && GoodGate(w, l, key, gate)
    requires i < |Submit(w, l, key, gate).jobs|
    ensures var r := Submit(w, l, key, gate); InFront(w, r, r.jobs[i], r.jobs[..i])
  {
    var r := Submit(w, l, key, gate);
    if i < |l.jobs| {
      assert r.jobs[..i] == l.jobs[..i];
      assert InFront(w, l, l.jobs[i], l.jobs[..i]);
      assert Due(w, l, l.jobs[i]);
      assert GateOk(w, l, l.jobs[i].task);
    } else if gate.Some? {
      assert r.jobs[..i] == l.jobs;
      assert FlagsOk(w, l, gate.value);
      assert w.cleanup != NoHook && !l.tasks[gate.value].cleaned ==> Due(w, l, Cleanup(gate.value));
    }
  }

  lemma SubmitReactions<K(!new)>(w: Wiring, l: Loop<K>, key: K, gate: Option<nat>)
    requires LoopInv(w, l) && GoodGate(w, l, key, gate)
    ensures var r := Submit(w, l, key, gate); forall t | 0 <= t < |r.tasks| :: RxOk(w, r, t)
  {
    var r := Submit(w, l, key, gate);
    var n := |l.tasks|;
    forall t | 0 <= t < |r.tasks| ensures RxOk(w, r, t) {
      if t < n {
        assert RxOk(w, l, t);
        assert Start(n) !in l.tasks[t].tailRx by { assert !Registered(w, l, t, Start(n)); }
        forall j ensures Registered(w, r, t, j) <==> Registered(w, l, t, j) || (j == Start(n) && gate == Some(t)) {
        }
      } else {
        forall u | 0 <= u < n ensures l.tasks[u].gate != Some(n) { assert GateOk(w, l, u); }
      }
    }
  }

  // A step that only raises flags of task t leaves every key, gate and other task alone.
  ghost predicate OnlyTaskChanged<K>(l: Loop<K>, r: Loop<K>, t: nat) {
    && t < |l.tasks| == |r.tasks|
    && (forall u | 0 <= u < |l.tasks| && u != t :: r.tasks[u] == l.tasks[u])
    && r.tasks[t].key == l.tasks[t].key
    && r.tasks[t].gate == l.tasks[t].gate
    && (l.tasks[t].started ==> r.tasks[t].started)
    && (l.tasks[t].result.Some? ==> r.tasks[t].result == l.tasks[t].result)
    && (l.tasks[t].tail.Some? ==> r.tasks[t].tail == l.tasks[t].tail)
    && (l.tasks[t].cleaned ==> r.tasks[t].cleaned)
  }

  lemma ChangeKeepsOrder<K(!new)>(w: Wiring, l: Loop<K>, r: Loop<K>, t: nat)
    requires LoopInv(w, l) && OnlyTaskChanged(l, r, t)
    requires r.tasks[t].started ==> l.tasks[t].started || AllClosed(w, l, l.tasks[t].key, t)
    requires FlagsOk(w, r, t)
    ensures InOrder(w, r) && forall u | 0 <= u < |r.tasks| :: GateOk(w, r, u) && FlagsOk(w, r, u)
  {
    forall u | 0 <= u < |r.tasks| ensures GateOk(w, r, u) && FlagsOk(w, r, u) {
      assert GateOk(w, l, u) && FlagsOk(w, l, u);
    }
    forall p, u | 0 <= p < u < |r.tasks| && r.tasks[p].key == r.tasks[u].key && r.tasks[u].started
      ensures Closed(w, r.tasks[p])
    {
      assert Closed(w, l.tasks[p]);
    }
  }

  lemma ChangeKeepsReactions<K(!new)>(w: Wiring, l: Loop<K>, r: Loop<K>, t: nat)
    requires LoopInv(w, l) && OnlyTaskChanged(l, r, t)
    requires r.tasks[t].tailRx == if r.tasks[t].tail.Some? then [] else l.tasks[t].tailRx
    ensures forall u | 0 <= u < |r.tasks| :: RxOk(w, r, u)
  {
    forall u | 0 <= u < |r.tasks| ensures RxOk(w, r, u) {
      assert RxOk(w, l, u);
      assert forall j :: Registered(w, r, u, j) <==> Registered(w, l, u, j);
    }
  }

  // Removing the head of the queue keeps what is in front of every other job, up to that head.
  lemma PopKeepsInFront<K(!new)>(w: Wiring, l: Loop<K>, r: Loop<K>, t: nat, i: nat)
    requires LoopInv(w, l) && OnlyTaskChanged(l, r, t)
    requires l.jobs != [] && l.jobs[1..] <= r.jobs && i < |l.jobs| - 1
    requires l.jobs[0].Cleanup? ==> l.jobs[0].task < |r.tasks| && r.tasks[l.jobs[0].task].cleaned
    requires l.jobs[0].Forward? ==> l.jobs[0].task < |r.tasks| && r.tasks[l.jobs[0].task].tail.Some?
    ensures InFront(w, r, r.jobs[i], r.jobs[..i])
  {
    var j, rest := l.jobs[i + 1], l.jobs[1..];
    assert r.jobs[i] == rest[i] == j;
    assert InFront(w, l, j, l.jobs[..i + 1]);
    assert Due(w, l, j);
    assert GateOk(w, l, j.task);
    assert l.jobs[..i + 1] == [l.jobs[0]] + rest[..i];
    assert r.jobs[..i] == rest[..i];
  }

  lemma GateIsClosed<K(!new)>(w: Wiring, l: Loop<K>, t: nat)
    requires LoopInv(w, l) && l.jobs != [] && l.jobs[0] == Start(t)
    ensures t < |l.tasks| && AllClosed(w, l, l.tasks[t].key, t)
    ensures var gate := l.tasks[t].gate;
            gate.Some? ==>
              && gate.value < t && l.tasks[gate.value].tail.Some?
              && (l.tasks[gate.value].tail.value || w.startsOnReject)
  {
    assert Due(w, l, Start(t));
    assert GateOk(w, l, t);
    var gate := l.tasks[t].gate;
    if gate.Some? {
      var g := gate.value;
      assert FlagsOk(w, l, g);
      assert InFront(w, l, l.jobs[0], l.jobs[..0]);
      forall p | 0 <= p < t && l.tasks[p].key == l.tasks[t].key ensures Closed(w, l.tasks[p]) {
        if p < g { assert l.tasks[g].started; }
      }
    }
  }

  lemma RunStart<K(!new)>(w: Wiring, l: Loop<K>, t: nat)
    requires Arranged(w) && LoopInv(w, l) && l.jobs != [] && l.jobs[0] == Start(t)
    ensures t < |l.tasks| && var r := Loop(l.tasks[t := l.tasks[t].(started := true)], l.jobs[1..]); LoopInv(w, r)
  {
    GateIsClosed(w, l, t);
    var r := Loop(l.tasks[t := l.tasks[t].(started := true)], l.jobs[1..]);
    assert Due(w, l, Start(t)) && FlagsOk(w, l, t);
    ChangeKeepsOrder(w, l, r, t);
    ChangeKeepsReactions(w, l, r, t);
    forall j ensures j in r.jobs <==> Due(w, r, j) {
      assert j in l.jobs <==> Due(w, l, j);
      assert j in r.jobs <==> j in l.jobs && j != Start(t);
    }
    forall i | 0 <= i < |r.jobs| ensures InFront(w, r, r.jobs[i], r.jobs[..i]) {
      PopKeepsInFront(w, l, r, t, i);
    }
  }

  lemma RunCleanup<K(!new)>(w: Wiring, l: Loop<K>, t: nat)
    requires Arranged(w) && LoopInv(w, l) && l.jobs != [] && l.jobs[0] == Cleanup(t)
    ensures t < |l.tasks| && var r := Loop(l.tasks[t := l.tasks[t].(cleaned := true)], l.jobs[1..]); LoopInv(w, r)
  {
    assert Due(w, l, Cleanup(t)) && FlagsOk(w, l, t) && RxOk(w, l, t);
    assert InFront(w, l, l.jobs[0], l.jobs[..0]);
    var r := Loop(l.tasks[t := l.tasks[t].(cleaned := true)], l.jobs[1..]);
    ChangeKeepsOrder(w, l, r, t);
    ChangeKeepsReactions(w, l, r, t);
    forall j ensures j in r.jobs <==> Due(w, r, j) {
      assert j in l.jobs <==> Due(w, l, j);
      assert j in r.jobs <==> j in l.jobs && j != Cleanup(t);
    }
    forall i | 0 <= i < |r.jobs| ensures InFront(w, r, r.jobs[i], r.jobs[..i]) {
      PopKeepsInFront(w, l, r, t, i);
    }
  }

  // The state after t's tail settled, its reactions moved behind the jobs in `base`.
  ghost predicate TailSettled<K(!new)>(w: Wiring, l: Loop<K>, base: seq<Job>, r: Loop<K>, t: nat) {
    && Arranged(w) && Resilient(w) && LoopInv(w, l)
    && OnlyTaskChanged(l, r, t)
    && l.tasks[t].tail.None? && l.tasks[t].started && r.tasks[t].started
    && r.tasks[t].tail.Some? && r.tasks[t].result.Some?
    && r.tasks[t].tailRx == [] && r.tasks[t].cleaned == l.tasks[t].cleaned
    && (if w.hop then l.tasks[t].result.Some? && l.jobs == [Forward(t)] + base
        && r.tasks[t].tail.value == (w.swallows || r.tasks[t].result.value)
        else l.jobs == base && r.tasks[t].tail == r.tasks[t].result)
    && r.jobs == base + l.tasks[t].tailRx
  }

  lemma SettledTailKeepsInv<K(!new)>(w: Wiring, l: Loop<K>, base: seq<Job>, r: Loop<K>, t: nat)
    requires TailSettled(w, l, base, r, t)
    ensures LoopInv(w, r)
  {
    assert FlagsOk(w, l, t) && RxOk(w, l, t);
    assert FlagsOk(w, r, t);
    ChangeKeepsOrder(w, l, r, t);
    ChangeKeepsReactions(w, l, r, t);
    SettledTailJobs(w, l, base, r, t);
  }

  lemma SettledTailJobs<K(!new)>(w: Wiring, l: Loop<K>, base: seq<Job>, r: Loop<K>, t: nat)
    requires TailSettled(w, l, base, r, t)
    ensures JobsOk(w, r)
  {
    SettledTailNoDup(w, l, base, r, t);
    hide TailSettled, Due, InFront, NoDup;
    forall j ensures j in r.jobs <==> Due(w, r, j) {
      SettledTailDue(w, l, base, r, t, j);
    }
    forall i | 0 <= i < |r.jobs| ensures InFront(w, r, r.jobs[i], r.jobs[..i]) {
      SettledTailInFront(w, l, base, r, t, i);
    }
  }

  lemma SettledTailNoDup<K(!new)>(w: Wiring, l: Loop<K>, base: seq<Job>, r: Loop<K>, t: nat)
    requires TailSettled(w, l, base, r, t)
    ensures NoDup(r.jobs)
  {
    hide Due, InFront, InOrder, GateOk, FlagsOk;
    assert RxOk(w, l, t);
    assert NoDup(base) by { assert forall i | 0 <= i < |base| :: base[i] == l.jobs[if w.hop then i + 1 else i]; }
    forall i, k | 0 <= i < |base| && 0 <= k < |l.tasks[t].tailRx| ensures base[i] != l.tasks[t].tailRx[k] {
      SettledTailDue(w, l, base, r, t, base[i]);
    }
  }

  lemma SettledTailBase<K(!new)>(w: Wiring, l: Loop<K>, base: seq<Job>, r: Loop<K>, t: nat, j: Job)
    requires TailSettled(w, l, base, r, t)
    ensures j in base <==> Due(w, l, j) && !(w.hop && j == Forward(t))
  {
    assert j in l.jobs <==> Due(w, l, j);
    if w.hop {
      assert l.jobs[0] == Forward(t);
      assert forall k | 0 <= k < |base| :: base[k] == l.jobs[k + 1] && base[k] != l.jobs[0];
    }
  }

  lemma SettledTailDue<K(!new)>(w: Wiring, l: Loop<K>, base: seq<Job>, r: Loop<K>, t: nat, j: Job)
    requires TailSettled(w, l, base, r, t)
    ensures j in r.jobs <==> Due(w, r, j)
    ensures !(j in base && j in l.tasks[t].tailRx)
  {
    SettledTailBase(w, l, base, r, t, j);
    assert FlagsOk(w, l, t) && RxOk(w, l, t);
    assert j in l.tasks[t].tailRx <==> Registered(w, l, t, j);
    if j.task < |l.tasks| {
      assert FlagsOk(w, l, j.task) && GateOk(w, l, j.task);
    }
  }

  lemma SettledTailInFront<K(!new)>(w: Wiring, l: Loop<K>, base: seq<Job>, r: Loop<K>, t: nat, i: nat)
    requires TailSettled(w, l, base, r, t) && i < |r.jobs|
    ensures InFront(w, r, r.jobs[i], r.jobs[..i])
  {
    assert FlagsOk(w, l, t) && RxOk(w, l, t);
    if i < |base| {
      if w.hop {
        assert l.jobs[1..] == base;
        PopKeepsInFront(w, l, r, t, i);
      } else {
        assert r.jobs[..i] == l.jobs[..i] && r.jobs[i] == l.jobs[i];
        assert InFront(w, l, l.jobs[i], l.jobs[..i]);
        assert Due(w, l, l.jobs[i]);
        assert GateOk(w, l, l.jobs[i].task);
      }
    } else {
      var rx, k := l.tasks[t].tailRx, i - |base|;
      assert r.jobs[i] == rx[k] && rx[k] in rx;
      assert Registered(w, l, t, rx[k]);
      assert r.jobs[..i] == base + rx[..k];
      if w.cleanup == OnTail && k > 0 {
        assert rx[..k][0] == Cleanup(t);
      } else if w.cleanup == OnResult && !l.tasks[t].cleaned {
        assert Due(w, l, Cleanup(t));
        assert Cleanup(t) in base;
      }
    }
  }

  lemma FinishWithHopDue<K(!new)>(w: Wiring, l: Loop<K>, t: nat, ok: bool, j: Job)
    requires Arranged(w) && Resilient(w) && LoopInv(w, l) && CanFinish(l, t) && w.hop
    ensures var r := SettleResult(w, l, t, ok);
            (j in r.jobs <==> Due(w, r, j)) && !Due(w, l, Forward(t)) && !Due(w, l, Cleanup(t))
  {
    hide RxOk, InFront, InOrder;
    var r := SettleResult(w, l, t, ok);
    assert FlagsOk(w, l, t);
    assert j in l.jobs <==> Due(w, l, j);
    if j.task < |l.tasks| { assert GateOk(w, l, j.task); }
  }

  lemma FinishWithHopInFront<K(!new)>(w: Wiring, l: Loop<K>, t: nat, ok: bool, i: nat)
    requires Arranged(w) && Resilient(w) && LoopInv(w, l) && CanFinish(l, t) && w.hop
    ensures var r := SettleResult(w, l, t, ok); i < |r.jobs| ==> InFront(w, r, r.jobs[i], r.jobs[..i])
  {
    hide RxOk, InOrder;
    var r := SettleResult(w, l, t, ok);
    assert FlagsOk(w, l, t);
    if i < |l.jobs| {
      assert r.jobs[..i] == l.jobs[..i] && r.jobs[i] == l.jobs[i];
      assert InFront(w, l, l.jobs[i], l.jobs[..i]);
      assert Due(w, l, l.jobs[i]);
      assert GateOk(w, l, l.jobs[i].task);
    } else if |l.jobs| < i < |r.jobs| {
      assert r.jobs[..i][|l.jobs|] == Forward(t);
    }
  }

  lemma FinishWithHopJobs<K(!new)>(w: Wiring, l: Loop<K>, t: nat, ok: bool)
    requires Arranged(w) && Resilient(w) && LoopInv(w, l) && CanFinish(l, t) && w.hop
    ensures JobsOk(w, SettleResult(w, l, t, ok))
  {
    hide Due, InFront, RxOk, FlagsOk, GateOk, InOrder;
    var r := SettleResult(w, l, t, ok);
    forall j ensures j in r.jobs <==> Due(w, r, j) { FinishWithHopDue(w, l, t, ok, j); }
    forall i | 0 <= i < |r.jobs| ensures InFront(w, r, r.jobs[i], r.jobs[..i]) { FinishWithHopInFront(w, l, t, ok, i); }
    assert Forward(t) !in l.jobs && Cleanup(t) !in l.jobs by {
      FinishWithHopDue(w, l, t, ok, Forward(t));
      assert Forward(t) in l.jobs <==> Due(w, l, Forward(t));
      assert Cleanup(t) in l.jobs <==> Due(w, l, Cleanup(t));
    }
  }

  lemma FinishWithHop<K(!new)>(w: Wiring, l: Loop<K>, t: nat, ok: bool)
    requires Arranged(w) && Resilient(w) && LoopInv(w, l) && CanFinish(l, t) && w.hop
    ensures LoopInv(w, SettleResult(w, l, t, ok))
  {
    var r := SettleResult(w, l, t, ok);
    assert FlagsOk(w, l, t) && RxOk(w, l, t);
    ChangeKeepsOrder(w, l, r, t);
    ChangeKeepsReactions(w, l, r, t);
    FinishWithHopJobs(w, l, t, ok);
  }

  /** Settling a running task, in either outcome, keeps the invariant. */
  lemma FinishKeepsInv<K(!new)>(w: Wiring, l: Loop<K>, t: nat, ok: bool)
    requires Arranged(w) && Resilient(w) && LoopInv(w, l) && CanFinish(l, t)
    ensures LoopInv(w, SettleResult(w, l, t, ok))
  {
    if w.hop {
      FinishWithHop(w, l, t, ok);
    } else {
      assert FlagsOk(w, l, t);
      SettledTailKeepsInv(w, l, l.jobs, SettleResult(w, l, t, ok), t);
    }
  }

  lemma HeadIsRunnable<K(!new)>(w: Wiring, l: Loop<K>)
    requires LoopInv(w, l) && l.jobs != []
    ensures HeadReady(l)
  {
    assert l.jobs[0] in l.jobs;
    assert Due(w, l, l.jobs[0]);
    assert GateOk(w, l, l.jobs[0].task);
  }

  /** Running the next reaction keeps the invariant, and a Start job always reaches its task. */
  lemma RunHeadKeepsInv<K(!new)>(w: Wiring, l: Loop<K>)
    requires Arranged(w) && Resilient(w) && LoopInv(w, l) && l.jobs != []
    ensures l.jobs[0].task < |l.tasks|
    ensures HeadReady(l) && LoopInv(w, RunHead(w, l))
    ensures l.jobs[0].Start? ==> RunHead(w, l).tasks[l.jobs[0].task].started
  {
    HeadIsRunnable(w, l);
    var t := l.jobs[0].task;
    match l.jobs[0]
    case Start(_) =>
      GateIsClosed(w, l, t);
      RunStart(w, l, t);
    case Forward(_) =>
      assert Due(w, l, Forward(t)) && FlagsOk(w, l, t);
      SettledTailKeepsInv(w, l, l.jobs[1..], RunHead(w, l), t);
    case Cleanup(_) =>
      RunCleanup(w, l, t);
  }

  lemma NoStartYet<K(!new)>(w: Wiring, l: Loop<K>)
    requires LoopInv(w, l)
    ensures Start(|l.tasks|) !in l.jobs
  {
    assert !Due(w, l, Start(|l.tasks|));
  }

  /** A submission behind a good gate queues its start at once exactly when every earlier task of its key has settled
      its tail; otherwise no job is queued. */
  lemma StartsExactlyWhen<K(!new)>(w: Wiring, l: Loop<K>, key: K, gate: Option<nat>)
    requires LoopInv(w, l) && GoodGate(w, l, key, gate)
    ensures var r, t := Submit(w, l, key, gate), |l.tasks|;
            && r.jobs == l.jobs + (if Start(t) in r.jobs then [Start(t)] else [])
            && (Start(t) in r.jobs <==> forall u | 0 <= u < t && l.tasks[u].key == key :: l.tasks[u].tail.Some?)
  {
    NoStartYet(w, l);
    if gate.Some? {
      var g := gate.value;
      assert FlagsOk(w, l, g);
      assert l.tasks[g].tail.Some? ==> forall u | 0 <= u < g && l.tasks[u].key == key :: Closed(w, l.tasks[u]);
    }
  }

  // --- Refinement of the abstract per-key queue ---

  ghost function StageOf<K>(task: Task<K>): KeyedFifo.Stage {
    if task.result.Some? then KeyedFifo.Finished(task.result.value)
    else if task.started then KeyedFifo.Running else KeyedFifo.Waiting
  }

  ghost function Abs<K>(l: Loop<K>): KeyedFifo.State<K> {
    KeyedFifo.State(seq(|l.tasks|, i requires 0 <= i < |l.tasks| => l.tasks[i].key),
                    seq(|l.tasks|, i requires 0 <= i < |l.tasks| => StageOf(l.tasks[i])))
  }

  lemma EmptyLoopIsGood<K(!new)>(w: Wiring, l: Loop<K>)
    requires |l.tasks| == 0 && |l.jobs| == 0
    ensures LoopInv(w, l)
  {
  }

  lemma AbsKeepsInv<K(!new)>(w: Wiring, l: Loop<K>)
    requires LoopInv(w, l)
    ensures KeyedFifo.Inv(Abs(l))
  {
    forall p, t | 0 <= p < t < |l.tasks| && l.tasks[p].key == l.tasks[t].key && StageOf(l.tasks[t]) != KeyedFifo.Waiting
      ensures l.tasks[p].result.Some?
    {
      assert FlagsOk(w, l, t);
    }
  }

  ghost predicate StepsTo<K(!new)>(l: Loop<K>, step: KeyedFifo.Step<K>, r: Loop<K>) {
    KeyedFifo.Enabled(Abs(l), step) && KeyedFifo.Apply(Abs(l), step) == Abs(r)
  }

  // What a step does to the queues: nothing, or an abstract step under which every key's queue moves as it should.
  ghost predicate QueuesMove<K(!new)>(l: Loop<K>, step: Option<KeyedFifo.Step<K>>, r: Loop<K>) {
    && KeyedFifo.Inv(Abs(l)) && KeyedFifo.Inv(Abs(r))
    && if step.None? then Abs(l) == Abs(r)
       else StepsTo(l, step.value, r) && forall k :: KeyedFifo.KeyMoves(Abs(l), step.value, k, Abs(r))
  }

  lemma StepMovesQueues<K(!new)>(w: Wiring, l: Loop<K>, step: Option<KeyedFifo.Step<K>>, r: Loop<K>)
    requires LoopInv(w, l)
    ensures (if step.None? then Abs(l) == Abs(r) else StepsTo(l, step.value, r)) ==> QueuesMove(l, step, r)
  {
    hide LoopInv, Abs;
    AbsKeepsInv(w, l);
    if step.Some? && StepsTo(l, step.value, r) {
      KeyedFifo.StepKeepsInv(Abs(l), step.value);
      forall k ensures KeyedFifo.KeyMoves(Abs(l), step.value, k, Abs(r)) {
        KeyedFifo.StepIsQueueStep(Abs(l), step.value, k);
      }
    }
  }

  /** Each step of a promise chain is a step of the abstract queue or changes nothing there. */
  lemma SubmitRefines<K(!new)>(w: Wiring, l: Loop<K>, key: K, gate: Option<nat>)
    requires gate.Some? ==> gate.value < |l.tasks|
    ensures StepsTo(l, KeyedFifo.Submit(key), Submit(w, l, key, gate))
  {
    var r := Submit(w, l, key, gate);
    assert Abs(r).keys == Abs(l).keys + [key];
    assert Abs(r).stage == Abs(l).stage + [KeyedFifo.Waiting];
  }

  lemma RunHeadRefines<K(!new)>(w: Wiring, l: Loop<K>)
    requires Arranged(w) && Resilient(w) && LoopInv(w, l) && HeadReady(l)
    ensures var j, r := l.jobs[0], RunHead(w, l);
            if j.Start? then StepsTo(l, KeyedFifo.Start(j.task), r) else Abs(l) == Abs(r)
  {
    var j, r := l.jobs[0], RunHead(w, l);
    assert j in l.jobs && Due(w, l, j) && FlagsOk(w, l, j.task);
    RunHeadKeepsInv(w, l);
    if j.Start? {
      GateIsClosed(w, l, j.task);
      assert Abs(r).stage == Abs(l).stage[j.task := KeyedFifo.Running];
    }
  }

  lemma FinishRefines<K(!new)>(w: Wiring, l: Loop<K>, t: nat, ok: bool)
    requires CanFinish(l, t)
    ensures StepsTo(l, KeyedFifo.Finish(t, ok), SettleResult(w, l, t, ok))
  {
    assert Abs(SettleResult(w, l, t, ok)).stage == Abs(l).stage[t := KeyedFifo.Finished(ok)];
  }

  // --- Runs of loops ---

  // Each step moves the queues as the queue machine does.
  ghost predicate QueueRun<K(!new)>(ls: seq<Loop<K>>, qs: seq<Option<KeyedFifo.Step<K>>>) {
    |ls| == |qs| + 1 && forall i | 0 <= i < |qs| :: QueuesMove(ls[i], qs[i], ls[i + 1])
  }

  // Tasks keep their number and key, and once started or settled they stay so, with that outcome.
  ghost predicate GoesOn<K>(l: Loop<K>, r: Loop<K>) {
    |l.tasks| <= |r.tasks| && forall t | 0 <= t < |l.tasks| :: TaskGoesOn(l.tasks[t], r.tasks[t])
  }

  ghost predicate TaskGoesOn<K>(a: Task<K>, b: Task<K>) {
    && b.key == a.key
    && (a.result.Some? ==> b.result == a.result)
    && (a.started || a.result.Some? ==> b.started || b.result.Some?)
  }

  lemma StepGoesOn<K(!new)>(l: Loop<K>, step: Option<KeyedFifo.Step<K>>, r: Loop<K>)
    requires QueuesMove(l, step, r)
    ensures GoesOn(l, r)
  {
    var a, b := Abs(l), Abs(r);
    assert |b.keys| == |r.tasks| && |a.keys| == |l.tasks|;
    forall t | 0 <= t < |l.tasks| ensures t < |r.tasks| && TaskGoesOn(l.tasks[t], r.tasks[t]) {
      assert a.keys[t] == b.keys[t];
      assert a.stage[t] == StageOf(l.tasks[t]) && b.stage[t] == StageOf(r.tasks[t]);
    }
  }

  lemma {:induction false} RunGoesOn<K(!new)>(ls: seq<Loop<K>>, qs: seq<Option<KeyedFifo.Step<K>>>, m: nat, n: nat)
    requires QueueRun(ls, qs) && m <= n < |ls|
    ensures GoesOn(ls[m], ls[n])
    decreases n
  {
    hide QueuesMove;
    if m < n {
      RunGoesOn(ls, qs, m, n - 1);
      StepGoesOn(ls[n - 1], qs[n - 1], ls[n]);
    }
  }

  /** In every run of the queues a submitted task keeps its key, and a settled one the outcome it settled with. */
  lemma TasksKeepTheirOwn<K(!new)>(ls: seq<Loop<K>>, qs: seq<Option<KeyedFifo.Step<K>>>, m: nat, n: nat)
    requires QueueRun(ls, qs) && m < n < |ls| && qs[m].Some?
    ensures match qs[m].value
            case Submit(key) => |ls[m].tasks| < |ls[n].tasks| && ls[n].tasks[|ls[m].tasks|].key == key
            case Start(t) => t < |ls[n].tasks| && (ls[n].tasks[t].started || ls[n].tasks[t].result.Some?)
            case Finish(t, ok) => t < |ls[n].tasks| && ls[n].tasks[t].result == Some(ok)
  {
    RunGoesOn(ls, qs, m + 1, n);
    hide GoesOn;
    StepMakes(ls[m], qs[m].value, ls[m + 1]);
    GoesOnHere(ls[m + 1], ls[n], if qs[m].value.Submit? then |ls[m].tasks| else qs[m].value.task);
  }

  lemma GoesOnHere<K>(l: Loop<K>, r: Loop<K>, t: nat)
    requires GoesOn(l, r) && t < |l.tasks|
    ensures t < |r.tasks| && TaskGoesOn(l.tasks[t], r.tasks[t])
  {
  }

  lemma StepMakes<K(!new)>(l: Loop<K>, step: KeyedFifo.Step<K>, r: Loop<K>)
    requires QueuesMove(l, Some(step), r)
    ensures match step
            case Submit(key) => |r.tasks| == |l.tasks| + 1 && r.tasks[|l.tasks|].key == key
            case Start(t) => t < |r.tasks| && (r.tasks[t].started || r.tasks[t].result.Some?)
            case Finish(t, ok) => t < |r.tasks| && r.tasks[t].result == Some(ok)
  {
    var a, b := Abs(l), Abs(r);
    assert |b.keys| == |r.tasks| && |a.keys| == |l.tasks|;
    match step
    case Submit(key) => assert b.keys[|l.tasks|] == key;
    case Start(t) => assert b.stage[t] == StageOf(r.tasks[t]);
    case Finish(t, ok) => assert b.stage[t] == StageOf(r.tasks[t]);
  }

  // --- Nothing is left behind ---

  ghost predicate Idle<K(!new)>(l: Loop<K>) {
    l.jobs == [] && forall t: nat :: !CanFinish(l, t)
  }

  /** Once no reaction is queued and no task is running, every submitted task has run, settled and cleaned up. */
  lemma IdleIsAllClosed<K(!new)>(w: Wiring, l: Loop<K>)
    requires Arranged(w) && LoopInv(w, l) && Idle(l)
    ensures forall t | 0 <= t < |l.tasks| :: Closed(w, l.tasks[t])
  {
    forall t | 0 <= t < |l.tasks| ensures Closed(w, l.tasks[t]) {
      IdleIsClosed(w, l, t);
    }
  }

  lemma {:induction false} IdleIsClosed<K(!new)>(w: Wiring, l: Loop<K>, t: nat)
    requires Arranged(w) && LoopInv(w, l) && Idle(l) && t < |l.tasks|
    ensures Closed(w, l.tasks[t])
  {
    assert GateOk(w, l, t) && FlagsOk(w, l, t);
    if l.tasks[t].gate.Some? {
      IdleIsClosed(w, l, l.tasks[t].gate.value);
    }
    assert !Due(w, l, Start(t)) && !Due(w, l, Forward(t)) && !Due(w, l, Cleanup(t));
    assert !CanFinish(l, t);
  }

  // What is left to happen to the tasks.
  ghost function Left<K>(task: Task<K>): nat {
    (if task.started then 0 else 1) + (if task.result.Some? then 0 else 1)
    + (if task.tail.Some? then 0 else 1) + (if task.cleaned then 0 else 1)
  }

  ghost function Work<K>(tasks: seq<Task<K>>): nat {
    if tasks == [] then 0 else Work(tasks[..|tasks| - 1]) + Left(tasks[|tasks| - 1])
  }

  lemma {:induction false} WorkDrops<K>(tasks: seq<Task<K>>, t: nat, task: Task<K>)
    requires t < |tasks|
    ensures Work(tasks[t := task]) == Work(tasks) - Left(tasks[t]) + Left(task)
  {
    var n := |tasks| - 1;
    if t < n {
      WorkDrops(tasks[..n], t, task);
      assert tasks[t := task][..n] == tasks[..n][t := task];
    } else {
      assert tasks[t := task][..n] == tasks[..n];
    }
  }

  /** Every reaction and every settled task uses up work, so a run without further submissions ends. */
  lemma StepsUseUpWork<K(!new)>(w: Wiring, l: Loop<K>)
    requires Arranged(w) && Resilient(w) && LoopInv(w, l)
    ensures HeadReady(l) ==> Work(RunHead(w, l).tasks) < Work(l.tasks)
    ensures forall t: nat, ok | CanFinish(l, t) :: Work(SettleResult(w, l, t, ok).tasks) < Work(l.tasks)
  {
    if HeadReady(l) {
      var j, r := l.jobs[0], RunHead(w, l);
      assert j in l.jobs && Due(w, l, j) && FlagsOk(w, l, j.task);
      RunHeadKeepsInv(w, l);
      assert r.tasks == l.tasks[j.task := r.tasks[j.task]];
      WorkDrops(l.tasks, j.task, r.tasks[j.task]);
    }
    forall t: nat, ok | CanFinish(l, t) ensures Work(SettleResult(w, l, t, ok).tasks) < Work(l.tasks) {
      var r := SettleResult(w, l, t, ok);
      assert r.tasks == l.tasks[t := r.tasks[t]];
      WorkDrops(l.tasks, t, r.tasks[t]);
    }
  }
}
