/** The abstract machine behind the promise-chain schedulers: tasks are numbered in submission
    order, each carries a key, and per key they are run one at a time in that order. */
module KeyedFifo {

  datatype Stage = Waiting | Running | Finished(ok: bool)

  datatype State<K> = State(keys: seq<K>, stage: seq<Stage>)

  datatype Step<K> = Submit(key: K) | Start(task: nat) | Finish(task: nat, ok: bool)

  ghost predicate Enabled<K(!new)>(s: State<K>, step: Step<K>) {
    match step
    case Submit(_) => true
    case Start(t) => CanStart(s, t)
    case Finish(t, _) => t < |s.stage| && s.stage[t] == Running
  }

  ghost predicate CanStart<K(!new)>(s: State<K>, t: nat) {
    && t < |s.keys| == |s.stage|
    && s.stage[t] == Waiting
    && forall p | 0 <= p < t && s.keys[p] == s.keys[t] :: s.stage[p].Finished?
  }

  ghost function Apply<K(!new)>(s: State<K>, step: Step<K>): State<K>
    requires Enabled(s, step)
  {
    match step
    case Submit(k) => State(s.keys + [k], s.stage + [Waiting])
    case Start(t) => s.(stage := s.stage[t := Running])
    case Finish(t, ok) => s.(stage := s.stage[t := Finished(ok)])
  }

  // A task that left Waiting has no unfinished task of its key in front of it.
  ghost predicate Inv<K(!new)>(s: State<K>) {
    && |s.keys| == |s.stage|
    && forall p, t | 0 <= p < t < |s.keys| && s.keys[p] == s.keys[t] && s.stage[t] != Waiting ::
         s.stage[p].Finished?
  }

  lemma StepKeepsInv<K(!new)>(s: State<K>, step: Step<K>)
    requires Inv(s) && Enabled(s, step)
    ensures Inv(Apply(s, step))
  {
  }

  // The queue of one key: its unfinished tasks among the first n, oldest first.
  ghost function Queue<K(!new)>(s: State<K>, k: K, n: nat): seq<nat>
    requires n <= |s.keys| == |s.stage|
  {
    if n == 0 then []
    else if s.keys[n - 1] == k && !s.stage[n - 1].Finished? then Queue(s, k, n - 1) + [n - 1]
    else Queue(s, k, n - 1)
  }

  lemma {:induction false} QueueMembers<K(!new)>(s: State<K>, k: K, n: nat)
    requires n <= |s.keys| == |s.stage|
    ensures forall t: nat :: t in Queue(s, k, n) <==> t < n && s.keys[t] == k && !s.stage[t].Finished?
    ensures forall i, j | 0 <= i < j < |Queue(s, k, n)| :: Queue(s, k, n)[i] < Queue(s, k, n)[j]
  {
    if n > 0 {
      QueueMembers(s, k, n - 1);
      var q := Queue(s, k, n - 1);
      assert forall i | 0 <= i < |q| :: q[i] in q;
    }
  }

  lemma {:induction false} QueueDependsOnUnfinished<K(!new)>(s: State<K>, s': State<K>, k: K, n: nat)
    requires n <= |s.keys| == |s.stage| && n <= |s'.keys| == |s'.stage|
    requires forall t | 0 <= t < n :: s.keys[t] == s'.keys[t]
    requires forall t | 0 <= t < n && s.keys[t] == k :: s.stage[t].Finished? <==> s'.stage[t].Finished?
    ensures Queue(s, k, n) == Queue(s', k, n)
  {
    if n > 0 {
      QueueDependsOnUnfinished(s, s', k, n - 1);
    }
  }

  lemma {:induction false} QueueEmpty<K(!new)>(s: State<K>, k: K, n: nat)
    requires n <= |s.keys| == |s.stage|
    requires forall t | 0 <= t < n && s.keys[t] == k :: s.stage[t].Finished?
    ensures Queue(s, k, n) == []
  {
    if n > 0 {
      QueueEmpty(s, k, n - 1);
    }
  }

  lemma {:induction false} QueueDropsHead<K(!new)>(s: State<K>, t: nat, ok: bool, n: nat)
    requires Inv(s) && t < n <= |s.keys| && s.stage[t] == Running
    ensures Queue(s, s.keys[t], n) == [t] + Queue(Apply(s, Finish(t, ok)), s.keys[t], n)
  {
    var k, s' := s.keys[t], Apply(s, Finish(t, ok));
    if n == t + 1 {
      QueueEmpty(s, k, t);
      QueueEmpty(s', k, t);
    } else {
      QueueDropsHead(s, t, ok, n - 1);
    }
  }

  // What one step does to the queue of key k.
  ghost predicate QueueStep<K(!new)>(s: State<K>, step: Step<K>, k: K, q: seq<nat>, q': seq<nat>)
    requires Inv(s) && Enabled(s, step)
  {
    match step
    case Submit(key) => q' == if key == k then q + [|s.keys|] else q
    case Start(t) => q' == q && (s.keys[t] == k ==> q != [] && q[0] == t)
    case Finish(t, _) => if s.keys[t] == k then q == [t] + q' else q' == q
  }

  // The queue of key k before and after a step.
  ghost predicate KeyMoves<K(!new)>(s: State<K>, step: Step<K>, k: K, s': State<K>)
    requires Inv(s) && Enabled(s, step) && Inv(s')
  {
    QueueStep(s, step, k, Queue(s, k, |s.keys|), Queue(s', k, |s'.keys|))
  }

  /** Every step is a step of the per-key queues: submitting appends to one queue, only the head
      of a queue can start, and finishing removes that head; other queues are untouched. */
  lemma StepIsQueueStep<K(!new)>(s: State<K>, step: Step<K>, k: K)
    requires Inv(s) && Enabled(s, step)
    ensures var s' := Apply(s, step); QueueStep(s, step, k, Queue(s, k, |s.keys|), Queue(s', k, |s'.keys|))
  {
    var s', n := Apply(s, step), |s.keys|;
    match step
    case Submit(key) =>
      QueueDependsOnUnfinished(s, s', k, n);
    case Start(t) =>
      QueueDependsOnUnfinished(s, s', k, n);
      if s.keys[t] == k {
        QueueMembers(s, k, n);
        var q := Queue(s, k, n);
        assert t in q;
        assert q[0] in q;
      }
    case Finish(t, _) =>
      if s.keys[t] == k {
        QueueDropsHead(s, t, step.ok, n);
      } else {
        QueueDependsOnUnfinished(s, s', k, n);
      }
  }
}
