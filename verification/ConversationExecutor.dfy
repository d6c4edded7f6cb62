/** The two-lane conversation executor: per conversation a record with the tail promise of every
    busy session key and a count of running control tasks, dropped as soon as both are empty. */
module ConversationExecutor {
  import opened Options
  import opened PromiseLoop
  import KeyedFifo

  const DEFAULT_SESSION_KEY := "__chat__"

  // `next` is its own tail, both handlers call the task, and finally() is registered on `next`.
  const WIRING := Wiring(false, OnTail, false, true)

  datatype Lane = Normal | Control

  // Normal tasks of one conversation and session key form a chain; every control task stands alone.
  datatype ChainKey = NormalKey(conv: string, session: string) | ControlKey(conv: string, id: nat)

  datatype Record = Record(normalTails: map<string, nat>, activeControls: int)

  // `states` maps a conversation to its record's identity; recordOf is the record each task's closure holds.
  datatype State = State(loop: Loop<ChainKey>, states: map<string, nat>, records: seq<Record>, recordOf: seq<nat>)

  const EMPTY := State(Loop([], []), map[], [], [])

  // --- Specification of the operations ---

  function GetState(s: State, conv: string): (r: (State, nat))
  {
    if conv in s.states then (s, s.states[conv])
    else (s.(states := s.states[conv := |s.records|], records := s.records + [Record(map[], 0)]), |s.records|)
  }

  // run() on an existing record.
  function Submitted(s: State, conv: string, record: nat, lane: Lane, sessionKey: Option<string>): State
    requires record < |s.records|
    requires TailsInRange(s, record)
  {
    var t, rec := |s.loop.tasks|, s.records[record];
    if lane == Control then
      s.(loop := Submit(WIRING, s.loop, ControlKey(conv, t), None),
         records := s.records[record := rec.(activeControls := rec.activeControls + 1)],
         recordOf := s.recordOf + [record])
    else
      var k := if sessionKey.Some? then sessionKey.value else DEFAULT_SESSION_KEY;
      var previous := if k in rec.normalTails then Some(rec.normalTails[k]) else None;
      s.(loop := Submit(WIRING, s.loop, NormalKey(conv, k), previous),
         records := s.records[record := rec.(normalTails := rec.normalTails[k := t])],
         recordOf := s.recordOf + [record])
  }

  function Run(s: State, conv: string, lane: Lane, sessionKey: Option<string>): State
    requires Wf(s)
  {
    var (s', record) := GetState(s, conv);
    assert record < |s.records| ==> TailsInRange(s, record);
    Submitted(s', conv, record, lane, sessionKey)
  }

  // cleanupState deletes by conversation id, without looking at which record is stored there.
  function CleanupState(s: State, conv: string, record: nat): State
    requires record < |s.records|
  {
    if s.records[record].normalTails == map[] && s.records[record].activeControls == 0 then
      s.(states := s.states - {conv})
    else s
  }

  // The body of task t's finally reaction.
  function Finally(s: State, t: nat): State
    requires t < |s.loop.tasks| == |s.recordOf| && s.recordOf[t] < |s.records|
  {
    var record, rec, key := s.recordOf[t], s.records[s.recordOf[t]], s.loop.tasks[t].key;
    var rec' := match key
      case ControlKey(_, _) => rec.(activeControls := rec.activeControls - 1)
      case NormalKey(_, k) =>
        if k in rec.normalTails && rec.normalTails[k] == t then rec.(normalTails := rec.normalTails - {k}) else rec;
    CleanupState(s.(records := s.records[record := rec']), key.conv, record)
  }

  function RunReaction(s: State): State
    requires Wf(s) && HeadReady(s.loop)
  {
    var s' := s.(loop := RunHead(WIRING, s.loop));
    if s.loop.jobs[0].Cleanup? then Finally(s', s.loop.jobs[0].task) else s'
  }

  function TaskSettles(s: State, t: nat, ok: bool): State
    requires CanFinish(s.loop, t)
  {
    s.(loop := SettleResult(WIRING, s.loop, t, ok))
  }

  // --- Invariant ---

  // References stay in range.
  ghost predicate Wf(s: State) {
    && |s.recordOf| == |s.loop.tasks|
    && (forall t | 0 <= t < |s.recordOf| :: s.recordOf[t] < |s.records|)
    && (forall c | c in s.states :: s.states[c] < |s.records|)
    && (forall r | 0 <= r < |s.records| :: TailsInRange(s, r))
  }

  ghost predicate TailsInRange(s: State, r: nat)
    requires r < |s.records|
  {
    forall k | k in s.records[r].normalTails :: s.records[r].normalTails[k] < |s.loop.tasks|
  }

  ghost predicate Unfinished(s: State, t: nat) {
    t < |s.loop.tasks| && !s.loop.tasks[t].cleaned
  }

  // An unfinished task can be found again through the maps, in the record its closure holds.
  ghost predicate Tracked(s: State, t: nat)
    requires Wf(s) && t < |s.loop.tasks|
  {
    var key := s.loop.tasks[t].key;
    && key.conv in s.states
    && s.states[key.conv] == s.recordOf[t]
    && (key.NormalKey? ==> key.session in s.records[s.recordOf[t]].normalTails)
  }

  ghost function OpenControls(s: State, r: nat): set<nat>
    requires |s.recordOf| == |s.loop.tasks|
  {
    set t | 0 <= t < |s.loop.tasks| && s.recordOf[t] == r && s.loop.tasks[t].key.ControlKey? && !s.loop.tasks[t].cleaned
  }

  ghost predicate TailOk(s: State, conv: string, k: string, p: nat, r: nat)
    requires |s.recordOf| == |s.loop.tasks|
  {
    IsLatest(s.loop, p, NormalKey(conv, k)) && Unfinished(s, p) && s.recordOf[p] == r
  }

  // A stored record holds exactly the unfinished work of its conversation, and some of it.
  ghost predicate RecordOk(s: State, conv: string)
    requires Wf(s) && conv in s.states
  {
    var r := s.states[conv];
    var rec := s.records[r];
    && (forall k | k in rec.normalTails :: TailOk(s, conv, k, rec.normalTails[k], r))
    && rec.activeControls == |OpenControls(s, r)|
    && (rec.normalTails != map[] || rec.activeControls != 0)
  }

  // Every task holding the record stored for c belongs to c.
  ghost predicate RecordsOwned(s: State)
    requires Wf(s)
  {
    forall c, t | c in s.states && 0 <= t < |s.recordOf| && s.recordOf[t] == s.states[c] ::
        s.loop.tasks[t].key.conv == c
  }

  ghost predicate AllTracked(s: State)
    requires Wf(s)
  {
    forall t: nat | Unfinished(s, t) :: Tracked(s, t)
  }

  ghost predicate Bookkept(s: State) {
    && Wf(s)
    && (forall t | 0 <= t < |s.loop.tasks| && s.loop.tasks[t].key.ControlKey? :: s.loop.tasks[t].key.id == t)
    && AllTracked(s)
    && (forall c | c in s.states :: RecordOk(s, c))
    && RecordsOwned(s)
  }

  ghost predicate Inv(s: State) {
    LoopInv(WIRING, s.loop) && Bookkept(s)
  }

  // --- Submitting ---

  lemma GateIsGood(s: State, conv: string, k: string)
    requires Inv(s)
    ensures var tails := if conv in s.states then s.records[s.states[conv]].normalTails else map[];
            GoodGate(WIRING, s.loop, NormalKey(conv, k), if k in tails then Some(tails[k]) else None)
  {
    assert conv in s.states ==> RecordOk(s, conv);
    forall p | 0 <= p < |s.loop.tasks| && s.loop.tasks[p].key == NormalKey(conv, k) && s.loop.tasks[p].cleaned
      ensures Closed(WIRING, s.loop.tasks[p])
    {
      assert FlagsOk(WIRING, s.loop, p);
    }
    assert forall p | 0 <= p < |s.loop.tasks| && s.loop.tasks[p].key == NormalKey(conv, k) ::
        Unfinished(s, p) ==> Tracked(s, p);
  }

  // Two conversations never share a record.
  lemma RecordsDiffer(s: State, c: string, conv: string)
    requires Bookkept(s) && c in s.states && c != conv
    ensures GetState(s, conv).1 != s.states[c]
  {
    assert RecordOk(s, c);
  }

  lemma RunKeepsWf(s: State, conv: string, lane: Lane, sessionKey: Option<string>)
    requires Wf(s)
    ensures Wf(Run(s, conv, lane, sessionKey))
  {
    var s' := Run(s, conv, lane, sessionKey);
    forall x | 0 <= x < |s'.records| ensures TailsInRange(s', x) {
      assert x < |s.records| ==> TailsInRange(s, x);
    }
  }

  ghost predicate AddsTask(s: State, s': State, r: nat, key: ChainKey) {
    var n := |s.loop.tasks|;
    && |s.recordOf| == n && |s'.loop.tasks| == n + 1 && s'.recordOf == s.recordOf + [r]
    && (forall t | 0 <= t < n ::
          s'.loop.tasks[t].key == s.loop.tasks[t].key && s'.loop.tasks[t].cleaned == s.loop.tasks[t].cleaned)
    && !s'.loop.tasks[n].cleaned && s'.loop.tasks[n].key == key
  }

  // What submitting one task to record r of conversation conv changes.
  ghost predicate Adds(s: State, s': State, conv: string, r: nat, key: ChainKey) {
    var n := |s.loop.tasks|;
    && Wf(s) && Wf(s') && key.conv == conv && (key.ControlKey? ==> key.id == n)
    && AddsTask(s, s', r, key)
    && s'.states == s.states[conv := r]
    && (if conv in s.states then s.states[conv] == r && |s'.records| == |s.records|
        else r == |s.records| && |s'.records| == r + 1)
    && (forall x | 0 <= x < |s.records| && x != r :: s'.records[x] == s.records[x])
    && var rec := if conv in s.states then s.records[r] else Record(map[], 0);
       s'.records[r] == if key.ControlKey? then rec.(activeControls := rec.activeControls + 1)
                        else rec.(normalTails := rec.normalTails[key.session := n])
  }

  lemma RunAdds(s: State, conv: string, lane: Lane, sessionKey: Option<string>)
    requires Wf(s)
    ensures var s' := Run(s, conv, lane, sessionKey);
            Adds(s, s', conv, GetState(s, conv).1, s'.loop.tasks[|s.loop.tasks|].key)
  {
    RunKeepsWf(s, conv, lane, sessionKey);
    var s', n := Run(s, conv, lane, sessionKey), |s.loop.tasks|;
    assert forall t | 0 <= t < n :: s'.loop.tasks[t] == s.loop.tasks[t].(tailRx := s'.loop.tasks[t].tailRx);
  }

  lemma AddKeepsTail(s: State, s': State, conv: string, r: nat, key: ChainKey, c: string, k: string)
    requires Adds(s, s', conv, r, key) && c in s'.states && k in s'.records[s'.states[c]].normalTails
    requires key != NormalKey(c, k) ==>
               && c in s.states && k in s.records[s.states[c]].normalTails
               && TailOk(s, c, k, s.records[s.states[c]].normalTails[k], s.states[c])
               && (c != conv ==> s.states[c] != r)
    ensures TailOk(s', c, k, s'.records[s'.states[c]].normalTails[k], s'.states[c])
  {
  }

  lemma AddControls(s: State, s': State, r: nat, key: ChainKey, x: nat)
    requires AddsTask(s, s', r, key)
    ensures |OpenControls(s', x)| == |OpenControls(s, x)| + if key.ControlKey? && x == r then 1 else 0
  {
    var n := |s.loop.tasks|;
    assert n !in OpenControls(s, x);
    assert OpenControls(s', x) == OpenControls(s, x) + if key.ControlKey? && x == r then {n} else {};
  }

  lemma AddKeepsRecord(s: State, s': State, conv: string, r: nat, key: ChainKey, c: string)
    requires Adds(s, s', conv, r, key) && c in s'.states
    requires c in s.states ==> RecordOk(s, c) && (c != conv ==> s.states[c] != r)
    ensures RecordOk(s', c)
  {
    var rc := s'.states[c];
    AddControls(s, s', r, key, rc);
    assert c !in s.states ==> OpenControls(s, rc) == {};
    forall k | k in s'.records[rc].normalTails ensures TailOk(s', c, k, s'.records[rc].normalTails[k], rc) {
      AddKeepsTail(s, s', conv, r, key, c, k);
    }
    assert c == conv && key.NormalKey? ==> key.session in s'.records[rc].normalTails;
  }

  lemma AddKeepsTracked(s: State, s': State, conv: string, r: nat, key: ChainKey)
    requires Adds(s, s', conv, r, key) && AllTracked(s) && RecordsOwned(s)
    requires forall c | c in s.states && c != conv :: s.states[c] != r
    ensures AllTracked(s') && RecordsOwned(s')
  {
    forall t: nat | Unfinished(s', t) ensures Tracked(s', t) {
      assert t < |s.loop.tasks| ==> Unfinished(s, t) && Tracked(s, t);
    }
  }

  lemma AddKeepsBook(s: State, s': State, conv: string, r: nat, key: ChainKey)
    requires Bookkept(s) && Adds(s, s', conv, r, key)
    ensures Bookkept(s')
  {
    hide RecordOk, Tracked;
    forall c | c in s.states && c != conv ensures s.states[c] != r {
      RecordsDiffer(s, c, conv);
    }
    AddKeepsTracked(s, s', conv, r, key);
    forall c | c in s'.states ensures RecordOk(s', c) {
      assert c in s.states ==> RecordOk(s, c);
      AddKeepsRecord(s, s', conv, r, key, c);
    }
  }

  // run() touches the promises only by one submission, behind a task that exists.
  lemma RunSubmits(s: State, conv: string, lane: Lane, sessionKey: Option<string>)
    requires Wf(s)
    ensures var s' := Run(s, conv, lane, sessionKey);
            var task := s'.loop.tasks[|s.loop.tasks|];
            && (task.gate.Some? ==> task.gate.value < |s.loop.tasks|)
            && s'.loop == Submit(WIRING, s.loop, task.key, task.gate)
  {
    assert conv in s.states ==> TailsInRange(s, s.states[conv]);
  }

  lemma RunKeepsChains(s: State, conv: string, lane: Lane, sessionKey: Option<string>)
    requires Inv(s)
    ensures LoopInv(WIRING, Run(s, conv, lane, sessionKey).loop)
  {
    hide LoopInv, RecordOk;
    var s', n := Run(s, conv, lane, sessionKey), |s.loop.tasks|;
    var key, gate := s'.loop.tasks[n].key, s'.loop.tasks[n].gate;
    RunSubmits(s, conv, lane, sessionKey);
    if lane == Normal {
      GateIsGood(s, conv, key.session);
    }
    SubmitKeepsInv(WIRING, s.loop, key, gate);
  }

  lemma RunKeepsInv(s: State, conv: string, lane: Lane, sessionKey: Option<string>)
    requires Inv(s)
    ensures Inv(Run(s, conv, lane, sessionKey))
  {
    RunKeepsChains(s, conv, lane, sessionKey);
    RunAdds(s, conv, lane, sessionKey);
    var s' := Run(s, conv, lane, sessionKey);
    AddKeepsBook(s, s', conv, GetState(s, conv).1, s'.loop.tasks[|s.loop.tasks|].key);
  }

  // --- Running reactions ---

  // The bookkeeping only looks at keys and at which tasks have cleaned up.
  lemma SameFlagsKeepBook(s: State, l: Loop<ChainKey>)
    requires Bookkept(s) && |l.tasks| == |s.loop.tasks|
    requires forall t | 0 <= t < |l.tasks| ::
               l.tasks[t].key == s.loop.tasks[t].key && l.tasks[t].cleaned == s.loop.tasks[t].cleaned
    ensures Bookkept(s.(loop := l))
  {
    hide RecordOk;
    var s' := s.(loop := l);
    forall x | 0 <= x < |s.records| ensures TailsInRange(s', x) {
      assert TailsInRange(s, x);
    }
    forall u: nat | Unfinished(s', u) ensures Tracked(s', u) {
      assert Unfinished(s, u) && Tracked(s, u);
    }
    forall c | c in s'.states ensures RecordOk(s', c) {
      assert RecordOk(s, c);
      SameFlagsKeepRecord(s, l, c);
    }
  }

  lemma SameFlagsKeepRecord(s: State, l: Loop<ChainKey>, c: string)
    requires Wf(s) && Wf(s.(loop := l)) && |l.tasks| == |s.loop.tasks| && c in s.states && RecordOk(s, c)
    requires forall t | 0 <= t < |l.tasks| ::
               l.tasks[t].key == s.loop.tasks[t].key && l.tasks[t].cleaned == s.loop.tasks[t].cleaned
    ensures RecordOk(s.(loop := l), c)
  {
    assert OpenControls(s.(loop := l), s.states[c]) == OpenControls(s, s.states[c]);
  }

  // Task t is at its finally reaction; the earlier tasks of its key are past theirs.
  ghost predicate AtFinally(s: State, t: nat) {
    && Bookkept(s) && HeadReady(s.loop) && s.loop.jobs[0] == Cleanup(t)
    && Unfinished(s, t)
    && forall u | 0 <= u < t && s.loop.tasks[u].key == s.loop.tasks[t].key :: s.loop.tasks[u].cleaned
  }

  lemma FinallyComesInTurn(s: State, t: nat)
    requires Inv(s) && HeadReady(s.loop) && s.loop.jobs[0] == Cleanup(t)
    ensures AtFinally(s, t)
  {
    assert s.loop.jobs[0] in s.loop.jobs && Due(WIRING, s.loop, Cleanup(t));
    assert FlagsOk(WIRING, s.loop, t);
  }

  // What task t's finally reaction changes: its record r loses the task, and is dropped if that emptied it.
  ghost predicate Removes(s: State, s': State, t: nat, r: nat) {
    && Wf(s) && Wf(s') && t < |s.loop.tasks| == |s'.loop.tasks|
    && s'.recordOf == s.recordOf && r == s.recordOf[t] && |s'.records| == |s.records|
    && (forall u | 0 <= u < |s.loop.tasks| ::
          && s'.loop.tasks[u].key == s.loop.tasks[u].key
          && s'.loop.tasks[u].cleaned == (s.loop.tasks[u].cleaned || u == t))
    && (forall x | 0 <= x < |s.records| && x != r :: s'.records[x] == s.records[x])
    && var rec, key := s.records[r], s.loop.tasks[t].key;
       && s'.records[r] == (if key.ControlKey? then rec.(activeControls := rec.activeControls - 1)
                            else if key.session in rec.normalTails && rec.normalTails[key.session] == t
                            then rec.(normalTails := rec.normalTails - {key.session}) else rec)
       && s'.states == if s'.records[r].normalTails == map[] && s'.records[r].activeControls == 0
                       then s.states - {key.conv} else s.states
  }

  lemma FinallyRemoves(s: State, t: nat)
    requires Wf(s) && HeadReady(s.loop) && s.loop.jobs[0] == Cleanup(t)
    ensures Removes(s, RunReaction(s), t, s.recordOf[t])
  {
    var s' := RunReaction(s);
    forall x | 0 <= x < |s'.records| ensures TailsInRange(s', x) {
      assert TailsInRange(s, x);
    }
  }

  lemma RemoveControls(s: State, s': State, t: nat, r: nat, x: nat)
    requires Removes(s, s', t, r) && Unfinished(s, t)
    ensures OpenControls(s', x) == OpenControls(s, x) - {t}
    ensures |OpenControls(s', x)| == |OpenControls(s, x)| - if s.loop.tasks[t].key.ControlKey? && x == r then 1 else 0
  {
    assert OpenControls(s', x) == OpenControls(s, x) - {t};
    assert t in OpenControls(s, x) <==> s.loop.tasks[t].key.ControlKey? && x == r;
  }

  lemma RemoveKeepsTracked(s: State, s': State, t: nat, r: nat, u: nat)
    requires Removes(s, s', t, r) && Unfinished(s, t) && Unfinished(s', u) && Tracked(s, t) && Tracked(s, u)
    requires RecordOk(s, s.loop.tasks[t].key.conv)
    requires s.loop.tasks[u].key == s.loop.tasks[t].key ==> t <= u
    requires s.recordOf[u] == r ==> s.loop.tasks[u].key.conv == s.loop.tasks[t].key.conv
    ensures Tracked(s', u)
  {
    var tasks := s.loop.tasks;
    var conv := tasks[t].key.conv;
    if tasks[u].key.conv == conv {
      RemoveControls(s, s', t, r, r);
      if tasks[u].key.ControlKey? {
        assert u in OpenControls(s', r);
      } else if tasks[t].key == tasks[u].key {
        assert TailOk(s, conv, tasks[t].key.session, s.records[r].normalTails[tasks[t].key.session], r);
      } else {
        assert tasks[u].key.session in s'.records[r].normalTails;
      }
    }
  }

  lemma RemoveKeepsTail(s: State, s': State, t: nat, r: nat, c: string, k: string)
    requires Removes(s, s', t, r) && Unfinished(s, t) && Tracked(s, t) && c in s'.states
    requires k in s'.records[s'.states[c]].normalTails
    requires k in s.records[s.states[c]].normalTails
    requires TailOk(s, c, k, s.records[s.states[c]].normalTails[k], s.states[c])
    ensures TailOk(s', c, k, s'.records[s'.states[c]].normalTails[k], s'.states[c])
  {
  }

  lemma RemoveKeepsRecord(s: State, s': State, t: nat, r: nat, c: string)
    requires Removes(s, s', t, r) && Unfinished(s, t) && Tracked(s, t) && c in s'.states
    requires RecordOk(s, c)
    requires s.states[c] == r ==> c == s.loop.tasks[t].key.conv
    ensures RecordOk(s', c)
  {
    var rc := s.states[c];
    RemoveControls(s, s', t, r, rc);
    forall k | k in s'.records[rc].normalTails ensures TailOk(s', c, k, s'.records[rc].normalTails[k], rc) {
      RemoveKeepsTail(s, s', t, r, c, k);
    }
  }

  lemma RemoveKeepsBook(s: State, s': State, t: nat, r: nat)
    requires AtFinally(s, t) && Removes(s, s', t, r)
    ensures Bookkept(s')
  {
    hide Removes, RecordOk, Tracked, TailsInRange, RecordsOwned, HeadReady;
    RemoveKeepsRest(s, s', t, r);
    TrackedHere(s, t);
    OwnedBy(s, t);
    forall u: nat | Unfinished(s', u) ensures Tracked(s', u) {
      assert Unfinished(s, u) && Tracked(s, u);
      RemoveKeepsTracked(s, s', t, r, u);
    }
    forall c | c in s'.states ensures RecordOk(s', c) {
      assert RecordOk(s, c);
      RemoveKeepsRecord(s, s', t, r, c);
    }
  }

  // Every task that holds t's record, and that record itself, belong to t's conversation.
  lemma OwnedBy(s: State, t: nat)
    requires Bookkept(s) && Unfinished(s, t)
    ensures forall u | 0 <= u < |s.loop.tasks| && s.recordOf[u] == s.recordOf[t] ::
              s.loop.tasks[u].key.conv == s.loop.tasks[t].key.conv
    ensures forall c | c in s.states && s.states[c] == s.recordOf[t] :: c == s.loop.tasks[t].key.conv
  {
    hide RecordOk, TailsInRange;
    assert Tracked(s, t);
  }

  lemma TrackedHere(s: State, t: nat)
    requires Bookkept(s) && Unfinished(s, t)
    ensures Tracked(s, t) && s.loop.tasks[t].key.conv in s.states && RecordOk(s, s.loop.tasks[t].key.conv)
  {
    assert Tracked(s, t);
    hide RecordOk, RecordsOwned;
  }

  // What removing task t leaves alone.
  lemma RemoveKeepsRest(s: State, s': State, t: nat, r: nat)
    requires AtFinally(s, t) && Removes(s, s', t, r)
    ensures Wf(s') && r == s.recordOf[t] && |s'.loop.tasks| == |s.loop.tasks|
    ensures forall u | 0 <= u < |s.loop.tasks| ::
              && s'.loop.tasks[u].key == s.loop.tasks[u].key
              && (s.loop.tasks[u].cleaned || u == t ==> s'.loop.tasks[u].cleaned)
    ensures forall c | c in s'.states :: c in s.states && s'.states[c] == s.states[c]
    ensures RecordsOwned(s')
  {
    hide RecordOk, Tracked, TailsInRange;
  }

  lemma RunReactionKeepsInv(s: State)
    requires Inv(s) && s.loop.jobs != []
    ensures HeadReady(s.loop) && Inv(RunReaction(s))
  {
    RunHeadKeepsInv(WIRING, s.loop);
    if s.loop.jobs[0].Cleanup? {
      FinallyComesInTurn(s, s.loop.jobs[0].task);
      FinallyRemoves(s, s.loop.jobs[0].task);
      RemoveKeepsBook(s, RunReaction(s), s.loop.jobs[0].task, s.recordOf[s.loop.jobs[0].task]);
    } else {
      SameFlagsKeepBook(s, RunHead(WIRING, s.loop));
    }
  }

  lemma TaskSettlesKeepsInv(s: State, t: nat, ok: bool)
    requires Inv(s) && CanFinish(s.loop, t)
    ensures Inv(TaskSettles(s, t, ok))
  {
    FinishKeepsInv(WIRING, s.loop, t, ok);
    SameFlagsKeepBook(s, SettleResult(WIRING, s.loop, t, ok));
  }

  /** The record in a finally reaction's closure is still the one stored for its conversation, so
      deleting by id never removes another record; and when cleanupState does delete it, every
      task of the conversation has settled and cleaned up. */
  lemma CleanupIsSafe(s: State, t: nat)
    requires Inv(s) && HeadReady(s.loop) && s.loop.jobs[0] == Cleanup(t)
    ensures Unfinished(s, t) && Tracked(s, t)
    ensures var s', conv := RunReaction(s), s.loop.tasks[t].key.conv;
            && s'.states - {conv} == s.states - {conv}
            && (conv in s'.states ==> s'.states[conv] == s.states[conv])
            && (conv !in s'.states ==>
                  forall u | 0 <= u < |s'.loop.tasks| && s'.loop.tasks[u].key.conv == conv ::
                    Closed(WIRING, s'.loop.tasks[u]))
  {
    FinallyComesInTurn(s, t);
    RunReactionKeepsInv(s);
    CleanupTouchesOwn(s, t);
    hide RunReaction, LoopInv, Bookkept;
    var s', conv := RunReaction(s), s.loop.tasks[t].key.conv;
    if conv !in s'.states { DroppedIsClosed(s', conv); }
  }

  lemma CleanupTouchesOwn(s: State, t: nat)
    requires AtFinally(s, t)
    ensures Tracked(s, t)
    ensures var s', conv := RunReaction(s), s.loop.tasks[t].key.conv;
            s'.states - {conv} == s.states - {conv} && (conv in s'.states ==> s'.states[conv] == s.states[conv])
  {
    hide RecordOk, RecordsOwned;
  }

  // A conversation without a record has no unfinished task.
  lemma DroppedIsClosed(s: State, conv: string)
    requires Inv(s) && conv !in s.states
    ensures forall u | 0 <= u < |s.loop.tasks| && s.loop.tasks[u].key.conv == conv :: Closed(WIRING, s.loop.tasks[u])
  {
    hide RecordOk, RecordsOwned, JobsOk, RxOk, GateOk;
    forall u | 0 <= u < |s.loop.tasks| && s.loop.tasks[u].key.conv == conv ensures Closed(WIRING, s.loop.tasks[u]) {
      assert Unfinished(s, u) ==> Tracked(s, u);
      assert FlagsOk(WIRING, s.loop, u);
    }
  }

  // --- Whole runs ---

  datatype Step = Call(conv: string, lane: Lane, sessionKey: Option<string>) | Reaction | Settle(task: nat, ok: bool)

  ghost predicate Enabled(s: State, step: Step) {
    && Wf(s)
    && match step
       case Call(_, _, _) => true
       case Reaction => HeadReady(s.loop)
       case Settle(t, _) => CanFinish(s.loop, t)
  }

  ghost function Apply(s: State, step: Step): State
    requires Enabled(s, step)
  {
    match step
    case Call(conv, lane, k) => Run(s, conv, lane, k)
    case Reaction => RunReaction(s)
    case Settle(t, ok) => TaskSettles(s, t, ok)
  }

  ghost predicate IsRun(ss: seq<State>, steps: seq<Step>) {
    && |ss| == |steps| + 1
    && ss[0] == EMPTY
    && forall i | 0 <= i < |steps| :: Enabled(ss[i], steps[i]) && ss[i + 1] == Apply(ss[i], steps[i])
  }

  // The chain a call with these arguments belongs to, when it is the executor's task t.
  ghost function CallKey(conv: string, lane: Lane, sessionKey: Option<string>, t: nat): ChainKey {
    match lane
    case Control => ControlKey(conv, t)
    case Normal => NormalKey(conv, match sessionKey case None => "__chat__" case Some(k) => k)
  }

  // The step of the abstract queue that one step of the executor amounts to; None leaves the queues alone.
  ghost function QueueStepOf(s: State, step: Step): Option<KeyedFifo.Step<ChainKey>>
    requires Enabled(s, step)
  {
    match step
    case Call(conv, lane, k) => Some(KeyedFifo.Submit(CallKey(conv, lane, k, |s.loop.tasks|)))
    case Reaction => if s.loop.jobs[0].Start? then Some(KeyedFifo.Start(s.loop.jobs[0].task)) else None
    case Settle(t, ok) => Some(KeyedFifo.Finish(t, ok))
  }

  ghost predicate FollowsQueue(s: State, step: Step, s': State) {
    Enabled(s, step) && QueuesMove(s.loop, QueueStepOf(s, step), s'.loop)
  }

  lemma CallHasItsKey(s: State, conv: string, lane: Lane, sessionKey: Option<string>)
    requires Wf(s)
    ensures var s' := Run(s, conv, lane, sessionKey);
            s'.loop.tasks[|s.loop.tasks|].key == CallKey(conv, lane, sessionKey, |s.loop.tasks|)
  {
  }

  /** A call adds one task to the chain its lane, conversation and session key name. Its start is queued at once on the
      control lane, and on the normal lane exactly when that chain has no unfinished task. */
  lemma CallStartsExactlyWhen(s: State, conv: string, lane: Lane, sessionKey: Option<string>)
    requires Inv(s)
    ensures var s', t := Run(s, conv, lane, sessionKey), |s.loop.tasks|;
            && |s'.loop.tasks| == t + 1
            && s'.loop.tasks[t].key == CallKey(conv, lane, sessionKey, t)
            && s'.loop.jobs == s.loop.jobs + (if Start(t) in s'.loop.jobs then [Start(t)] else [])
            && (Start(t) in s'.loop.jobs <==>
                  lane == Control
                  || forall u | 0 <= u < t && s.loop.tasks[u].key == CallKey(conv, lane, sessionKey, t) ::
                       s.loop.tasks[u].tail.Some?)
  {
    hide LoopInv, RecordOk, Tracked;
    var s', t := Run(s, conv, lane, sessionKey), |s.loop.tasks|;
    CallHasItsKey(s, conv, lane, sessionKey);
    RunSubmits(s, conv, lane, sessionKey);
    var key, gate := s'.loop.tasks[t].key, s'.loop.tasks[t].gate;
    if lane == Normal {
      GateIsGood(s, conv, key.session);
      StartsExactlyWhen(WIRING, s.loop, key, gate);
    } else {
      NoStartYet(WIRING, s.loop);
    }
  }

  lemma StepKeepsInv(s: State, step: Step)
    requires Inv(s) && Enabled(s, step)
    ensures Inv(Apply(s, step)) && FollowsQueue(s, step, Apply(s, step))
  {
    hide LoopInv, Bookkept;
    var s' := Apply(s, step);
    match step {
      case Call(conv, lane, k) =>
        RunKeepsInv(s, conv, lane, k);
        RunSubmits(s, conv, lane, k);
        CallHasItsKey(s, conv, lane, k);
        var task := s'.loop.tasks[|s.loop.tasks|];
        SubmitRefines(WIRING, s.loop, task.key, task.gate);
      case Reaction =>
        RunReactionKeepsInv(s);
        RunHeadRefines(WIRING, s.loop);
      case Settle(t, ok) =>
        TaskSettlesKeepsInv(s, t, ok);
        FinishRefines(WIRING, s.loop, t, ok);
    }
    StepMovesQueues(WIRING, s.loop, QueueStepOf(s, step), s'.loop);
  }

  /** Every run of the executor is a run of the per-key queue machine, and keeps the bookkeeping exact. */
  lemma {:induction false} EveryRunFollowsQueues(ss: seq<State>, steps: seq<Step>, n: nat)
    requires IsRun(ss, steps) && n <= |steps|
    ensures Inv(ss[n]) && KeyedFifo.Inv(Abs(ss[n].loop))
    ensures forall i | 0 <= i < n :: FollowsQueue(ss[i], steps[i], ss[i + 1])
  {
    hide Apply, Enabled, FollowsQueue, LoopInv, Abs;
    if n == 0 {
      EmptyLoopIsGood(WIRING, EMPTY.loop);
    } else {
      EveryRunFollowsQueues(ss, steps, n - 1);
      StepKeepsInv(ss[n - 1], steps[n - 1]);
    }
    AbsKeepsInv(WIRING, ss[n].loop);
  }

  /** In every run, a normal task starts only after each earlier task of its conversation and
      session key has settled; and unfinished work always has its record in the map. */
  lemma NormalTasksRunInOrder(ss: seq<State>, steps: seq<Step>, i: nat)
    requires IsRun(ss, steps) && i < |ss|
    ensures var tasks := ss[i].loop.tasks;
            forall p, t | 0 <= p < t < |tasks| && tasks[p].key == tasks[t].key && tasks[t].started ::
                tasks[p].result.Some?
    ensures forall t: nat | Unfinished(ss[i], t) :: ss[i].loop.tasks[t].key.conv in ss[i].states
  {
    EveryRunFollowsQueues(ss, steps, i);
    var s := ss[i];
    assert InOrder(WIRING, s.loop);
    assert forall t: nat | Unfinished(s, t) :: Tracked(s, t);
  }

  ghost function Loops(ss: seq<State>): seq<Loop<ChainKey>> {
    seq(|ss|, i requires 0 <= i < |ss| => ss[i].loop)
  }

  ghost function QueueSteps(ss: seq<State>, steps: seq<Step>): seq<Option<KeyedFifo.Step<ChainKey>>>
    requires IsRun(ss, steps)
  {
    seq(|steps|, i requires 0 <= i < |steps| => QueueStepOf(ss[i], steps[i]))
  }

  lemma RunIsQueueRun(ss: seq<State>, steps: seq<Step>)
    requires IsRun(ss, steps)
    ensures QueueRun(Loops(ss), QueueSteps(ss, steps))
  {
    hide QueuesMove, Enabled, Apply, Inv, KeyedFifo.Inv, QueueStepOf;
    EveryRunFollowsQueues(ss, steps, |steps|);
    forall i | 0 <= i < |steps| ensures QueuesMove(ss[i].loop, QueueStepOf(ss[i], steps[i]), ss[i + 1].loop) {
      assert FollowsQueue(ss[i], steps[i], ss[i + 1]);
    }
  }

  // Task number |ss[n].loop.tasks| is the one step n submits.
  lemma CallStays(ss: seq<State>, steps: seq<Step>, n: nat, i: nat)
    requires IsRun(ss, steps) && n < i < |ss| && steps[n].Call?
    ensures var t := |ss[n].loop.tasks|;
            && t < |ss[i].loop.tasks|
            && ss[i].loop.tasks[t].key == CallKey(steps[n].conv, steps[n].lane, steps[n].sessionKey, t)
  {
    hide Apply, Inv;
    RunIsQueueRun(ss, steps);
    TasksKeepTheirOwn(Loops(ss), QueueSteps(ss, steps), n, i);
  }

  /** Of two normal calls of one conversation and session key ("__chat__" when none is given), the later one's task
      starts only after the earlier one's has settled, in every run. */
  lemma NormalCallsRunInOrder(ss: seq<State>, steps: seq<Step>, m: nat, n: nat, i: nat)
    requires IsRun(ss, steps) && m < n < i < |ss|
    requires steps[m].Call? && steps[n].Call? && steps[m].lane == steps[n].lane == Normal
    requires steps[m].conv == steps[n].conv
    requires var a, b := steps[m].sessionKey, steps[n].sessionKey;
             (if a.Some? then a.value else "__chat__") == (if b.Some? then b.value else "__chat__")
    ensures var earlier, later, tasks := |ss[m].loop.tasks|, |ss[n].loop.tasks|, ss[i].loop.tasks;
            && earlier < later < |tasks|
            && (tasks[later].started ==> tasks[earlier].result.Some?)
  {
    hide Apply, Inv;
    CallStays(ss, steps, m, n);
    CallStays(ss, steps, m, i);
    CallStays(ss, steps, n, i);
    NormalTasksRunInOrder(ss, steps, i);
  }

  /** A control call's task has started or is about to, whatever other tasks of its conversation do. */
  lemma ControlCallsNeverWait(ss: seq<State>, steps: seq<Step>, n: nat, i: nat)
    requires IsRun(ss, steps) && n < i < |ss| && steps[n].Call? && steps[n].lane == Control
    ensures var t, l := |ss[n].loop.tasks|, ss[i].loop;
            && t < |l.tasks| && l.tasks[t].key == ControlKey(steps[n].conv, t)
            && (!l.tasks[t].started ==> Start(t) in l.jobs)
  {
    CallStays(ss, steps, n, i);
    EveryRunFollowsQueues(ss, steps, i);
    hide Apply, RecordOk, Tracked;
    var t, s := |ss[n].loop.tasks|, ss[i];
    assert GateOk(WIRING, s.loop, t);
    assert !s.loop.tasks[t].started ==> Due(WIRING, s.loop, Start(t));
  }

  /** A task's caller sees the outcome the task settled with, for the rest of the run. */
  lemma OutcomeIsOwn(ss: seq<State>, steps: seq<Step>, n: nat, i: nat)
    requires IsRun(ss, steps) && n < i < |ss| && steps[n].Settle?
    ensures steps[n].task < |ss[i].loop.tasks| && ss[i].loop.tasks[steps[n].task].result == Some(steps[n].ok)
  {
    hide Apply, Inv;
    RunIsQueueRun(ss, steps);
    TasksKeepTheirOwn(Loops(ss), QueueSteps(ss, steps), n, i);
  }

  lemma RecordHasWork(s: State, c: string)
    requires Bookkept(s) && c in s.states
    ensures exists t: nat :: Unfinished(s, t) && s.loop.tasks[t].key.conv == c
  {
    assert RecordOk(s, c);
    var r := s.states[c];
    if s.records[r].normalTails != map[] {
      var k :| k in s.records[r].normalTails;
      assert TailOk(s, c, k, s.records[r].normalTails[k], r);
    } else {
      assert OpenControls(s, r) != {};
      var t :| t in OpenControls(s, r);
      assert Unfinished(s, t);
    }
  }

  /** When a run comes to rest every submitted task has run and settled, whatever the others did; no record is left. */
  lemma RestLeavesNothing(ss: seq<State>, steps: seq<Step>, i: nat)
    requires IsRun(ss, steps) && i < |ss| && Idle(ss[i].loop)
    ensures forall t | 0 <= t < |ss[i].loop.tasks| :: Closed(WIRING, ss[i].loop.tasks[t])
    ensures ss[i].states == map[]
  {
    EveryRunFollowsQueues(ss, steps, i);
    var s := ss[i];
    IdleIsAllClosed(WIRING, s.loop);
    forall c ensures c !in s.states {
      if c in s.states { RecordHasWork(s, c); }
    }
  }

  /** The executor as the object it is: its map and records change in place, `loop` is the runtime's promise queue. */
  class Executor {
    var states: map<string, nat>
    var records: seq<Record>
    var recordOf: seq<nat>
    var loop: Loop<ChainKey>

    ghost function View(): State
      reads this
    {
      State(loop, states, records, recordOf)
    }

    ghost predicate Valid()
      reads this
    {
      Inv(View())
    }

    constructor ()
      ensures Valid() && View() == EMPTY
    {
      states, records, recordOf, loop := map[], [], [], Loop([], []);
    }

    method Lookup(conversationId: string) returns (record: nat)
      modifies this
      ensures (View(), record) == GetState(old(View()), conversationId)
    {
      if conversationId in states {
        record := states[conversationId];
      } else {
        record := |records|;
        records := records + [Record(map[], 0)];
        states := states[conversationId := record];
      }
    }

    method Cleanup(conversationId: string, record: nat)
      requires record < |records|
      modifies this
      ensures View() == CleanupState(old(View()), conversationId, record)
    {
      if records[record].normalTails == map[] && records[record].activeControls == 0 {
        states := states - {conversationId};
      }
    }

    method Submit(conversationId: string, lane: Lane, sessionKey: Option<string>) returns (task: nat)
      requires Valid()
      modifies this
      ensures Valid() && View() == Run(old(View()), conversationId, lane, sessionKey) && task == |old(loop).tasks|
    {
      hide LoopInv, RecordOk;
      RunKeepsInv(View(), conversationId, lane, sessionKey);
      task := |loop.tasks|;
      assert conversationId in states ==> TailsInRange(View(), states[conversationId]);
      var record := Lookup(conversationId);
      var rec := records[record];
      recordOf := recordOf + [record];
      if lane == Control {
        records := records[record := rec.(activeControls := rec.activeControls + 1)];
        loop := PromiseLoop.Submit(WIRING, loop, ControlKey(conversationId, task), None);
      } else {
        var key := if sessionKey.Some? then sessionKey.value else DEFAULT_SESSION_KEY;
        var previous := if key in rec.normalTails then Some(rec.normalTails[key]) else None;
        loop := PromiseLoop.Submit(WIRING, loop, NormalKey(conversationId, key), previous);
        records := records[record := rec.(normalTails := rec.normalTails[key := task])];
      }
    }

    // The runtime takes the next promise reaction off its queue.
    method RunNext()
      requires Valid() && loop.jobs != []
      modifies this
      ensures Valid() && HeadReady(old(loop)) && View() == RunReaction(old(View()))
    {
      hide LoopInv, RecordOk;
      RunReactionKeepsInv(View());
      var job := loop.jobs[0];
      loop := RunHead(WIRING, loop);
      if job.Cleanup? {
        var record, key := recordOf[job.task], loop.tasks[job.task].key;
        var rec := records[record];
        match key {
          case ControlKey(_, _) =>
            records := records[record := rec.(activeControls := rec.activeControls - 1)];
          case NormalKey(_, session) =>
            if session in rec.normalTails && rec.normalTails[session] == job.task {
              records := records[record := rec.(normalTails := rec.normalTails - {session})];
            } else {
              assert records == records[record := rec];
            }
        }
        Cleanup(key.conv, record);
      }
    }

    // The promise of a running task settles.
    method Settle(task: nat, ok: bool)
      requires Valid() && CanFinish(loop, task)
      modifies this
      ensures Valid() && View() == TaskSettles(old(View()), task, ok)
    {
      TaskSettlesKeepsInv(View(), task, ok);
      loop := SettleResult(WIRING, loop, task, ok);
    }
  }
}
