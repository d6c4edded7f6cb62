/** The one-shot task watchers of the MCP server: an insertion-ordered registry with a cap. */
module WatchRegistry {
  import opened Options

  const WATCH_TASKS_CACHE_LIMIT := 256

  type Id = string

  // A record: its id, the watch that registered it, and the result as the number of the watch that produced it.
  datatype Entry = Entry(id: Id, owner: nat, result: Option<nat>)

  // A runWatchMcpTask call; watches are numbered in creation order.
  datatype Watch = Watch(id: Id, settled: bool)

  // A result handed out: whose record it was taken from, and which watch produced it.
  datatype Delivery = Delivery(id: Id, owner: nat, watch: nat)

  // `evicted` lists the owners of the records the cap pushed out.
  datatype Registry = Registry(entries: seq<Entry>, watches: seq<Watch>, delivered: seq<Delivery>, evicted: seq<nat>)

  const EMPTY := Registry([], [], [], [])

  // --- Specification of the steps ---

  // The position of an id, or the length.
  function Find(entries: seq<Entry>, id: Id): (i: nat)
    ensures i <= |entries| && (i < |entries| ==> entries[i].id == id)
    ensures forall k | 0 <= k < i :: entries[k].id != id
  {
    if entries == [] || entries[0].id == id then 0 else 1 + Find(entries[1..], id)
  }

  // Map.set: a known key keeps its place.
  function Put(entries: seq<Entry>, e: Entry): seq<Entry> {
    var i := Find(entries, e.id);
    if i < |entries| then entries[i := e] else entries + [e]
  }

  function Evict(entries: seq<Entry>, id: Id): seq<Entry> {
    if |entries| <= WATCH_TASKS_CACHE_LIMIT || entries[0].id == id then entries else Evict(entries[1..], id)
  }

  // The owners that Evict drops, in order.
  function Overflow(entries: seq<Entry>, id: Id): seq<nat> {
    if |entries| <= WATCH_TASKS_CACHE_LIMIT || entries[0].id == id then []
    else [entries[0].owner] + Overflow(entries[1..], id)
  }

  function Create(s: Registry, id: Id): Registry {
    var put := Put(s.entries, Entry(id, |s.watches|, None));
    s.(entries := Evict(put, id), watches := s.watches + [Watch(id, false)], evicted := s.evicted + Overflow(put, id))
  }

  // watchTask() settled, either way: the record gets the result unless it is gone.
  function Settle(s: Registry, w: nat): Registry
    requires w < |s.watches|
  {
    var i := Find(s.entries, s.watches[w].id);
    var s' := s.(watches := s.watches[w := s.watches[w].(settled := true)]);
    if i < |s.entries| then s'.(entries := s.entries[i := s.entries[i].(result := Some(w))]) else s'
  }

  // Either fetch path: a result is handed out and the record dropped.
  function Fetch(s: Registry, id: Id): Registry {
    var i := Find(s.entries, id);
    if i < |s.entries| && s.entries[i].result.Some? then
      s.(entries := s.entries[..i] + s.entries[i + 1..],
         delivered := s.delivered + [Delivery(id, s.entries[i].owner, s.entries[i].result.value)])
    else s
  }

  datatype Step = DoCreate(id: Id) | DoSettle(w: nat) | DoFetch(id: Id)

  predicate Enabled(s: Registry, step: Step) {
    step.DoSettle? ==> step.w < |s.watches| && !s.watches[step.w].settled
  }

  function Apply(s: Registry, step: Step): Registry
    requires Enabled(s, step)
  {
    match step
    case DoCreate(id) => Create(s, id)
    case DoSettle(w) => Settle(s, w)
    case DoFetch(id) => Fetch(s, id)
  }

  // --- Invariant ---

  predicate DistinctKeys(entries: seq<Entry>) {
    forall i, j | 0 <= i < j < |entries| :: entries[i].id != entries[j].id
  }

  // Results are of settled watches, each held or delivered at most once.
  predicate ResultsOnce(s: Registry) {
    && (forall i | 0 <= i < |s.entries| && s.entries[i].result.Some? :: Settled(s, s.entries[i].result.value))
    && (forall i | 0 <= i < |s.delivered| :: Settled(s, s.delivered[i].watch))
    && (forall i, j | 0 <= i < j < |s.entries| && s.entries[i].result.Some? ::
        s.entries[j].result != s.entries[i].result)
    && (forall i, j | 0 <= i < j < |s.delivered| :: s.delivered[i].watch != s.delivered[j].watch)
    && (forall i, j | 0 <= i < |s.entries| && 0 <= j < |s.delivered| ::
        s.entries[i].result != Some(s.delivered[j].watch))
  }

  predicate Settled(s: Registry, w: nat) {
    w < |s.watches| && s.watches[w].settled
  }

  ghost predicate Inv(s: Registry) {
    && |s.entries| <= WATCH_TASKS_CACHE_LIMIT && DistinctKeys(s.entries)
    && ResultsOnce(s)
  }

  // Registering drops the oldest record only, and never the new one.
  lemma RegisterKeepsNewest(entries: seq<Entry>, e: Entry)
    requires |entries| <= WATCH_TASKS_CACHE_LIMIT && DistinctKeys(entries)
    ensures var after := Evict(Put(entries, e), e.id);
            && |after| <= WATCH_TASKS_CACHE_LIMIT && DistinctKeys(after) && e in after
            && if Find(entries, e.id) < |entries| then after == entries[Find(entries, e.id) := e]
               else if |entries| < WATCH_TASKS_CACHE_LIMIT then after == entries + [e]
               else after == entries[1..] + [e]
    ensures Overflow(Put(entries, e), e.id) ==
              if |entries| < WATCH_TASKS_CACHE_LIMIT || Find(entries, e.id) < |entries| then [] else [entries[0].owner]
  {
    var put := Put(entries, e);
    var i := Find(entries, e.id);
    if i < |entries| {
      assert put[i] == e;
    } else {
      assert put[|entries|] == e;
      if |entries| == WATCH_TASKS_CACHE_LIMIT {
        assert put[0] == entries[0];
        assert put[1..] == entries[1..] + [e];
        assert put[1..][|entries| - 1] == e;
        assert Evict(put, e.id) == Evict(put[1..], e.id);
        assert Overflow(put, e.id) == [entries[0].owner] + Overflow(put[1..], e.id);
      }
    }
  }

  lemma CreateKeepsInv(s: Registry, id: Id)
    requires Inv(s)
    ensures Inv(Create(s, id))
  {
    hide Put, Evict, Overflow, ResultsOnce;
    var e, i, s' := Entry(id, |s.watches|, None), Find(s.entries, id), Create(s, id);
    RegisterKeepsNewest(s.entries, e);
    var t := s.(watches := s'.watches, evicted := s'.evicted);
    MoreWatches(s, t);
    if i < |s.entries| {
      FreshRecord(t, i, e);
    } else if |s.entries| < WATCH_TASKS_CACHE_LIMIT {
      FreshRecord(t, i, e);
    } else {
      OldestGoes(t);
      FreshRecord(t.(entries := t.entries[1..]), |t.entries| - 1, e);
    }
  }

  lemma MoreWatches(s: Registry, t: Registry)
    requires ResultsOnce(s) && t.entries == s.entries && t.delivered == s.delivered && s.watches <= t.watches
    ensures ResultsOnce(t)
  {
  }

  lemma OldestGoes(s: Registry)
    requires ResultsOnce(s) && s.entries != []
    ensures ResultsOnce(s.(entries := s.entries[1..]))
  {
  }

  lemma FreshRecord(s: Registry, i: nat, e: Entry)
    requires ResultsOnce(s) && i <= |s.entries| && e.result.None?
    ensures ResultsOnce(s.(entries := if i < |s.entries| then s.entries[i := e] else s.entries + [e]))
  {
  }

  lemma SettleKeepsInv(s: Registry, w: nat)
    requires Inv(s) && w < |s.watches| && !s.watches[w].settled
    ensures Inv(Settle(s, w))
  {
    hide ResultsOnce;
    ResultArrives(s, w, Find(s.entries, s.watches[w].id));
  }

  lemma ResultArrives(s: Registry, w: nat, i: nat)
    requires ResultsOnce(s) && w < |s.watches| && !s.watches[w].settled && i <= |s.entries|
    ensures ResultsOnce(s.(watches := s.watches[w := s.watches[w].(settled := true)],
                           entries := if i == |s.entries| then s.entries
                                      else s.entries[i := s.entries[i].(result := Some(w))]))
  {
  }

  lemma FetchKeepsInv(s: Registry, id: Id)
    requires Inv(s)
    ensures Inv(Fetch(s, id))
  {
    hide ResultsOnce;
    var k := Find(s.entries, id);
    if k < |s.entries| && s.entries[k].result.Some? {
      RemovalDelivers(s, k);
    }
  }

  lemma RemovalDelivers(s: Registry, k: nat)
    requires ResultsOnce(s) && k < |s.entries| && s.entries[k].result.Some?
    ensures ResultsOnce(s.(entries := s.entries[..k] + s.entries[k + 1..],
                           delivered := s.delivered
                             + [Delivery(s.entries[k].id, s.entries[k].owner, s.entries[k].result.value)]))
  {
    var rest := s.entries[..k] + s.entries[k + 1..];
    assert forall i | 0 <= i < |rest| :: rest[i] == s.entries[if i < k then i else i + 1];
  }

  // --- What each call does ---

  /** Fetching under an id hands out the result of the record under it, if it has one, and drops that record and no
      other; in every other case nothing changes. */
  lemma FetchAnswersExactlyWhen(s: Registry, id: Id)
    requires Inv(s)
    ensures forall i | 0 <= i < |s.entries| && s.entries[i].id == id && s.entries[i].result.Some? ::
              Fetch(s, id) == s.(entries := s.entries[..i] + s.entries[i + 1..],
                                 delivered := s.delivered
                                   + [Delivery(id, s.entries[i].owner, s.entries[i].result.value)])
    ensures (forall i | 0 <= i < |s.entries| && s.entries[i].id == id :: s.entries[i].result.None?) ==>
              Fetch(s, id) == s
  {
    hide ResultsOnce;
  }

  /** A watch that settles gives its result to the record held under its id, and to no other. */
  lemma SettleReachesItsRecord(s: Registry, w: nat)
    requires Inv(s) && w < |s.watches|
    ensures var s', id := Settle(s, w), s.watches[w].id;
            && s'.watches == s.watches[w := Watch(id, true)]
            && s'.delivered == s.delivered && s'.evicted == s.evicted && |s'.entries| == |s.entries|
            && forall i | 0 <= i < |s.entries| ::
                 s'.entries[i] == if s.entries[i].id == id then s.entries[i].(result := Some(w)) else s.entries[i]
  {
    hide ResultsOnce;
  }

  /** Registering numbers the watch, and holds a record for it without a result; at most 256 records are held. */
  lemma CreateHoldsTheNewest(s: Registry, id: Id)
    requires Inv(s)
    ensures var s' := Create(s, id);
            && s'.watches == s.watches + [Watch(id, false)] && s'.delivered == s.delivered
            && Entry(id, |s.watches|, None) in s'.entries && |s'.entries| <= 256
            && (forall e | e in s.entries && e.id != id && |s.entries| < 256 :: e in s'.entries)
  {
    hide Put, Evict, Overflow, ResultsOnce, DistinctKeys;
    RegisterKeepsNewest(s.entries, Entry(id, |s.watches|, None));
    var s', i := Create(s, id), Find(s.entries, id);
    forall e | e in s.entries && e.id != id && |s.entries| < 256 ensures e in s'.entries {
      var k :| 0 <= k < |s.entries| && s.entries[k] == e;
      assert s'.entries[k] == e;
    }
  }

  // --- Every watcher's fate: conservation of owners ---

  function Owners(entries: seq<Entry>): (r: multiset<nat>)
  {
    if entries == [] then multiset{} else multiset{entries[0].owner} + Owners(entries[1..])
  }

  function Receivers(delivered: seq<Delivery>): multiset<nat> {
    if delivered == [] then multiset{}
    else Receivers(delivered[..|delivered| - 1]) + multiset{delivered[|delivered| - 1].owner}
  }

  // How often each watcher is registered, was handed a result, or was evicted.
  function Placed(s: Registry): multiset<nat> {
    Owners(s.entries) + Receivers(s.delivered) + multiset(s.evicted)
  }

  // A record under this id is still held.
  predicate RecordHeld(s: Registry, id: Id) {
    Find(s.entries, id) < |s.entries|
  }

  lemma OwnersOfFirst(entries: seq<Entry>, e: Entry, rest: seq<Entry>)
    requires entries == [e] + rest
    ensures Owners(entries) == multiset{e.owner} + Owners(rest)
  {
    assert entries[1..] == rest;
  }

  lemma {:induction false} OwnersConcat(a: seq<Entry>, b: seq<Entry>)
    ensures Owners(a + b) == Owners(a) + Owners(b)
  {
    hide Owners;
    if a == [] {
      assert a + b == b;
      assert Owners([]) == multiset{} by { NobodyOwnsNothing(); }
    } else {
      var e, rest := a[0], a[1..];
      OwnersConcat(rest, b);
      OwnersOfFirst(a, e, rest);
      OwnersOfFirst(a + b, e, rest + b);
      assert multiset{e.owner} + (Owners(rest) + Owners(b)) == (multiset{e.owner} + Owners(rest)) + Owners(b);
    }
  }

  lemma NobodyOwnsNothing()
    ensures Owners([]) == multiset{}
  {
  }

  lemma OneOwner(e: Entry)
    ensures Owners([e]) == multiset{e.owner}
  {
    var one := [e];
    assert one[1..] == [];
  }

  lemma OwnersWithout(entries: seq<Entry>, i: nat)
    requires i < |entries|
    ensures Owners(entries) == Owners(entries[..i] + entries[i + 1..]) + multiset{entries[i].owner}
  {
    hide Owners;
    var before, e, after := entries[..i], entries[i], entries[i + 1..];
    assert entries == before + ([e] + after);
    OwnersConcat(before, [e] + after);
    OwnersConcat([e], after);
    OwnersConcat(before, after);
    OneOwner(e);
    assert Owners(before) + (multiset{e.owner} + Owners(after)) == (Owners(before) + Owners(after)) + multiset{e.owner};
  }

  lemma OwnersUpdated(entries: seq<Entry>, i: nat, e: Entry)
    requires i < |entries|
    ensures Owners(entries[i := e]) + multiset{entries[i].owner} == Owners(entries) + multiset{e.owner}
  {
    hide Owners;
    var updated := entries[i := e];
    OwnersWithout(entries, i);
    OwnersWithout(updated, i);
    assert updated[..i] + updated[i + 1..] == entries[..i] + entries[i + 1..];
  }

  // The owner of the record that registering under this id replaces.
  function Overwritten(s: Registry, id: Id): multiset<nat> {
    if RecordHeld(s, id) then multiset{s.entries[Find(s.entries, id)].owner} else multiset{}
  }

  lemma Replaced(o: multiset<nat>, o': multiset<nat>, rest: multiset<nat>, lost: multiset<nat>, gained: multiset<nat>)
    requires o' + lost == o + gained
    ensures (o' + rest) + lost == (o + rest) + gained
  {
    assert (o' + rest) + lost == (o' + lost) + rest;
    assert (o + rest) + gained == (o + gained) + rest;
  }

  lemma OverwritePlaces(s: Registry, id: Id)
    requires Inv(s) && RecordHeld(s, id)
    ensures Placed(Create(s, id)) + Overwritten(s, id) == Placed(s) + multiset{|s.watches|}
  {
    hide Put, Evict, Overflow, ResultsOnce, DistinctKeys, Owners, Receivers;
    var e, i, s' := Entry(id, |s.watches|, None), Find(s.entries, id), Create(s, id);
    RegisterKeepsNewest(s.entries, e);
    var rest := Receivers(s.delivered) + multiset(s.evicted);
    OwnersUpdated(s.entries, i, e);
    assert s.evicted + [] == s.evicted;
    Replaced(Owners(s.entries), Owners(s'.entries), rest, Overwritten(s, id), multiset{|s.watches|});
    SumsUp(Owners(s.entries), Receivers(s.delivered), multiset(s.evicted));
    SumsUp(Owners(s'.entries), Receivers(s.delivered), multiset(s.evicted));
  }

  lemma SumsUp(a: multiset<nat>, b: multiset<nat>, c: multiset<nat>)
    ensures a + b + c == a + (b + c)
  {
  }

  lemma AppendPlaces(s: Registry, id: Id)
    requires Inv(s) && !RecordHeld(s, id) && |s.entries| < WATCH_TASKS_CACHE_LIMIT
    ensures Placed(Create(s, id)) == Placed(s) + multiset{|s.watches|}
  {
    hide Put, Evict, Overflow, ResultsOnce, DistinctKeys, Owners, Receivers;
    var e, s' := Entry(id, |s.watches|, None), Create(s, id);
    RegisterKeepsNewest(s.entries, e);
    OneOwner(e);
    OwnersConcat(s.entries, [e]);
    assert s.evicted + [] == s.evicted;
    var rest := Receivers(s.delivered) + multiset(s.evicted);
    AddsUp(Owners(s.entries), rest, multiset{|s.watches|});
    SumsUp(Owners(s.entries), Receivers(s.delivered), multiset(s.evicted));
    SumsUp(Owners(s'.entries), Receivers(s.delivered), multiset(s.evicted));
  }

  lemma AddsUp(a: multiset<nat>, b: multiset<nat>, c: multiset<nat>)
    ensures (a + c) + b == (a + b) + c
  {
  }

  lemma EvictionPlaces(s: Registry, id: Id)
    requires Inv(s) && !RecordHeld(s, id) && |s.entries| == WATCH_TASKS_CACHE_LIMIT
    ensures Placed(Create(s, id)) == Placed(s) + multiset{|s.watches|}
  {
    hide Put, Evict, Overflow, ResultsOnce, DistinctKeys, Owners, Receivers;
    var e, oldest := Entry(id, |s.watches|, None), s.entries[0];
    RegisterKeepsNewest(s.entries, e);
    OneOwner(e);
    OwnersConcat(s.entries[1..], [e]);
    OwnersOfFirst(s.entries, oldest, s.entries[1..]);
    var moved, added := multiset{oldest.owner}, multiset{e.owner};
    MovesOver(Owners(s.entries[1..]), Receivers(s.delivered), multiset(s.evicted), moved, added);
    assert multiset(s.evicted + [oldest.owner]) == multiset(s.evicted) + multiset{oldest.owner};
  }

  lemma MovesOver(a: multiset<nat>, b: multiset<nat>, c: multiset<nat>, moved: multiset<nat>, added: multiset<nat>)
    ensures (a + added) + b + (c + moved) == ((moved + a) + b + c) + added
  {
  }

  /** Registering places one more watcher; only a record still held under the same id loses its owner. */
  lemma CreatePlaces(s: Registry, id: Id)
    requires Inv(s)
    ensures Placed(Create(s, id)) + Overwritten(s, id) == Placed(s) + multiset{|s.watches|}
  {
    hide Placed, Create, ResultsOnce, DistinctKeys;
    if RecordHeld(s, id) {
      OverwritePlaces(s, id);
    } else {
      if |s.entries| < WATCH_TASKS_CACHE_LIMIT { AppendPlaces(s, id); } else { EvictionPlaces(s, id); }
      assert Placed(Create(s, id)) + multiset{} == Placed(Create(s, id));
    }
  }

  /** Settling and fetching place nobody and lose nobody. */
  lemma SettlePlaces(s: Registry, w: nat)
    requires w < |s.watches|
    ensures Placed(Settle(s, w)) == Placed(s)
  {
    hide Owners, Receivers;
    var i, s' := Find(s.entries, s.watches[w].id), Settle(s, w);
    if i < |s.entries| {
      var owner := multiset{s.entries[i].owner};
      OwnersUpdated(s.entries, i, s.entries[i].(result := Some(w)));
      assert Owners(s'.entries) == (Owners(s'.entries) + owner) - owner;
      assert Owners(s.entries) == (Owners(s.entries) + owner) - owner;
    }
  }

  lemma FetchPlaces(s: Registry, id: Id)
    ensures Placed(Fetch(s, id)) == Placed(s)
  {
    hide Owners;
    var i, s' := Find(s.entries, id), Fetch(s, id);
    if i < |s.entries| && s.entries[i].result.Some? {
      OwnersWithout(s.entries, i);
      assert s'.delivered[..|s.delivered|] == s.delivered;
    }
  }

  // Watchers are placed at most once, and only those created.
  ghost predicate PlacedOnce(s: Registry) {
    forall w: nat :: Placed(s)[w] <= if w < |s.watches| then 1 else 0
  }

  // Every watcher is registered, was handed a result, or was evicted: one of these, once.
  ghost predicate AllPlaced(s: Registry) {
    forall w: nat | w < |s.watches| :: Placed(s)[w] == 1
  }

  // --- Each watch's own result ---

  // Every result held or handed out comes from the record's own watch.
  predicate ResultsOwn(s: Registry) {
    && (forall i | 0 <= i < |s.entries| && s.entries[i].result.Some? :: s.entries[i].result.value == s.entries[i].owner)
    && (forall i | 0 <= i < |s.delivered| :: s.delivered[i].watch == s.delivered[i].owner)
  }

  predicate Running(s: Registry, w: nat) {
    w < |s.watches| && !s.watches[w].settled
  }

  // No watch under this id is still running.
  ghost predicate NoneRunning(s: Registry, id: Id) {
    forall w: nat | Running(s, w) :: s.watches[w].id != id
  }

  // Results are own, and stay own whichever running watch settles next.
  ghost predicate Own(s: Registry) {
    ResultsOwn(s) && forall w: nat | Running(s, w) :: ResultsOwn(Settle(s, w))
  }

  // The same by ids: a running watch with a record's id is that record's owner.
  ghost predicate OwnById(s: Registry) {
    && ResultsOwn(s)
    && forall i, w: nat | 0 <= i < |s.entries| && Running(s, w) && s.watches[w].id == s.entries[i].id ::
        s.entries[i].owner == w
  }

  lemma FindIs(entries: seq<Entry>, i: nat)
    requires DistinctKeys(entries) && i < |entries|
    ensures Find(entries, entries[i].id) == i
  {
  }

  lemma OwnIsOwnById(s: Registry)
    requires DistinctKeys(s.entries)
    ensures Own(s) <==> OwnById(s)
  {
    if Own(s) {
      forall i, w: nat | 0 <= i < |s.entries| && Running(s, w) && s.watches[w].id == s.entries[i].id
        ensures s.entries[i].owner == w
      {
        FindIs(s.entries, i);
        assert ResultsOwn(Settle(s, w));
        assert Settle(s, w).entries[i].result == Some(w);
      }
    }
  }

  /** Registering keeps every result own exactly when no watch under the id is still running. */
  lemma CreateKeepsOwnExactlyWhen(s: Registry, id: Id)
    requires Inv(s) && Own(s)
    ensures Own(Create(s, id)) <==> NoneRunning(s, id)
  {
    hide Put, Evict, Overflow, ResultsOnce, Own;
    var e, s' := Entry(id, |s.watches|, None), Create(s, id);
    RegisterKeepsNewest(s.entries, e);
    OwnIsOwnById(s);
    OwnIsOwnById(s');
    CreateAddsOnlyNew(s, id);
    assert forall w: nat | w < |s.watches| :: s'.watches[w] == s.watches[w];
    if OwnById(s') {
      var k :| 0 <= k < |s'.entries| && s'.entries[k] == e;
      forall w: nat | Running(s, w) ensures s.watches[w].id != id {
        assert Running(s', w);
      }
    } else if NoneRunning(s, id) {
      CreateOwnById(s, id);
    }
  }

  lemma CreateOwnById(s: Registry, id: Id)
    requires Inv(s) && OwnById(s) && NoneRunning(s, id)
    ensures OwnById(Create(s, id))
  {
    hide Put, Evict, Overflow, ResultsOnce;
    var e, s' := Entry(id, |s.watches|, None), Create(s, id);
    RegisterKeepsNewest(s.entries, e);
    CreateAddsOnlyNew(s, id);
    var k :| 0 <= k < |s'.entries| && s'.entries[k] == e;
    assert forall w: nat | Running(s', w) && w != |s.watches| ::
        Running(s, w) && s'.watches[w] == s.watches[w] && s.watches[w].id != id;
    forall i, w: nat | 0 <= i < |s'.entries| && Running(s', w) && s'.watches[w].id == s'.entries[i].id
      ensures s'.entries[i].owner == w
    {
      if s'.entries[i] != e {
        assert s'.entries[i] in s.entries && i != k;
        assert s'.entries[i].id != id;
      }
    }
    forall i | 0 <= i < |s'.entries| && s'.entries[i].result.Some?
      ensures s'.entries[i].result.value == s'.entries[i].owner
    {
      assert s'.entries[i] in s.entries;
    }
  }

  lemma SettleKeepsOwn(s: Registry, w: nat)
    requires DistinctKeys(s.entries) && Own(s) && Running(s, w)
    ensures Own(Settle(s, w))
  {
    hide Own;
    OwnIsOwnById(s);
    OwnIsOwnById(Settle(s, w));
    var k, s' := Find(s.entries, s.watches[w].id), Settle(s, w);
    assert forall v: nat | Running(s', v) :: Running(s, v);
  }

  lemma FetchKeepsOwn(s: Registry, id: Id)
    requires Inv(s) && Own(s)
    ensures Own(Fetch(s, id))
  {
    hide Own, ResultsOnce;
    FetchKeepsInv(s, id);
    OwnIsOwnById(s);
    OwnIsOwnById(Fetch(s, id));
    FetchOwnById(s, id);
  }

  lemma FetchOwnById(s: Registry, id: Id)
    requires OwnById(s)
    ensures OwnById(Fetch(s, id))
  {
    var k, s' := Find(s.entries, id), Fetch(s, id);
    if k < |s.entries| && s.entries[k].result.Some? {
      assert forall i | 0 <= i < |s'.entries| :: s'.entries[i] == s.entries[if i < k then i else i + 1];
    }
  }

  // --- Eviction in creation order ---

  predicate InOrder(entries: seq<Entry>) {
    forall i, j | 0 <= i < j < |entries| :: entries[i].owner < entries[j].owner
  }

  // The evicted ones in creation order, each older than all that is left and followed by at least as many watchers as
  // the cap.
  ghost predicate OrderInv(s: Registry) {
    && InOrder(s.entries)
    && (forall i | 0 <= i < |s.entries| :: s.entries[i].owner < |s.watches|)
    && (forall i, j | 0 <= i < j < |s.evicted| :: s.evicted[i] < s.evicted[j])
    && (forall i | 0 <= i < |s.evicted| :: s.evicted[i] + WATCH_TASKS_CACHE_LIMIT < |s.watches|)
    && (forall i, j | 0 <= i < |s.evicted| && 0 <= j < |s.entries| :: s.evicted[i] < s.entries[j].owner)
  }

  lemma {:induction false} OwnersSpread(entries: seq<Entry>, k: nat)
    requires InOrder(entries) && k < |entries|
    ensures entries[k].owner >= entries[0].owner + k
  {
    if k > 0 { OwnersSpread(entries, k - 1); }
  }

  lemma CreateKeepsOrder(s: Registry, id: Id)
    requires Inv(s) && OrderInv(s) && !RecordHeld(s, id)
    ensures OrderInv(Create(s, id))
  {
    hide Put, Evict, Overflow, ResultsOnce, DistinctKeys, OrderInv;
    var e, s' := Entry(id, |s.watches|, None), Create(s, id);
    RegisterKeepsNewest(s.entries, e);
    if |s.entries| == WATCH_TASKS_CACHE_LIMIT {
      OldestLeaves(s, e, s');
    } else {
      assert s.evicted + [] == s.evicted;
      NewestJoins(s, e, s');
    }
  }

  lemma NewestJoins(s: Registry, e: Entry, s': Registry)
    requires OrderInv(s) && e.owner == |s.watches| && |s'.watches| == |s.watches| + 1
    requires s'.entries == s.entries + [e] && s'.evicted == s.evicted
    ensures OrderInv(s')
  {
  }

  lemma OldestLeaves(s: Registry, e: Entry, s': Registry)
    requires OrderInv(s) && e.owner == |s.watches| && |s'.watches| == |s.watches| + 1
    requires |s.entries| == WATCH_TASKS_CACHE_LIMIT
    requires s'.entries == s.entries[1..] + [e] && s'.evicted == s.evicted + [s.entries[0].owner]
    ensures OrderInv(s')
  {
    OwnersSpread(s.entries, |s.entries| - 1);
  }

  // --- Runs ---

  ghost predicate IsRun(ss: seq<Registry>, steps: seq<Step>) {
    && |ss| == |steps| + 1 && ss[0] == EMPTY
    && forall n | 0 <= n < |steps| :: Enabled(ss[n], steps[n]) && ss[n + 1] == Apply(ss[n], steps[n])
  }

  /** In every run the registry stays within its cap, and every result is handed out at most once, over both fetch
      paths. */
  lemma {:induction false} CappedAndOneShot(ss: seq<Registry>, steps: seq<Step>, n: nat)
    requires IsRun(ss, steps) && n < |ss|
    ensures |ss[n].entries| <= WATCH_TASKS_CACHE_LIMIT && ResultsOnce(ss[n]) && Inv(ss[n])
    decreases n
  {
    hide ResultsOnce, DistinctKeys, Create, Settle, Fetch;
    if n == 0 {
      assert Inv(EMPTY) by { EmptyIsGood(); }
    } else {
      CappedAndOneShot(ss, steps, n - 1);
      match steps[n - 1]
      case DoCreate(id) => CreateKeepsInv(ss[n - 1], id);
      case DoSettle(w) => SettleKeepsInv(ss[n - 1], w);
      case DoFetch(id) => FetchKeepsInv(ss[n - 1], id);
    }
  }

  lemma EmptyIsGood()
    ensures Inv(EMPTY) && OrderInv(EMPTY) && PlacedOnce(EMPTY) && AllPlaced(EMPTY) && Own(EMPTY)
  {
  }

  // Step n registers over a record still held under its id.
  predicate Overwrites(ss: seq<Registry>, steps: seq<Step>, n: nat)
    requires n < |steps| && n < |ss|
  {
    steps[n].DoCreate? && RecordHeld(ss[n], steps[n].id)
  }

  // Step n registers under the id of a watch still running.
  ghost predicate Overlaps(ss: seq<Registry>, steps: seq<Step>, n: nat)
    requires n < |steps| && n < |ss|
  {
    steps[n].DoCreate? && !NoneRunning(ss[n], steps[n].id)
  }

  lemma StepPlaces(s: Registry, step: Step)
    requires Inv(s) && Enabled(s, step) && PlacedOnce(s)
    ensures PlacedOnce(Apply(s, step))
    ensures AllPlaced(s) ==> (AllPlaced(Apply(s, step)) <==> !(step.DoCreate? && RecordHeld(s, step.id)))
  {
    hide Placed, Create, Settle, Fetch, Inv;
    var s' := Apply(s, step);
    match step
    case DoSettle(w) =>
      SettlePlaces(s, w);
      SameWatches(s, step);
    case DoFetch(id) =>
      FetchPlaces(s, id);
      SameWatches(s, step);
    case DoCreate(id) =>
      CreatePlaces(s, id);
      OneMoreWatch(s, id);
      var lost := Overwritten(s, id);
      assert forall w: nat :: Placed(s')[w] + lost[w] == (Placed(s) + multiset{|s.watches|})[w] by {
        assert forall w: nat :: (Placed(s') + lost)[w] == Placed(s')[w] + lost[w];
      }
      if RecordHeld(s, id) {
        var o := s.entries[Find(s.entries, id)].owner;
        HeldIsPlaced(s, Find(s.entries, id));
        assert lost[o] == 1;
      }
  }

  lemma SameWatches(s: Registry, step: Step)
    requires Enabled(s, step) && !step.DoCreate?
    ensures |Apply(s, step).watches| == |s.watches|
  {
  }

  lemma OneMoreWatch(s: Registry, id: Id)
    ensures |Create(s, id).watches| == |s.watches| + 1
  {
  }

  lemma HeldIsPlaced(s: Registry, i: nat)
    requires i < |s.entries|
    ensures Placed(s)[s.entries[i].owner] >= 1
  {
    hide Owners, Receivers;
    OwnersWithout(s.entries, i);
  }

  lemma {:induction false} EveryRunPlacesOnce(ss: seq<Registry>, steps: seq<Step>, n: nat)
    requires IsRun(ss, steps) && n < |ss|
    ensures PlacedOnce(ss[n])
    decreases n
  {
    hide Inv, Apply, Enabled, PlacedOnce, AllPlaced;
    if n == 0 {
      assert PlacedOnce(EMPTY) by { EmptyIsGood(); }
    } else {
      EveryRunPlacesOnce(ss, steps, n - 1);
      CappedAndOneShot(ss, steps, n - 1);
      StepPlaces(ss[n - 1], steps[n - 1]);
    }
  }

  /** Every watcher created in a run is at each moment registered, served or evicted (one of these, once), exactly when
      no watcher of the run was registered over a record still held under its id. */
  lemma FatesAreKeptExactlyWhen(ss: seq<Registry>, steps: seq<Step>)
    requires IsRun(ss, steps)
    ensures (forall n: nat | n < |ss| :: AllPlaced(ss[n]))
            <==> (forall n: nat | n < |steps| :: !Overwrites(ss, steps, n))
  {
    hide Inv, Apply, Enabled, PlacedOnce, AllPlaced, RecordHeld;
    if forall n: nat | n < |ss| :: AllPlaced(ss[n]) {
      forall n: nat | n < |steps| ensures !Overwrites(ss, steps, n) {
        CappedAndOneShot(ss, steps, n);
        EveryRunPlacesOnce(ss, steps, n);
        StepPlaces(ss[n], steps[n]);
        assert AllPlaced(ss[n + 1]);
      }
    }
    if forall n: nat | n < |steps| :: !Overwrites(ss, steps, n) {
      forall n: nat | n < |ss| ensures AllPlaced(ss[n]) { NoneOverwrittenAllPlaced(ss, steps, n); }
    }
  }

  lemma {:induction false} NoneOverwrittenAllPlaced(ss: seq<Registry>, steps: seq<Step>, n: nat)
    requires IsRun(ss, steps) && n < |ss| && forall k: nat | k < n :: !Overwrites(ss, steps, k)
    ensures AllPlaced(ss[n])
    decreases n
  {
    hide Inv, Apply, Enabled, PlacedOnce, AllPlaced, RecordHeld;
    if n == 0 {
      assert AllPlaced(EMPTY) by { EmptyIsGood(); }
    } else {
      NoneOverwrittenAllPlaced(ss, steps, n - 1);
      CappedAndOneShot(ss, steps, n - 1);
      EveryRunPlacesOnce(ss, steps, n - 1);
      StepPlaces(ss[n - 1], steps[n - 1]);
      assert !Overwrites(ss, steps, n - 1);
    }
  }

  lemma {:induction false} NoneOverlappingIsOwn(ss: seq<Registry>, steps: seq<Step>, n: nat)
    requires IsRun(ss, steps) && n < |ss| && forall k: nat | k < n :: !Overlaps(ss, steps, k)
    ensures Own(ss[n])
    decreases n
  {
    hide Inv, Create, Settle, Fetch, Own, NoneRunning;
    if n == 0 {
      assert Own(EMPTY) by { EmptyIsGood(); }
    } else {
      NoneOverlappingIsOwn(ss, steps, n - 1);
      CappedAndOneShot(ss, steps, n - 1);
      assert !Overlaps(ss, steps, n - 1);
      match steps[n - 1]
      case DoCreate(id) => CreateKeepsOwnExactlyWhen(ss[n - 1], id);
      case DoSettle(w) =>
        InvHasDistinctKeys(ss[n - 1]);
        SettleKeepsOwn(ss[n - 1], w);
      case DoFetch(id) => FetchKeepsOwn(ss[n - 1], id);
    }
  }

  lemma InvHasDistinctKeys(s: Registry)
    requires Inv(s)
    ensures DistinctKeys(s.entries)
  {
  }

  /** In a run every result is, and stays whichever watch settles next, the record's own watch's, exactly when no
      watcher of the run was registered under the id of a watch still running. */
  lemma ResultsAreOwnExactlyWhen(ss: seq<Registry>, steps: seq<Step>)
    requires IsRun(ss, steps)
    ensures (forall n: nat | n < |ss| :: Own(ss[n])) <==> (forall n: nat | n < |steps| :: !Overlaps(ss, steps, n))
  {
    hide Inv, Create, Settle, Fetch, Own, NoneRunning;
    if forall n: nat | n < |ss| :: Own(ss[n]) {
      forall n: nat | n < |steps| ensures !Overlaps(ss, steps, n) {
        if steps[n].DoCreate? {
          CappedAndOneShot(ss, steps, n);
          assert Own(ss[n]) && Own(ss[n + 1]);
          CreateKeepsOwnExactlyWhen(ss[n], steps[n].id);
        }
      }
    }
    if forall n: nat | n < |steps| :: !Overlaps(ss, steps, n) {
      forall n: nat | n < |ss| ensures Own(ss[n]) { NoneOverlappingIsOwn(ss, steps, n); }
    }
  }

  lemma {:induction false} EvictedInCreationOrder(ss: seq<Registry>, steps: seq<Step>, n: nat)
    requires IsRun(ss, steps) && n < |ss| && forall k: nat | k < n :: !Overwrites(ss, steps, k)
    ensures OrderInv(ss[n])
    decreases n
  {
    hide Inv, OrderInv, Create, RecordHeld;
    if n == 0 {
      assert OrderInv(EMPTY) by { EmptyIsGood(); }
    } else {
      EvictedInCreationOrder(ss, steps, n - 1);
      CappedAndOneShot(ss, steps, n - 1);
      assert !Overwrites(ss, steps, n - 1);
      match steps[n - 1]
      case DoCreate(id) => CreateKeepsOrder(ss[n - 1], id);
      case DoSettle(w) => OwnersKeepOrder(ss[n - 1], steps[n - 1]);
      case DoFetch(id) => OwnersKeepOrder(ss[n - 1], steps[n - 1]);
    }
  }

  lemma OwnersKeepOrder(s: Registry, step: Step)
    requires OrderInv(s) && Enabled(s, step) && !step.DoCreate?
    ensures OrderInv(Apply(s, step))
  {
    hide OrderInv;
    var s' := Apply(s, step);
    if step.DoFetch? && |s'.entries| < |s.entries| {
      FetchKeepsOrder(s, step.id);
    } else {
      KeepsOrder(s, s', seq(|s'.entries|, i requires 0 <= i < |s'.entries| => i));
    }
  }

  lemma FetchKeepsOrder(s: Registry, id: Id)
    requires OrderInv(s) && |Fetch(s, id).entries| < |s.entries|
    ensures OrderInv(Fetch(s, id))
  {
    hide OrderInv;
    var s', k := Fetch(s, id), Find(s.entries, id);
    KeepsOrder(s, s', seq(|s'.entries|, i requires 0 <= i < |s'.entries| => if i < k then i else i + 1));
  }

  // Records are taken, in order, from earlier places.
  lemma KeepsOrder(s: Registry, s': Registry, from: seq<nat>)
    requires OrderInv(s) && |s'.watches| == |s.watches| && s'.evicted == s.evicted && |from| == |s'.entries|
    requires forall i | 0 <= i < |from| :: from[i] < |s.entries| && s'.entries[i].owner == s.entries[from[i]].owner
    requires forall i, j | 0 <= i < j < |from| :: from[i] < from[j]
    ensures OrderInv(s')
  {
  }

  ghost predicate Held(s: Registry, w: nat) {
    exists i :: 0 <= i < |s.entries| && s.entries[i].owner == w
  }

  ghost predicate Served(s: Registry, w: nat) {
    exists i :: 0 <= i < |s.delivered| && s.delivered[i].owner == w
  }

  lemma {:induction false} OwnersMeansHeld(entries: seq<Entry>, w: nat)
    ensures Owners(entries)[w] > 0 <==> exists i :: 0 <= i < |entries| && entries[i].owner == w
  {
    if entries != [] {
      var rest := entries[1..];
      OwnersMeansHeld(rest, w);
      if i :| 0 <= i < |rest| && rest[i].owner == w {
        assert entries[i + 1].owner == w;
      }
      if i :| 0 <= i < |entries| && entries[i].owner == w {
        assert i > 0 ==> rest[i - 1].owner == w;
      }
    }
  }

  lemma {:induction false} ReceiversMeansServed(delivered: seq<Delivery>, w: nat)
    ensures Receivers(delivered)[w] > 0 <==> exists i :: 0 <= i < |delivered| && delivered[i].owner == w
  {
    if delivered != [] {
      var rest := delivered[..|delivered| - 1];
      ReceiversMeansServed(rest, w);
      if i :| 0 <= i < |rest| && rest[i].owner == w {
        assert delivered[i].owner == w;
      }
      if i :| 0 <= i < |delivered| && delivered[i].owner == w {
        assert i < |rest| ==> rest[i].owner == w;
      }
    }
  }

  // Records and deliveries carry their owner's id.
  predicate IdsMatch(s: Registry) {
    && (forall i | 0 <= i < |s.entries| :: IsIdOf(s, s.entries[i].owner, s.entries[i].id))
    && (forall i | 0 <= i < |s.delivered| :: IsIdOf(s, s.delivered[i].owner, s.delivered[i].id))
  }

  predicate IsIdOf(s: Registry, w: nat, id: Id) {
    w < |s.watches| && s.watches[w].id == id
  }

  lemma CreateMatchesIds(s: Registry, id: Id)
    requires Inv(s) && IdsMatch(s)
    ensures IdsMatch(Create(s, id))
  {
    hide Put, Evict, Overflow, ResultsOnce, DistinctKeys;
    var s' := Create(s, id);
    CreateAddsOnlyNew(s, id);
    forall i | 0 <= i < |s'.entries| ensures IsIdOf(s', s'.entries[i].owner, s'.entries[i].id) {
      if s'.entries[i] in s.entries {
        var k :| 0 <= k < |s.entries| && s.entries[k] == s'.entries[i];
        assert IsIdOf(s, s.entries[k].owner, s.entries[k].id);
      }
    }
    forall i | 0 <= i < |s'.delivered| ensures IsIdOf(s', s'.delivered[i].owner, s'.delivered[i].id) {
      assert IsIdOf(s, s.delivered[i].owner, s.delivered[i].id);
    }
  }

  lemma SettleMatchesIds(s: Registry, w: nat)
    requires IdsMatch(s) && w < |s.watches|
    ensures IdsMatch(Settle(s, w))
  {
    var s' := Settle(s, w);
    forall i | 0 <= i < |s'.entries| ensures IsIdOf(s', s'.entries[i].owner, s'.entries[i].id) {
      assert IsIdOf(s, s.entries[i].owner, s.entries[i].id);
    }
    forall i | 0 <= i < |s'.delivered| ensures IsIdOf(s', s'.delivered[i].owner, s'.delivered[i].id) {
      assert IsIdOf(s, s.delivered[i].owner, s.delivered[i].id);
    }
  }

  lemma FetchMatchesIds(s: Registry, id: Id)
    requires IdsMatch(s)
    ensures IdsMatch(Fetch(s, id))
  {
    var s', k := Fetch(s, id), Find(s.entries, id);
    if k < |s.entries| && s.entries[k].result.Some? {
      assert IsIdOf(s, s.entries[k].owner, s.entries[k].id);
      forall i | 0 <= i < |s'.entries| ensures IsIdOf(s', s'.entries[i].owner, s'.entries[i].id) {
        assert s'.entries[i] == s.entries[if i < k then i else i + 1];
      }
      forall i | 0 <= i < |s'.delivered| ensures IsIdOf(s', s'.delivered[i].owner, s'.delivered[i].id) {
        assert i < |s.delivered| ==> IsIdOf(s, s.delivered[i].owner, s.delivered[i].id);
      }
    }
  }

  lemma {:induction false} EveryRunMatchesIds(ss: seq<Registry>, steps: seq<Step>, n: nat)
    requires IsRun(ss, steps) && n < |ss|
    ensures IdsMatch(ss[n])
    decreases n
  {
    hide Inv, Create, Settle, Fetch, IsIdOf;
    if n > 0 {
      EveryRunMatchesIds(ss, steps, n - 1);
      CappedAndOneShot(ss, steps, n - 1);
      match steps[n - 1]
      case DoCreate(id) => CreateMatchesIds(ss[n - 1], id);
      case DoSettle(w) => SettleMatchesIds(ss[n - 1], w);
      case DoFetch(id) => FetchMatchesIds(ss[n - 1], id);
    }
  }

  /** A watcher has one fate at most. In a run that overwrites no held record it has one: registered, served, or
      evicted, and then at least the cap's number of watchers came after it. Where no watch was overlapped, what it
      was served is its own result. */
  lemma WatcherFate(ss: seq<Registry>, steps: seq<Step>, n: nat, w: nat)
    requires IsRun(ss, steps) && n < |ss| && w < |ss[n].watches|
    ensures var s := ss[n];
            && !(Held(s, w) && Served(s, w)) && !(Held(s, w) && w in s.evicted) && !(Served(s, w) && w in s.evicted)
            && ((forall k: nat | k < n :: !Overwrites(ss, steps, k)) ==>
                  && (Held(s, w) || Served(s, w) || w in s.evicted)
                  && (w in s.evicted ==>
                        && w + WATCH_TASKS_CACHE_LIMIT < |s.watches|
                        && forall e | e in s.entries :: w < e.owner))
            && ((forall k: nat | k < n :: !Overlaps(ss, steps, k)) ==>
                  forall d | d in s.delivered && d.owner == w :: d.watch == w)
            && forall d | d in s.delivered && d.owner == w :: d.id == s.watches[w].id
  {
    hide Inv, Apply, Enabled, Own, NoneRunning, RecordHeld, Owners, Receivers;
    var s := ss[n];
    EveryRunPlacesOnce(ss, steps, n);
    EveryRunMatchesIds(ss, steps, n);
    OwnersMeansHeld(s.entries, w);
    ReceiversMeansServed(s.delivered, w);
    assert Placed(s)[w] <= 1;
    if forall k: nat | k < n :: !Overwrites(ss, steps, k) {
      NoneOverwrittenAllPlaced(ss, steps, n);
      EvictedInCreationOrder(ss, steps, n);
    }
    if forall k: nat | k < n :: !Overlaps(ss, steps, k) {
      NoneOverlappingIsOwn(ss, steps, n);
      OwnMeansResultsOwn(s);
    }
  }

  lemma OwnMeansResultsOwn(s: Registry)
    requires Own(s)
    ensures ResultsOwn(s)
  {
  }

  lemma WatchesGrow(s: Registry, step: Step)
    requires Enabled(s, step)
    ensures |s.watches| <= |Apply(s, step).watches|
  {
  }

  // No step brings back a record of an earlier watch.
  lemma OwnersDoNotReturn(s: Registry, step: Step, w: nat)
    requires Enabled(s, step) && Inv(s) && w < |s.watches| && !Held(s, w)
    ensures !Held(Apply(s, step), w)
  {
    hide ResultsOnce, DistinctKeys, Put, Evict, Overflow;
    var s' := Apply(s, step);
    if step.DoCreate? {
      var e := Entry(step.id, |s.watches|, None);
      assert Inv(s);
      CreateAddsOnlyNew(s, step.id);
      forall i | 0 <= i < |s'.entries| ensures s'.entries[i].owner != w {
        if s'.entries[i] != e { assert s'.entries[i] in s.entries; }
      }
    } else {
      forall i | 0 <= i < |s'.entries| ensures s'.entries[i].owner != w {
        assert exists j :: 0 <= j < |s.entries| && s'.entries[i].owner == s.entries[j].owner by {
          assert s'.entries[i].owner == s.entries[i].owner || s'.entries[i].owner == s.entries[i + 1].owner;
        }
      }
    }
  }

  lemma CreateAddsOnlyNew(s: Registry, id: Id)
    requires Inv(s)
    ensures forall e | e in Create(s, id).entries :: e in s.entries || e == Entry(id, |s.watches|, None)
  {
    hide Put, Evict;
    RegisterKeepsNewest(s.entries, Entry(id, |s.watches|, None));
  }

  /** A consumed or evicted watcher never reappears, whenever its watch settles. */
  lemma {:induction false} GoneStaysGone(ss: seq<Registry>, steps: seq<Step>, m: nat, n: nat, w: nat)
    requires IsRun(ss, steps) && m <= n < |ss| && w < |ss[m].watches| && !Held(ss[m], w)
    ensures w < |ss[n].watches| && !Held(ss[n], w)
    decreases n
  {
    hide Inv, Apply, Held;
    if m < n {
      GoneStaysGone(ss, steps, m, n - 1, w);
      CappedAndOneShot(ss, steps, n - 1);
      WatchesGrow(ss[n - 1], steps[n - 1]);
      OwnersDoNotReturn(ss[n - 1], steps[n - 1], w);
    }
  }

  // Two running watches under one id: the first one's result goes to the second watcher, and the second result is
  // dropped.
  lemma RepeatedIdMixesResults(id: Id)
    ensures var s := Settle(Fetch(Settle(Create(Create(EMPTY, id), id), 0), id), 1);
            s.entries == [] && s.delivered == [Delivery(id, 1, 0)]
  {
    var s := Create(Create(EMPTY, id), id);
    assert s.entries == [Entry(id, 1, None)];
  }

  // An id used again after its watch was served: each watcher gets its own result.
  lemma RepeatedIdAfterServing(id: Id)
    ensures var served := Fetch(Settle(Create(EMPTY, id), 0), id);
            var s := Fetch(Settle(Create(served, id), 1), id);
            s.entries == [] && s.delivered == [Delivery(id, 0, 0), Delivery(id, 1, 1)]
  {
    hide Create, Settle, Fetch;
    ServedAlone(EMPTY, id);
    ServedAlone(Fetch(Settle(Create(EMPTY, id), 0), id), id);
  }

  // In an empty registry: created, settled, fetched.
  lemma ServedAlone(s: Registry, id: Id)
    requires s.entries == []
    ensures |Create(s, id).watches| == |s.watches| + 1
    ensures var n := |s.watches|; var r := Fetch(Settle(Create(s, id), n), id);
            r.entries == [] && |r.watches| == n + 1 && r.delivered == s.delivered + [Delivery(id, n, n)]
  {
    CreateAlone(s, id);
    hide Create, Settle, Fetch;
    var created := Create(s, id);
    SettleAlone(created, |s.watches|, id);
    FetchAlone(Settle(created, |s.watches|), |s.watches|, id);
  }

  lemma CreateAlone(s: Registry, id: Id)
    requires s.entries == []
    ensures var n, r := |s.watches|, Create(s, id);
            && r.entries == [Entry(id, n, None)] && r.delivered == s.delivered
            && |r.watches| == n + 1 && r.watches[n].id == id
  {
    assert Find([], id) == 0;
    assert Put([], Entry(id, |s.watches|, None)) == [Entry(id, |s.watches|, None)];
  }

  lemma SettleAlone(s: Registry, n: nat, id: Id)
    requires s.entries == [Entry(id, n, None)] && n < |s.watches| && s.watches[n].id == id
    ensures var r := Settle(s, n);
            r.entries == [Entry(id, n, Some(n))] && r.delivered == s.delivered && |r.watches| == |s.watches|
  {
    assert Find(s.entries, id) == 0;
  }

  lemma FetchAlone(s: Registry, n: nat, id: Id)
    requires s.entries == [Entry(id, n, Some(n))]
    ensures var r := Fetch(s, id);
            r.entries == [] && r.delivered == s.delivered + [Delivery(id, n, n)] && |r.watches| == |s.watches|
  {
    assert Find(s.entries, id) == 0;
  }

  // --- The class ---

  /** watchTasksById with the code that changes it; `watches`, `delivered` and `evicted` stand for the running watches,
      the fetched results and the records dropped by the cap. */
  class WatchTasks {
    var entries: seq<Entry>
    var watches: seq<Watch>
    var delivered: seq<Delivery>
    var evicted: seq<nat>

    ghost function View(): Registry
      reads this
    {
      Registry(entries, watches, delivered, evicted)
    }

    constructor ()
      ensures View() == EMPTY
    {
      entries, watches, delivered, evicted := [], [], [], [];
    }

    method RegisterWatchTask(watchTaskId: Id)
      modifies this
      ensures View() == Create(old(View()), watchTaskId)
    {
      hide Put;
      entries := Put(entries, Entry(watchTaskId, |watches|, None));
      watches := watches + [Watch(watchTaskId, false)];
      ghost var registered := entries;
      while |entries| > WATCH_TASKS_CACHE_LIMIT
        invariant watches == old(watches) + [Watch(watchTaskId, false)] && delivered == old(delivered)
        invariant Evict(registered, watchTaskId) == Evict(entries, watchTaskId)
        invariant evicted + Overflow(entries, watchTaskId) == old(evicted) + Overflow(registered, watchTaskId)
        decreases |entries|
      {
        var oldestKey := entries[0].id;
        if oldestKey == watchTaskId {
          break;
        }
        assert evicted + ([entries[0].owner] + Overflow(entries[1..], watchTaskId))
            == (evicted + [entries[0].owner]) + Overflow(entries[1..], watchTaskId);
        evicted := evicted + [entries[0].owner];
        entries := entries[1..];
      }
      assert evicted + [] == evicted;
    }

    method WatchSettles(w: nat)
      requires w < |watches| && !watches[w].settled
      modifies this
      ensures View() == Settle(old(View()), w)
    {
      var i := Find(entries, watches[w].id);
      watches := watches[w := watches[w].(settled := true)];
      if i == |entries| {
        return;
      }
      entries := entries[i := entries[i].(result := Some(w))];
    }

    // The result handed out, or none: still running or unknown.
    method GetTaskResult(taskId: Id) returns (result: Option<nat>)
      modifies this
      ensures View() == Fetch(old(View()), taskId)
      ensures result.Some? <==> delivered != old(delivered)
      ensures result.Some? ==> exists owner :: delivered == old(delivered) + [Delivery(taskId, owner, result.value)]
    {
      var i := Find(entries, taskId);
      if i == |entries| || entries[i].result.None? {
        return None;
      }
      result := entries[i].result;
      delivered := delivered + [Delivery(taskId, entries[i].owner, result.value)];
      entries := entries[..i] + entries[i + 1..];
    }
  }
}
