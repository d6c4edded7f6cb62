/** The control service's turns: prompt() and cancelTurn() over the inFlight map, cut at every await and every emitted
    event. */
module ControlTurns {
  import opened Text

  // A prompt() call. Between Running and Finishing its turn is open; Answered is after chat() resolved.
  datatype Phase = Preparing | Running | Answered | Finishing(ok: bool) | Returned(ok: bool, started: bool)

  datatype Prompt = Prompt(chatKey: Str16, alias: Str16, phase: Phase)

  datatype Kind = Started | Output | Tool | Thought | Finished(ok: bool, cancelled: bool)

  // An event as emitted; `by` is the emitting call.
  datatype Event = Event(kind: Kind, chatKey: Str16, alias: Str16, caller: nat)

  // A call's abort controller is known by the call's number.
  datatype Turns = Turns(prompts: seq<Prompt>, inFlight: map<Str16, nat>, aborted: set<nat>, trace: seq<Event>)

  const NO_TURNS := Turns([], map[], {}, [])

  function TurnKey(chatKey: Str16, sessionAlias: Str16): Str16 {
    chatKey + [SPACE] + sessionAlias
  }

  function KeyOf(p: Prompt): Str16 {
    TurnKey(p.chatKey, p.alias)
  }

  // --- Specification of the steps ---

  // prompt() up to its first await: reserve the key, or refuse.
  function Call(s: Turns, chatKey: Str16, alias: Str16): Turns {
    var key := TurnKey(chatKey, alias);
    if key in s.inFlight then s.(prompts := s.prompts + [Prompt(chatKey, alias, Returned(false, false))])
    else s.(prompts := s.prompts + [Prompt(chatKey, alias, Preparing)], inFlight := s.inFlight[key := |s.prompts|])
  }

  function SetPhase(s: Turns, p: nat, phase: Phase): Turns
    requires p < |s.prompts|
  {
    s.(prompts := s.prompts[p := s.prompts[p].(phase := phase)])
  }

  function Emit(s: Turns, p: nat, kind: Kind): Turns
    requires p < |s.prompts|
  {
    s.(trace := s.trace + [Event(kind, s.prompts[p].chatKey, s.prompts[p].alias, p)])
  }

  function Release(s: Turns, p: nat): Turns
    requires p < |s.prompts|
  {
    s.(inFlight := s.inFlight - {KeyOf(s.prompts[p])})
  }

  function Cancel(s: Turns, chatKey: Str16, alias: Str16): Turns {
    var key := TurnKey(chatKey, alias);
    if key in s.inFlight then s.(aborted := s.aborted + {s.inFlight[key]}) else s
  }

  datatype Step =
    | DoCall(chatKey: Str16, alias: Str16)
    | SessionReady(p: nat)                    // useSession resolved: turn-started
    | SessionFails(p: nat)                    // useSession rejected: the key is released
    | Callback(p: nat, kind: Kind)            // the agent calls back while chat() is pending
    | ChatResolves(p: nat, text: bool)        // chat() resolved, with a text or without
    | Succeed(p: nat)                         // turn-finished, ok
    | ChatRejects(p: nat)                     // chat() rejected: turn-finished, not ok
    | Return(p: nat)                          // the finally block
    | DoCancel(chatKey: Str16, alias: Str16)

  predicate In(s: Turns, p: nat, phase: Phase) {
    p < |s.prompts| && s.prompts[p].phase == phase
  }

  predicate IsCallback(kind: Kind) {
    kind.Output? || kind.Tool? || kind.Thought?
  }

  predicate Enabled(s: Turns, step: Step) {
    match step
    case DoCall(_, _) => true
    case SessionReady(p) => In(s, p, Preparing)
    case SessionFails(p) => In(s, p, Preparing)
    case Callback(p, kind) => In(s, p, Running) && IsCallback(kind)
    case ChatResolves(p, _) => In(s, p, Running)
    case Succeed(p) => In(s, p, Answered)
    case ChatRejects(p) => In(s, p, Running)
    case Return(p) => p < |s.prompts| && s.prompts[p].phase.Finishing?
    case DoCancel(_, _) => true
  }

  function Apply(s: Turns, step: Step): Turns
    requires Enabled(s, step)
  {
    match step
    case DoCall(chatKey, alias) => Call(s, chatKey, alias)
    case SessionReady(p) => Emit(SetPhase(s, p, Running), p, Started)
    case SessionFails(p) => Release(SetPhase(s, p, Returned(false, false)), p)
    case Callback(p, kind) => Emit(s, p, kind)
    case ChatResolves(p, text) =>
      var s' := SetPhase(s, p, Answered);
      if text then Emit(s', p, Output) else s'
    case Succeed(p) => Emit(SetPhase(s, p, Finishing(true)), p, Finished(true, false))
    case ChatRejects(p) => Emit(SetPhase(s, p, Finishing(false)), p, Finished(false, p in s.aborted))
    case Return(p) => Release(SetPhase(s, p, Returned(s.prompts[p].phase.ok, true)), p)
    case DoCancel(chatKey, alias) => Cancel(s, chatKey, alias)
  }

  // --- The turn of a (chatKey, alias) pair, read off the events ---

  datatype Turn = Closed | Open(caller: nat) | Broken

  function Observe(turn: Turn, e: Event): Turn {
    match turn
    case Closed => if e.kind.Started? then Open(e.caller) else Broken
    case Open(caller) =>
      if e.caller != caller || e.kind.Started? then Broken else if e.kind.Finished? then Closed else Open(caller)
    case Broken => Broken
  }

  // Started and finished alternate, with everything else in between and from the same call; Broken otherwise.
  function Track(trace: seq<Event>, chatKey: Str16, alias: Str16): Turn {
    if trace == [] then Closed
    else
      var e := trace[|trace| - 1];
      var before := Track(trace[..|trace| - 1], chatKey, alias);
      if e.chatKey == chatKey && e.alias == alias then Observe(before, e) else before
  }

  // The events of one call.
  function Story(trace: seq<Event>, p: nat): seq<Kind> {
    if trace == [] then []
    else
      var e := trace[|trace| - 1];
      Story(trace[..|trace| - 1], p) + if e.caller == p then [e.kind] else []
  }

  predicate Opens(story: seq<Kind>) {
    story != [] && story[0].Started? && forall i | 1 <= i < |story| :: IsCallback(story[i])
  }

  predicate Closes(story: seq<Kind>, ok: bool) {
    && |story| >= 2 && Opens(story[..|story| - 1])
    && story[|story| - 1].Finished? && story[|story| - 1].ok == ok
  }

  predicate StoryFits(phase: Phase, story: seq<Kind>) {
    match phase
    case Preparing => story == []
    case Running => Opens(story)
    case Answered => Opens(story)
    case Finishing(ok) => Closes(story, ok)
    case Returned(ok, started) => if started then Closes(story, ok) else story == [] && !ok
  }

  // --- Invariant ---

  predicate Active(p: Prompt) {
    !p.phase.Returned?
  }

  predicate Talking(p: Prompt) {
    p.phase.Running? || p.phase.Answered?
  }

  // The map holds exactly the unfinished calls, each under its own key.
  ghost predicate MapInv(s: Turns) {
    && (forall k | k in s.inFlight ::
          && s.inFlight[k] < |s.prompts|
          && Active(s.prompts[s.inFlight[k]])
          && KeyOf(s.prompts[s.inFlight[k]]) == k)
    && (forall p | 0 <= p < |s.prompts| && Active(s.prompts[p]) ::
        KeyOf(s.prompts[p]) in s.inFlight && s.inFlight[KeyOf(s.prompts[p])] == p)
  }

  // The pair's turn is open exactly while its call is talking.
  ghost predicate TurnFits(s: Turns, chatKey: Str16, alias: Str16) {
    var turn := Track(s.trace, chatKey, alias);
    && turn != Broken
    && (turn.Open? ==> turn.caller < |s.prompts| && TalkingFor(s.prompts[turn.caller], chatKey, alias))
    && (forall p: nat | p < |s.prompts| && TalkingFor(s.prompts[p], chatKey, alias) :: turn == Open(p))
  }

  predicate TalkingFor(p: Prompt, chatKey: Str16, alias: Str16) {
    Talking(p) && p.chatKey == chatKey && p.alias == alias
  }

  ghost predicate TraceInv(s: Turns) {
    && (forall c, a :: TurnFits(s, c, a))
    && (forall p: nat | p < |s.prompts| :: StoryFits(s.prompts[p].phase, Story(s.trace, p)))
    && (forall i | 0 <= i < |s.trace| :: s.trace[i].caller < |s.prompts|)
  }

  ghost predicate Inv(s: Turns) {
    MapInv(s) && TraceInv(s)
  }

  lemma CallKeepsMap(s: Turns, chatKey: Str16, alias: Str16)
    requires MapInv(s)
    ensures MapInv(Call(s, chatKey, alias))
  {
    hide TurnKey;
  }

  lemma ReleaseKeepsMap(s: Turns, p: nat, phase: Phase)
    requires MapInv(s) && p < |s.prompts| && Active(s.prompts[p]) && phase.Returned?
    ensures MapInv(Release(SetPhase(s, p, phase), p))
  {
    hide TurnKey;
  }

  lemma PhaseKeepsMap(s: Turns, p: nat, phase: Phase)
    requires MapInv(s) && p < |s.prompts| && Active(s.prompts[p]) && !phase.Returned?
    ensures MapInv(SetPhase(s, p, phase))
  {
    hide TurnKey;
  }

  lemma OnlyMapMatters(s: Turns, t: Turns)
    requires MapInv(s) && s.prompts == t.prompts && s.inFlight == t.inFlight
    ensures MapInv(t)
  {
  }

  lemma MapKept(s: Turns, step: Step)
    requires MapInv(s) && Enabled(s, step)
    ensures MapInv(Apply(s, step))
  {
    hide TurnKey, KeyOf, MapInv;
    match step
    case DoCall(chatKey, alias) => CallKeepsMap(s, chatKey, alias);
    case SessionReady(p) =>
      PhaseKeepsMap(s, p, Running);
      OnlyMapMatters(SetPhase(s, p, Running), Apply(s, step));
    case SessionFails(p) => ReleaseKeepsMap(s, p, Returned(false, false));
    case Callback(p, kind) => OnlyMapMatters(s, Apply(s, step));
    case ChatResolves(p, _) =>
      PhaseKeepsMap(s, p, Answered);
      OnlyMapMatters(SetPhase(s, p, Answered), Apply(s, step));
    case Succeed(p) =>
      PhaseKeepsMap(s, p, Finishing(true));
      OnlyMapMatters(SetPhase(s, p, Finishing(true)), Apply(s, step));
    case ChatRejects(p) =>
      PhaseKeepsMap(s, p, Finishing(false));
      OnlyMapMatters(SetPhase(s, p, Finishing(false)), Apply(s, step));
    case Return(p) => ReleaseKeepsMap(s, p, Returned(s.prompts[p].phase.ok, true));
    case DoCancel(_, _) => OnlyMapMatters(s, Apply(s, step));
  }

  lemma TrackSnoc(trace: seq<Event>, e: Event, chatKey: Str16, alias: Str16)
    ensures Track(trace + [e], chatKey, alias)
         == if e.chatKey == chatKey && e.alias == alias then Observe(Track(trace, chatKey, alias), e)
             else Track(trace, chatKey, alias)
  {
    assert (trace + [e])[..|trace|] == trace;
  }

  lemma StorySnoc(trace: seq<Event>, e: Event, p: nat)
    ensures Story(trace + [e], p) == Story(trace, p) + if e.caller == p then [e.kind] else []
  {
    assert (trace + [e])[..|trace|] == trace;
  }

  lemma {:induction false} StrangerHasNoStory(trace: seq<Event>, p: nat)
    requires forall i | 0 <= i < |trace| :: trace[i].caller < p
    ensures Story(trace, p) == []
  {
    if trace != [] {
      StrangerHasNoStory(trace[..|trace| - 1], p);
    }
  }

  // Two active calls of one pair are the same call.
  lemma OneCallPerKey(s: Turns, p: nat, q: nat)
    requires MapInv(s) && p < |s.prompts| && q < |s.prompts| && Active(s.prompts[p]) && Active(s.prompts[q])
    requires KeyOf(s.prompts[p]) == KeyOf(s.prompts[q])
    ensures p == q
  {
  }

  // Nothing emitted for the pair: a phase change of another call, or one that keeps its call talking or silent.
  lemma TurnStays(s: Turns, s': Turns, c: Str16, a: Str16)
    requires TurnFits(s, c, a) && Track(s'.trace, c, a) == Track(s.trace, c, a) && |s.prompts| <= |s'.prompts|
    requires forall p: nat | p < |s.prompts| :: TalkingFor(s'.prompts[p], c, a) <==> TalkingFor(s.prompts[p], c, a)
    requires forall p: nat | |s.prompts| <= p < |s'.prompts| :: !TalkingFor(s'.prompts[p], c, a)
    ensures TurnFits(s', c, a)
  {
    hide Track, TalkingFor;
  }

  lemma TurnKept(s: Turns, step: Step, c: Str16, a: Str16)
    requires Inv(s) && Enabled(s, step)
    ensures TurnFits(Apply(s, step), c, a)
  {
    hide MapInv, Story, TurnKey, Track;
    var s' := Apply(s, step);
    assert TurnFits(s, c, a);
    if |s'.trace| == |s.trace| {
      SilentStep(s, step, c, a);
      TurnStays(s, s', c, a);
    } else {
      LoudStep(s, step, c, a);
    }
  }

  lemma SilentStep(s: Turns, step: Step, c: Str16, a: Str16)
    requires Enabled(s, step) && |Apply(s, step).trace| == |s.trace|
    ensures var s' := Apply(s, step);
            && s'.trace == s.trace && |s.prompts| <= |s'.prompts|
            && (forall p: nat | p < |s.prompts| :: TalkingFor(s'.prompts[p], c, a) <==> TalkingFor(s.prompts[p], c, a))
            && (forall p: nat | |s.prompts| <= p < |s'.prompts| :: !TalkingFor(s'.prompts[p], c, a))
  {
    hide TurnKey;
  }

  lemma LoudStep(s: Turns, step: Step, c: Str16, a: Str16)
    requires Inv(s) && Enabled(s, step) && |Apply(s, step).trace| > |s.trace|
    ensures TurnFits(Apply(s, step), c, a)
  {
    hide MapInv, Story, StoryFits, TurnKey, Track;
    var s' := Apply(s, step);
    assert TurnFits(s, c, a);
    var e := s'.trace[|s.trace|];
    assert s'.trace == s.trace + [e];
    TrackSnoc(s.trace, e, c, a);
    if step.SessionReady? && e.chatKey == c && e.alias == a {
      NobodyElseTalks(s, step.p);
    }
  }

  // While a call prepares, its pair has no talking call.
  lemma NobodyElseTalks(s: Turns, p: nat)
    requires MapInv(s) && p < |s.prompts| && s.prompts[p].phase.Preparing?
    ensures forall q: nat | q < |s.prompts| :: !TalkingFor(s.prompts[q], s.prompts[p].chatKey, s.prompts[p].alias)
  {
    forall q: nat | q < |s.prompts| ensures !TalkingFor(s.prompts[q], s.prompts[p].chatKey, s.prompts[p].alias) {
      if TalkingFor(s.prompts[q], s.prompts[p].chatKey, s.prompts[p].alias) { OneCallPerKey(s, p, q); }
    }
  }

  lemma StoryGrows(story: seq<Kind>, kind: Kind)
    ensures story == [] && kind.Started? ==> Opens(story + [kind])
    ensures Opens(story) && IsCallback(kind) ==> Opens(story + [kind])
    ensures Opens(story) && kind.Finished? ==> Closes(story + [kind], kind.ok)
  {
    assert (story + [kind])[..|story|] == story;
  }

  // What a step may do to one call: its phase before and after, and what it emits meanwhile.
  predicate Legal(before: Phase, after: Phase, emitted: seq<Kind>) {
    || (after == before && (emitted == [] || (before.Running? && |emitted| == 1 && IsCallback(emitted[0]))))
    || (before.Preparing? && after.Running? && emitted == [Started])
    || (before.Preparing? && after == Returned(false, false) && emitted == [])
    || (before.Running? && after.Answered? && (emitted == [] || emitted == [Output]))
    || ((before.Running? || before.Answered?) && after.Finishing? && |emitted| == 1 && emitted[0].Finished?
        && emitted[0].ok == after.ok)
    || (before.Finishing? && after == Returned(before.ok, true) && emitted == [])
  }

  lemma LegalKeepsStory(before: Phase, after: Phase, emitted: seq<Kind>, story: seq<Kind>)
    requires Legal(before, after, emitted) && StoryFits(before, story)
    ensures StoryFits(after, story + emitted)
  {
    hide Opens, Closes;
    if emitted == [] {
      assert story + emitted == story;
    } else {
      var kind := emitted[0];
      assert story + emitted == story + [kind] by { assert |emitted| == 1; }
      StoryGrows(story, kind);
    }
  }

  lemma StepIsLegal(s: Turns, step: Step, q: nat) returns (emitted: seq<Kind>)
    requires Enabled(s, step) && q < |s.prompts|
    ensures Legal(s.prompts[q].phase, Apply(s, step).prompts[q].phase, emitted)
    ensures Story(Apply(s, step).trace, q) == Story(s.trace, q) + emitted
  {
    hide TurnKey, Story;
    var s' := Apply(s, step);
    if |s'.trace| > |s.trace| {
      var e := s'.trace[|s.trace|];
      assert s'.trace == s.trace + [e];
      StorySnoc(s.trace, e, q);
      emitted := if e.caller == q then [e.kind] else [];
    } else {
      emitted := [];
      assert Story(s.trace, q) + [] == Story(s.trace, q);
    }
  }

  lemma StoryKept(s: Turns, step: Step, q: nat)
    requires TraceInv(s) && Enabled(s, step) && q < |Apply(s, step).prompts|
    ensures StoryFits(Apply(s, step).prompts[q].phase, Story(Apply(s, step).trace, q))
  {
    hide Track, TurnFits, TurnKey, Story, Legal, StoryFits;
    if q == |s.prompts| {
      NewCallHasNoStory(s, step);
    } else {
      assert StoryFits(s.prompts[q].phase, Story(s.trace, q));
      var emitted := StepIsLegal(s, step, q);
      LegalKeepsStory(s.prompts[q].phase, Apply(s, step).prompts[q].phase, emitted, Story(s.trace, q));
    }
  }

  lemma NewCallHasNoStory(s: Turns, step: Step)
    requires TraceInv(s) && Enabled(s, step) && |s.prompts| < |Apply(s, step).prompts|
    ensures var q := |s.prompts|; StoryFits(Apply(s, step).prompts[q].phase, Story(Apply(s, step).trace, q))
  {
    hide Track, TurnFits, TurnKey, Story;
    StrangerHasNoStory(s.trace, |s.prompts|);
  }

  lemma StepKeepsInv(s: Turns, step: Step)
    requires Inv(s) && Enabled(s, step)
    ensures Inv(Apply(s, step))
  {
    hide MapInv, TurnFits, StoryFits, Story, TurnKey;
    MapKept(s, step);
    forall c, a ensures TurnFits(Apply(s, step), c, a) { TurnKept(s, step, c, a); }
    forall q: nat | q < |Apply(s, step).prompts|
      ensures StoryFits(Apply(s, step).prompts[q].phase, Story(Apply(s, step).trace, q))
    {
      StoryKept(s, step, q);
    }
  }

  // --- Runs ---

  ghost predicate IsRun(ss: seq<Turns>, steps: seq<Step>) {
    && |ss| == |steps| + 1 && ss[0] == NO_TURNS
    && forall i | 0 <= i < |steps| :: Enabled(ss[i], steps[i]) && ss[i + 1] == Apply(ss[i], steps[i])
  }

  lemma {:induction false} EveryRunKeepsInv(ss: seq<Turns>, steps: seq<Step>, n: nat)
    requires IsRun(ss, steps) && n < |ss|
    ensures Inv(ss[n])
    decreases n
  {
    hide Inv, Apply, Enabled;
    if n == 0 {
      assert Inv(NO_TURNS) by { NoTurnsIsGood(); }
    } else {
      EveryRunKeepsInv(ss, steps, n - 1);
      StepKeepsInv(ss[n - 1], steps[n - 1]);
    }
  }

  lemma NoTurnsIsGood()
    ensures Inv(NO_TURNS)
  {
  }

  /** In every run, started and finished events of a pair alternate, all other events lie in between and come
      from the same call, and the turn is open exactly while that call talks to the agent. */
  lemma TurnsAlternate(ss: seq<Turns>, steps: seq<Step>, n: nat, chatKey: Str16, alias: Str16)
    requires IsRun(ss, steps) && n < |ss|
    ensures var turn := Track(ss[n].trace, chatKey, alias);
            turn != Broken
            && forall p: nat :: turn == Open(p) <==> p < |ss[n].prompts| && TalkingFor(ss[n].prompts[p], chatKey, alias)
  {
    hide MapInv, Track, Apply, Enabled;
    EveryRunKeepsInv(ss, steps, n);
    assert TurnFits(ss[n], chatKey, alias);
  }

  /** In every run, a key has at most one call in flight, the stored controller is that call's,
      and the entry is gone once the call has returned. */
  lemma OneTurnPerKey(ss: seq<Turns>, steps: seq<Step>, n: nat, p: nat)
    requires IsRun(ss, steps) && n < |ss| && p < |ss[n].prompts|
    ensures var s := ss[n]; var key := KeyOf(s.prompts[p]);
            && (Active(s.prompts[p]) <==> key in s.inFlight && s.inFlight[key] == p)
            && (forall q: nat | q < |s.prompts| && q != p && Active(s.prompts[p]) && Active(s.prompts[q]) ::
                KeyOf(s.prompts[q]) != key)
  {
    hide TraceInv, Apply, Enabled, TurnKey;
    EveryRunKeepsInv(ss, steps, n);
  }

  /** In every run, a returned call emitted either one whole turn with its result, or nothing at all. */
  lemma ReturnedCallsAreWhole(ss: seq<Turns>, steps: seq<Step>, n: nat, p: nat)
    requires IsRun(ss, steps) && n < |ss| && p < |ss[n].prompts| && ss[n].prompts[p].phase.Returned?
    ensures var phase := ss[n].prompts[p].phase; var story := Story(ss[n].trace, p);
            if phase.started then Closes(story, phase.ok) else story == [] && !phase.ok
  {
    hide MapInv, Story, Apply, Enabled, TurnFits, Closes;
    EveryRunKeepsInv(ss, steps, n);
  }

  // Step m cancelled call p.
  ghost predicate CancelsCall(ss: seq<Turns>, steps: seq<Step>, m: nat, p: nat)
    requires m < |steps| && m < |ss|
  {
    && steps[m].DoCancel?
    && TurnKey(steps[m].chatKey, steps[m].alias) in ss[m].inFlight
    && ss[m].inFlight[TurnKey(steps[m].chatKey, steps[m].alias)] == p
  }

  lemma {:induction false} AbortedWasCancelled(ss: seq<Turns>, steps: seq<Step>, n: nat, p: nat) returns (m: nat)
    requires IsRun(ss, steps) && n < |ss| && p in ss[n].aborted
    ensures m < n && CancelsCall(ss, steps, m, p)
    decreases n
  {
    hide TurnKey;
    if p in ss[n - 1].aborted {
      m := AbortedWasCancelled(ss, steps, n - 1, p);
    } else {
      m := n - 1;
    }
  }

  lemma {:induction false} CancelledStaysAborted(ss: seq<Turns>, steps: seq<Step>, m: nat, n: nat, p: nat)
    requires IsRun(ss, steps) && m < n < |ss| && CancelsCall(ss, steps, m, p)
    ensures p in ss[n].aborted
    decreases n
  {
    hide TurnKey;
    if m + 1 < n { CancelledStaysAborted(ss, steps, m, n - 1, p); }
    assert ss[n] == Apply(ss[n - 1], steps[n - 1]);
  }

  lemma TraceGrows(s: Turns, step: Step)
    requires Enabled(s, step)
    ensures s.trace <= Apply(s, step).trace && |Apply(s, step).trace| <= |s.trace| + 1
  {
    hide TurnKey;
  }

  // Event i was emitted by step m.
  ghost predicate EmittedAt(ss: seq<Turns>, m: nat, i: nat) {
    m + 1 < |ss| && |ss[m].trace| == i < |ss[m + 1].trace|
  }

  lemma {:induction false} EmissionOf(ss: seq<Turns>, steps: seq<Step>, n: nat, i: nat) returns (m: nat)
    requires IsRun(ss, steps) && n < |ss| && i < |ss[n].trace|
    ensures m < n && EmittedAt(ss, m, i) && ss[m + 1].trace[i] == ss[n].trace[i]
    decreases n
  {
    hide Apply, Enabled;
    TraceGrows(ss[n - 1], steps[n - 1]);
    if i < |ss[n - 1].trace| {
      m := EmissionOf(ss, steps, n - 1, i);
    } else {
      m := n - 1;
    }
  }

  /** A turn that failed is reported as cancelled exactly when cancelTurn had hit its call by then. */
  lemma CancelledExactlyWhenAskedFor(ss: seq<Turns>, steps: seq<Step>, n: nat, i: nat) returns (m: nat)
    requires IsRun(ss, steps) && n < |ss| && i < |ss[n].trace| && ss[n].trace[i].kind.Finished?
        && !ss[n].trace[i].kind.ok
    ensures m < n && EmittedAt(ss, m, i)
    ensures ss[n].trace[i].kind.cancelled <==> exists k: nat ::
        k < m && CancelsCall(ss, steps, k, ss[n].trace[i].caller)
  {
    hide TurnKey, CancelsCall, Call, Release, Cancel;
    m := EmissionOf(ss, steps, n, i);
    var p := ss[n].trace[i].caller;
    assert ss[m + 1] == Apply(ss[m], steps[m]);
    assert steps[m] == ChatRejects(p) && ss[n].trace[i].kind.cancelled == (p in ss[m].aborted)
        by { RejectionEmits(ss[m], steps[m]); }
    if p in ss[m].aborted {
      var k := AbortedWasCancelled(ss, steps, m, p);
    } else {
      forall k: nat | k < m ensures !CancelsCall(ss, steps, k, p) {
        if CancelsCall(ss, steps, k, p) { CancelledStaysAborted(ss, steps, k, m, p); }
      }
    }
  }

  lemma RejectionEmits(s: Turns, step: Step)
    requires Enabled(s, step) && |Apply(s, step).trace| > |s.trace|
    ensures var e := Apply(s, step).trace[|s.trace|];
            e.kind.Finished? && !e.kind.ok ==>
              step == ChatRejects(e.caller) && (e.kind.cancelled <==> e.caller in s.aborted)
  {
    hide TurnKey;
  }

  // --- What each step does ---

  /** A call is taken exactly when no call with its key is in flight, and then it holds that key; cancelling a pair
      aborts exactly the call in flight under its key. */
  lemma CallIsTakenExactlyWhen(s: Turns, c: Str16, a: Str16)
    requires MapInv(s)
    ensures var s', p := Call(s, c, a), |s.prompts|;
            var free := forall q: nat | q < p && Active(s.prompts[q]) :: KeyOf(s.prompts[q]) != c + [0x20] + a;
            && s'.prompts == s.prompts + [Prompt(c, a, if free then Preparing else Returned(false, false))]
            && s'.inFlight == (if free then s.inFlight[c + [0x20] + a := p] else s.inFlight)
            && s'.aborted == s.aborted && s'.trace == s.trace
    ensures forall q: nat | q < |s.prompts| && Active(s.prompts[q]) && KeyOf(s.prompts[q]) == c + [0x20] + a ::
              Cancel(s, c, a) == s.(aborted := s.aborted + {q})
    ensures (forall q: nat | q < |s.prompts| && Active(s.prompts[q]) :: KeyOf(s.prompts[q]) != c + [0x20] + a) ==>
              Cancel(s, c, a) == s
  {
  }

  // The call a step is about.
  function CallOf(step: Step): nat
    requires !step.DoCall? && !step.DoCancel?
  {
    step.p
  }

  /** What a step of a call emits, in that call's name: turn-started once its session is ready, what the agent calls
      back with, a last chunk when there is a text, and one turn-finished with its outcome. */
  lemma StepEmits(s: Turns, step: Step)
    requires Enabled(s, step) && !step.DoCall? && !step.DoCancel?
    ensures var p := CallOf(step);
            var kinds := match step
                         case SessionReady(_) => [Started]
                         case Callback(_, kind) => [kind]
                         case ChatResolves(_, text) => if text then [Output] else []
                         case Succeed(_) => [Finished(true, false)]
                         case ChatRejects(_) => [Finished(false, p in s.aborted)]
                         case _ => [];
            && |kinds| <= 1 && p < |s.prompts|
            && Apply(s, step).trace
                 == s.trace + (if kinds == [] then []
                               else [Event(kinds[0], s.prompts[p].chatKey, s.prompts[p].alias, p)])
  {
    hide TurnKey;
  }

  /** Where a step leaves its call: other calls, and the pair it was made for, stay as they are. */
  lemma StepMoves(s: Turns, step: Step)
    requires MapInv(s) && Enabled(s, step) && !step.DoCall? && !step.DoCancel?
    ensures var s', p := Apply(s, step), CallOf(step);
            && p < |s.prompts|
            && s'.prompts == s.prompts[p := s.prompts[p].(phase := s'.prompts[p].phase)]
            && s'.aborted == s.aborted
            && s'.inFlight == (if s'.prompts[p].phase.Returned? then s.inFlight - {KeyOf(s.prompts[p])} else s.inFlight)
            && s'.prompts[p].phase == match step
                                      case SessionReady(_) => Running
                                      case SessionFails(_) => Returned(false, false)
                                      case Callback(_, _) => Running
                                      case ChatResolves(_, _) => Answered
                                      case Succeed(_) => Finishing(true)
                                      case ChatRejects(_) => Finishing(false)
                                      case Return(_) => Returned(s.prompts[p].phase.ok, true)
  {
    hide TurnKey;
  }

  // --- Keys ---

  /** A pair has its key to itself exactly when neither part contains a space. */
  lemma KeyIsUniqueExactlyWhen(c: Str16, a: Str16)
    ensures (forall c', a' | TurnKey(c', a') == TurnKey(c, a) :: c' == c && a' == a) <==> SPACE !in c && SPACE !in a
  {
    if SPACE in c {
      var i :| 0 <= i < |c| && c[i] == SPACE;
      var c', a' := c[..i], c[i + 1..] + [SPACE] + a;
      assert TurnKey(c', a') == TurnKey(c, a) && c' != c;
    } else if SPACE in a {
      var i :| 0 <= i < |a| && a[i] == SPACE;
      var c', a' := c + [SPACE] + a[..i], a[i + 1..];
      assert TurnKey(c', a') == TurnKey(c, a) && c' != c;
    } else {
      forall c', a' | TurnKey(c', a') == TurnKey(c, a) ensures c' == c && a' == a {
        var key := TurnKey(c, a);
        assert forall k | 0 <= k < |key| && k != |c| :: key[k] != SPACE;
        assert key[|c'|] == SPACE;
        assert key[..|c|] == c && key[..|c'|] == c' && key[|c| + 1..] == a && key[|c'| + 1..] == a';
      }
    }
  }

  lemma SeparatorIsNotInside(c: Str16, a: Str16, c': Str16, a': Str16)
    requires SPACE !in c' && TurnKey(c, a) == TurnKey(c', a')
    ensures |c'| <= |c|
  {
    assert TurnKey(c, a)[|c|] == SPACE;
    assert forall i | 0 <= i < |c'| :: TurnKey(c', a')[i] == c'[i];
  }

  /** Chat keys without spaces never share a turn key, whatever the aliases. */
  lemma SpaceFreeChatKeysDoNotCollide(c: Str16, a: Str16, c': Str16, a': Str16)
    requires SPACE !in c && SPACE !in c' && TurnKey(c, a) == TurnKey(c', a')
    ensures c == c' && a == a'
  {
    var key := TurnKey(c, a);
    SeparatorIsNotInside(c, a, c', a');
    SeparatorIsNotInside(c', a', c, a);
    assert key[..|c|] == c && key[..|c'|] == c' && key[|c| + 1..] == a && key[|c'| + 1..] == a';
  }

  /** In every run, while a call is in flight a call of any pair with the same key is refused, and cancelling that pair
      aborts the call in flight. */
  lemma CollidingTurnIsRefused(ss: seq<Turns>, steps: seq<Step>, n: nat, p: nat, c: Str16, a: Str16)
    requires IsRun(ss, steps) && n < |ss| && p < |ss[n].prompts| && Active(ss[n].prompts[p])
    requires TurnKey(c, a) == KeyOf(ss[n].prompts[p])
    ensures var s := ss[n];
            && Call(s, c, a) == s.(prompts := s.prompts + [Prompt(c, a, Returned(false, false))])
            && Cancel(s, c, a) == s.(aborted := s.aborted + {p})
  {
    hide TraceInv, Apply, Enabled, TurnKey;
    EveryRunKeepsInv(ss, steps, n);
  }

  // "x y" with "z", and "x" with "y z", are such pairs.
  lemma CollidingPairs()
    ensures var x, y, z: Str16 := [0x78], [0x79], [0x7A];
            var s := Call(NO_TURNS, x + [SPACE] + y, z);
            && In(Call(s, x, y + [SPACE] + z), 1, Returned(false, false))
            && Cancel(s, x, y + [SPACE] + z).aborted == {0}
  {
    var x, y, z: Str16 := [0x78], [0x79], [0x7A];
    assert TurnKey(x + [SPACE] + y, z) == TurnKey(x, y + [SPACE] + z);
  }

  // --- The class ---

  /** The service's turn tracking; `prompts`, `aborted` and `trace` stand for the calls, their controllers and the event
      bus. */
  class ControlService {
    var inFlight: map<Str16, nat>
    var prompts: seq<Prompt>
    var aborted: set<nat>
    var trace: seq<Event>

    ghost function View(): Turns
      reads this
    {
      Turns(prompts, inFlight, aborted, trace)
    }

    constructor ()
      ensures View() == NO_TURNS
    {
      inFlight, prompts, aborted, trace := map[], [], {}, [];
    }

    // prompt() up to useSession: the number of the call, and whether it goes on.
    method StartPrompt(chatKey: Str16, sessionAlias: Str16) returns (p: nat, goesOn: bool)
      modifies this
      ensures View() == Call(old(View()), chatKey, sessionAlias)
      ensures p == |old(prompts)| && goesOn == (TurnKey(chatKey, sessionAlias) !in old(inFlight))
    {
      p := |prompts|;
      var key := TurnKey(chatKey, sessionAlias);
      if key in inFlight {
        prompts := prompts + [Prompt(chatKey, sessionAlias, Returned(false, false))];
        return p, false;
      }
      inFlight := inFlight[key := p];
      prompts := prompts + [Prompt(chatKey, sessionAlias, Preparing)];
      return p, true;
    }

    method EmitEvent(p: nat, kind: Kind)
      requires p < |prompts|
      modifies `trace
      ensures View() == Emit(old(View()), p, kind)
    {
      trace := trace + [Event(kind, prompts[p].chatKey, prompts[p].alias, p)];
    }

    method UseSessionSettled(p: nat, ok: bool)
      requires In(View(), p, Preparing)
      modifies this
      ensures View() == Apply(old(View()), if ok then SessionReady(p) else SessionFails(p))
    {
      if !ok {
        inFlight := inFlight - {TurnKey(prompts[p].chatKey, prompts[p].alias)};
        prompts := prompts[p := prompts[p].(phase := Returned(false, false))];
        return;
      }
      prompts := prompts[p := prompts[p].(phase := Running)];
      EmitEvent(p, Started);
    }

    // After chat(): the last chunk and turn-finished, or the error's turn-finished.
    method ChatSettled(p: nat, ok: bool, text: bool)
      requires In(View(), p, Running)
      modifies this
      ensures ok ==> View() == Apply(Apply(old(View()), ChatResolves(p, text)), Succeed(p))
      ensures !ok ==> View() == Apply(old(View()), ChatRejects(p))
    {
      if ok {
        prompts := prompts[p := prompts[p].(phase := Answered)];
        if text {
          EmitEvent(p, Output);
        }
        prompts := prompts[p := prompts[p].(phase := Finishing(true))];
        EmitEvent(p, Finished(true, false));
      } else {
        prompts := prompts[p := prompts[p].(phase := Finishing(false))];
        EmitEvent(p, Finished(false, p in aborted));
      }
    }

    method Finally(p: nat)
      requires p < |prompts| && prompts[p].phase.Finishing?
      modifies this
      ensures View() == Apply(old(View()), Return(p))
    {
      inFlight := inFlight - {TurnKey(prompts[p].chatKey, prompts[p].alias)};
      prompts := prompts[p := prompts[p].(phase := Returned(prompts[p].phase.ok, true))];
    }

    method CancelTurn(chatKey: Str16, sessionAlias: Str16) returns (found: bool)
      modifies `aborted
      ensures View() == Cancel(old(View()), chatKey, sessionAlias)
      ensures found == (TurnKey(chatKey, sessionAlias) in inFlight)
    {
      var key := TurnKey(chatKey, sessionAlias);
      if key !in inFlight {
        return false;
      }
      aborted := aborted + {inFlight[key]};
      return true;
    }
  }
}
