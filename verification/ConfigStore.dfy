/** patchRaw: read, patch, validate and write the configuration file under one file lock. */
module ConfigStore {
  import opened Options
  import opened RawConfig

  datatype FileText = NoFile | NotJson | Document(doc: Json)

  // What a call does to the document it read; Custom covers the other mutators.
  datatype Mutation = SetAt(path: Path, value: Json) | UnsetAt(path: Path) | Custom(f: Json -> Outcome)

  const REQUIRED_SECTIONS: map<string, Json> :=
    map["transport" := Obj(NO_FIELDS), "agents" := Obj(NO_FIELDS), "workspaces" := Obj(NO_FIELDS)]

  datatype PatchResult = Wrote(file: FileText) | Threw

  function Mutate(mutation: Mutation, doc: Json): Outcome {
    match mutation
    case SetAt(path, value) => Set(doc, path, value)
    case UnsetAt(path) => Unset(doc, path)
    case Custom(f) => f(doc)
  }

  // The document validation sees: the required sections with the document's own laid over them.
  function Backfilled(doc: Json): Json {
    if doc.Obj? then Obj(REQUIRED_SECTIONS + doc.fields) else doc
  }

  // The document a mutation starts from; None when reading throws.
  function StartingDoc(file: FileText): Option<Json> {
    match file
    case NoFile => Some(Obj(REQUIRED_SECTIONS))
    case NotJson => None
    case Document(doc) => if doc.Obj? then Some(doc) else None
  }

  // One patch; `accepts` is parseConfig.
  function Patch(accepts: Json -> bool, mutation: Mutation, file: FileText): PatchResult {
    var start := StartingDoc(file);
    if start.None? then Threw
    else
      var patched := Mutate(mutation, start.value);
      if patched.Failed? || !accepts(Backfilled(patched.doc)) then Threw else Wrote(Document(patched.doc))
  }

  // The document with {} for each required section it lacks.
  ghost predicate HasSections(doc: Json, full: Json) {
    if !doc.Obj? then full == doc
    else
      && full.Obj?
      && (forall k :: k in full.fields <==> k in doc.fields || k == "transport" || k == "agents" || k == "workspaces")
      && (forall k | k in full.fields :: full.fields[k] == if k in doc.fields then doc.fields[k] else Obj(map[]))
  }

  /** A patch writes exactly when the file holds an object or is missing, the mutation succeeds, and validation accepts
      the outcome with empty required sections filled in; it writes the outcome itself. Only a missing file starts from
      those sections. */
  lemma PatchWritesExactlyWhen(accepts: Json -> bool, mutation: Mutation, file: FileText)
    ensures var start := if file.Document? then file.doc
                         else Obj(map["transport" := Obj(map[]), "agents" := Obj(map[]), "workspaces" := Obj(map[])]);
            var outcome := match mutation
                           case SetAt(path, value) => Set(start, path, value)
                           case UnsetAt(path) => Unset(start, path)
                           case Custom(f) => f(start);
            var writes :=
              && !file.NotJson? && start.Obj? && outcome.Ok?
              && exists full :: HasSections(outcome.doc, full) && accepts(full);
            Patch(accepts, mutation, file) == if writes then Wrote(Document(outcome.doc)) else Threw
  {
    hide Set, Unset;
    var start := StartingDoc(file);
    if start.Some? && Mutate(mutation, start.value).Ok? {
      OneFull(Mutate(mutation, start.value).doc);
    }
  }

  lemma OneFull(doc: Json)
    ensures forall full :: HasSections(doc, full) <==> full == Backfilled(doc)
  {
    forall full | HasSections(doc, full) ensures full == Backfilled(doc) {
      if doc.Obj? { assert full.fields == Backfilled(doc).fields; }
    }
  }

  // --- Interleaved calls ---

  datatype Stage = Waiting | Holding | HasRead(seen: FileText) | Releasing(wrote: bool) | Done(wrote: bool)

  datatype Call = Call(mutation: Mutation, stage: Stage)

  datatype State = State(file: FileText, holder: Option<nat>, calls: seq<Call>,
                         acquired: seq<nat>,  // calls in the order they got the lock
                         wrote: seq<bool>)    // for each of those past its write, whether it wrote

  datatype Step =
    | Begin(mutation: Mutation)
    | Acquire(call: nat) | Read(call: nat) | Write(call: nat, ioOk: bool) | Release(call: nat)

  predicate Enabled(s: State, step: Step) {
    match step
    case Begin(_) => true
    case Acquire(i) => i < |s.calls| && s.calls[i].stage.Waiting? && s.holder.None?
    case Read(i) => i < |s.calls| && s.calls[i].stage.Holding?
    case Write(i, _) => i < |s.calls| && s.calls[i].stage.HasRead?
    case Release(i) => i < |s.calls| && s.calls[i].stage.Releasing?
  }

  function Move(s: State, i: nat, stage: Stage): State
    requires i < |s.calls|
  {
    s.(calls := s.calls[i := s.calls[i].(stage := stage)])
  }

  function Apply(accepts: Json -> bool, s: State, step: Step): State
    requires Enabled(s, step)
  {
    match step
    case Begin(mutation) => s.(calls := s.calls + [Call(mutation, Waiting)])
    case Acquire(i) => Move(s, i, Holding).(holder := Some(i), acquired := s.acquired + [i])
    case Read(i) => Move(s, i, HasRead(s.file))
    case Write(i, ioOk) =>
      var r := Patch(accepts, s.calls[i].mutation, s.calls[i].stage.seen);
      if r.Wrote? && ioOk then Move(s, i, Releasing(true)).(file := r.file, wrote := s.wrote + [true])
      else Move(s, i, Releasing(false)).(wrote := s.wrote + [false])
    case Release(i) => Move(s, i, Done(s.calls[i].stage.wrote)).(holder := None)
  }

  // The same calls one after another: each that wrote patches the file left by the ones before it.
  ghost function Replay(accepts: Json -> bool, s: State, start: FileText, n: nat): FileText
    requires n <= |s.wrote| <= |s.acquired| && forall i | i in s.acquired :: i < |s.calls|
  {
    if n == 0 then start
    else
      var before := Replay(accepts, s, start, n - 1);
      assert s.acquired[n - 1] in s.acquired;
      var r := Patch(accepts, s.calls[s.acquired[n - 1]].mutation, before);
      if s.wrote[n - 1] && r.Wrote? then r.file else before
  }

  ghost predicate InSection(stage: Stage) {
    stage.Holding? || stage.HasRead? || stage.Releasing?
  }

  ghost predicate Wf(s: State) {
    && |s.wrote| <= |s.acquired| <= |s.wrote| + 1
    && (forall i | i in s.acquired :: i < |s.calls|)
    && (forall i | 0 <= i < |s.calls| :: InSection(s.calls[i].stage) <==> s.holder == Some(i))
    && (s.holder.Some? ==>
          && s.holder.value < |s.calls| && s.acquired != []
          && s.acquired[|s.acquired| - 1] == s.holder.value
          && (s.calls[s.holder.value].stage.Releasing? <==> |s.wrote| == |s.acquired|)
          && (s.calls[s.holder.value].stage.HasRead? ==> s.calls[s.holder.value].stage.seen == s.file))
    && (s.holder.None? ==> |s.wrote| == |s.acquired|)
  }

  ghost function MutationAt(s: State, k: nat): Mutation
    requires Wf(s) && k < |s.acquired|
  {
    assert s.acquired[k] in s.acquired;
    s.calls[s.acquired[k]].mutation
  }

  // A call that wrote is one whose patch of the file it found succeeded.
  ghost predicate PatchedAt(accepts: Json -> bool, start: FileText, s: State, k: nat)
    requires Wf(s) && k < |s.wrote|
  {
    s.wrote[k] ==> Patch(accepts, MutationAt(s, k), Replay(accepts, s, start, k)).Wrote?
  }

  ghost predicate Inv(accepts: Json -> bool, start: FileText, s: State) {
    && Wf(s)
    && s.file == Replay(accepts, s, start, |s.wrote|)
    && forall k | 0 <= k < |s.wrote| :: PatchedAt(accepts, start, s, k)
  }

  ghost predicate Extends(s: State, s': State) {
    && s.acquired <= s'.acquired && s.wrote <= s'.wrote && |s.calls| <= |s'.calls|
    && forall i | 0 <= i < |s.calls| :: s.calls[i].mutation == s'.calls[i].mutation
  }

  lemma {:induction false} ReplayDependsOnOrder(accepts: Json -> bool, s: State, s': State, start: FileText, n: nat)
    requires n <= |s.wrote| <= |s.acquired| && forall i | i in s.acquired :: i < |s.calls|
    requires n <= |s'.wrote| <= |s'.acquired| && forall i | i in s'.acquired :: i < |s'.calls|
    requires Extends(s, s')
    ensures Replay(accepts, s, start, n) == Replay(accepts, s', start, n)
  {
    if n > 0 {
      ReplayDependsOnOrder(accepts, s, s', start, n - 1);
      assert s.acquired[n - 1] in s.acquired;
    }
  }

  lemma StepKeepsWf(accepts: Json -> bool, s: State, step: Step)
    requires Wf(s) && Enabled(s, step)
    ensures Wf(Apply(accepts, s, step)) && Extends(s, Apply(accepts, s, step))
  {
    hide Patch;
  }

  lemma ExtendingKeepsPatched(accepts: Json -> bool, start: FileText, s: State, s': State)
    requires Wf(s) && Wf(s') && Extends(s, s')
    ensures Replay(accepts, s', start, |s.wrote|) == Replay(accepts, s, start, |s.wrote|)
    ensures forall k | 0 <= k < |s.wrote| && PatchedAt(accepts, start, s, k) :: PatchedAt(accepts, start, s', k)
  {
    hide Patch;
    ReplayDependsOnOrder(accepts, s, s', start, |s.wrote|);
    forall k | 0 <= k < |s.wrote| && PatchedAt(accepts, start, s, k) ensures PatchedAt(accepts, start, s', k) {
      ReplayDependsOnOrder(accepts, s, s', start, k);
      assert s.acquired[k] in s.acquired;
    }
  }

  // Only a write looks at or moves the file.
  lemma WriteKeepsInv(accepts: Json -> bool, start: FileText, s: State, i: nat, ioOk: bool)
    requires Inv(accepts, start, s) && Enabled(s, Write(i, ioOk)) && Wf(Apply(accepts, s, Write(i, ioOk)))
    ensures var s', n := Apply(accepts, s, Write(i, ioOk)), |s.wrote|;
            s'.file == Replay(accepts, s', start, n + 1) && PatchedAt(accepts, start, s', n)
  {
    hide Patch;
    var s', n := Apply(accepts, s, Write(i, ioOk)), |s.wrote|;
    ReplayDependsOnOrder(accepts, s, s', start, n);
    assert s'.acquired[n] == i;
  }

  lemma StepKeepsInv(accepts: Json -> bool, start: FileText, s: State, step: Step)
    requires Inv(accepts, start, s) && Enabled(s, step)
    ensures Inv(accepts, start, Apply(accepts, s, step))
  {
    hide Patch, Wf, Replay;
    var s' := Apply(accepts, s, step);
    StepKeepsWf(accepts, s, step);
    ExtendingKeepsPatched(accepts, start, s, s');
    if step.Write? {
      WriteKeepsInv(accepts, start, s, step.call, step.ioOk);
    }
  }

  ghost predicate IsRun(accepts: Json -> bool, start: FileText, ss: seq<State>, steps: seq<Step>) {
    && |ss| == |steps| + 1
    && ss[0] == State(start, None, [], [], [])
    && forall i | 0 <= i < |steps| :: Enabled(ss[i], steps[i]) && ss[i + 1] == Apply(accepts, ss[i], steps[i])
  }

  /** Any interleaving of patches leaves the file as applying them in lock order would. */
  lemma {:induction false} InterleavingsAreSerial(accepts: Json -> bool, start: FileText, ss: seq<State>,
      steps: seq<Step>, n: nat)
    requires IsRun(accepts, start, ss, steps) && n <= |steps|
    ensures Inv(accepts, start, ss[n])
    ensures ss[n].file == Replay(accepts, ss[n], start, |ss[n].wrote|)
    ensures forall k | 0 <= k < |ss[n].wrote| && ss[n].wrote[k] ::
              Patch(accepts, MutationAt(ss[n], k), Replay(accepts, ss[n], start, k)).Wrote?
  {
    if n > 0 {
      InterleavingsAreSerial(accepts, start, ss, steps, n - 1);
      StepKeepsInv(accepts, start, ss[n - 1], steps[n - 1]);
    }
    forall k | 0 <= k < |ss[n].wrote| && ss[n].wrote[k]
      ensures Patch(accepts, MutationAt(ss[n], k), Replay(accepts, ss[n], start, k)).Wrote?
    {
      assert PatchedAt(accepts, start, ss[n], k);
    }
  }

  /** The file changes only in the write of a call whose patch of the current file succeeds; a call that throws leaves
      it exactly as it was. */
  lemma FailedPatchKeepsFile(accepts: Json -> bool, start: FileText, s: State, step: Step)
    requires Inv(accepts, start, s) && Enabled(s, step)
    ensures Apply(accepts, s, step).file != s.file ==>
              step.Write? && step.ioOk && Patch(accepts, s.calls[step.call].mutation, s.file)
                  == Wrote(Apply(accepts, s, step).file)
  {
  }

  // The calls made, and the file, read off the steps alone.
  function BegunBy(steps: seq<Step>): seq<Mutation> {
    if steps == [] then []
    else
      var last := steps[|steps| - 1];
      BegunBy(steps[..|steps| - 1]) + if last.Begin? then [last.mutation] else []
  }

  // Each write patches the file the writes before it left, if the patch and the write itself succeed.
  function FileBy(accepts: Json -> bool, start: FileText, steps: seq<Step>): FileText {
    if steps == [] then start
    else
      var before, last := steps[..|steps| - 1], steps[|steps| - 1];
      var file := FileBy(accepts, start, before);
      if !last.Write? || !last.ioOk || last.call >= |BegunBy(before)| then file
      else
        var r := Patch(accepts, BegunBy(before)[last.call], file);
        if r.Wrote? then r.file else file
  }

  ghost predicate CallsAre(s: State, mutations: seq<Mutation>) {
    |s.calls| == |mutations| && forall i | 0 <= i < |mutations| :: s.calls[i].mutation == mutations[i]
  }

  /** In every run the file is what its writes make of it one by one, each patching the file the ones before it left. */
  lemma {:induction false} FileIsTheWritesInTurn(accepts: Json -> bool, start: FileText, ss: seq<State>,
      steps: seq<Step>, n: nat)
    requires IsRun(accepts, start, ss, steps) && n <= |steps|
    ensures CallsAre(ss[n], BegunBy(steps[..n])) && ss[n].file == FileBy(accepts, start, steps[..n])
  {
    hide Patch, Inv, Enabled, Apply, CallsAre;
    if n == 0 {
      assert CallsAre(ss[0], []) by { NoCalls(start); }
    } else {
      FileIsTheWritesInTurn(accepts, start, ss, steps, n - 1);
      InterleavingsAreSerial(accepts, start, ss, steps, n - 1);
      assert steps[..n][..n - 1] == steps[..n - 1];
      StepInTurn(accepts, start, ss[n - 1], steps[n - 1], BegunBy(steps[..n - 1]));
    }
  }

  lemma NoCalls(start: FileText)
    ensures CallsAre(State(start, None, [], [], []), [])
  {
  }

  lemma StepInTurn(accepts: Json -> bool, start: FileText, s: State, step: Step, begun: seq<Mutation>)
    requires Inv(accepts, start, s) && Enabled(s, step) && CallsAre(s, begun)
    ensures var s' := Apply(accepts, s, step);
            && CallsAre(s', begun + if step.Begin? then [step.mutation] else [])
            && s'.file ==
                 if !step.Write? || !step.ioOk || step.call >= |begun| then s.file
                 else
                   var r := Patch(accepts, begun[step.call], s.file);
                   if r.Wrote? then r.file else s.file
  {
    hide Patch, Replay, PatchedAt;
    assert begun + [] == begun;
  }

  /** A call patches the file as it finds it, writes exactly when the patch and the write itself succeed, and ends
      accordingly. */
  lemma WriteHappensExactlyWhen(accepts: Json -> bool, start: FileText, s: State, i: nat, ioOk: bool)
    requires Inv(accepts, start, s) && Enabled(s, Write(i, ioOk))
    ensures var s', r := Apply(accepts, s, Write(i, ioOk)), Patch(accepts, s.calls[i].mutation, s.file);
            && s'.wrote == s.wrote + [ioOk && r.Wrote?]
            && s'.file == (if ioOk && r.Wrote? then r.file else s.file)
            && s'.calls[i].stage == Releasing(ioOk && r.Wrote?)
            && Apply(accepts, s', Release(i)).calls[i].stage == Done(ioOk && r.Wrote?)
  {
    hide Patch, Replay, PatchedAt;
  }

  // --- No lost updates ---

  ghost predicate PathMutation(m: Mutation) {
    (m.SetAt? || m.UnsetAt?) && GoodPath(m.path)
  }

  // The mutations that wrote, in lock order, all go to pairwise diverging paths.
  ghost predicate DivergingWrites(s: State)
    requires Wf(s)
  {
    && (forall k | 0 <= k < |s.wrote| && s.wrote[k] :: PathMutation(MutationAt(s, k)))
    && (forall k, l | 0 <= k < l < |s.wrote| && s.wrote[k] && s.wrote[l] ::
          Diverge(MutationAt(s, l).path, MutationAt(s, k).path))
  }

  ghost predicate Readable(file: FileText, m: Mutation) {
    m.SetAt? ==> file.Document? && Get(file.doc, m.path) == Found(m.value)
  }

  lemma PatchKeepsReadable(accepts: Json -> bool, file: FileText, m: Mutation, earlier: Mutation)
    requires PathMutation(m) && PathMutation(earlier) && Diverge(m.path, earlier.path)
    requires Patch(accepts, m, file).Wrote? && Readable(file, earlier)
    ensures Readable(Patch(accepts, m, file).file, earlier)
  {
    if earlier.SetAt? {
      if m.SetAt? {
        SetKeepsPresentReads(file.doc, m.path, m.value, earlier.path);
      } else {
        UnsetKeepsDivergingReads(file.doc, m.path, earlier.path);
      }
    }
  }

  lemma {:induction false} ReplayIsReadable(accepts: Json -> bool, s: State, start: FileText, n: nat, k: nat)
    requires Wf(s) && DivergingWrites(s) && k < n <= |s.wrote| && s.wrote[k] && MutationAt(s, k).SetAt?
    requires forall j | 0 <= j < n :: PatchedAt(accepts, start, s, j)
    ensures Readable(Replay(accepts, s, start, n), MutationAt(s, k))
  {
    var before, m := Replay(accepts, s, start, n - 1), MutationAt(s, n - 1);
    assert PatchedAt(accepts, start, s, n - 1);
    if k == n - 1 {
      SetThenGet(StartingDoc(before).value, m.path, m.value);
    } else {
      ReplayIsReadable(accepts, s, start, n - 1, k);
      if s.wrote[n - 1] { PatchKeepsReadable(accepts, before, m, MutationAt(s, k)); }
    }
  }

  /** However the calls interleave, if the patches that wrote go to pairwise diverging paths, every value
      one of them set can be read back at the end: no update is lost. */
  lemma NoLostUpdates(accepts: Json -> bool, start: FileText, ss: seq<State>, steps: seq<Step>, n: nat, k: nat)
    requires IsRun(accepts, start, ss, steps) && n <= |steps|
    requires Wf(ss[n]) && DivergingWrites(ss[n])
    requires k < |ss[n].wrote| && ss[n].wrote[k]
    ensures Readable(ss[n].file, MutationAt(ss[n], k))
  {
    InterleavingsAreSerial(accepts, start, ss, steps, n);
    if MutationAt(ss[n], k).SetAt? {
      ReplayIsReadable(accepts, ss[n], start, |ss[n].wrote|, k);
    }
  }

  /** The store with its file; each method runs while it holds the lock. */
  class Store {
    var file: FileText
    const accepts: Json -> bool

    constructor (file: FileText, accepts: Json -> bool)
      ensures this.file == file && this.accepts == accepts
    {
      this.file := file;
      this.accepts := accepts;
    }

    // ioOk is whether the atomic write itself succeeds.
    method PatchRaw(mutation: Mutation, ioOk: bool) returns (ok: bool)
      modifies this
      ensures ok == (ioOk && Patch(accepts, mutation, old(file)).Wrote?)
      ensures file == if ok then Patch(accepts, mutation, old(file)).file else old(file)
    {
      var start := StartingDoc(file);
      if start.None? {
        return false;
      }
      var doc;
      match mutation {
        case SetAt(path, value) => doc := SetRawConfigValue(start.value, path, value);
        case UnsetAt(path) => doc := UnsetRawConfigValue(start.value, path);
        case Custom(f) => doc := f(start.value);
      }
      if doc.Failed? || !accepts(Backfilled(doc.doc)) || !ioOk {
        return false;
      }
      file := Document(doc.doc);
      return true;
    }

    // None when reading the file throws; a missing file reads as an empty document.
    method GetRawValue(path: Path) returns (r: Option<Lookup>)
      ensures r.None? <==> StartingDoc(file).None?
      ensures file.Document? && r.Some? ==> r.value == Get(file.doc, path)
      ensures file.NoFile? ==> r == Some(Get(Obj(NO_FIELDS), path))
    {
      if StartingDoc(file).None? {
        return None;
      }
      var found := ReadRawConfigValue(if file.Document? then file.doc else Obj(NO_FIELDS), path);
      return Some(found);
    }
  }
}
