/** What a path addresses in a raw JSON document, said without walking it; when a read, a set or an unset
    succeeds, and what else it leaves as it was. */
module RawConfigPlaces {
  import opened Options
  import opened RawConfig

  predicate SafeName(name: string) {
    name != "__proto__" && name != "constructor" && name != "prototype"
  }

  predicate SafePath(path: Path) {
    forall k | 0 <= k < |path| && path[k].Key? :: SafeName(path[k].name)
  }

  predicate EndsInKey(path: Path) {
    path != [] && path[|path| - 1].Key?
  }

  predicate Carries(item: Json, id: string) {
    item.Obj? && "id" in item.fields && item.fields["id"] == Str(id)
  }

  // Item i is the first with this id.
  predicate FirstWith(items: seq<Json>, id: string, i: nat) {
    i < |items| && Carries(items[i], id) && forall k | 0 <= k < i :: !Carries(items[k], id)
  }

  predicate NoneWith(items: seq<Json>, id: string) {
    forall k | 0 <= k < |items| :: !Carries(items[k], id)
  }

  // One segment leads from a container to a value in it.
  ghost predicate Leads(container: Json, segment: Segment, value: Json) {
    if segment.Key? then
      container.Obj? && segment.name in container.fields && container.fields[segment.name] == value
    else
      container.Arr? && IsEntry(container.items, segment.id, value)
  }

  ghost predicate IsEntry(items: seq<Json>, id: string, value: Json) {
    exists i: nat :: FirstWith(items, id, i) && items[i] == value
  }

  ghost predicate Addresses(root: Json, path: Path, value: Json)
    decreases |path|
  {
    if path == [] then root == value
    else exists inner :: Leads(root, path[0], inner) && Addresses(inner, path[1..], value)
  }

  lemma FindEntryFindsFirst(items: seq<Json>, id: string)
    ensures var i := FindEntry(items, id);
            if i < |items| then FirstWith(items, id, i) else NoneWith(items, id)
    ensures forall j: nat | FirstWith(items, id, j) :: j == FindEntry(items, id)
  {
    var i := FindEntry(items, id);
    assert forall k | 0 <= k < |items| :: Carries(items[k], id) == HasId(items[k], id);
  }

  lemma DescentLeads(container: Json, segment: Segment)
    ensures DescendForRead(container, segment).Into?
        ==> Leads(container, segment, DescendForRead(container, segment).value)
    ensures DescendForRead(container, segment) == Throw(UnsafeKey) <==> segment.Key? && !SafeName(segment.name)
    ensures DescendForRead(container, segment).Throw? ==> DescendForRead(container, segment).error == UnsafeKey
    ensures forall v | Leads(container, segment, v) ::
              (segment.Key? ==> SafeName(segment.name)) ==> DescendForRead(container, segment) == Into(v)
  {
    if segment.Entry? && container.Arr? { FindEntryFindsFirst(container.items, segment.id); }
  }

  // A key on the way whose container is there, but which may not be used.
  ghost predicate MeetsUnsafe(root: Json, path: Path)
    decreases |path|
  {
    |path| > 1 && if path[0].Key? && !SafeName(path[0].name) then true
                  else exists inner :: Leads(root, path[0], inner) && MeetsUnsafe(inner, path[1..])
  }

  lemma {:induction false} GetInAnswers(root: Json, path: Path)
    requires EndsInKey(path)
    ensures GetIn(root, path).Refused? <==> MeetsUnsafe(root, path)
    ensures GetIn(root, path).Refused? ==> GetIn(root, path).error == UnsafeKey
    ensures forall v :: GetIn(root, path) == Found(v) <==> (!MeetsUnsafe(root, path) && Addresses(root, path, v))
    decreases |path|
  {
    hide DescendForRead, Leads, GetIn;
    var head, rest := path[0], path[1..];
    if |path| == 1 {
      LastStep(root, path);
    } else {
      GetBelow(root, path);
      DescentLeads(root, head);
      var d := DescendForRead(root, head);
      if d.Into? { GetInAnswers(d.value, rest); }
    }
  }

  lemma LastStep(root: Json, path: Path)
    requires |path| == 1 && path[0].Key?
    ensures !GetIn(root, path).Refused?
    ensures forall v :: GetIn(root, path) == Found(v) <==> Addresses(root, path, v)
  {
    forall v ensures Addresses(root, path, v) <==> Leads(root, path[0], v) {
      assert path[1..] == [];
      assert Leads(root, path[0], v) ==> Addresses(v, path[1..], v);
    }
  }

  /** A read finds exactly the value the path addresses. It refuses exactly a path that does not end in a key, and one
      whose last key, or a key met on the way, is unsafe; in every other case the value is missing. */
  lemma GetAnswersExactlyWhen(root: Json, path: Path)
    ensures Get(root, path) == Refused(BadTail) <==> !EndsInKey(path)
    ensures Get(root, path) == Refused(UnsafeKey)
        <==> EndsInKey(path) && (!SafeName(path[|path| - 1].name) || MeetsUnsafe(root, path))
    ensures forall v ::
              Get(root, path) == Found(v) <==>
              (EndsInKey(path) && SafeName(path[|path| - 1].name) && !MeetsUnsafe(root, path)
               && Addresses(root, path, v))
    ensures Get(root, path).Refused? ==> Get(root, path).error == BadTail || Get(root, path).error == UnsafeKey
  {
    hide GetIn, Addresses, MeetsUnsafe;
    if EndsInKey(path) { GetInAnswers(root, path); }
  }

  // --- Set ---

  // The path can be written: every container on the way has the kind its segment needs, where what is missing counts
  // as an empty array before an entry and an empty object before a key, and a missing entry as its template.
  ghost predicate Writable(container: Json, path: Path)
    requires path != []
    decreases |path|
  {
    if |path| == 1 then path[0].Key? && container.Obj?
    else
      if path[0].Key? then
        var k := path[0].name;
        && SafeName(k) && container.Obj?
        && Writable(if k in container.fields then container.fields[k]
                    else if path[1].Entry? then Arr([]) else Obj(map[]), path[1..])
      else
        container.Arr?
        && ((exists inner :: IsEntry(container.items, path[0].id, inner) && Writable(inner, path[1..]))
            || (NoneWith(container.items, path[0].id) && path[0].createWith.Some?
                && Writable(Obj(path[0].createWith.value), path[1..])))
  }

  // Nothing but the addressed place differs: `after` has the value there, and what had to be created on the way.
  ghost predicate WrittenAt(before: Json, after: Json, path: Path, value: Json)
    requires path != []
    decreases |path|
  {
    if path[0].Key? then
      var k := path[0].name;
      && before.Obj? && after.Obj? && after.fields.Keys == before.fields.Keys + {k}
      && (forall x | x in before.fields && x != k :: after.fields[x] == before.fields[x])
      && if |path| == 1 then after.fields[k] == value
         else WrittenAt(if k in before.fields then before.fields[k]
                        else if path[1].Entry? then Arr([]) else Obj(map[]), after.fields[k], path[1..], value)
    else
      && |path| > 1 && before.Arr? && after.Arr?
      && exists i: nat :: EntryWritten(before.items, after.items, path[0], i)
           && WrittenAt(if i < |before.items| then before.items[i] else Obj(path[0].createWith.value), after.items[i],
                        path[1..], value)
  }

  // Entry i is the one with the segment's id, or a new last one; the other entries stay where they are.
  ghost predicate EntryWritten(before: seq<Json>, after: seq<Json>, segment: Segment, i: nat) {
    && segment.Entry? && i < |after|
    && (if i < |before| then FirstWith(before, segment.id, i) && |after| == |before|
        else NoneWith(before, segment.id) && segment.createWith.Some? && i == |before| && |after| == i + 1)
    && forall k | 0 <= k < |before| && k != i :: after[k] == before[k]
  }

  lemma SetInFailsAtKey(container: Json, path: Path, value: Json)
    requires |path| > 1 && path[0].Key?
    ensures var k := path[0].name;
            && (!SafeName(k) ==> SetIn(container, path, value) == Failed(UnsafeKey))
            && (SafeName(k) && !container.Obj? ==> SetIn(container, path, value) == Failed(NotAnObject))
            && (SafeName(k) && container.Obj? ==>
                  var inner := if k in container.fields then container.fields[k]
                               else if path[1].Entry? then Arr([]) else Obj(map[]);
                  if !inner.Obj? && !inner.Arr? then SetIn(container, path, value) == Failed(NotAContainer)
                  else
                    var r := SetIn(inner, path[1..], value);
                    && (r.Ok? <==> SetIn(container, path, value).Ok?)
                    && (r.Failed? ==> SetIn(container, path, value) == r))
  {
  }

  lemma SetInFailsAtEntry(container: Json, path: Path, value: Json)
    requires |path| > 1 && path[0].Entry?
    ensures !container.Arr? ==> SetIn(container, path, value) == Failed(NotAnArray)
    ensures container.Arr? && NoneWith(container.items, path[0].id) && path[0].createWith.None? ==>
              SetIn(container, path, value) == Failed(NoEntry)
    ensures container.Arr? ==>
              forall i: nat :: EntryAtIndex(container.items, path[0], i) ==>
                var r := SetIn(if i < |container.items| then container.items[i] else Obj(path[0].createWith.value),
                               path[1..], value);
                && (r.Ok? <==> SetIn(container, path, value).Ok?)
                && (r.Failed? ==> SetIn(container, path, value) == r)
  {
    if container.Arr? { FindEntryFindsFirst(container.items, path[0].id); }
  }

  // Where the entry is, or is to be created.
  predicate EntryAtIndex(items: seq<Json>, segment: Segment, i: nat) {
    && segment.Entry?
    && (FirstWith(items, segment.id, i)
        || (i == |items| && NoneWith(items, segment.id) && segment.createWith.Some?))
  }

  lemma {:induction false} SetInSucceeds(container: Json, path: Path, value: Json)
    requires path != []
    ensures SetIn(container, path, value).Ok? <==> Writable(container, path)
    decreases |path|
  {
    if |path| > 1 {
      hide SetIn;
      match path[0]
      case Key(k) =>
        SetInFailsAtKey(container, path, value);
        if container.Obj? {
          var inner := if k in container.fields then container.fields[k]
                       else if path[1].Entry? then Arr([]) else Obj(map[]);
          SetInSucceeds(inner, path[1..], value);
          NeedsContainer(inner, path[1..]);
        }
      case Entry(id, createWith) =>
        SetInFailsAtEntry(container, path, value);
        if container.Arr? {
          FindEntryFindsFirst(container.items, id);
          var i := FindEntry(container.items, id);
          if i < |container.items| || createWith.Some? {
            var inner := if i < |container.items| then container.items[i] else Obj(createWith.value);
            assert EntryAtIndex(container.items, path[0], i);
            SetInSucceeds(inner, path[1..], value);
          }
        }
    }
  }

  lemma NeedsContainer(container: Json, path: Path)
    requires path != []
    ensures Writable(container, path) ==> container.Obj? || container.Arr?
  {
  }

  lemma {:induction false} SetInWrites(container: Json, path: Path, value: Json)
    requires path != [] && SetIn(container, path, value).Ok? && EndsInKey(path)
    ensures WrittenAt(container, SetIn(container, path, value).doc, path, value)
    decreases |path|
  {
    hide SetIn;
    if |path| == 1 {
      SetAtEnd(container, path, value);
    } else {
      match path[0]
      case Key(k) =>
        SetAtKey(container, path, value);
        SetInWrites(if k in container.fields then container.fields[k] else EmptyFor(path[1]), path[1..], value);
      case Entry(id, createWith) =>
        SetAtEntry(container, path, value);
        FindEntryFindsFirst(container.items, id);
        var i, after := FindEntry(container.items, id), SetIn(container, path, value).doc;
        assert EntryWritten(container.items, after.items, path[0], i);
        SetInWrites(EntryAt(container, path[0]), path[1..], value);
    }
  }

  /** A set succeeds exactly on a writable path that ends in a safe key, and then changes that place and nothing else in
      the document; a path that ends otherwise is refused for its end. */
  lemma SetSucceedsExactlyWhen(root: Json, path: Path, value: Json)
    ensures Set(root, path, value).Ok?
        <==> EndsInKey(path) && SafeName(path[|path| - 1].name) && Writable(root, path)
    ensures Set(root, path, value).Ok? ==> WrittenAt(root, Set(root, path, value).doc, path, value)
    ensures Set(root, path, value) == Failed(BadTail) <==> !EndsInKey(path)
    ensures EndsInKey(path) && !SafeName(path[|path| - 1].name) ==> Set(root, path, value) == Failed(UnsafeKey)
  {
    hide SetIn, Writable, WrittenAt;
    if EndsInKey(path) {
      SetInSucceeds(root, path, value);
      if SetIn(root, path, value).Ok? { SetInWrites(root, path, value); }
      NeverBadTail(root, path, value);
    }
  }

  lemma NeverBadTail(container: Json, path: Path, value: Json)
    requires path != []
    ensures SetIn(container, path, value) != Failed(BadTail)
    decreases |path|
  {
  }

  // --- Unset ---

  // Nothing but the addressed place is gone.
  ghost predicate RemovedAt(before: Json, after: Json, path: Path)
    requires path != []
    decreases |path|
  {
    if path[0].Key? then
      var k := path[0].name;
      && before.Obj? && after.Obj?
      && (forall x | x in before.fields && x != k :: x in after.fields && after.fields[x] == before.fields[x])
      && if |path| == 1 then after.fields.Keys == before.fields.Keys - {k}
         else after.fields.Keys == before.fields.Keys && k in before.fields
              && RemovedAt(before.fields[k], after.fields[k], path[1..])
    else
      && |path| > 1 && before.Arr? && after.Arr? && |after.items| == |before.items|
      && exists i: nat :: FirstWith(before.items, path[0].id, i)
           && (forall k | 0 <= k < |before.items| && k != i :: after.items[k] == before.items[k])
           && RemovedAt(before.items[i], after.items[i], path[1..])
  }

  lemma {:induction false} UnsetInAnswers(container: Json, path: Path)
    requires EndsInKey(path)
    ensures UnsetIn(container, path).Failed? <==> GetIn(container, path).Refused?
    ensures UnsetIn(container, path).Failed? ==> UnsetIn(container, path).error == GetIn(container, path).error
    ensures GetIn(container, path) == Missing ==> UnsetIn(container, path) == Ok(container)
    ensures GetIn(container, path).Found? ==> RemovedAt(container, UnsetIn(container, path).doc, path)
    decreases |path|
  {
    if |path| == 1 {
      if container.Obj? {
        assert path[0].name !in container.fields ==> container.fields - {path[0].name} == container.fields;
      }
    } else {
      hide UnsetIn, GetIn;
      GetBelow(container, path);
      UnsetStep(container, path);
      var d := DescendForRead(container, path[0]);
      if d.Into? {
        UnsetInAnswers(d.value, path[1..]);
        if path[0].Entry? { FindEntryFindsFirst(container.items, path[0].id); }
        SameWithin(container, path[0]);
      }
    }
  }

  lemma UnsetStep(container: Json, path: Path)
    requires |path| > 1
    ensures var d := DescendForRead(container, path[0]);
            UnsetIn(container, path) ==
              if d.Throw? then Failed(d.error)
              else if d.Stop? then Ok(container)
              else if UnsetIn(d.value, path[1..]).Failed? then UnsetIn(d.value, path[1..])
              else Ok(Replace(container, path[0], UnsetIn(d.value, path[1..]).doc))
  {
  }

  lemma SameWithin(container: Json, segment: Segment)
    requires DescendForRead(container, segment).Into?
    ensures Replace(container, segment, DescendForRead(container, segment).value) == container
  {
    if segment.Key? {
      assert container.fields[segment.name := container.fields[segment.name]] == container.fields;
    }
  }

  /** An unset is refused exactly when a read of the path is, for the same reason. Otherwise it leaves a document
      without the value as it is, and takes an addressed value out and nothing else. */
  lemma UnsetAnswersExactlyWhen(root: Json, path: Path)
    ensures forall e :: Unset(root, path) == Failed(e) <==> Get(root, path) == Refused(e)
    ensures Get(root, path) == Missing ==> Unset(root, path) == Ok(root)
    ensures Get(root, path).Found? ==> Unset(root, path).Ok? && RemovedAt(root, Unset(root, path).doc, path)
  {
    hide UnsetIn, GetIn, RemovedAt;
    if TailError(path).None? { UnsetInAnswers(root, path); }
  }
}
