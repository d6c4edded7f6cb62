/** Reading, setting and unsetting a value by path in a raw JSON document whose arrays are addressed by `id`. */
module RawConfig {
  import opened Options

  datatype Json =
    | Null | Bool(b: bool) | Num(n: real) | Str(s: string)
    | Arr(items: seq<Json>)
    | Obj(fields: map<string, Json>)

  datatype Segment =
    | Key(name: string)
    | Entry(id: string, createWith: Option<map<string, Json>>)

  type Path = seq<Segment>

  datatype ConfigError = BadTail | UnsafeKey | NotAnObject | NotAContainer | NotAnArray | NoEntry

  // Refused stands for an exception.
  datatype Lookup = Found(value: Json) | Missing | Refused(error: ConfigError)

  datatype Outcome = Ok(doc: Json) | Failed(error: ConfigError)

  const ID := "id"
  const NO_FIELDS: map<string, Json> := map[]

  predicate Unsafe(key: string) {
    key == "__proto__" || key == "constructor" || key == "prototype"
  }

  predicate HasId(item: Json, id: string) {
    item.Obj? && ID in item.fields && item.fields[ID] == Str(id)
  }

  // The index of the first entry with the id, or |items|.
  function FindEntry(items: seq<Json>, id: string): (i: nat)
    ensures i <= |items|
    ensures i < |items| ==> HasId(items[i], id)
    ensures forall k | 0 <= k < i :: !HasId(items[k], id)
  {
    if items == [] || HasId(items[0], id) then 0 else 1 + FindEntry(items[1..], id)
  }

  // requireObjectKeyTail: None when the tail is acceptable.
  function TailError(path: Path): Option<ConfigError> {
    if path == [] || !path[|path| - 1].Key? then Some(BadTail)
    else if Unsafe(path[|path| - 1].name) then Some(UnsafeKey)
    else None
  }

  predicate GoodTail(path: Path) {
    TailError(path).None?
  }

  datatype Descent = Into(value: Json) | Stop | Throw(error: ConfigError)

  function DescendForRead(container: Json, segment: Segment): Descent {
    match segment
    case Key(k) =>
      if Unsafe(k) then Throw(UnsafeKey)
      else if !container.Obj? || k !in container.fields then Stop
      else Into(container.fields[k])
    case Entry(id, _) =>
      if !container.Arr? then Stop
      else
        var i := FindEntry(container.items, id);
        if i < |container.items| then Into(container.items[i]) else Stop
  }

  // --- The document operations, by recursion on the path ---

  function GetIn(container: Json, path: Path): Lookup
    requires path != []
    decreases |path|
  {
    if |path| == 1 then
      if path[0].Key? && container.Obj? && path[0].name in container.fields then
        Found(container.fields[path[0].name])
      else Missing
    else
      match DescendForRead(container, path[0])
      case Into(value) => GetIn(value, path[1..])
      case Stop => Missing
      case Throw(e) => Refused(e)
  }

  function Get(root: Json, path: Path): Lookup {
    var e := TailError(path);
    if e.Some? then Refused(e.value) else GetIn(root, path)
  }

  // What a missing container is created as.
  function EmptyFor(next: Segment): Json {
    if next.Entry? then Arr([]) else Obj(NO_FIELDS)
  }

  function SetIn(container: Json, path: Path, value: Json): Outcome
    requires path != []
    decreases |path|
  {
    if |path| == 1 then
      if path[0].Key? && container.Obj? then Ok(Obj(container.fields[path[0].name := value])) else Failed(NotAnObject)
    else
      match path[0]
      case Key(k) =>
        if Unsafe(k) then Failed(UnsafeKey)
        else if !container.Obj? then Failed(NotAnObject)
        else
          var existing := if k in container.fields then container.fields[k] else EmptyFor(path[1]);
          if !existing.Obj? && !existing.Arr? then Failed(NotAContainer)
          else
            var inner := SetIn(existing, path[1..], value);
            if inner.Ok? then Ok(Obj(container.fields[k := inner.doc])) else inner
      case Entry(id, createWith) =>
        if !container.Arr? then Failed(NotAnArray)
        else
          var i := FindEntry(container.items, id);
          if i == |container.items| && createWith.None? then Failed(NoEntry)
          else if i == |container.items| then
            var inner := SetIn(Obj(createWith.value), path[1..], value);
            if inner.Ok? then Ok(Arr(container.items + [inner.doc])) else inner
          else
            var inner := SetIn(container.items[i], path[1..], value);
            if inner.Ok? then Ok(Arr(container.items[i := inner.doc])) else inner
  }

  function Set(root: Json, path: Path, value: Json): Outcome {
    var e := TailError(path);
    if e.Some? then Failed(e.value) else SetIn(root, path, value)
  }

  function UnsetIn(container: Json, path: Path): Outcome
    requires path != []
    decreases |path|
  {
    if |path| == 1 then
      if path[0].Key? && container.Obj? then Ok(Obj(container.fields - {path[0].name})) else Ok(container)
    else
      match DescendForRead(container, path[0])
      case Throw(e) => Failed(e)
      case Stop => Ok(container)
      case Into(value) =>
        var inner := UnsetIn(value, path[1..]);
        if inner.Failed? then inner else Ok(Replace(container, path[0], inner.doc))
  }

  // The container with the value that reading descends into replaced.
  function Replace(container: Json, segment: Segment, value: Json): Json
    requires DescendForRead(container, segment).Into?
  {
    match segment
    case Key(k) => Obj(container.fields[k := value])
    case Entry(id, _) => Arr(container.items[FindEntry(container.items, id) := value])
  }

  function Unset(root: Json, path: Path): Outcome {
    var e := TailError(path);
    if e.Some? then Failed(e.value) else UnsetIn(root, path)
  }

  // --- Vocabulary of the laws ---

  // Same address; templates play no part in addressing.
  predicate SameAddress(a: Segment, b: Segment) {
    (a.Key? && b.Key? && a.name == b.name) || (a.Entry? && b.Entry? && a.id == b.id)
  }

  predicate Diverge(p: Path, q: Path)
    decreases |p|
  {
    p != [] && q != [] && if SameAddress(p[0], q[0]) then Diverge(p[1..], q[1..]) else true
  }

  // Every object key on the path is safe to look up.
  predicate SafeKeys(path: Path) {
    forall k | 0 <= k < |path| && path[k].Key? :: !Unsafe(path[k].name)
  }

  // The write does not go to the `id` of an array entry.
  predicate KeepsIds(path: Path) {
    |path| >= 2 && path[|path| - 2].Entry? ==> path[|path| - 1] != Key(ID)
  }

  predicate CarriesId(segment: Segment) {
    segment.Entry? && segment.createWith.Some? ==>
      ID in segment.createWith.value && segment.createWith.value[ID] == Str(segment.id)
  }

  predicate TemplatesCarryIds(path: Path) {
    forall k | 0 <= k < |path| :: CarriesId(path[k])
  }

  // After writing value at path, every entry on the way is still found by its id: one this write
  // creates carries its id, and a write to an entry's `id` repeats it.
  ghost predicate Sticks(container: Json, path: Path, value: Json)
    requires path != []
    decreases |path|
  {
    if |path| == 1 then true
    else
      match path[0]
      case Key(k) =>
        && container.Obj?
        && Sticks(if k in container.fields then container.fields[k] else EmptyFor(path[1]), path[1..], value)
      case Entry(id, createWith) =>
        && container.Arr?
        && var i := FindEntry(container.items, id);
           if path[1..] == [Key(ID)] then value == Str(id)
           else if i < |container.items| then Sticks(container.items[i], path[1..], value)
           else createWith.Some? && CarriesId(path[0]) && Sticks(Obj(createWith.value), path[1..], value)
  }

  // --- Set then get ---

  lemma SetKeepsKind(container: Json, path: Path, value: Json)
    requires path != [] && SetIn(container, path, value).Ok?
    ensures container.Obj? ==> SetIn(container, path, value).doc.Obj?
    ensures container.Arr? ==> SetIn(container, path, value).doc.Arr?
  {
  }

  // Inside an entry, only a write to its own `id` can change whether it is found.
  lemma SetKeepsId(item: Json, path: Path, value: Json, id: string)
    requires path != [] && SetIn(item, path, value).Ok?
    requires item.Obj?
    ensures path != [Key(ID)] ==> HasId(SetIn(item, path, value).doc, id) == HasId(item, id)
    ensures path == [Key(ID)] ==> HasId(SetIn(item, path, value).doc, id) == (value == Str(id))
  {
    if |path| > 1 && path[0].Key? && path[0].name == ID {
      var existing := if ID in item.fields then item.fields[ID] else EmptyFor(path[1]);
      SetKeepsKind(existing, path[1..], value);
    }
  }

  lemma FindEntryIs(items: seq<Json>, id: string, i: nat)
    requires i <= |items| && (i < |items| ==> HasId(items[i], id))
    requires forall k | 0 <= k < i :: !HasId(items[k], id)
    ensures FindEntry(items, id) == i
  {
  }

  /** Set then get returns the value, exactly when the written path stays addressable. */
  lemma {:induction false} SetThenGetIn(container: Json, path: Path, value: Json)
    requires GoodTail(path) && SetIn(container, path, value).Ok?
    ensures GetIn(SetIn(container, path, value).doc, path) == Found(value) <==> Sticks(container, path, value)
    decreases |path|
  {
    hide SetIn;
    var after := SetIn(container, path, value).doc;
    if |path| == 1 {
      SetAtEnd(container, path, value);
    } else {
      hide GetIn;
      var rest := path[1..];
      assert GoodTail(rest);
      GetBelow(after, path);
      match path[0] {
        case Key(k) =>
          SetAtKey(container, path, value);
          SetThenGetIn(if k in container.fields then container.fields[k] else EmptyFor(path[1]), rest, value);
        case Entry(id, createWith) =>
          SetAtEntry(container, path, value);
          SetThenGetEntry(container, path, value);
          SetThenGetIn(EntryAt(container, path[0]), rest, value);
      }
    }
  }

  // Where the entry's id leads after the set: to the entry, unless the set took that id from it.
  lemma SetThenGetEntry(container: Json, path: Path, value: Json)
    requires |path| > 1 && path[0].Entry? && SetIn(container, path, value).Ok? && container.Arr?
    requires FindEntry(container.items, path[0].id) < |container.items| || path[0].createWith.Some?
    ensures var after, id := SetIn(container, path, value).doc, path[0].id;
            var i, item := FindEntry(container.items, id), EntryAt(container, path[0]);
            && SetIn(item, path[1..], value).Ok? && after.Arr? && i < |after.items|
            && var item' := SetIn(item, path[1..], value).doc;
               && after.items[i] == item'
               && (HasId(item', id) ==> FindEntry(after.items, id) == i)
               && (path[1..] == [Key(ID)] ==> HasId(item', id) == (value == Str(id)))
               && (path[1..] != [Key(ID)] ==> HasId(item', id) == HasId(item, id))
               && (!HasId(item', id) ==>
                     var j := FindEntry(after.items, id);
                     j < |after.items| ==> i < j < |container.items| && after.items[j] == container.items[j])
  {
    hide SetIn;
    SetAtEntry(container, path, value);
    var after, id := SetIn(container, path, value).doc, path[0].id;
    var i, item := FindEntry(container.items, id), EntryAt(container, path[0]);
    var item' := SetIn(item, path[1..], value).doc;
    SetKeepsId(item, path[1..], value, id);
    if HasId(item', id) { FindEntryIs(after.items, id, i); }
  }

  // --- Set leaves diverging paths alone ---

  // q runs through an array entry that writing at p has to create.
  ghost predicate ThroughCreated(container: Json, p: Path, q: Path)
    requires p != []
    decreases |p|
  {
    && |p| > 1 && q != [] && SameAddress(p[0], q[0])
    && match p[0]
       case Key(k) =>
         && container.Obj?
         && ThroughCreated(if k in container.fields then container.fields[k] else EmptyFor(p[1]), p[1..], q[1..])
       case Entry(id, _) =>
         container.Arr?
         && var i := FindEntry(container.items, id);
            i == |container.items| || ThroughCreated(container.items[i], p[1..], q[1..])
  }

  lemma NothingInEmpty(segment: Segment, q: Path)
    requires q != [] && SafeKeys(q)
    ensures GetIn(EmptyFor(segment), q) == Missing
  {
  }

  // Changing one entry, or appending one, does not change which entry another id finds.
  lemma FindOther(items: seq<Json>, i: nat, item: Json, id: string)
    requires i <= |items| && !HasId(item, id) && (i < |items| ==> !HasId(items[i], id))
    ensures var after := if i < |items| then items[i := item] else items + [item];
            var j := FindEntry(items, id);
            if j < |items| then FindEntry(after, id) == j && j != i && after[j] == items[j]
            else FindEntry(after, id) == |after|
  {
    var after := if i < |items| then items[i := item] else items + [item];
    var j := FindEntry(items, id);
    FindEntryIs(after, id, if j < |items| then j else |after|);
  }

  // One step of a set, below a key and below an entry.
  lemma SetAtKey(container: Json, path: Path, value: Json)
    requires |path| > 1 && path[0].Key? && SetIn(container, path, value).Ok?
    ensures container.Obj? && !Unsafe(path[0].name)
    ensures var k := path[0].name;
            var existing := if k in container.fields then container.fields[k] else EmptyFor(path[1]);
            && SetIn(existing, path[1..], value).Ok?
            && SetIn(container, path, value).doc == Obj(container.fields[k := SetIn(existing, path[1..], value).doc])
  {
  }

  function EntryAt(container: Json, segment: Segment): Json
    requires container.Arr? && segment.Entry?
    requires FindEntry(container.items, segment.id) < |container.items| || segment.createWith.Some?
  {
    var i := FindEntry(container.items, segment.id);
    if i < |container.items| then container.items[i] else Obj(segment.createWith.value)
  }

  function WithEntry(items: seq<Json>, i: nat, item: Json): seq<Json>
    requires i <= |items|
  {
    if i < |items| then items[i := item] else items + [item]
  }

  lemma SetAtEntry(container: Json, path: Path, value: Json)
    requires |path| > 1 && path[0].Entry? && SetIn(container, path, value).Ok?
    ensures container.Arr?
    ensures FindEntry(container.items, path[0].id) < |container.items| || path[0].createWith.Some?
    ensures var i, item := FindEntry(container.items, path[0].id), EntryAt(container, path[0]);
            && item.Obj? && SetIn(item, path[1..], value).Ok?
            && SetIn(container, path, value).doc
                 == Arr(WithEntry(container.items, i, SetIn(item, path[1..], value).doc))
  {
  }

  lemma SetAtEnd(container: Json, path: Path, value: Json)
    requires |path| == 1 && SetIn(container, path, value).Ok?
    ensures path[0].Key? && container.Obj?
    ensures SetIn(container, path, value).doc == Obj(container.fields[path[0].name := value])
  {
  }

  lemma GetBelow(container: Json, path: Path)
    requires |path| > 1
    ensures GetIn(container, path) ==
              match DescendForRead(container, path[0])
              case Into(value) => GetIn(value, path[1..])
              case Stop => Missing
              case Throw(e) => Refused(e)
  {
  }

  // The first segment leads to the same place in both.
  lemma SameFirstStep(a: Json, b: Json, path: Path)
    requires path != [] && SafeKeys(path) && DescendForRead(a, path[0]) == DescendForRead(b, path[0])
    ensures GetIn(a, path) == GetIn(b, path)
  {
  }

  lemma OtherFirstStep(container: Json, p: Path, value: Json, q: Path)
    requires p != [] && SetIn(container, p, value).Ok? && q != [] && !SameAddress(p[0], q[0])
    requires KeepsIds(p) && TemplatesCarryIds(p)
    ensures DescendForRead(SetIn(container, p, value).doc, q[0]) == DescendForRead(container, q[0])
  {
    hide SetIn;
    var after := SetIn(container, p, value).doc;
    if |p| == 1 {
      SetAtEnd(container, p, value);
    } else if p[0].Key? {
      SetAtKey(container, p, value);
    } else {
      SetAtEntry(container, p, value);
      var i, item := FindEntry(container.items, p[0].id), EntryAt(container, p[0]);
      assert CarriesId(p[0]);
      SetKeepsId(item, p[1..], value, p[0].id);
      if q[0].Entry? { FindOther(container.items, i, after.items[i], q[0].id); }
    }
  }

  /** Reads at any diverging path are unchanged by a set, unless the path runs through an array entry the set had to
      create. */
  lemma {:induction false} SetKeepsDivergingReads(container: Json, p: Path, value: Json, q: Path)
    requires p != [] && SetIn(container, p, value).Ok? && Diverge(p, q) && SafeKeys(q)
    requires KeepsIds(p) && TemplatesCarryIds(p)
    requires !ThroughCreated(container, p, q)
    ensures GetIn(SetIn(container, p, value).doc, q) == GetIn(container, q)
    decreases |p|
  {
    hide SetIn, GetIn;
    var after := SetIn(container, p, value).doc;
    if SameAddress(p[0], q[0]) {
      assert |p| > 1 && |q| > 1;
      GetBelow(after, q);
      GetBelow(container, q);
      match p[0] {
        case Key(k) =>
          SetAtKey(container, p, value);
          var existing := if k in container.fields then container.fields[k] else EmptyFor(p[1]);
          SetKeepsDivergingReads(existing, p[1..], value, q[1..]);
          if k !in container.fields { NothingInEmpty(p[1], q[1..]); }
        case Entry(id, createWith) =>
          SetAtEntry(container, p, value);
          var i := FindEntry(container.items, id);
          SetKeepsId(container.items[i], p[1..], value, id);
          FindEntryIs(after.items, id, i);
          SetKeepsDivergingReads(container.items[i], p[1..], value, q[1..]);
      }
    } else {
      OtherFirstStep(container, p, value, q);
      SameFirstStep(after, container, q);
    }
  }

  // Before the write, a path through an entry that does not exist yet reads as missing.
  lemma {:induction false} ThroughCreatedIsMissing(container: Json, p: Path, q: Path)
    requires p != [] && Diverge(p, q) && SafeKeys(q) && ThroughCreated(container, p, q)
    ensures GetIn(container, q) == Missing
    decreases |p|
  {
    match p[0]
    case Key(k) =>
      ThroughCreatedIsMissing(if k in container.fields then container.fields[k] else EmptyFor(p[1]), p[1..], q[1..]);
    case Entry(id, _) =>
      var i := FindEntry(container.items, id);
      if i < |container.items| { ThroughCreatedIsMissing(container.items[i], p[1..], q[1..]); }
  }

  /** A value that can be read survives a set at any diverging path. */
  lemma SetKeepsPresentReads(container: Json, p: Path, value: Json, q: Path)
    requires p != [] && SetIn(container, p, value).Ok? && Diverge(p, q) && SafeKeys(q)
    requires KeepsIds(p) && TemplatesCarryIds(p)
    requires GetIn(container, q).Found?
    ensures GetIn(SetIn(container, p, value).doc, q) == GetIn(container, q)
  {
    if ThroughCreated(container, p, q) { ThroughCreatedIsMissing(container, p, q); }
    SetKeepsDivergingReads(container, p, value, q);
  }

  // --- Unset ---

  // The path ends in the `id` of an entry whose id a later entry repeats.
  ghost predicate EndsInRepeatedId(container: Json, path: Path)
    requires path != []
    decreases |path|
  {
    && |path| > 1
    && var d := DescendForRead(container, path[0]);
       d.Into?
       && if path[0].Entry? && path[1..] == [Key(ID)] then
            var i := FindEntry(container.items, path[0].id);
            i < |container.items| && FindEntry(container.items[i + 1..], path[0].id) < |container.items| - i - 1
          else EndsInRepeatedId(d.value, path[1..])
  }

  lemma UnsetKeepsId(item: Json, path: Path, id: string)
    requires path != [] && item.Obj? && UnsetIn(item, path).Ok?
    ensures UnsetIn(item, path).doc.Obj?
    ensures HasId(item, id) ==> HasId(UnsetIn(item, path).doc, id) == (path != [Key(ID)])
  {
    if |path| > 1 {
      var d := DescendForRead(item, path[0]);
      if d.Into? && path[0].name == ID && HasId(item, id) {
        UnsetInLeafIsSame(d.value, path[1..]);
      }
    }
  }

  lemma UnsetInLeafIsSame(leaf: Json, path: Path)
    requires path != [] && !leaf.Obj? && !leaf.Arr? && UnsetIn(leaf, path).Ok?
    ensures UnsetIn(leaf, path).doc == leaf
  {
  }

  /** Unset then get is absent, except exactly when it removed the id of an entry whose id is repeated further on. */
  lemma {:induction false} UnsetThenGetIn(container: Json, path: Path)
    requires GoodTail(path) && UnsetIn(container, path).Ok?
    ensures GetIn(UnsetIn(container, path).doc, path) == Missing <==> !EndsInRepeatedId(container, path)
    decreases |path|
  {
    if |path| > 1 {
      assert GoodTail(path[1..]);
      var d := DescendForRead(container, path[0]);
      if d.Into? {
        UnsetThenGetIn(d.value, path[1..]);
        if path[0].Entry? {
          UnsetThenGetEntry(container, path);
        }
      }
    }
  }

  // Unsetting the id of the first of two channels "a" makes the path address the second one.
  lemma UnsetOfRepeatedIdReadsOn()
    ensures var channel := Obj(map[ID := Str("a")]);
            var doc, path := Obj(map["channels" := Arr([channel, channel])]),
                [Key("channels"), Entry("a", None), Key(ID)];
            Unset(doc, path).Ok? && Get(Unset(doc, path).doc, path) == Found(Str("a"))
  {
    var channel := Obj(map[ID := Str("a")]);
    var channels, inner := Arr([channel, channel]), [Entry("a", None), Key(ID)];
    var doc, path := Obj(map["channels" := channels]), [Key("channels")] + inner;
    assert path == [Key("channels"), Entry("a", None), Key(ID)] && path[1..] == inner && inner[1..] == [Key(ID)];
    assert channel.fields - {ID} == map[];
    assert UnsetIn(channel, [Key(ID)]) == Ok(Obj(map[]));
    FindEntryIs(channels.items, "a", 0);
    assert DescendForRead(channels, Entry("a", None)) == Into(channel);
    assert channels.items[0 := Obj(map[])] == [Obj(map[]), channel];
    var after := Arr([Obj(map[]), channel]);
    assert UnsetIn(channels, inner) == Ok(after);
    FindEntryIs(after.items, "a", 1);
    assert GetIn(after, inner) == Found(Str("a"));
  }

  lemma UnsetAtEntry(container: Json, path: Path)
    requires |path| > 1 && path[0].Entry? && UnsetIn(container, path).Ok?
    requires DescendForRead(container, path[0]).Into?
    ensures container.Arr?
    ensures var i := FindEntry(container.items, path[0].id);
            && i < |container.items| && container.items[i].Obj? && UnsetIn(container.items[i], path[1..]).Ok?
            && UnsetIn(container, path).doc == Arr(container.items[i := UnsetIn(container.items[i], path[1..]).doc])
  {
  }

  lemma UnsetThenGetEntry(container: Json, path: Path)
    requires GoodTail(path) && |path| > 1 && path[0].Entry? && UnsetIn(container, path).Ok?
    requires DescendForRead(container, path[0]).Into?
    ensures var after := UnsetIn(container, path).doc;
            var i := FindEntry(container.items, path[0].id);
            after.Arr? && |after.items| == |container.items| > i
            && if path[1..] == [Key(ID)] then
                 (GetIn(after, path) == Missing <==>
                    FindEntry(container.items[i + 1..], path[0].id) == |container.items| - i - 1)
               else
                 && FindEntry(after.items, path[0].id) == i
                 && Ok(after.items[i]) == UnsetIn(container.items[i], path[1..])
  {
    hide UnsetIn, GetIn;
    UnsetAtEntry(container, path);
    var after, id := UnsetIn(container, path).doc, path[0].id;
    var i := FindEntry(container.items, id);
    UnsetKeepsId(container.items[i], path[1..], id);
    if path[1..] == [Key(ID)] {
      IdGone(container.items, after.items, i, id);
      GetBelow(after, path);
      GetId(after, path, id);
    } else {
      FindEntryIs(after.items, id, i);
    }
  }

  // Once entry i, the first with the id, has lost it, the id leads to the next such entry.
  lemma IdGone(items: seq<Json>, after: seq<Json>, i: nat, id: string)
    requires i < |items| && FindEntry(items, id) == i && |after| == |items| && after == items[i := after[i]]
    requires !HasId(after[i], id)
    ensures FindEntry(after, id) == i + 1 + FindEntry(items[i + 1..], id)
  {
    hide FindEntry, HasId;
    var k := FindEntry(items[i + 1..], id);
    assert forall j | i < j < |after| :: after[j] == items[i + 1..][j - i - 1];
    FindEntryIs(after, id, i + 1 + k);
  }

  // Reading the id of the entry with that id finds it, when there is one.
  lemma GetId(container: Json, path: Path, id: string)
    requires |path| == 2 && path[0].Entry? && path[0].id == id && path[1] == Key(ID) && container.Arr?
    ensures GetIn(container, path) == Missing <==> FindEntry(container.items, id) == |container.items|
  {
    GetBelow(container, path);
    assert path[1..] == [Key(ID)];
  }

  lemma UnsetBelow(container: Json, path: Path)
    requires |path| > 1 && UnsetIn(container, path).Ok?
    ensures var d := DescendForRead(container, path[0]);
            && !d.Throw?
            && (d.Stop? ==> UnsetIn(container, path).doc == container)
            && (d.Into? ==>
                  && UnsetIn(d.value, path[1..]).Ok?
                  && UnsetIn(container, path).doc == Replace(container, path[0], UnsetIn(d.value, path[1..]).doc))
  {
  }

  // Replacing below one segment leaves what another one leads to.
  lemma OtherFirstStepOfUnset(container: Json, p: Path, q: Path)
    requires p != [] && UnsetIn(container, p).Ok? && q != [] && !SameAddress(p[0], q[0]) && KeepsIds(p)
    ensures DescendForRead(UnsetIn(container, p).doc, q[0]) == DescendForRead(container, q[0])
  {
    if |p| > 1 {
      UnsetBelow(container, p);
      hide UnsetIn;
      var d := DescendForRead(container, p[0]);
      if d.Into? && p[0].Entry? {
        UnsetAtEntry(container, p);
        var after, i := UnsetIn(container, p).doc, FindEntry(container.items, p[0].id);
        UnsetKeepsId(container.items[i], p[1..], p[0].id);
        if q[0].Entry? { FindOther(container.items, i, after.items[i], q[0].id); }
      }
    }
  }

  // The segment itself leads to the replaced value.
  lemma SameStepOfUnset(container: Json, p: Path, q: Path)
    requires |p| > 1 && UnsetIn(container, p).Ok? && q != [] && SameAddress(p[0], q[0])
    requires KeepsIds(p) && p[1..] != [Key(ID)]
    requires DescendForRead(container, p[0]).Into?
    ensures DescendForRead(container, q[0]) == DescendForRead(container, p[0])
    ensures UnsetIn(DescendForRead(container, p[0]).value, p[1..]).Ok?
    ensures DescendForRead(UnsetIn(container, p).doc, q[0])
         == Into(UnsetIn(DescendForRead(container, p[0]).value, p[1..]).doc)
  {
    UnsetBelow(container, p);
    hide UnsetIn;
    if p[0].Entry? {
      UnsetAtEntry(container, p);
      var after, i := UnsetIn(container, p).doc, FindEntry(container.items, p[0].id);
      UnsetKeepsId(container.items[i], p[1..], p[0].id);
      FindEntryIs(after.items, p[0].id, i);
    }
  }

  /** Unset changes no read at a diverging path, and changes nothing at all when there was nothing to remove. */
  lemma {:induction false} UnsetKeepsDivergingReads(container: Json, p: Path, q: Path)
    requires p != [] && UnsetIn(container, p).Ok? && Diverge(p, q) && SafeKeys(q) && KeepsIds(p)
    ensures GetIn(UnsetIn(container, p).doc, q) == GetIn(container, q)
    decreases |p|
  {
    hide UnsetIn, GetIn;
    var after := UnsetIn(container, p).doc;
    if !SameAddress(p[0], q[0]) {
      OtherFirstStepOfUnset(container, p, q);
      SameFirstStep(after, container, q);
    } else {
      assert |p| > 1 && |q| > 1;
      UnsetBelow(container, p);
      var d := DescendForRead(container, p[0]);
      if d.Into? {
        GetBelow(after, q);
        GetBelow(container, q);
        UnderSameStep(container, p, q);
        UnsetKeepsDivergingReads(d.value, p[1..], q[1..]);
      }
    }
  }

  lemma UnderSameStep(container: Json, p: Path, q: Path)
    requires |p| > 1 && |q| > 1 && UnsetIn(container, p).Ok? && SameAddress(p[0], q[0]) && KeepsIds(p) && Diverge(p, q)
    requires DescendForRead(container, p[0]).Into?
    ensures DescendForRead(container, q[0]) == DescendForRead(container, p[0])
    ensures UnsetIn(DescendForRead(container, p[0]).value, p[1..]).Ok?
    ensures DescendForRead(UnsetIn(container, p).doc, q[0])
         == Into(UnsetIn(DescendForRead(container, p[0]).value, p[1..]).doc)
  {
    hide UnsetIn;
    if p[0].Key? {
      KeyStepOfUnset(container, p, q);
    } else {
      NotTheId(p);
      SameStepOfUnset(container, p, q);
    }
  }

  lemma NotTheId(path: Path)
    requires |path| > 1 && path[0].Entry? && KeepsIds(path)
    ensures path[1..] != [Key(ID)]
  {
    if |path| == 2 { assert path[1..] == [path[1]]; }
  }

  lemma KeyStepOfUnset(container: Json, p: Path, q: Path)
    requires |p| > 1 && UnsetIn(container, p).Ok? && q != [] && SameAddress(p[0], q[0]) && p[0].Key?
    requires DescendForRead(container, p[0]).Into?
    ensures DescendForRead(container, q[0]) == DescendForRead(container, p[0])
    ensures UnsetIn(DescendForRead(container, p[0]).value, p[1..]).Ok?
    ensures DescendForRead(UnsetIn(container, p).doc, q[0])
         == Into(UnsetIn(DescendForRead(container, p[0]).value, p[1..]).doc)
  {
    UnsetBelow(container, p);
  }

  lemma {:induction false} UnsetOfMissing(container: Json, path: Path)
    requires GoodTail(path) && GetIn(container, path) == Missing
    ensures UnsetIn(container, path) == Ok(container)
    decreases |path|
  {
    if |path| == 1 {
      if container.Obj? { assert container.fields - {path[0].name} == container.fields; }
    } else {
      assert GoodTail(path[1..]);
      var d := DescendForRead(container, path[0]);
      if d.Into? {
        UnsetOfMissing(d.value, path[1..]);
        if path[0].Key? {
          assert container.fields[path[0].name := d.value] == container.fields;
        } else {
          var i := FindEntry(container.items, path[0].id);
          assert container.items[i := d.value] == container.items;
        }
      }
    }
  }

  // --- Capture, set, restore ---

  ghost predicate ParentsExist(container: Json, path: Path)
    requires path != []
    decreases |path|
  {
    |path| > 1 ==>
      var d := DescendForRead(container, path[0]);
      d.Into? && ParentsExist(d.value, path[1..])
  }

  // The rollback: put the captured value back, or remove what was not there.
  function RestoreIn(container: Json, path: Path, captured: Lookup): Outcome
    requires path != []
  {
    if captured.Found? then SetIn(container, path, captured.value) else UnsetIn(container, path)
  }

  /** Capture, set, restore gives back the original document exactly when the parents already existed. */
  lemma {:induction false} RestoreIsExact(container: Json, path: Path, value: Json)
    requires GoodTail(path) && KeepsIds(path) && SetIn(container, path, value).Ok?
    ensures RestoreIn(SetIn(container, path, value).doc, path, GetIn(container, path)) == Ok(container)
            <==> ParentsExist(container, path)
    decreases |path|
  {
    var after := SetIn(container, path, value).doc;
    if |path| == 1 {
      var k := path[0].name;
      if k in container.fields {
        assert container.fields[k := value][k := container.fields[k]] == container.fields;
      } else {
        assert container.fields[k := value] - {k} == container.fields;
      }
    } else {
      assert GoodTail(path[1..]);
      if path[0].Key? {
        RestoreKey(container, path, value);
      } else {
        RestoreEntry(container, path, value);
      }
      var d := DescendForRead(container, path[0]);
      if d.Into? {
        RestoreIsExact(d.value, path[1..], value);
      }
    }
  }

  lemma RestoreKey(container: Json, path: Path, value: Json)
    requires GoodTail(path) && |path| > 1 && path[0].Key? && SetIn(container, path, value).Ok?
    ensures var d, k := DescendForRead(container, path[0]), path[0].name;
            var restored := RestoreIn(SetIn(container, path, value).doc, path, GetIn(container, path));
            if d.Into? then
              SetIn(d.value, path[1..], value).Ok?
              && (restored == Ok(container) <==>
                  RestoreIn(SetIn(d.value, path[1..], value).doc, path[1..], GetIn(d.value, path[1..])) == Ok(d.value))
            else restored != Ok(container)
  {
    var k := path[0].name;
    var existing := if k in container.fields then container.fields[k] else EmptyFor(path[1]);
    var inner := SetIn(existing, path[1..], value).doc;
    var captured := GetIn(container, path);
    SetKeepsKind(existing, path[1..], value);
    var restored := RestoreIn(container.(fields := container.fields[k := inner]), path, captured);
    if k in container.fields {
      var r := RestoreIn(inner, path[1..], captured);
      if r.Ok? {
        assert restored == Ok(Obj(container.fields[k := inner][k := r.doc]));
        if r.doc == existing {
          assert container.fields[k := inner][k := r.doc] == container.fields;
        } else {
          assert container.fields[k := inner][k := r.doc][k] != container.fields[k];
        }
      }
    } else if restored.Ok? {
      assert k in restored.doc.fields;
    }
  }

  lemma RestoreEntry(container: Json, path: Path, value: Json)
    requires GoodTail(path) && |path| > 1 && path[0].Entry? && KeepsIds(path) && SetIn(container, path, value).Ok?
    ensures var d := DescendForRead(container, path[0]);
            var restored := RestoreIn(SetIn(container, path, value).doc, path, GetIn(container, path));
            if d.Into? then
              SetIn(d.value, path[1..], value).Ok?
              && (restored == Ok(container) <==>
                  RestoreIn(SetIn(d.value, path[1..], value).doc, path[1..], GetIn(d.value, path[1..])) == Ok(d.value))
            else restored != Ok(container)
  {
    var id, after := path[0].id, SetIn(container, path, value).doc;
    var i := FindEntry(container.items, id);
    var captured := GetIn(container, path);
    var restored := RestoreIn(after, path, captured);
    if i < |container.items| {
      SetKeepsId(container.items[i], path[1..], value, id);
      FindEntryIs(after.items, id, i);
      var r := RestoreIn(after.items[i], path[1..], captured);
      if r.Ok? {
        assert restored == Ok(Arr(after.items[i := r.doc]));
        if r.doc == container.items[i] {
          assert after.items[i := r.doc] == container.items;
        } else {
          assert after.items[i := r.doc][i] != container.items[i];
        }
      }
    } else if restored.Ok? {
      assert |restored.doc.items| >= |after.items|;
    }
  }

  // --- Writes that are known to stick ---

  // An acceptable path with safe keys, templates that carry their own id, and a tail that is not an entry's id.
  ghost predicate GoodPath(path: Path) {
    GoodTail(path) && SafeKeys(path) && KeepsIds(path) && TemplatesCarryIds(path)
  }

  lemma {:induction false} GoodPathSticks(container: Json, path: Path, value: Json)
    requires path != [] && SetIn(container, path, value).Ok? && KeepsIds(path) && TemplatesCarryIds(path)
    ensures Sticks(container, path, value)
    decreases |path|
  {
    hide SetIn, CarriesId;
    if |path| > 1 {
      match path[0] {
        case Key(k) =>
          SetAtKey(container, path, value);
          GoodPathSticks(if k in container.fields then container.fields[k] else EmptyFor(path[1]), path[1..], value);
        case Entry(id, createWith) =>
          SetAtEntry(container, path, value);
          NotTheId(path);
          assert CarriesId(path[0]);
          GoodPathSticks(EntryAt(container, path[0]), path[1..], value);
      }
    }
  }

  /** On a good path, set then get returns the value, in every document that accepts the set. */
  lemma SetThenGet(root: Json, path: Path, value: Json)
    requires GoodPath(path) && Set(root, path, value).Ok?
    ensures Get(Set(root, path, value).doc, path) == Found(value)
  {
    GoodPathSticks(root, path, value);
    SetThenGetIn(root, path, value);
  }

  // --- The operations as the loops they are ---

  // A container on the way down, with the place the walk left it through.
  datatype Frame = AtKey(fields: map<string, Json>, key: string) | AtIndex(items: seq<Json>, index: nat)

  predicate FrameOk(frame: Frame) {
    frame.AtIndex? ==> frame.index < |frame.items|
  }

  function Fill(frame: Frame, value: Json): Json
    requires FrameOk(frame)
  {
    match frame
    case AtKey(fields, k) => Obj(fields[k := value])
    case AtIndex(items, i) => Arr(items[i := value])
  }

  // The whole document again, once the innermost container has become `value`: what sharing does in place.
  function Rebuild(trail: seq<Frame>, value: Json): Json
    requires forall f | f in trail :: FrameOk(f)
  {
    if trail == [] then value else Rebuild(trail[..|trail| - 1], Fill(trail[|trail| - 1], value))
  }

  ghost function RebuildOutcome(trail: seq<Frame>, r: Outcome): Outcome
    requires forall f | f in trail :: FrameOk(f)
  {
    if r.Ok? then Ok(Rebuild(trail, r.doc)) else r
  }

  lemma RebuildInner(trail: seq<Frame>, frame: Frame, r: Outcome)
    requires FrameOk(frame) && forall f | f in trail :: FrameOk(f)
    ensures forall f | f in trail + [frame] :: FrameOk(f)
    ensures RebuildOutcome(trail + [frame], r) == RebuildOutcome(trail, if r.Ok? then Ok(Fill(frame, r.doc)) else r)
  {
    assert (trail + [frame])[..|trail|] == trail;
  }

  datatype WriteDescent = Went(frame: Frame, value: Json) | Raised(error: ConfigError)

  // descendForWrite, creating what is missing; `next` decides what a missing container becomes.
  function DescendForWrite(container: Json, segment: Segment, next: Segment): (r: WriteDescent)
    ensures r.Went? ==> FrameOk(r.frame)
  {
    match segment
    case Key(k) =>
      if Unsafe(k) then Raised(UnsafeKey)
      else if !container.Obj? then Raised(NotAnObject)
      else
        var existing := if k in container.fields then container.fields[k] else EmptyFor(next);
        if !existing.Obj? && !existing.Arr? then Raised(NotAContainer)
        else Went(AtKey(container.fields[k := existing], k), existing)
    case Entry(id, createWith) =>
      if !container.Arr? then Raised(NotAnArray)
      else
        var i := FindEntry(container.items, id);
        if i < |container.items| then Went(AtIndex(container.items, i), container.items[i])
        else if createWith.None? then Raised(NoEntry)
        else Went(AtIndex(container.items + [Obj(createWith.value)], i), Obj(createWith.value))
  }

  // One level of SetIn is one write descent followed by filling the frame.
  lemma SetInUnfolds(container: Json, path: Path, value: Json)
    requires |path| > 1
    ensures var d := DescendForWrite(container, path[0], path[1]);
            SetIn(container, path, value) ==
              if d.Raised? then Failed(d.error)
              else var inner := SetIn(d.value, path[1..], value);
                   if inner.Ok? then Ok(Fill(d.frame, inner.doc)) else inner
  {
    var d := DescendForWrite(container, path[0], path[1]);
    if d.Went? {
      var inner := SetIn(d.value, path[1..], value);
      if inner.Ok? {
        match path[0]
        case Key(k) => assert container.fields[k := d.value][k := inner.doc] == container.fields[k := inner.doc];
        case Entry(id, createWith) =>
          var i := FindEntry(container.items, id);
          if i == |container.items| {
            assert (container.items + [d.value])[i := inner.doc] == container.items + [inner.doc];
          }
      }
    }
  }

  method ReadRawConfigValue(root: Json, path: Path) returns (r: Lookup)
    ensures r == Get(root, path)
  {
    var tail := TailError(path);
    if tail.Some? {
      return Refused(tail.value);
    }
    var container, index := root, 0;
    while index < |path| - 1
      invariant index <= |path| - 1
      invariant GetIn(root, path) == GetIn(container, path[index..])
    {
      var next := DescendForRead(container, path[index]);
      assert path[index..][1..] == path[index + 1..];
      match next {
        case Stop => return Missing;
        case Throw(e) => return Refused(e);
        case Into(value) => container := value;
      }
      index := index + 1;
    }
    var lastKey := path[|path| - 1].name;
    if !container.Obj? || lastKey !in container.fields {
      return Missing;
    }
    return Found(container.fields[lastKey]);
  }

  method SetRawConfigValue(root: Json, path: Path, value: Json) returns (r: Outcome)
    ensures r == Set(root, path, value)
  {
    var tail := TailError(path);
    if tail.Some? {
      return Failed(tail.value);
    }
    var container, index := root, 0;
    var trail: seq<Frame> := [];
    while index < |path| - 1
      invariant index <= |path| - 1
      invariant forall f | f in trail :: FrameOk(f)
      invariant SetIn(root, path, value) == RebuildOutcome(trail, SetIn(container, path[index..], value))
    {
      SetInUnfolds(container, path[index..], value);
      var next := DescendForWrite(container, path[index], path[index + 1]);
      assert path[index..][1..] == path[index + 1..];
      match next {
        case Raised(e) => return Failed(e);
        case Went(frame, inner) =>
          RebuildInner(trail, frame, SetIn(inner, path[index + 1..], value));
          trail := trail + [frame];
          container := inner;
      }
      index := index + 1;
    }
    if !container.Obj? {
      return Failed(NotAnObject);
    }
    return Ok(Rebuild(trail, Obj(container.fields[path[|path| - 1].name := value])));
  }

  method UnsetRawConfigValue(root: Json, path: Path) returns (r: Outcome)
    ensures r == Unset(root, path)
  {
    var tail := TailError(path);
    if tail.Some? {
      return Failed(tail.value);
    }
    var container, index := root, 0;
    var trail: seq<Frame> := [];
    while index < |path| - 1
      invariant index <= |path| - 1
      invariant forall f | f in trail :: FrameOk(f)
      invariant Rebuild(trail, container) == root
      invariant UnsetIn(root, path) == RebuildOutcome(trail, UnsetIn(container, path[index..]))
    {
      var next := DescendForRead(container, path[index]);
      assert path[index..][1..] == path[index + 1..];
      match next {
        case Throw(e) => return Failed(e);
        case Stop => return Ok(root);
        case Into(inner) =>
          var frame := if path[index].Key? then AtKey(container.fields, path[index].name)
                       else AtIndex(container.items, FindEntry(container.items, path[index].id));
          assert Fill(frame, inner) == container by {
            if path[index].Key? {
              assert container.fields[path[index].name := inner] == container.fields;
            }
          }
          RebuildInner(trail, frame, UnsetIn(inner, path[index + 1..]));
          RebuildInner(trail, frame, Ok(inner));
          trail := trail + [frame];
          container := inner;
      }
      index := index + 1;
    }
    if container.Obj? {
      return Ok(Rebuild(trail, Obj(container.fields - {path[|path| - 1].name})));
    }
    return Ok(root);
  }
}
