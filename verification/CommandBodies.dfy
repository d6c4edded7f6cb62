/** The free-text bodies of /later and /delegate: verbatim tails of the trimmed command. */
module CommandBodies {
  import opened Options
  import opened Sequences
  import opened Text
  import opened CommandTokenizer

  const ROLE: Str16 := [0x2D, 0x2D, 0x72, 0x6F, 0x6C, 0x65]
  const GROUP: Str16 := [0x2D, 0x2D, 0x67, 0x72, 0x6F, 0x75, 0x70]
  const LIST: Str16 := [0x6C, 0x69, 0x73, 0x74]
  const CANCEL: Str16 := [0x63, 0x61, 0x6E, 0x63, 0x65, 0x6C]

  function Parts(trimmed: Str16): seq<Str16> {
    Values(Tokenize(trimmed))
  }

  // The verbatim text from token index on.
  function RawTail(trimmed: Str16, index: nat): Str16 {
    var tokens := Tokenize(trimmed);
    TokensAreOrdered(trimmed);
    if index < |tokens| then trimmed[tokens[index].start..] else []
  }

  /** A tail is a suffix of the command that starts with its token and tokenizes to the remaining parts. */
  lemma TailRetokenizes(trimmed: Str16, index: nat)
    ensures var tail := RawTail(trimmed, index);
            && IsSuffix(tail, trimmed)
            && Parts(tail) == if index < |Parts(trimmed)| then Parts(trimmed)[index..] else []
    ensures Blank(RawTail(trimmed, index)) <==> index >= |Parts(trimmed)|
  {
    hide Scan, IsSpace, Next;
    var tail := RawTail(trimmed, index);
    if index < |Parts(trimmed)| {
      RetokenizeFromToken(trimmed, index);
      assert tail[0] in tail;
    } else {
      EmptyHasNoTokens();
    }
  }

  lemma EmptyHasNoTokens()
    ensures Tokenize([]) == []
  {
  }

  // --- /later ---

  datatype Later =
    | LaterHelp
    | LaterList
    | LaterCancel(id: Str16)
    | LaterCreate(tokens: seq<Str16>, tails: seq<Str16>)

  // The /later branch, for a command of at least the command word.
  function ParseLater(trimmed: Str16): Later
    requires Parts(trimmed) != []
  {
    var parts := Parts(trimmed);
    if |parts| == 1 then LaterHelp
    else if parts[1] == LIST && |parts| == 2 then LaterList
    else if parts[1] == CANCEL && |parts| == 3 then LaterCancel(parts[2])
    else LaterCreate(parts[1..], seq(|parts| - 1, i requires 0 <= i => RawTail(trimmed, i + 1)))
  }

  /** Each tail of a /later request re-tokenizes to the matching suffix of its tokens. */
  lemma LaterTailsMatchTokens(trimmed: Str16)
    requires Parts(trimmed) != [] && ParseLater(trimmed).LaterCreate?
    ensures var later := ParseLater(trimmed);
            && |later.tails| == |later.tokens| == |Parts(trimmed)| - 1
            && forall i | 0 <= i < |later.tails| ::
                 IsSuffix(later.tails[i], trimmed) && Parts(later.tails[i]) == later.tokens[i..]
  {
    hide Parts, IsSuffix, RawTail, Tokenize, Scan, IsSpace, Blank;
    var later := ParseLater(trimmed);
    forall i | 0 <= i < |later.tails|
      ensures IsSuffix(later.tails[i], trimmed) && Parts(later.tails[i]) == later.tokens[i..]
    {
      LaterTailMatches(trimmed, i);
    }
  }

  /** "/later" alone is help, "/later list" and "/later cancel <id>" with nothing after them are those, and everything
      else is a request with all the words after the command. */
  lemma LaterAnswersExactlyWhen(trimmed: Str16)
    requires Parts(trimmed) != []
    ensures var parts, later := Parts(trimmed), ParseLater(trimmed);
            && (later.LaterHelp? <==> |parts| == 1)
            && (later.LaterList? <==> |parts| == 2 && parts[1] == Word("list"))
            && (forall id :: later == LaterCancel(id) <==> |parts| == 3 && parts[1] == Word("cancel") && parts[2] == id)
            && (later.LaterCreate? ==> [parts[0]] + later.tokens == parts)
  {
    hide Parts, RawTail;
    assert LIST == Word("list") && CANCEL == Word("cancel");
  }

  lemma LaterTailMatches(trimmed: Str16, i: nat)
    requires i + 1 < |Parts(trimmed)|
    ensures var tail := RawTail(trimmed, i + 1);
            IsSuffix(tail, trimmed) && Parts(tail) == Parts(trimmed)[1..][i..]
  {
    hide Parts, IsSuffix, RawTail, Tokenize, Scan, IsSpace, Blank;
    TailRetokenizes(trimmed, i + 1);
    DropTwice(Parts(trimmed), i);
  }

  lemma DropTwice(parts: seq<Str16>, i: nat)
    requires i + 1 <= |parts|
    ensures parts[1..][i..] == parts[i + 1..]
  {
  }

  // --- /delegate ---

  datatype Delegate = Delegate(targetAgent: Str16, role: Option<Str16>, groupId: Option<Str16>, task: Str16)

  datatype Flags = Flags(role: Option<Str16>, groupId: Option<Str16>, index: nat)

  predicate IsFlag(part: Str16) {
    part == ROLE || part == GROUP
  }

  // The flag loop from a given position: None when a flag has no value.
  function ReadFlags(parts: seq<Str16>, at: Flags): Option<Flags>
    decreases |parts| - at.index
  {
    if at.index >= |parts| || !IsFlag(parts[at.index]) then Some(at)
    else if at.index + 1 >= |parts| then None
    else ReadFlags(parts, AfterFlag(parts, at))
  }

  function AfterFlag(parts: seq<Str16>, at: Flags): Flags
    requires at.index + 1 < |parts|
  {
    var value := Some(parts[at.index + 1]);
    if parts[at.index] == ROLE then at.(role := value, index := at.index + 2)
    else at.(groupId := value, index := at.index + 2)
  }

  const NO_FLAGS := Flags(None, None, 2)

  function ParseDelegate(trimmed: Str16): Option<Delegate> {
    var parts := Parts(trimmed);
    if |parts| < 2 then None
    else
      var flags := ReadFlags(parts, NO_FLAGS);
      if flags.None? then None
      else
        var task := RawTail(trimmed, flags.value.index);
        if Trim(task) == [] then None
        else Some(Delegate(parts[1], flags.value.role, flags.value.groupId, task))
  }

  // The reference: the body starts at part k, after flag and value pairs.
  predicate FlagsUpTo(parts: seq<Str16>, k: nat) {
    2 <= k <= |parts| && k % 2 == 0 && forall j | 2 <= j < k && j % 2 == 0 :: IsFlag(parts[j])
  }

  predicate BodyAt(parts: seq<Str16>, k: nat) {
    k < |parts| && FlagsUpTo(parts, k) && !IsFlag(parts[k])
  }

  // The value of the last such flag before part k, if any.
  function LastFlag(flag: Str16, parts: seq<Str16>, k: nat): Option<Str16>
    requires k <= |parts|
  {
    if k < 4 then None
    else if parts[k - 2] == flag then Some(parts[k - 1])
    else LastFlag(flag, parts, k - 2)
  }

  ghost predicate ReadUpTo(parts: seq<Str16>, at: Flags) {
    && FlagsUpTo(parts, at.index)
    && at.role == LastFlag(ROLE, parts, at.index) && at.groupId == LastFlag(GROUP, parts, at.index)
  }

  lemma FlagWithoutValue(parts: seq<Str16>, last: nat, k: nat)
    requires FlagsUpTo(parts, last) && last == |parts| - 1 && IsFlag(parts[last])
    ensures !BodyAt(parts, k)
  {
  }

  lemma {:induction false} ReadFlagsFindsBody(parts: seq<Str16>, at: Flags)
    requires ReadUpTo(parts, at)
    ensures match ReadFlags(parts, at)
            case None => forall k: nat :: !BodyAt(parts, k)
            case Some(flags) => ReadUpTo(parts, flags) && (flags.index < |parts| ==> !IsFlag(parts[flags.index]))
    decreases |parts| - at.index
  {
    if at.index < |parts| && IsFlag(parts[at.index]) {
      if at.index + 1 < |parts| {
        ReadFlagsFindsBody(parts, AfterFlag(parts, at));
      } else {
        forall k: nat ensures !BodyAt(parts, k) {
          FlagWithoutValue(parts, at.index, k);
        }
      }
    }
  }

  lemma OneBody(parts: seq<Str16>, j: nat, k: nat)
    requires FlagsUpTo(parts, j) && (j < |parts| ==> !IsFlag(parts[j])) && BodyAt(parts, k)
    ensures j == k
  {
  }

  /** A delegation is read exactly when some part after the flag pairs starts the body; the task is that tail. */
  lemma DelegateIsVerbatim(trimmed: Str16)
    ensures var parts := Parts(trimmed);
            match ParseDelegate(trimmed)
            case None => forall k: nat :: !BodyAt(parts, k)
            case Some(d) => exists k: nat :: BodyAt(parts, k) && DelegateIs(trimmed, d, k)
  {
    hide Scan, IsSpace, RawTail, Blank, Trim;
    FlagWords();
    var parts := Parts(trimmed);
    if |parts| >= 2 {
      ReadFlagsFindsBody(parts, NO_FLAGS);
      var flags := ReadFlags(parts, NO_FLAGS);
      if flags.Some? {
        var k := flags.value.index;
        TailRetokenizes(trimmed, k);
        TrimOfBlank(RawTail(trimmed, k));
        if k < |parts| {
          assert BodyAt(parts, k) && DelegateIs(trimmed, ParseDelegate(trimmed).value, k);
        } else {
          forall j: nat ensures !BodyAt(parts, j) {
            if BodyAt(parts, j) { OneBody(parts, k, j); }
          }
        }
      }
    }
  }

  // A word in ASCII.
  ghost function Word(s: string): Str16
    requires forall i | 0 <= i < |s| :: s[i] as int < 0x80
  {
    seq(|s|, i requires 0 <= i < |s| && s[i] as int < 0x80 => s[i] as int as CodeUnit)
  }

  lemma FlagWords()
    ensures ROLE == Word("--role") && GROUP == Word("--group")
  {
  }

  ghost predicate DelegateIs(trimmed: Str16, d: Delegate, k: nat)
    requires BodyAt(Parts(trimmed), k)
  {
    var parts := Parts(trimmed);
    && d.targetAgent == parts[1]
    && d.role == LastFlag(Word("--role"), parts, k) && d.groupId == LastFlag(Word("--group"), parts, k)
    && IsSuffix(d.task, trimmed) && d.task == RawTail(trimmed, k) && Parts(d.task) == parts[k..]
  }

  method ParseDelegateRequest(trimmed: Str16, parts: seq<Str16>) returns (request: Option<Delegate>)
    requires parts == Parts(trimmed)
    ensures request == ParseDelegate(trimmed)
  {
    hide Scan, Tokenize, RawTail, Trim;
    if |parts| < 2 {
      return None;
    }
    var targetAgent := parts[1];
    var role: Option<Str16>, groupId: Option<Str16> := None, None;
    var index := 2;
    while index < |parts|
      invariant 2 <= index
      invariant ReadFlags(parts, NO_FLAGS) == ReadFlags(parts, Flags(role, groupId, index))
    {
      var part := parts[index];
      if part == ROLE {
        if index + 1 >= |parts| { return None; }
        role := Some(parts[index + 1]);
        index := index + 2;
      } else if part == GROUP {
        if index + 1 >= |parts| { return None; }
        groupId := Some(parts[index + 1]);
        index := index + 2;
      } else {
        break;
      }
    }
    var task := RawTail(trimmed, index);
    if Trim(task) == [] {
      return None;
    }
    return Some(Delegate(targetAgent, role, groupId, task));
  }
}
