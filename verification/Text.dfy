/** JavaScript strings as sequences of UTF-16 code units, with the white space trim() and \s agree on. */
module Text {
  type CodeUnit = n: int | 0 <= n < 0x1_0000

  type Str16 = seq<CodeUnit>

  const LF: CodeUnit := 0x0A
  const CR: CodeUnit := 0x0D
  const SPACE: CodeUnit := 0x20

  // A stream's chunks, put together.
  function Concat(chunks: seq<Str16>): Str16 {
    if chunks == [] then [] else chunks[0] + Concat(chunks[1..])
  }

  predicate IsSpace(c: CodeUnit) {
    || 0x09 <= c <= 0x0D || c == 0x20 || c == 0xA0 || c == 0x1680 || 0x2000 <= c <= 0x200A
    || c == 0x2028 || c == 0x2029 || c == 0x202F || c == 0x205F || c == 0x3000 || c == 0xFEFF
  }

  predicate Blank(s: Str16) {
    forall c | c in s :: IsSpace(c)
  }

  function TrimStart(s: Str16): Str16 {
    if s != [] && IsSpace(s[0]) then TrimStart(s[1..]) else s
  }

  function TrimEnd(s: Str16): Str16 {
    if s != [] && IsSpace(s[|s| - 1]) then TrimEnd(s[..|s| - 1]) else s
  }

  function Trim(s: Str16): Str16 {
    TrimEnd(TrimStart(s))
  }

  lemma {:induction false} TrimStartCuts(s: Str16)
    ensures var r := TrimStart(s);
            (Blank(s) <==> r == []) && |r| <= |s| && r == s[|s| - |r|..] && (r != [] ==> !IsSpace(r[0]))
  {
    hide IsSpace;
    if s != [] && IsSpace(s[0]) {
      TrimStartCuts(s[1..]);
      assert s == [s[0]] + s[1..];
    } else if s != [] {
      assert s[0] in s;
    }
  }

  lemma {:induction false} TrimEndCuts(s: Str16)
    ensures var r := TrimEnd(s);
            (Blank(s) <==> r == []) && |r| <= |s| && r == s[..|r|] && (r != [] ==> !IsSpace(r[|r| - 1]))
  {
    hide IsSpace;
    if s != [] && IsSpace(s[|s| - 1]) {
      TrimEndCuts(s[..|s| - 1]);
      assert s == s[..|s| - 1] + [s[|s| - 1]];
    } else if s != [] {
      assert s[|s| - 1] in s;
    }
  }

  lemma TrimOfBlank(s: Str16)
    ensures Blank(s) <==> Trim(s) == []
  {
    hide IsSpace;
    var t := TrimStart(s);
    TrimStartCuts(s);
    TrimEndCuts(t);
    assert t != [] ==> t[0] in t;
  }

  // line.replace(/\r$/, "")
  function StripCR(line: Str16): Str16 {
    if line != [] && line[|line| - 1] == CR then line[..|line| - 1] else line
  }

  // The offset of the first line feed, or the length.
  function FirstLF(s: Str16): (i: nat)
    ensures i <= |s| && (i < |s| ==> s[i] == LF)
    ensures LF !in s[..i]
  {
    if s == [] || s[0] == LF then 0
    else
      assert s == [s[0]] + s[1..];
      var i := 1 + FirstLF(s[1..]);
      assert s[..i] == [s[0]] + s[1..][..i - 1];
      i
  }

  lemma FirstLFIs(s: Str16, i: nat)
    requires i <= |s| && (i < |s| ==> s[i] == LF) && LF !in s[..i]
    ensures FirstLF(s) == i
  {
    var j := FirstLF(s);
    assert forall k | 0 <= k < i :: s[k] == s[..i][k];
    assert forall k | 0 <= k < j :: s[k] == s[..j][k];
  }
}
