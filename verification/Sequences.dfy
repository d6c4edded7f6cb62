// Sequence vocabulary shared by the modules.
module Sequences {

  predicate IsSuffix<A(==)>(s: seq<A>, whole: seq<A>) {
    |s| <= |whole| && whole[|whole| - |s|..] == s
  }

  lemma SuffixIsTransitive<A>(a: seq<A>, b: seq<A>, c: seq<A>)
    requires IsSuffix(a, b) && IsSuffix(b, c)
    ensures IsSuffix(a, c)
  {
    assert c[|c| - |b|..][|b| - |a|..] == c[|c| - |a|..];
  }

  lemma TailIsSuffix<A>(a: seq<A>, b: seq<A>)
    ensures IsSuffix(b, a + b)
  {
  }

  lemma SuffixGrows<A>(a: seq<A>, b: seq<A>, x: A)
    requires IsSuffix(a, b)
    ensures IsSuffix(a + [x], b + [x])
  {
    assert (b + [x])[|b| - |a|..] == b[|b| - |a|..] + [x];
  }
}
