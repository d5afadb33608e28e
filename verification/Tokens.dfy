/** Token identifiers and the two notions of position every other module shares:
    word suffixes, and half-open token ranges. */
module Tokens {
  /** train.bin stores every token in an unsigned 16-bit integer. */
  type Token = t: int | 0 <= t < 0x1_0000

  /** A half-open token range [start, end). */
  datatype Range = Range(start: int, end: int)

  ghost predicate IsSuffix(w: seq<Token>, x: seq<Token>) {
    |w| <= |x| && x[|x| - |w|..] == w
  }

  lemma SuffixOfSuffix(a: seq<Token>, b: seq<Token>, x: seq<Token>)
    requires IsSuffix(a, x) && IsSuffix(b, x) && |a| <= |b|
    ensures IsSuffix(a, b)
  {
    assert b[|b| - |a|..] == x[|x| - |a|..];
  }

  lemma SuffixTrans(a: seq<Token>, b: seq<Token>, x: seq<Token>)
    requires IsSuffix(a, b) && IsSuffix(b, x)
    ensures IsSuffix(a, x)
  {
    assert x[|x| - |a|..] == b[|b| - |a|..];
  }

  lemma SuffixSnoc(a: seq<Token>, x: seq<Token>, t: Token)
    ensures IsSuffix(a, x) <==> IsSuffix(a + [t], x + [t])
  {
    if |a| <= |x| {
      assert (x + [t])[|x| - |a|..] == x[|x| - |a|..] + [t];
      if x[|x| - |a|..] + [t] == a + [t] {
        assert (x[|x| - |a|..] + [t])[..|a|] == (a + [t])[..|a|];
        assert x[|x| - |a|..] == a;
      }
    }
  }

  lemma SuffixUnsnoc(w: seq<Token>, x: seq<Token>, t: Token)
    requires IsSuffix(w, x + [t]) && w != []
    ensures w == w[..|w| - 1] + [t] && IsSuffix(w[..|w| - 1], x)
  {
    assert w[|w| - 1] == (x + [t])[|x|] == t;
    assert w == w[..|w| - 1] + [t];
    SuffixSnoc(w[..|w| - 1], x, t);
  }
}
