/** The end of a sequence. */
module Sequences {
  /** The last `n` elements, or all of them. */
  function Last<T>(s: seq<T>, n: nat): (r: seq<T>)
    ensures |r| == if |s| <= n then |s| else n
  {
    if |s| <= n then s else s[|s| - n..]
  }

  /** They are in the order they had. */
  lemma LastAt<T>(s: seq<T>, n: nat, i: nat)
    requires i < |Last(s, n)|
    ensures Last(s, n)[i] == s[|s| - |Last(s, n)| + i]
  {
  }

  /** Keeping the last `m` early does not change what is kept in the end. */
  lemma LastOfLast<T>(s: seq<T>, x: T, m: nat)
    ensures Last(Last(s, m) + [x], m) == Last(s + [x], m)
  {
    if |s| > m {
      var k := |s| - m;
      assert s[k..] + [x] == (s + [x])[k..];
      assert (s + [x])[k..][1..] == (s + [x])[k + 1..];
    }
  }

  lemma LastThenAppend<T>(s: seq<T>, x: T, m: nat)
    requires m >= 1
    ensures Last(Last(s, m), m - 1) + [x] == Last(s + [x], m)
  {
  }
}
