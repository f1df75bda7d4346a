/** Fingerprints of prompts by majority vote over the hashes of their tokens. */
module Fingerprinting {
  import opened ByteText
  import opened RealArithmetic

  const BITS: nat := 64

  /** A 64-bit word, least significant bit first. */
  type Word = w: seq<bool> | |w| == BITS witness seq(BITS, i => false)

  const ZERO: Word := seq(BITS, i => false)

  function Sign(b: bool): int {
    if b then 1 else -1
  }

  function Vote(tokens: seq<Bytes>, hash: Bytes -> Word, i: nat): int
    requires i < BITS
  {
    if tokens == [] then 0
    else Vote(tokens[..|tokens| - 1], hash, i) + Sign(hash(tokens[|tokens| - 1])[i])
  }

  /** Bit i is set when more tokens have it set than not. */
  function Fingerprint(tokens: seq<Bytes>, hash: Bytes -> Word): Word {
    seq(BITS, i requires 0 <= i < BITS => Vote(tokens, hash, i) > 0)
  }

  /** The tokens whose hash has bit i set. */
  ghost function Setting(tokens: seq<Bytes>, hash: Bytes -> Word, i: nat): set<nat>
    requires i < 64
  {
    set t: nat | t < |tokens| && hash(tokens[t])[i]
  }

  /** A vote counts the tokens for and against. */
  lemma {:induction false} VoteCounts(tokens: seq<Bytes>, hash: Bytes -> Word, i: nat)
    requires i < 64
    ensures Vote(tokens, hash, i) == 2 * |Setting(tokens, hash, i)| - |tokens|
  {
    if tokens == [] {
      assert Setting(tokens, hash, i) == {};
    } else {
      var n := |tokens| - 1;
      VoteCounts(tokens[..n], hash, i);
      if hash(tokens[n])[i] {
        assert Setting(tokens, hash, i) == Setting(tokens[..n], hash, i) + {n};
      } else {
        assert Setting(tokens, hash, i) == Setting(tokens[..n], hash, i);
      }
    }
  }

  /** A bit of the fingerprint is set exactly if more than half of the tokens have it set. */
  lemma MajorityDecides(tokens: seq<Bytes>, hash: Bytes -> Word, i: nat)
    requires i < 64
    ensures Fingerprint(tokens, hash)[i] <==> 2 * |Setting(tokens, hash, i)| > |tokens|
  {
    VoteCounts(tokens, hash, i);
  }

  /** The nested loops over tokens and bits; the hash of a token is a parameter. */
  method SimHash(text: Bytes, hash: Bytes -> Word) returns (fp: Word)
    ensures fp == Fingerprint(Fields(text), hash)
    ensures forall i | 0 <= i < 64 :: fp[i] <==> 2 * |Setting(Fields(text), hash, i)| > |Fields(text)|
  {
    forall i | 0 <= i < 64
      ensures Fingerprint(Fields(text), hash)[i] <==> 2 * |Setting(Fields(text), hash, i)| > |Fields(text)|
    {
      MajorityDecides(Fields(text), hash, i);
    }
    var tokens := Fields(text);
    if |tokens| == 0 {
      return ZERO;
    }
    var votes := new int[BITS](i => 0);
    for t := 0 to |tokens|
      invariant forall k | 0 <= k < BITS :: votes[k] == Vote(tokens[..t], hash, k)
    {
      var h := hash(tokens[t]);
      assert tokens[..t + 1][..t] == tokens[..t];
      for i := 0 to BITS
        invariant forall k | 0 <= k < i :: votes[k] == Vote(tokens[..t + 1], hash, k)
        invariant forall k | i <= k < BITS :: votes[k] == Vote(tokens[..t], hash, k)
      {
        if h[i] { votes[i] := votes[i] + 1; } else { votes[i] := votes[i] - 1; }
      }
    }
    assert tokens[..|tokens|] == tokens;
    fp := ZERO;
    for i := 0 to BITS
      invariant forall k | 0 <= k < i :: fp[k] == (Vote(tokens, hash, k) > 0)
      invariant forall k | i <= k < BITS :: !fp[k]
    {
      if votes[i] > 0 { fp := fp[i := true]; }
    }
  }

  // ----- order and repetition do not matter -----

  lemma {:induction false} VoteAppend(a: seq<Bytes>, b: seq<Bytes>, hash: Bytes -> Word, i: nat)
    requires i < BITS
    ensures Vote(a + b, hash, i) == Vote(a, hash, i) + Vote(b, hash, i)
  {
    if b == [] {
      assert a + b == a;
    } else {
      var n := |b| - 1;
      VoteAppend(a, b[..n], hash, i);
      assert (a + b)[..|a + b| - 1] == a + b[..n];
    }
  }

  lemma {:induction false} VoteOfPermutation(a: seq<Bytes>, b: seq<Bytes>, hash: Bytes -> Word, i: nat)
    requires i < BITS && multiset(a) == multiset(b)
    ensures Vote(a, hash, i) == Vote(b, hash, i)
    decreases |a|
  {
    if a == [] {
      assert |multiset(b)| == 0;
    } else {
      var n, t := |a| - 1, a[|a| - 1];
      assert a == a[..n] + [t];
      assert multiset(a) == multiset(a[..n]) + multiset{t};
      assert t in multiset(b);
      var j :| 0 <= j < |b| && b[j] == t;
      Without(b, j);
      var rest := b[..j] + b[j + 1..];
      assert multiset(a[..n]) == multiset(a) - multiset{t};
      assert multiset(rest) == multiset(b) - multiset{t};
      VoteOfPermutation(a[..n], rest, hash, i);
      VoteWithout(b, j, hash, i);
    }
  }

  lemma Without(b: seq<Bytes>, j: nat)
    requires j < |b|
    ensures multiset(b) == multiset(b[..j] + b[j + 1..]) + multiset{b[j]}
  {
    assert b == b[..j] + [b[j]] + b[j + 1..];
  }

  lemma VoteWithout(b: seq<Bytes>, j: nat, hash: Bytes -> Word, i: nat)
    requires j < |b| && i < BITS
    ensures Vote(b, hash, i) == Vote(b[..j] + b[j + 1..], hash, i) + Sign(hash(b[j])[i])
  {
    VoteAppend(b[..j + 1], b[j + 1..], hash, i);
    VoteAppend(b[..j], b[j + 1..], hash, i);
    assert b == b[..j + 1] + b[j + 1..] && b[..j + 1][..j] == b[..j];
  }

  /** The fingerprint depends only on the multiset of tokens. */
  lemma OrderDoesNotMatter(a: seq<Bytes>, b: seq<Bytes>, hash: Bytes -> Word)
    requires multiset(a) == multiset(b)
    ensures Fingerprint(a, hash) == Fingerprint(b, hash)
  {
    forall i | 0 <= i < BITS ensures Vote(a, hash, i) == Vote(b, hash, i) {
      VoteOfPermutation(a, b, hash, i);
    }
  }

  /** The text written `k` times with spaces between. */
  function Repeated(text: Bytes, k: nat): Bytes
    requires k >= 1
  {
    if k == 1 then text else Repeated(text, k - 1) + [SPACE] + text
  }

  lemma {:induction false} VoteOfRepeated(text: Bytes, k: nat, hash: Bytes -> Word, i: nat)
    requires i < BITS && k >= 1
    ensures Vote(Fields(Repeated(text, k)), hash, i) == k * Vote(Fields(text), hash, i)
  {
    if k > 1 {
      VoteOfRepeated(text, k - 1, hash, i);
      var before := Repeated(text, k - 1);
      assert Fields(Repeated(text, k)) == Fields(before) + Fields(text) by {
        FieldsJoin(before, SPACE, text);
      }
      VoteAppend(Fields(before), Fields(text), hash, i);
      OneTimeMore(k, Vote(Fields(text), hash, i));
    }
  }

  lemma OneTimeMore(k: nat, v: int)
    ensures (k - 1) * v + v == k * v
  {
  }

  /** Writing a text several times over does not change its fingerprint. */
  lemma RepetitionDoesNotMatter(text: Bytes, k: nat, hash: Bytes -> Word)
    requires k >= 1
    ensures Fingerprint(Fields(Repeated(text, k)), hash) == Fingerprint(Fields(text), hash)
  {
    var many := Fields(Repeated(text, k));
    forall i | 0 <= i < BITS ensures (Vote(many, hash, i) > 0) == (Vote(Fields(text), hash, i) > 0) {
      VoteOfRepeated(text, k, hash, i);
      SignOfMultiple(k, Vote(Fields(text), hash, i));
    }
  }

  lemma SignOfMultiple(k: nat, v: int)
    requires k >= 1
    ensures k * v > 0 <==> v > 0
  {
  }

  // ----- distance -----

  function OnesCount(w: seq<bool>): (n: nat)
    ensures n <= |w|
  {
    if w == [] then 0 else OnesCount(w[..|w| - 1]) + if w[|w| - 1] then 1 else 0
  }

  function Xor(a: Word, b: Word): Word {
    seq(BITS, i requires 0 <= i < BITS => a[i] != b[i])
  }

  function HammingDistance(a: Word, b: Word): nat {
    OnesCount(Xor(a, b))
  }

  /** Ones covered by two words are at most the ones of both. */
  lemma {:induction false} OnesCovered(u: seq<bool>, v: seq<bool>, w: seq<bool>)
    requires |u| == |v| == |w| && forall i | 0 <= i < |u| :: u[i] ==> v[i] || w[i]
    ensures OnesCount(u) <= OnesCount(v) + OnesCount(w)
  {
    if u != [] {
      var n := |u| - 1;
      OnesCovered(u[..n], v[..n], w[..n]);
    }
  }

  lemma {:induction false} NoOnes(w: seq<bool>)
    ensures OnesCount(w) == 0 <==> forall i | 0 <= i < |w| :: !w[i]
  {
    if w != [] {
      var n := |w| - 1;
      NoOnes(w[..n]);
      if OnesCount(w) == 0 {
        forall i | 0 <= i < |w| ensures !w[i] {
          assert i < n ==> w[..n][i] == w[i];
        }
      }
    }
  }

  /** The distance is a metric bounded by the word size. */
  lemma HammingIsMetric(a: Word, b: Word, c: Word)
    ensures HammingDistance(a, b) == 0 <==> a == b
    ensures HammingDistance(a, b) == HammingDistance(b, a) <= BITS
    ensures HammingDistance(a, c) <= HammingDistance(a, b) + HammingDistance(b, c)
  {
    NoOnes(Xor(a, b));
    if forall i | 0 <= i < BITS :: !Xor(a, b)[i] {
      forall i | 0 <= i < BITS ensures a[i] == b[i] {
        assert !Xor(a, b)[i];
      }
    }
    assert Xor(a, b) == Xor(b, a);
    OnesCovered(Xor(a, c), Xor(a, b), Xor(b, c));
  }

  // ----- stability -----

  function Mismatches(a: seq<Bytes>, b: seq<Bytes>): nat
    requires |a| == |b|
  {
    if a == [] then 0
    else Mismatches(a[..|a| - 1], b[..|b| - 1]) + if a[|a| - 1] != b[|b| - 1] then 1 else 0
  }

  lemma {:induction false} VoteMoves(a: seq<Bytes>, b: seq<Bytes>, hash: Bytes -> Word, i: nat)
    requires |a| == |b| && i < BITS
    ensures -2 * Mismatches(a, b) <= Vote(a, hash, i) - Vote(b, hash, i) <= 2 * Mismatches(a, b)
  {
    if a != [] {
      VoteMoves(a[..|a| - 1], b[..|b| - 1], hash, i);
    }
  }

  /** The bits whose vote is within `margin` of changing sides. */
  function Contested(tokens: seq<Bytes>, hash: Bytes -> Word, margin: nat): Word {
    seq(BITS, i requires 0 <= i < BITS => 0 < Vote(tokens, hash, i) + margin <= 2 * margin)
  }

  /** Replacing any m tokens moves the fingerprint by at most the number of bits with -2m < vote <= 2m. */
  lemma Stability(a: seq<Bytes>, b: seq<Bytes>, hash: Bytes -> Word)
    requires |a| == |b|
    ensures HammingDistance(Fingerprint(a, hash), Fingerprint(b, hash))
         <= OnesCount(Contested(a, hash, 2 * Mismatches(a, b)))
  {
    var flipped, contested := Xor(Fingerprint(a, hash), Fingerprint(b, hash)), Contested(a, hash, 2 * Mismatches(a, b));
    forall i | 0 <= i < BITS && flipped[i] ensures contested[i] {
      VoteMoves(a, b, hash, i);
    }
    NoOnes(ZERO);
    OnesCovered(flipped, contested, ZERO);
  }

  lemma {:induction false} OneMismatch(a: seq<Bytes>, k: nat, t: Bytes)
    requires k < |a| && t != a[k]
    ensures Mismatches(a, a[k := t]) == 1
  {
    var n, b := |a| - 1, a[k := t];
    if k == n {
      assert b[..n] == a[..n];
      NoMismatch(a[..n]);
    } else {
      OneMismatch(a[..n], k, t);
      assert b[..n] == a[..n][k := t];
    }
  }

  lemma {:induction false} NoMismatch(a: seq<Bytes>)
    ensures Mismatches(a, a) == 0
  {
    if a != [] {
      NoMismatch(a[..|a| - 1]);
    }
  }

  /** One token replaced: at most the bits with -2 < vote <= 2 can flip. */
  lemma OneTokenStability(a: seq<Bytes>, k: nat, t: Bytes, hash: Bytes -> Word)
    requires k < |a|
    ensures HammingDistance(Fingerprint(a, hash), Fingerprint(a[k := t], hash)) <= OnesCount(Contested(a, hash, 2))
  {
    if t == a[k] {
      assert a[k := t] == a;
      HammingIsMetric(Fingerprint(a, hash), Fingerprint(a, hash), ZERO);
    } else {
      OneMismatch(a, k, t);
      Stability(a, a[k := t], hash);
    }
  }

  // ----- similarity -----

  function NormalizedSimilarity(a: Word, b: Word): real {
    1.0 - HammingDistance(a, b) as real / 64.0
  }

  /** Of the first `m` bits of two words, those that agree and those that differ. */
  lemma {:induction false} AgreeOrDiffer(a: Word, b: Word, m: nat)
    requires m <= 64
    ensures |set i | 0 <= i < m && a[i] == b[i]| + OnesCount(Xor(a, b)[..m]) == m
  {
    var agree := set i | 0 <= i < m && a[i] == b[i];
    if m == 0 {
      assert agree == {};
    } else {
      AgreeOrDiffer(a, b, m - 1);
      assert Xor(a, b)[..m][..m - 1] == Xor(a, b)[..m - 1];
      assert agree == (set i | 0 <= i < m - 1 && a[i] == b[i]) + if a[m - 1] == b[m - 1] then {m - 1} else {};
    }
  }

  /** The similarity is the share of the 64 bits that agree. */
  lemma SimilarityCounts(a: Word, b: Word)
    ensures 64.0 * NormalizedSimilarity(a, b) == |set i | 0 <= i < 64 && a[i] == b[i]| as real
  {
    AgreeOrDiffer(a, b, 64);
    assert Xor(a, b)[..64] == Xor(a, b);
  }

  lemma SimilarityBounds(a: Word, b: Word)
    ensures 0.0 <= NormalizedSimilarity(a, b) <= 1.0
    ensures NormalizedSimilarity(a, b) == 1.0 <==> a == b
  {
    HammingIsMetric(a, b, a);
  }

  function TotalSimilarity(newest: Word, others: seq<Word>): real {
    if others == [] then 0.0
    else TotalSimilarity(newest, others[..|others| - 1]) + NormalizedSimilarity(newest, others[|others| - 1])
  }

  lemma {:induction false} TotalBounds(newest: Word, others: seq<Word>)
    ensures 0.0 <= TotalSimilarity(newest, others) <= |others| as real
    ensures TotalSimilarity(newest, others) == |others| as real <==> forall i | 0 <= i < |others| :: others[i] == newest
  {
    if others != [] {
      var n := |others| - 1;
      TotalBounds(newest, others[..n]);
      SimilarityBounds(newest, others[n]);
      assert forall i | 0 <= i < n :: others[..n][i] == others[i];
    }
  }

  /** The pairs of another fingerprint and a bit in which it agrees with the newest one. */
  ghost function AgreeingPairs(newest: Word, others: seq<Word>): set<(int, int)> {
    set k, i | 0 <= k < |others| && 0 <= i < 64 && others[k][i] == newest[i] :: (k, i)
  }

  lemma {:induction false} TotalCounts(newest: Word, others: seq<Word>)
    ensures 64.0 * TotalSimilarity(newest, others) == |AgreeingPairs(newest, others)| as real
  {
    if others == [] {
      assert AgreeingPairs(newest, others) == {};
    } else {
      var n := |others| - 1;
      TotalCounts(newest, others[..n]);
      SimilarityCounts(newest, others[n]);
      LastPairs(newest, others);
    }
  }

  lemma LastPairs(newest: Word, others: seq<Word>)
    requires others != []
    ensures var n := |others| - 1;
            |AgreeingPairs(newest, others)|
            == |AgreeingPairs(newest, others[..n])| + |set i | 0 <= i < 64 && newest[i] == others[n][i]|
  {
    var n := |others| - 1;
    var last := set i | 0 <= i < 64 && newest[i] == others[n][i] :: (n, i);
    Tagged(n, newest, others[n], 64);
    assert AgreeingPairs(newest, others) == AgreeingPairs(newest, others[..n]) + last;
    assert AgreeingPairs(newest, others[..n]) !! last;
  }

  lemma {:induction false} Tagged(n: int, a: Word, b: Word, m: nat)
    requires m <= 64
    ensures |set i | 0 <= i < m && a[i] == b[i] :: (n, i)| == |set i | 0 <= i < m && a[i] == b[i]|
  {
    var bits, tagged := set i | 0 <= i < m && a[i] == b[i], set i | 0 <= i < m && a[i] == b[i] :: (n, i);
    if m == 0 {
      assert bits == {} && tagged == {};
    } else {
      var k := m - 1;
      var bits', tagged' := set i | 0 <= i < k && a[i] == b[i], set i | 0 <= i < k && a[i] == b[i] :: (n, i);
      Tagged(n, a, b, k);
      if a[k] == b[k] {
        assert bits == bits' + {k};
        assert tagged == tagged' + {(n, k)};
      } else {
        assert bits == bits';
        assert tagged == tagged';
      }
    }
  }

  function MeanSimilarity(newest: Word, others: seq<Word>): real
    requires others != []
  {
    TotalSimilarity(newest, others) / |others| as real
  }

  /** The mean is the share of all the pairs of an earlier fingerprint and a bit that agree with the newest one. */
  lemma MeanCounts(newest: Word, others: seq<Word>)
    requires others != []
    ensures MeanSimilarity(newest, others) == |AgreeingPairs(newest, others)| as real / (64 * |others|) as real
  {
    TotalCounts(newest, others);
    ShareOf(TotalSimilarity(newest, others), |others|);
  }

  lemma ShareOf(total: real, n: nat)
    requires n > 0
    ensures total / n as real == 64.0 * total / (64 * n) as real
  {
  }

  /** The detector's mean similarity lies in [0, 1], and is 1 exactly when all compared fingerprints agree. */
  lemma MeanBounds(newest: Word, others: seq<Word>)
    requires others != []
    ensures 0.0 <= MeanSimilarity(newest, others) <= 1.0
    ensures MeanSimilarity(newest, others) == 1.0 <==> forall i | 0 <= i < |others| :: others[i] == newest
  {
    TotalBounds(newest, others);
    var total, n := TotalSimilarity(newest, others), |others| as real;
    assert (total / n) * n == total;
    UnitFraction(total / n, total, n);
  }
}
