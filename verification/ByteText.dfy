/** Byte strings as Go treats them: lines, UTF-8 white space, fields and decimal numerals. */
module ByteText {
  newtype byte = x: int | 0 <= x < 256

  type Bytes = seq<byte>

  const NEWLINE: byte := 10
  const SPACE: byte := 32

  // ----- white space: the UTF-8 encodings of the runes for which unicode.IsSpace holds -----

  predicate IsSpace1(a: byte) {
    9 <= a <= 13 || a == 32
  }

  predicate IsSpace2(a: byte, b: byte) {
    a == 0xC2 && (b == 0x85 || b == 0xA0)
  }

  predicate IsSpace3(a: byte, b: byte, c: byte) {
    || (a == 0xE1 && b == 0x9A && c == 0x80)
    || (a == 0xE2 && b == 0x80 && (0x80 <= c <= 0x8A || c == 0xA8 || c == 0xA9 || c == 0xAF))
    || (a == 0xE2 && b == 0x81 && c == 0x9F)
    || (a == 0xE3 && b == 0x80 && c == 0x80)
  }

  /** The length of the white-space rune at the start of `s`, or 0. */
  function SpaceAtStart(s: Bytes): (n: nat)
    ensures n <= |s|
  {
    if |s| >= 1 && IsSpace1(s[0]) then 1
    else if |s| >= 2 && IsSpace2(s[0], s[1]) then 2
    else if |s| >= 3 && IsSpace3(s[0], s[1], s[2]) then 3
    else 0
  }

  function SpaceAtEnd(s: Bytes): (n: nat)
    ensures n <= |s|
  {
    var k := |s|;
    if k >= 1 && IsSpace1(s[k - 1]) then 1
    else if k >= 2 && IsSpace2(s[k - 2], s[k - 1]) then 2
    else if k >= 3 && IsSpace3(s[k - 3], s[k - 2], s[k - 1]) then 3
    else 0
  }

  function TrimLeft(s: Bytes): Bytes {
    var n := SpaceAtStart(s);
    if n == 0 then s else TrimLeft(s[n..])
  }

  function TrimRight(s: Bytes): Bytes {
    var n := SpaceAtEnd(s);
    if n == 0 then s else TrimRight(s[..|s| - n])
  }

  function TrimSpace(s: Bytes): Bytes {
    TrimRight(TrimLeft(s))
  }

  // ----- putting together -----

  function Concat(parts: seq<Bytes>): Bytes {
    if parts == [] then [] else Concat(parts[..|parts| - 1]) + parts[|parts| - 1]
  }

  /** Parts are put together in order, each once. */
  lemma {:induction false} ConcatAppends(a: seq<Bytes>, b: seq<Bytes>, x: Bytes)
    ensures Concat(a + b) == Concat(a) + Concat(b) && Concat([x]) == x
  {
    assert [x][..0] == [];
    if b == [] {
      assert a + b == a;
    } else {
      var n := |b| - 1;
      ConcatAppends(a, b[..n], x);
      assert (a + b)[..|a + b| - 1] == a + b[..n];
    }
  }

  // ----- searching -----

  predicate OccursAt(s: Bytes, pattern: Bytes, i: int) {
    0 <= i <= |s| - |pattern| && s[i..i + |pattern|] == pattern
  }

  predicate Contains(s: Bytes, pattern: Bytes) {
    exists i | 0 <= i <= |s| - |pattern| :: OccursAt(s, pattern, i)
  }

  lemma ContainsWider(before: Bytes, s: Bytes, after: Bytes, pattern: Bytes)
    requires Contains(s, pattern)
    ensures Contains(before + s + after, pattern)
  {
    var i :| 0 <= i <= |s| - |pattern| && OccursAt(s, pattern, i);
    var whole, k := before + s + after, |before| + i;
    assert whole[k..k + |pattern|] == s[i..i + |pattern|];
    assert OccursAt(whole, pattern, k);
  }

  lemma {:induction false} TrimLeftKeeps(s: Bytes, pattern: Bytes)
    requires Contains(TrimLeft(s), pattern)
    ensures Contains(s, pattern)
  {
    var n := SpaceAtStart(s);
    if n != 0 {
      TrimLeftKeeps(s[n..], pattern);
      ContainsWider(s[..n], s[n..], [], pattern);
      assert s[..n] + s[n..] + [] == s;
    }
  }

  lemma {:induction false} TrimRightKeeps(s: Bytes, pattern: Bytes)
    requires Contains(TrimRight(s), pattern)
    ensures Contains(s, pattern)
  {
    var n := SpaceAtEnd(s);
    if n != 0 {
      TrimRightKeeps(s[..|s| - n], pattern);
      ContainsWider([], s[..|s| - n], s[|s| - n..], pattern);
      assert [] + s[..|s| - n] + s[|s| - n..] == s;
    }
  }

  /** Trimming takes nothing out of the middle. */
  lemma TrimKeeps(s: Bytes, pattern: Bytes)
    requires Contains(TrimSpace(s), pattern)
    ensures Contains(s, pattern)
  {
    TrimRightKeeps(TrimLeft(s), pattern);
    TrimLeftKeeps(s, pattern);
  }

  // ----- lines -----

  /** Puts one more byte before a list of lines. */
  function Prepend(c: byte, lines: seq<Bytes>): seq<Bytes>
    requires |lines| >= 1
  {
    if c == NEWLINE then [[]] + lines else [[c] + lines[0]] + lines[1..]
  }

  /** The pieces of `s` between newlines; there is always at least one. */
  function Split(s: Bytes): (lines: seq<Bytes>)
    ensures |lines| >= 1
  {
    if s == [] then [[]] else Prepend(s[0], Split(s[1..]))
  }

  /** The newline-terminated lines. */
  function CompleteLines(s: Bytes): seq<Bytes> {
    var lines := Split(s);
    lines[..|lines| - 1]
  }

  /** What follows the last newline. */
  function Rest(s: Bytes): Bytes {
    var lines := Split(s);
    lines[|lines| - 1]
  }

  lemma {:induction false} SplitAppend(a: Bytes, b: Bytes)
    ensures Split(a + b) == CompleteLines(a) + Split(Rest(a) + b)
  {
    if a == [] {
      assert a + b == b && Rest(a) + b == b;
    } else {
      var c, t := a[0], a[1..];
      assert a == [c] + t && a + b == [c] + (t + b);
      assert Split([c] + (t + b)) == CompleteLines([c] + t) + Split(Rest([c] + t) + b) by {
        SplitAppend(t, b);
        AppendStep(c, t, b);
      }
    }
  }

  lemma AppendStep(c: byte, t: Bytes, b: Bytes)
    requires Split(t + b) == CompleteLines(t) + Split(Rest(t) + b)
    ensures Split([c] + (t + b)) == CompleteLines([c] + t) + Split(Rest([c] + t) + b)
  {
    var lines, rest := CompleteLines(t), Rest(t);
    SplitCons(c, t);
    SplitCons(c, t + b);
    PartsOfSplit(t);
    PartsOfSplit([c] + t);
    PrependAppend(c, lines, rest, b);
    LastIs(Prepend(c, lines + [rest]), CompleteLines([c] + t), Rest([c] + t));
  }

  lemma PartsOfSplit(s: Bytes)
    ensures Split(s) == CompleteLines(s) + [Rest(s)]
  {
  }

  lemma LastIs<T>(all: seq<T>, front: seq<T>, last: T)
    requires all == front + [last]
    ensures |all| >= 1 && all[..|all| - 1] == front && all[|all| - 1] == last
  {
  }

  lemma SplitCons(c: byte, t: Bytes)
    ensures Split([c] + t) == Prepend(c, Split(t))
  {
    assert ([c] + t)[1..] == t;
  }

  lemma PrependAppend(c: byte, lines: seq<Bytes>, rest: Bytes, b: Bytes)
    ensures var all := Prepend(c, lines + [rest]);
            Prepend(c, lines + Split(rest + b)) == all[..|all| - 1] + Split(all[|all| - 1] + b)
  {
    if c == NEWLINE || lines != [] {
      PrependKeepsTail(c, lines, rest, Split(rest + b));
    } else {
      assert lines + [rest] == [rest] && lines + Split(rest + b) == Split(rest + b);
      assert [c] + rest + b == [c] + (rest + b);
      SplitCons(c, rest + b);
    }
  }

  lemma PrependSum(c: byte, lines: seq<Bytes>, more: seq<Bytes>)
    requires (c == NEWLINE || lines != []) && |more| >= 1
    ensures Prepend(c, lines + more)
         == (if c == NEWLINE then [[]] + lines else [[c] + lines[0]] + lines[1..]) + more
  {
  }

  lemma PrependKeepsTail(c: byte, lines: seq<Bytes>, rest: Bytes, more: seq<Bytes>)
    requires (c == NEWLINE || lines != []) && |more| >= 1
    ensures var all := Prepend(c, lines + [rest]);
            all[|all| - 1] == rest && Prepend(c, lines + more) == all[..|all| - 1] + more
  {
    var head := if c == NEWLINE then [[]] + lines else [[c] + lines[0]] + lines[1..];
    PrependSum(c, lines, [rest]);
    PrependSum(c, lines, more);
    LastIs(Prepend(c, lines + [rest]), head, rest);
  }

  lemma {:induction false} RestHasNoLine(s: Bytes)
    ensures CompleteLines(Rest(s)) == []
  {
    if s != [] {
      RestHasNoLine(s[1..]);
      if s[0] != NEWLINE && |Split(s[1..])| == 1 {
        assert Rest(s)[1..] == Rest(s[1..]);
        assert |Split(Rest(s[1..]))| == 1;
      }
    }
  }

  /** Every piece is a piece of the whole. */
  lemma {:induction false} SplitPiecesAreWithin(s: Bytes, i: nat, pattern: Bytes)
    requires i < |Split(s)| && Contains(Split(s)[i], pattern)
    ensures Contains(s, pattern)
  {
    if s == [] {
    } else if i > 0 {
      var k := if s[0] == NEWLINE then i - 1 else i;
      assert Split(s)[i] == Split(s[1..])[k];
      SplitPiecesAreWithin(s[1..], k, pattern);
      ContainsWider([s[0]], s[1..], [], pattern);
      assert [s[0]] + s[1..] + [] == s;
    } else {
      FirstPieceIsPrefix(s);
      var first := Split(s)[0];
      ContainsWider([], first, s[|first|..], pattern);
      assert [] + first + s[|first|..] == s;
    }
  }

  lemma {:induction false} FirstPieceIsPrefix(s: Bytes)
    ensures |Split(s)[0]| <= |s| && s[..|Split(s)[0]|] == Split(s)[0]
  {
    if s != [] && s[0] != NEWLINE {
      FirstPieceIsPrefix(s[1..]);
    }
  }

  // ----- fields -----

  /** The length of the run of bytes before the next white-space rune. */
  function FieldLength(s: Bytes): (n: nat)
    ensures n <= |s|
  {
    if s == [] || SpaceAtStart(s) > 0 then 0 else 1 + FieldLength(s[1..])
  }

  function Fields(s: Bytes): seq<Bytes>
    decreases |s|
  {
    if s == [] then []
    else if SpaceAtStart(s) > 0 then Fields(s[SpaceAtStart(s)..])
    else [s[..FieldLength(s)]] + Fields(s[FieldLength(s)..])
  }

  lemma SpaceEndsAField(a: Bytes, c: byte, b: Bytes)
    requires a != [] && IsSpace1(c)
    ensures SpaceAtStart(a + [c] + b) == SpaceAtStart(a)
  {
    var s := a + [c] + b;
    assert s[0] == a[0] && (|a| >= 2 ==> s[1] == a[1]) && (|a| >= 3 ==> s[2] == a[2]) && s[|a|] == c;
  }

  lemma {:induction false} FieldLengthBeforeSpace(a: Bytes, c: byte, b: Bytes)
    requires IsSpace1(c)
    ensures FieldLength(a + [c] + b) == FieldLength(a)
  {
    var s := a + [c] + b;
    if a == [] {
      assert s[0] == c;
    } else {
      SpaceEndsAField(a, c, b);
      assert s[1..] == a[1..] + [c] + b;
      FieldLengthBeforeSpace(a[1..], c, b);
    }
  }

  /** An ASCII space between two texts keeps their fields apart. */
  lemma {:induction false} FieldsJoin(a: Bytes, c: byte, b: Bytes)
    requires IsSpace1(c)
    ensures Fields(a + [c] + b) == Fields(a) + Fields(b)
    decreases |a|
  {
    if a == [] {
      assert (a + [c] + b)[1..] == b;
    } else {
      var n := if SpaceAtStart(a) > 0 then SpaceAtStart(a) else FieldLength(a);
      FieldsJoin(a[n..], c, b);
      FirstFieldJoin(a, c, b);
    }
  }

  lemma FirstFieldJoin(a: Bytes, c: byte, b: Bytes)
    requires a != [] && IsSpace1(c)
    ensures var n := if SpaceAtStart(a) > 0 then SpaceAtStart(a) else FieldLength(a);
            Fields(a + [c] + b) == (if SpaceAtStart(a) > 0 then [] else [a[..n]]) + Fields(a[n..] + [c] + b)
  {
    var s := a + [c] + b;
    assert SpaceAtStart(s) == SpaceAtStart(a) by {
      SpaceEndsAField(a, c, b);
    }
    if SpaceAtStart(a) > 0 {
      SliceJoin(a, c, b, SpaceAtStart(a));
    } else {
      FieldLengthBeforeSpace(a, c, b);
      SliceJoin(a, c, b, FieldLength(a));
    }
  }

  lemma SliceJoin(a: Bytes, c: byte, b: Bytes, n: nat)
    requires n <= |a|
    ensures (a + [c] + b)[n..] == a[n..] + [c] + b && (a + [c] + b)[..n] == a[..n]
  {
  }

  /** A printable ASCII word. */
  ghost predicate IsWord(s: Bytes) {
    s != [] && forall i | 0 <= i < |s| :: 33 <= s[i] < 127
  }

  lemma {:induction false} WordLength(s: Bytes)
    requires forall i | 0 <= i < |s| :: 33 <= s[i] < 127
    ensures FieldLength(s) == |s|
  {
    if s != [] {
      WordLength(s[1..]);
    }
  }

  lemma WordIsField(s: Bytes)
    requires IsWord(s)
    ensures Fields(s) == [s]
  {
    WordLength(s);
    assert SpaceAtStart(s) == 0 && s[..|s|] == s && s[|s|..] == [];
  }

  function Join(words: seq<Bytes>): Bytes {
    if words == [] then [] else if |words| == 1 then words[0] else words[0] + [SPACE] + Join(words[1..])
  }

  /** Splitting into fields undoes joining with spaces. */
  lemma {:induction false} FieldsOfJoin(words: seq<Bytes>)
    requires forall i | 0 <= i < |words| :: IsWord(words[i])
    ensures Fields(Join(words)) == words
  {
    if |words| == 1 {
      WordIsField(words[0]);
    } else if words != [] {
      FieldsOfJoin(words[1..]);
      WordBeforeFields(words[0], Join(words[1..]));
      assert words == [words[0]] + words[1..];
    }
  }

  lemma WordBeforeFields(word: Bytes, rest: Bytes)
    requires IsWord(word)
    ensures Fields(word + [SPACE] + rest) == [word] + Fields(rest)
  {
    WordIsField(word);
    FieldsJoin(word, SPACE, rest);
  }

  /** The bytes of an ASCII literal. */
  function Ascii(s: string): (r: Bytes)
    requires forall i | 0 <= i < |s| :: s[i] < 128 as char
    ensures |r| == |s|
  {
    seq(|s|, i requires 0 <= i < |s| => s[i] as int as byte)
  }

  /** Each byte is the code of its character. */
  lemma AsciiCodes(s: string, i: nat)
    requires i < |s| && forall k | 0 <= k < |s| :: s[k] < 128 as char
    ensures Ascii(s)[i] as int == s[i] as int
  {
  }
}
