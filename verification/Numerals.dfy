/** Decimal numerals: printing and parsing. */
module Numerals {
  import opened ByteText
  import opened Options

  const DIGIT_ZERO: byte := 48
  const MINUS: byte := 45
  const UINT64: nat := 0x1_0000_0000_0000_0000
  const MIN_INT64: int := -0x8000_0000_0000_0000

  function Digit(d: nat): byte
    requires d < 10
  {
    DIGIT_ZERO + d as byte
  }

  predicate IsDigit(c: byte) {
    48 <= c <= 57
  }

  predicate AllDigits(s: Bytes) {
    forall i | 0 <= i < |s| :: IsDigit(s[i])
  }

  function Digits(n: nat): (s: Bytes)
    ensures s != [] && AllDigits(s)
  {
    if n < 10 then [Digit(n)] else Digits(n / 10) + [Digit(n % 10)]
  }

  function Value(s: Bytes): nat
    requires AllDigits(s)
  {
    if s == [] then 0 else 10 * Value(s[..|s| - 1]) + (s[|s| - 1] - 48) as int
  }

  lemma {:induction false} ValueOfDigits(n: nat)
    ensures Value(Digits(n)) == n
  {
    if n >= 10 {
      ValueOfDigits(n / 10);
      assert Digits(n)[..|Digits(n)| - 1] == Digits(n / 10);
    } else {
      assert Value([]) == 0;
    }
  }

  /** A numeral is read by position, to the base ten. */
  lemma ValueByPosition(s: Bytes, d: nat)
    requires AllDigits(s) && d < 10
    ensures Value([]) == 0 && Value(s + [48 + d as byte]) == 10 * Value(s) + d
  {
    var more := s + [48 + d as byte];
    assert more[..|more| - 1] == s;
  }

  /** And it is printed without leading zeros. */
  lemma {:induction false} NoLeadingZero(n: nat)
    ensures Digits(n)[0] == 48 <==> n == 0
    ensures n == 0 ==> |Digits(n)| == 1
  {
    if n >= 10 {
      NoLeadingZero(n / 10);
    }
  }

  /** Unsigned 64-bit numbers: anything but digits, nothing at all, or too large a value is an error. */
  function ParseUint(s: Bytes): Option<nat> {
    if s == [] || !AllDigits(s) || Value(s) >= UINT64 then None else Some(Value(s))
  }

  lemma ParsePrinted(n: nat)
    ensures ParseUint(Digits(n)) == if n < 18_446_744_073_709_551_616 then Some(n) else None
  {
    ValueOfDigits(n);
  }

  function Reversed(s: Bytes): (r: Bytes)
    ensures |r| == |s|
  {
    seq(|s|, i requires 0 <= i < |s| => s[|s| - 1 - i])
  }

  /** Negation of a 64-bit integer wraps around at the least one. */
  function Negated(n: int): int {
    if n == MIN_INT64 then n else -n
  }

  /** What the loop prints, for any 64-bit integer. */
  function Printed(n: int): Bytes {
    if n == MIN_INT64 then [MINUS] else if n < 0 then [MINUS] + Digits(-n) else Digits(n)
  }

  /** A signed decimal numeral. */
  function ParseInt(s: Bytes): Option<int> {
    if s != [] && s[0] == MINUS then
      if |s| > 1 && AllDigits(s[1..]) then Some(0 - Value(s[1..]) as int) else None
    else if s != [] && AllDigits(s) then Some(Value(s))
    else None
  }

  /** The printed numeral reads back as the number, except for the least 64-bit integer, which is a lone minus sign. */
  lemma PrintedReadsBack(n: int)
    requires -9_223_372_036_854_775_808 <= n < 9_223_372_036_854_775_808
    ensures ParseInt(Printed(n)) == Some(n) <==> n != -9_223_372_036_854_775_808
    ensures n == -9_223_372_036_854_775_808 ==> Printed(n) == [45]
  {
    if MIN_INT64 < n < 0 {
      NegativeReadsBack(n);
    } else if n >= 0 {
      ValueOfDigits(n);
    }
  }

  lemma NegativeReadsBack(n: int)
    requires MIN_INT64 < n < 0
    ensures ParseInt(Printed(n)) == Some(n)
  {
    ValueOfDigits(-n);
    assert ([MINUS] + Digits(-n))[1..] == Digits(-n);
  }

  /** `itoa`: digits from the right, the sign, then a reversal in place. */
  method Itoa(n: int) returns (s: Bytes)
    requires MIN_INT64 <= n < -MIN_INT64
    ensures s == Printed(n)
  {
    if n == 0 {
      return [DIGIT_ZERO];
    }
    var neg := n < 0;
    var m := if neg then Negated(n) else n;
    var buf := DigitsBackwards(m);
    if neg {
      assert Reversed(buf + [MINUS]) == [MINUS] + Reversed(buf);
      buf := buf + [MINUS];
    }
    s := ReverseInPlace(buf);
  }

  method DigitsBackwards(n: int) returns (buf: Bytes)
    ensures Reversed(buf) == if n > 0 then Digits(n) else []
  {
    buf := [];
    var m := n;
    while m > 0
      invariant n > 0 ==> m >= 0 && Digits(n) == (if m == 0 then [] else Digits(m)) + Reversed(buf)
      invariant n <= 0 ==> m == n && buf == []
    {
      BackwardsStep(m, buf);
      buf := buf + [Digit(m % 10)];
      m := m / 10;
    }
  }

  lemma BackwardsStep(m: nat, buf: Bytes)
    requires m > 0
    ensures Digits(m) + Reversed(buf)
         == (if m / 10 == 0 then [] else Digits(m / 10)) + Reversed(buf + [Digit(m % 10)])
  {
    assert Reversed(buf + [Digit(m % 10)]) == [Digit(m % 10)] + Reversed(buf);
    if m < 10 {
      assert Digits(m) == [Digit(m % 10)];
    } else {
      assert Digits(m) == Digits(m / 10) + [Digit(m % 10)];
    }
  }

  method ReverseInPlace(s: Bytes) returns (buf: Bytes)
    ensures buf == Reversed(s)
  {
    buf := s;
    var i, j := 0, |buf| - 1;
    while i < j
      invariant 0 <= i <= |buf| == |s| && j == |buf| - 1 - i && i <= j + 2
      invariant forall k | 0 <= k < i || j < k < |buf| :: buf[k] == s[|buf| - 1 - k]
      invariant forall k | i <= k <= j :: buf[k] == s[k]
    {
      buf := buf[i := buf[j]][j := buf[i]];
      i, j := i + 1, j - 1;
    }
  }
}
