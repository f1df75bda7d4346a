/** The white-space tables against the runes they encode. */
module WhiteSpace {
  import opened ByteText

  /** The runes of the basic plane that count as white space. */
  predicate IsSpaceRune(r: nat) {
    || 9 <= r <= 13 || r == 32 || r == 0x85 || r == 0xA0 || r == 0x1680 || 0x2000 <= r <= 0x200A
    || r == 0x2028 || r == 0x2029 || r == 0x202F || r == 0x205F || r == 0x3000
  }

  /** The encoding of a rune of the basic plane in one, two or three bytes, section 3 of RFC 3629. */
  function Utf8(r: nat): Bytes
    requires r < 0x10000
  {
    if r < 0x80 then [r as byte]
    else if r < 0x800 then [(0xC0 + r / 64) as byte, (0x80 + r % 64) as byte]
    else [(0xE0 + r / 4096) as byte, (0x80 + r / 64 % 64) as byte, (0x80 + r % 64) as byte]
  }

  /** At the start of a text exactly the white-space runes are recognised, at their full length. */
  lemma RecognisedAtStart(r: nat, rest: Bytes)
    requires r < 0x10000
    ensures SpaceAtStart(Utf8(r) + rest) == if IsSpaceRune(r) then |Utf8(r)| else 0
  {
    var s := Utf8(r) + rest;
    assert forall i | 0 <= i < |Utf8(r)| :: s[i] == Utf8(r)[i];
    if r >= 0x800 {
      ThreeBytes(r);
    }
  }

  /** And so they are at the end. */
  lemma RecognisedAtEnd(front: Bytes, r: nat)
    requires r < 0x10000
    ensures SpaceAtEnd(front + Utf8(r)) == if IsSpaceRune(r) then |Utf8(r)| else 0
  {
    var s, k := front + Utf8(r), |front + Utf8(r)|;
    assert forall i | 0 <= i < |Utf8(r)| :: s[|front| + i] == Utf8(r)[i];
    if r >= 0x800 {
      ThreeBytes(r);
    }
  }

  lemma ThreeBytes(r: nat)
    requires 0x800 <= r < 0x10000
    ensures r == r / 4096 * 4096 + r / 64 % 64 * 64 + r % 64
  {
    assert r == r / 64 * 64 + r % 64;
    assert r / 64 == r / 64 / 64 * 64 + r / 64 % 64;
    assert r / 64 / 64 == r / 4096;
  }
}
