/** Sign facts about products of reals, in the form the other modules call for. */
module RealArithmetic {
  lemma Product(p: real, q: real) returns (pq: real)
    requires p > 0.0 && q > 0.0
    ensures pq == p * q && pq > 0.0
  {
    pq := p * q;
  }

  lemma SquareOf(r: real) returns (q: real)
    ensures q == r * r && q >= 0.0
    ensures r != 0.0 ==> q > 0.0
  {
    if r > 0.0 {
      q := Product(r, r);
    } else if r < 0.0 {
      q := Product(-r, -r);
    } else {
      q := 0.0;
    }
  }

  /** A fraction of a positive whole. */
  lemma UnitFraction(r: real, p: real, q: real)
    requires r * q == p && 0.0 <= p <= q && q > 0.0
    ensures 0.0 <= r <= 1.0
    ensures r == 1.0 <==> p == q
  {
    if r > 1.0 {
      var _ := Product(r - 1.0, q);
    } else if r < 0.0 {
      var _ := Product(-r, q);
    } else if r < 1.0 {
      var _ := Product(1.0 - r, q);
    } else {
      assert r == 1.0;
    }
  }
}
