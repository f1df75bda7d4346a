/** Ordinary least squares, over the reals. */
module Regression {
  import opened RealArithmetic

  /** Below this the spread of the abscissae counts as none. */
  const EPSILON: real := 0.000000000000001

  function Sum(x: seq<real>): real {
    if x == [] then 0.0 else Sum(x[..|x| - 1]) + x[|x| - 1]
  }

  function Dot(x: seq<real>, y: seq<real>): real
    requires |x| <= |y|
  {
    if x == [] then 0.0 else Dot(x[..|x| - 1], y[..|x| - 1]) + x[|x| - 1] * y[|x| - 1]
  }

  /** The sum of squared residuals of the line `a * x + b`. */
  function Residuals(x: seq<real>, y: seq<real>, a: real, b: real): real
    requires |x| <= |y|
  {
    if x == [] then 0.0
    else Residuals(x[..|x| - 1], y[..|x| - 1], a, b) + SquaredMiss(x[|x| - 1], y[|x| - 1], a, b)
  }

  function SquaredMiss(u: real, v: real, a: real, b: real): real {
    var r := v - (a * u + b);
    r * r
  }

  datatype Sums = Sums(n: real, x: real, y: real, xy: real, xx: real, yy: real) {
    /** `n * sumX2 - sumX * sumX`: n times the spread of x about its mean. */
    function SpreadX(): real { n * xx - x * x }
    function SpreadY(): real { n * yy - y * y }
    function Joint(): real { n * xy - x * y }
  }

  function SumsOf(x: seq<real>, y: seq<real>): Sums
    requires |x| <= |y|
  {
    var y' := y[..|x|];
    Sums(|x| as real, Sum(x), Sum(y'), Dot(x, y'), Dot(x, x), Dot(y', y'))
  }

  function Abs(r: real): real {
    if r < 0.0 then -r else r
  }

  datatype Fit = Fit(slope: real, intercept: real, rSquared: real)

  const NO_FIT: Fit := Fit(0.0, 0.0, 0.0)

  predicate Degenerate(s: Sums) {
    Abs(s.SpreadX()) < EPSILON
  }

  predicate Fitted(x: seq<real>, y: seq<real>) {
    |x| >= 2 && |y| >= |x| && !Degenerate(SumsOf(x, y))
  }

  function FitOf(s: Sums): Fit
    requires s.n > 0.0 && s.SpreadX() != 0.0
  {
    Line(s.n, s.x, s.y, s.SpreadX(), s.SpreadY(), s.Joint())
  }

  function Line(n: real, x: real, y: real, spreadX: real, spreadY: real, joint: real): Fit
    requires n > 0.0 && spreadX != 0.0
  {
    var slope := joint / spreadX;
    Fit(slope, (y - slope * x) / n, Determination(spreadX, spreadY, joint))
  }

  /** The square of `num / sqrt(denomR)`. */
  function Determination(spreadX: real, spreadY: real, num: real): real {
    var denomR := spreadX * spreadY;
    if denomR <= 0.0 then 0.0 else num * num / denomR
  }

  function Slope(x: seq<real>, y: seq<real>): Fit {
    if Fitted(x, y) then FitOf(SumsOf(x, y)) else NO_FIT
  }

  // ----- the residuals as a quadratic in slope and intercept -----

  function Quadratic(s: Sums, a: real, b: real): real {
    s.yy - 2.0 * (a * s.xy) - 2.0 * (b * s.y) + a * a * s.xx + 2.0 * (a * b * s.x) + s.n * b * b
  }

  lemma {:induction false} ResidualsExpand(x: seq<real>, y: seq<real>, a: real, b: real)
    requires |x| == |y|
    ensures Residuals(x, y, a, b) == Quadratic(SumsOf(x, y), a, b)
  {
    if x == [] {
      assert SumsOf(x, y) == Sums(0.0, 0.0, 0.0, 0.0, 0.0, 0.0);
    } else {
      var n := |x| - 1;
      SumsStep(x, y);
      ResidualsStep(x, y, a, b);
      QuadraticStep(SumsOf(x[..n], y[..n]), SumsOf(x, y), x[n], y[n], a, b);
      ResidualsExpand(x[..n], y[..n], a, b);
    }
  }

  lemma ResidualsStep(x: seq<real>, y: seq<real>, a: real, b: real)
    requires 0 < |x| <= |y|
    ensures var n := |x| - 1;
            Residuals(x, y, a, b) == Residuals(x[..n], y[..n], a, b) + SquaredMiss(x[n], y[n], a, b)
  {
  }

  function NextSums(s: Sums, u: real, v: real): Sums {
    Sums(s.n + 1.0, s.x + u, s.y + v, s.xy + u * v, s.xx + u * u, s.yy + v * v)
  }

  lemma SumsStep(x: seq<real>, y: seq<real>)
    requires 0 < |x| == |y|
    ensures var n := |x| - 1;
            SumsOf(x, y) == NextSums(SumsOf(x[..n], y[..n]), x[n], y[n])
  {
    var n := |x| - 1;
    assert y[..|x|] == y && y[..n][..|x[..n]|] == y[..n];
  }

  /** A further point adds the square of its residual. */
  lemma QuadraticStep(s: Sums, t: Sums, u: real, v: real, a: real, b: real)
    requires t == NextSums(s, u, v)
    ensures Quadratic(t, a, b) == Quadratic(s, a, b) + SquaredMiss(u, v, a, b)
  {
  }

  predicate OnLine(x: seq<real>, y: seq<real>, a: real, b: real)
    requires |x| <= |y|
  {
    forall i | 0 <= i < |x| :: y[i] == a * x[i] + b
  }

  lemma {:induction false} ResidualsNonNegative(x: seq<real>, y: seq<real>, a: real, b: real)
    requires |x| <= |y|
    ensures Residuals(x, y, a, b) >= 0.0
    ensures !OnLine(x, y, a, b) ==> Residuals(x, y, a, b) > 0.0
  {
    if x != [] {
      var n := |x| - 1;
      ResidualsNonNegative(x[..n], y[..n], a, b);
      MissIsPositive(x[n], y[n], a, b);
      if OnLine(x[..n], y[..n], a, b) && y[n] == a * x[n] + b {
        OnLineStep(x, y, a, b);
      }
    }
  }

  lemma MissIsPositive(u: real, v: real, a: real, b: real)
    ensures SquaredMiss(u, v, a, b) >= 0.0
    ensures v != a * u + b ==> SquaredMiss(u, v, a, b) > 0.0
  {
    var _ := SquareOf(v - (a * u + b));
  }

  lemma OnLineStep(x: seq<real>, y: seq<real>, a: real, b: real)
    requires 0 < |x| <= |y| && OnLine(x[..|x| - 1], y[..|x| - 1], a, b)
    requires y[|x| - 1] == a * x[|x| - 1] + b
    ensures OnLine(x, y, a, b)
  {
    var n := |x| - 1;
    forall i | 0 <= i < |x| ensures y[i] == a * x[i] + b {
      assert i < n ==> x[..n][i] == x[i] && y[..n][i] == y[i];
    }
  }

  /** Lagrange's identity for the quadratic: completing both squares. */
  lemma CompleteSquares(s: Sums, a: real, b: real)
    ensures var gap := s.n * b + a * s.x - s.y;
            s.n * Quadratic(s, a, b) == gap * gap + s.SpreadY() - 2.0 * (a * s.Joint()) + a * a * s.SpreadX()
  {
  }

  /** n times the spread of x is a sum of squares about the mean, so it is never negative and vanishes only if all
      abscissae agree. */
  lemma SpreadNonNegative(x: seq<real>)
    requires |x| > 0
    ensures var s := SumsOf(x, x);
            s.SpreadX() >= 0.0 && (s.SpreadX() == 0.0 ==> forall i | 0 <= i < |x| :: x[i] == s.x / s.n)
  {
    var s := SumsOf(x, x);
    var mean := s.x / s.n;
    assert x[..|x|] == x;
    var r := Residuals(x, x, 0.0, mean);
    ResidualsNonNegative(x, x, 0.0, mean);
    assert s.n * r == s.SpreadX() by {
      ResidualsExpand(x, x, 0.0, mean);
      AboutTheMean(s, mean);
    }
    if r > 0.0 {
      var _ := Product(s.n, r);
    }
  }

  lemma AboutTheMean(s: Sums, mean: real)
    requires s.n > 0.0 && mean == s.x / s.n && s.y == s.x && s.yy == s.xx
    ensures s.n * Quadratic(s, 0.0, mean) == s.SpreadX()
  {
    MeanSquares(s.n, s.x, s.xx, mean);
  }

  lemma MeanSquares(n: real, x: real, xx: real, mean: real)
    requires n > 0.0 && mean == x / n
    ensures n * (xx - 2.0 * (mean * x) + n * mean * mean) == n * xx - x * x
  {
  }

  lemma SpreadOfX(x: seq<real>, y: seq<real>)
    requires |x| == |y|
    ensures SumsOf(x, y).SpreadX() == SumsOf(x, x).SpreadX()
    ensures SumsOf(x, y).SpreadY() == SumsOf(y, y).SpreadX()
  {
    assert x[..|x|] == x && y[..|y|] == y;
  }

  // ----- optimality -----

  lemma Cancel(k: real, p: real, q: real)
    requires k != 0.0 && k * p == k * q
    ensures p == q
  {
    assert k * (p - q) == 0.0;
  }

  lemma TimesZero(k: real, z: real)
    requires z == 0.0
    ensures k * z == 0.0
  {
  }

  lemma TimesEqual(k: real, p: real, q: real)
    requires p == q
    ensures k * p == k * q
  {
  }

  /** The normal equations, the second one with the intercept eliminated. */
  predicate Solves(s: Sums, a: real, b: real) {
    && a * s.SpreadX() == s.Joint()
    && s.y - a * s.x - s.n * b == 0.0
    && s.xy - a * s.xx - b * s.x == 0.0
  }

  lemma NormalEquations(s: Sums)
    requires s.n > 0.0 && s.SpreadX() != 0.0
    ensures Solves(s, FitOf(s).slope, FitOf(s).intercept)
  {
    LineSolvesSums(s, s.SpreadX(), s.SpreadY(), s.Joint());
  }

  lemma LineSolvesSums(s: Sums, spreadX: real, spreadY: real, joint: real)
    requires s.n > 0.0 && spreadX != 0.0 && spreadX == s.SpreadX() && joint == s.Joint()
    ensures var f := Line(s.n, s.x, s.y, spreadX, spreadY, joint); Solves(s, f.slope, f.intercept)
  {
    LineSolvesBoth(s.n, s.x, s.y, s.xy, s.xx, spreadX, spreadY, joint);
  }

  lemma LineSolvesBoth(n: real, x: real, y: real, xy: real, xx: real, spreadX: real, spreadY: real, joint: real)
    requires n > 0.0 && spreadX != 0.0 && spreadX == n * xx - x * x && joint == n * xy - x * y
    ensures var f := Line(n, x, y, spreadX, spreadY, joint);
            && f.slope * spreadX == joint
            && y - f.slope * x - n * f.intercept == 0.0
            && xy - f.slope * xx - f.intercept * x == 0.0
  {
    var f := Line(n, x, y, spreadX, spreadY, joint);
    LineSolves(n, x, y, spreadX, spreadY, joint);
    NormalSecond(n, x, y, xy, xx, f.slope, f.intercept);
  }

  lemma LineSolves(n: real, x: real, y: real, spreadX: real, spreadY: real, joint: real)
    requires n > 0.0 && spreadX != 0.0
    ensures var f := Line(n, x, y, spreadX, spreadY, joint);
            f.slope * spreadX == joint && n * f.intercept == y - f.slope * x
  {
  }

  lemma NormalSecond(n: real, x: real, y: real, xy: real, xx: real, a: real, b: real)
    requires n > 0.0 && a * (n * xx - x * x) == n * xy - x * y && n * b == y - a * x
    ensures xy - a * xx - b * x == 0.0
  {
    TimesEqual(x, n * b, y - a * x);
    assert n * (xy - a * xx - b * x) == n * xy - n * (a * xx) - x * (n * b);
    assert n * (xy - a * xx - b * x) == 0.0;
    Cancel(n, xy - a * xx - b * x, 0.0);
  }

  /** Moving off a line by `(p, q)`: a linear part, which the normal equations annul, and a sum of squares. */
  lemma QuadraticMove(s: Sums, a: real, b: real, p: real, q: real)
    ensures Quadratic(s, a + p, b + q)
         == Quadratic(s, a, b) - 2.0 * (p * (s.xy - a * s.xx - b * s.x)) - 2.0 * (q * (s.y - a * s.x - s.n * b))
            + Cost(s, p, q)
  {
  }

  /** What moving off the best line by `(p, q)` costs. */
  function Cost(s: Sums, p: real, q: real): real {
    p * p * s.xx + 2.0 * (p * q * s.x) + s.n * q * q
  }

  function Zeros(n: nat): seq<real> {
    seq(n, i => 0.0)
  }

  lemma {:induction false} ZeroSums(x: seq<real>)
    ensures var s := SumsOf(x, Zeros(|x|));
            s == Sums(|x| as real, Sum(x), 0.0, 0.0, Dot(x, x), 0.0)
  {
    var z := Zeros(|x|);
    assert z[..|x|] == z;
    if x == [] {
    } else {
      ZeroSums(x[..|x| - 1]);
      assert z[..|x| - 1] == Zeros(|x| - 1);
      assert Zeros(|x| - 1)[..|x| - 1] == Zeros(|x| - 1);
    }
  }

  /** The cost of moving off a line is itself a sum of squares, zero only for no move when the abscissae differ. */
  lemma MoveCost(x: seq<real>, s: Sums, p: real, q: real)
    requires |x| > 0 && s.n == |x| as real && s.x == Sum(x) && s.xx == Dot(x, x) && s.SpreadX() > 0.0
    ensures Cost(s, p, q) >= 0.0 && (Cost(s, p, q) == 0.0 ==> p == 0.0 && q == 0.0)
  {
    var z := Zeros(|x|);
    var cost := Residuals(x, z, p, q);
    ResidualsNonNegative(x, z, p, q);
    if cost == 0.0 {
      assert OnLine(x, z, p, q);
      assert p == 0.0 by {
        if p != 0.0 {
          NoSpread(x, s, p, q);
        }
      }
      assert z[0] == p * x[0] + q;
    }
    MoveResiduals(x, s, p, q);
  }

  lemma MoveResiduals(x: seq<real>, s: Sums, p: real, q: real)
    requires s.n == |x| as real && s.x == Sum(x) && s.xx == Dot(x, x)
    ensures Residuals(x, Zeros(|x|), p, q) == Cost(s, p, q)
  {
    ZeroSums(x);
    ResidualsExpand(x, Zeros(|x|), p, q);
  }

  /** A line that is zero at every abscissa without being flat allows only one abscissa. */
  lemma NoSpread(x: seq<real>, s: Sums, p: real, q: real)
    requires s.n == |x| as real && s.x == Sum(x) && s.xx == Dot(x, x) && p != 0.0
    requires OnLine(x, Zeros(|x|), p, q)
    ensures s.SpreadX() == 0.0
  {
    var c := -q / p;
    OneAbscissa(x, p, q, c);
    EqualSums(x, c);
    SpreadOfEqual(s, c);
  }

  lemma OneAbscissa(x: seq<real>, p: real, q: real, c: real)
    requires p != 0.0 && c == -q / p && OnLine(x, Zeros(|x|), p, q)
    ensures forall i | 0 <= i < |x| :: x[i] == c
  {
    assert p * c == -q;
    forall i | 0 <= i < |x| ensures x[i] == c {
      assert Zeros(|x|)[i] == p * x[i] + q;
      Cancel(p, x[i], c);
    }
  }

  lemma SpreadOfEqual(s: Sums, c: real)
    requires s.x == s.n * c && s.xx == s.n * (c * c)
    ensures s.SpreadX() == 0.0
  {
    EqualSpread(s.n, c);
  }

  lemma EqualSpread(n: real, c: real)
    ensures n * (n * (c * c)) - (n * c) * (n * c) == 0.0
  {
  }

  /** Whenever a line is fitted, no line has a smaller sum of squared residuals, and only the fitted one attains it. */
  lemma LeastSquares(x: seq<real>, y: seq<real>, a: real, b: real)
    requires Fitted(x, y)
    ensures var f := Slope(x, y);
            && Residuals(x, y, f.slope, f.intercept) <= Residuals(x, y, a, b)
            && (Residuals(x, y, f.slope, f.intercept) == Residuals(x, y, a, b) ==>
                  a == f.slope && b == f.intercept)
  {
    var f, y', s := Slope(x, y), y[..|x|], SumsOf(x, y);
    FittedSums(x, y);
    ResidualsIgnoreExtra(x, y, a, b);
    ResidualsIgnoreExtra(x, y, f.slope, f.intercept);
    ResidualsExpand(x, y', a, b);
    ResidualsExpand(x, y', f.slope, f.intercept);
    NormalEquations(s);
    SolutionIsCheapest(x, s, f.slope, f.intercept, a, b);
  }

  lemma SolutionIsCheapest(x: seq<real>, s: Sums, a0: real, b0: real, a: real, b: real)
    requires |x| > 0 && s.n == |x| as real && s.x == Sum(x) && s.xx == Dot(x, x) && s.SpreadX() > 0.0
    requires Solves(s, a0, b0)
    ensures Quadratic(s, a0, b0) <= Quadratic(s, a, b)
    ensures Quadratic(s, a0, b0) == Quadratic(s, a, b) ==> a == a0 && b == b0
  {
    var p, q := a - a0, b - b0;
    assert a0 + p == a && b0 + q == b;
    MoveAdds(s, a0, b0, p, q);
    MoveCost(x, s, p, q);
  }

  lemma MoveAdds(s: Sums, a0: real, b0: real, p: real, q: real)
    requires Solves(s, a0, b0)
    ensures Quadratic(s, a0 + p, b0 + q) == Quadratic(s, a0, b0) + Cost(s, p, q)
  {
    QuadraticMove(s, a0, b0, p, q);
    TimesZero(p, s.xy - a0 * s.xx - b0 * s.x);
    TimesZero(q, s.y - a0 * s.x - s.n * b0);
  }

  lemma FittedSums(x: seq<real>, y: seq<real>)
    requires Fitted(x, y)
    ensures SumsOf(x, y).n > 0.0 && SumsOf(x, y).SpreadX() > 0.0 && SumsOf(x, y) == SumsOf(x, y[..|x|])
  {
    SpreadNonNegative(x);
    SpreadOfX(x, y[..|x|]);
    assert y[..|x|][..|x|] == y[..|x|];
  }

  lemma {:induction false} ResidualsIgnoreExtra(x: seq<real>, y: seq<real>, a: real, b: real)
    requires |x| <= |y|
    ensures Residuals(x, y, a, b) == Residuals(x, y[..|x|], a, b)
  {
    if x != [] {
      assert y[..|x|][..|x| - 1] == y[..|x| - 1];
    }
  }

  /** The coefficient of determination lies in [0, 1] and is the part of the variation of y that the line explains:
      what remains of it is n times the least sum of squares. */
  lemma RSquaredExplains(x: seq<real>, y: seq<real>)
    requires Fitted(x, y)
    ensures var f, s := Slope(x, y), SumsOf(x, y);
            && 0.0 <= f.rSquared <= 1.0
            && s.SpreadY() >= 0.0
            && s.n * Residuals(x, y, f.slope, f.intercept) == (1.0 - f.rSquared) * s.SpreadY()
  {
    var f, y', s := Slope(x, y), y[..|x|], SumsOf(x, y);
    FittedSums(x, y);
    SpreadNonNegative(y');
    SpreadOfX(x, y');
    ResidualsIgnoreExtra(x, y, f.slope, f.intercept);
    ResidualsExpand(x, y', f.slope, f.intercept);
    ResidualsNonNegative(x, y', f.slope, f.intercept);
    ExplainedBySums(s);
  }

  /** Where y does not vary at all the coefficient is zero, and so is the slope. */
  lemma FlatSeries(x: seq<real>, y: seq<real>)
    requires Fitted(x, y) && AllEqual(y[..|x|])
    ensures Slope(x, y).slope == 0.0 && Slope(x, y).rSquared == 0.0
  {
    FittedSums(x, y);
    FlatSums(x, y[..|x|]);
    FlatLine(SumsOf(x, y));
  }

  lemma FlatSums(x: seq<real>, y: seq<real>)
    requires |x| == |y| > 0 && AllEqual(y)
    ensures SumsOf(x, y).SpreadY() == 0.0 && SumsOf(x, y).Joint() == 0.0
  {
    var n, c := |x| as real, y[0];
    assert y[..|x|] == y;
    EqualSums(y, c);
    EqualSpread(n, c);
    JointOfFlat(x, y, c);
    FlatJoint(n, Sum(x), c);
  }

  lemma FlatLine(s: Sums)
    requires s.n > 0.0 && s.SpreadX() != 0.0 && s.SpreadY() == 0.0 && s.Joint() == 0.0
    ensures FitOf(s).slope == 0.0 && FitOf(s).rSquared == 0.0
  {
    LineOfNothing(s.n, s.x, s.y, s.SpreadX());
  }

  lemma LineOfNothing(n: real, x: real, y: real, spreadX: real)
    requires n > 0.0 && spreadX != 0.0
    ensures Line(n, x, y, spreadX, 0.0, 0.0).slope == 0.0 && Line(n, x, y, spreadX, 0.0, 0.0).rSquared == 0.0
  {
  }

  lemma {:induction false} JointOfFlat(x: seq<real>, y: seq<real>, c: real)
    requires |x| == |y| && forall i | 0 <= i < |y| :: y[i] == c
    ensures Dot(x, y) == Sum(x) * c
  {
    if x != [] {
      var n := |x| - 1;
      JointOfFlat(x[..n], y[..n], c);
      assert (Sum(x[..n]) + x[n]) * c == Sum(x[..n]) * c + x[n] * c;
    }
  }

  lemma FlatJoint(n: real, u: real, c: real)
    ensures n * (u * c) - u * (n * c) == 0.0
  {
  }

  lemma ExplainedBySums(s: Sums)
    requires s.n > 0.0 && s.SpreadX() > 0.0 && s.SpreadY() >= 0.0
    requires Quadratic(s, FitOf(s).slope, FitOf(s).intercept) >= 0.0
    ensures var f := FitOf(s);
            0.0 <= f.rSquared <= 1.0
            && s.n * Quadratic(s, f.slope, f.intercept) == (1.0 - f.rSquared) * s.SpreadY()
  {
    NormalEquations(s);
    ExplainedAt(s, FitOf(s).slope, FitOf(s).intercept);
  }

  lemma ExplainedAt(s: Sums, a: real, b: real)
    requires s.n > 0.0 && s.SpreadX() > 0.0 && s.SpreadY() >= 0.0
    requires Solves(s, a, b) && Quadratic(s, a, b) >= 0.0
    ensures var r2 := Determination(s.SpreadX(), s.SpreadY(), s.Joint());
            0.0 <= r2 <= 1.0 && s.n * Quadratic(s, a, b) == (1.0 - r2) * s.SpreadY()
  {
    LeftOver(s, a, b);
    ExplainedScaled(s.n, Quadratic(s, a, b), s.SpreadX(), s.SpreadY(), s.Joint(), a);
  }

  lemma ExplainedScaled(n: real, q: real, d: real, e: real, j: real, a: real)
    requires n > 0.0 && q >= 0.0 && d > 0.0 && e >= 0.0 && a * d == j && n * q == e - a * j
    ensures var r2 := Determination(d, e, j); 0.0 <= r2 <= 1.0 && n * q == (1.0 - r2) * e
  {
    var nq := 0.0;
    if q > 0.0 {
      nq := Product(n, q);
    }
    Explained(d, e, j, a, nq);
  }

  lemma LeftOver(s: Sums, a: real, b: real)
    requires Solves(s, a, b)
    ensures s.n * Quadratic(s, a, b) == s.SpreadY() - a * s.Joint()
  {
    var gap := s.n * b + a * s.x - s.y;
    CompleteSquares(s, a, b);
    LeftOverOf(s.n * Quadratic(s, a, b), gap, s.SpreadX(), s.SpreadY(), s.Joint(), a);
  }

  lemma LeftOverOf(nq: real, gap: real, d: real, e: real, j: real, a: real)
    requires gap == 0.0 && a * d == j && nq == gap * gap + e - 2.0 * (a * j) + a * a * d
    ensures nq == e - a * j
  {
  }

  lemma Explained(d: real, e: real, j: real, a: real, q: real)
    requires d > 0.0 && e >= 0.0 && q >= 0.0 && a * d == j && q == e - a * j
    ensures var r2 := Determination(d, e, j);
            0.0 <= r2 <= 1.0 && q == (1.0 - r2) * e
  {
    var aa := SquareOf(a);
    TimesEqual(a, a * d, j);
    assert a * j == a * a * d;
    if e == 0.0 {
      if aa > 0.0 { var _ := Product(aa, d); }
      TimesZero(d, e);
    } else {
      var _ := Product(d, e);
      TimesEqual(j, a * d, j);
      assert j * j == (a * j) * d;
      FractionOf(d, e, a * j, j * j);
    }
  }

  lemma FractionOf(d: real, e: real, k: real, jj: real)
    requires d > 0.0 && e > 0.0 && jj == k * d && 0.0 <= k <= e && d * e > 0.0
    ensures 0.0 <= jj / (d * e) <= 1.0 && (jj / (d * e)) * e == k
  {
    var r := jj / (d * e);
    assert r * (d * e) == jj;
    assert d * (r * e) == d * k;
    Cancel(d, r * e, k);
    if r > 1.0 { var _ := Product(r - 1.0, e); }
    if r < 0.0 { var _ := Product(-r, e); }
  }

  // ----- the shift of the time axis -----

  function Shift(x: seq<real>, c: real): seq<real> {
    seq(|x|, i requires 0 <= i < |x| => x[i] - c)
  }

  function ShiftSums(s: Sums, c: real): Sums {
    Sums(s.n, s.x - s.n * c, s.y, s.xy - c * s.y, s.xx - 2.0 * (c * s.x) + s.n * (c * c), s.yy)
  }

  lemma ShiftedSums(x: seq<real>, y: seq<real>, c: real)
    requires |x| == |y|
    ensures SumsOf(Shift(x, c), y) == ShiftSums(SumsOf(x, y), c)
  {
    assert y[..|x|] == y;
    ShiftedSum(x, c);
    ShiftedDot(x, y, c);
    ShiftedSquares(x, c);
  }

  lemma ShiftFront(x: seq<real>, c: real)
    requires x != []
    ensures Shift(x, c)[..|x| - 1] == Shift(x[..|x| - 1], c) && Shift(x, c)[|x| - 1] == x[|x| - 1] - c
  {
  }

  lemma {:induction false} ShiftedSum(x: seq<real>, c: real)
    ensures Sum(Shift(x, c)) == Sum(x) - (|x| as real) * c
  {
    if x != [] {
      var n := |x| - 1;
      ShiftFront(x, c);
      ShiftedSum(x[..n], c);
      assert (|x| as real) * c == (n as real) * c + c;
    }
  }

  lemma {:induction false} ShiftedDot(x: seq<real>, y: seq<real>, c: real)
    requires |x| == |y|
    ensures Dot(Shift(x, c), y) == Dot(x, y) - c * Sum(y)
  {
    if x != [] {
      var n := |x| - 1;
      ShiftFront(x, c);
      ShiftedDot(x[..n], y[..n], c);
      ShiftedXY(Dot(x[..n], y[..n]), Sum(y[..n]), x[n], y[n], c);
    }
  }

  lemma {:induction false} ShiftedSquares(x: seq<real>, c: real)
    ensures Dot(Shift(x, c), Shift(x, c)) == Dot(x, x) - 2.0 * (c * Sum(x)) + (|x| as real) * (c * c)
  {
    if x != [] {
      var n := |x| - 1;
      ShiftFront(x, c);
      ShiftedSquares(x[..n], c);
      ShiftedXX(n as real, Sum(x[..n]), Dot(x[..n], x[..n]), x[n], c);
    }
  }

  lemma ShiftedXY(xy: real, y: real, u: real, v: real, c: real)
    ensures xy - c * y + (u - c) * v == (xy + u * v) - c * (y + v)
  {
  }

  lemma ShiftedXX(n: real, x: real, xx: real, u: real, c: real)
    ensures xx - 2.0 * (c * x) + n * (c * c) + (u - c) * (u - c)
         == (xx + u * u) - 2.0 * (c * (x + u)) + (n + 1.0) * (c * c)
  {
  }

  lemma ShiftedSpreads(s: Sums, c: real)
    ensures var t := ShiftSums(s, c);
            t.SpreadX() == s.SpreadX() && t.SpreadY() == s.SpreadY() && t.Joint() == s.Joint()
  {
  }

  /** Measuring time from the first sample changes neither slope nor R squared; the line is the same line. */
  lemma ShiftInvariance(x: seq<real>, y: seq<real>, c: real)
    requires |y| >= |x|
    ensures var f, g := Slope(x, y), Slope(Shift(x, c), y);
            && (Fitted(x, y) <==> Fitted(Shift(x, c), y))
            && g.slope == f.slope && g.rSquared == f.rSquared
            && (Fitted(x, y) ==> g.intercept == f.intercept + f.slope * c)
  {
    var s, t := SumsOf(x, y), SumsOf(Shift(x, c), y);
    if |x| >= 2 {
      ShiftedSumsOf(x, y, c);
      ShiftedSpreads(s, c);
      if !Degenerate(s) {
        assert s.SpreadX() != 0.0;
        ShiftedFit(s, c);
      }
    }
  }

  lemma ShiftedSumsOf(x: seq<real>, y: seq<real>, c: real)
    requires |y| >= |x|
    ensures SumsOf(Shift(x, c), y) == ShiftSums(SumsOf(x, y), c)
  {
    var y' := y[..|x|];
    assert y'[..|x|] == y';
    ShiftedSums(x, y', c);
  }

  lemma ShiftedFit(s: Sums, c: real)
    requires s.n > 0.0 && s.SpreadX() != 0.0
    ensures ShiftSums(s, c).SpreadX() == s.SpreadX()
    ensures var f, g := FitOf(s), FitOf(ShiftSums(s, c));
            g.slope == f.slope && g.rSquared == f.rSquared && g.intercept == f.intercept + f.slope * c
  {
    ShiftedSpreads(s, c);
    InterceptShift(s.n, s.x, s.y, FitOf(s).slope, c);
  }

  lemma InterceptShift(n: real, x: real, y: real, a: real, c: real)
    requires n != 0.0
    ensures (y - a * (x - n * c)) / n == (y - a * x) / n + a * c
  {
    var p, q := (y - a * (x - n * c)) / n, (y - a * x) / n;
    assert n * p == y - a * (x - n * c);
    assert n * q == y - a * x;
    assert n * (q + a * c) == n * q + a * (n * c);
    Cancel(n, p, q + a * c);
  }

  // ----- the degenerate guard on integer timestamps -----

  function Reals(ts: seq<int>): seq<real> {
    seq(|ts|, i requires 0 <= i < |ts| => ts[i] as real)
  }

  function IntSum(ts: seq<int>): int {
    if ts == [] then 0 else IntSum(ts[..|ts| - 1]) + ts[|ts| - 1]
  }

  function IntSquares(ts: seq<int>): int {
    if ts == [] then 0 else IntSquares(ts[..|ts| - 1]) + ts[|ts| - 1] * ts[|ts| - 1]
  }

  lemma ProductOfInts(a: int, b: int)
    ensures (a * b) as real == (a as real) * (b as real)
  {
  }

  lemma {:induction false} IntegerSums(ts: seq<int>)
    ensures Sum(Reals(ts)) == IntSum(ts) as real
    ensures Dot(Reals(ts), Reals(ts)) == IntSquares(ts) as real
  {
    if ts != [] {
      var n := |ts| - 1;
      IntegerSums(ts[..n]);
      assert Reals(ts)[..n] == Reals(ts[..n]);
      ProductOfInts(ts[n], ts[n]);
    }
  }

  ghost predicate AllEqual<T>(s: seq<T>) {
    forall i, j | 0 <= i < |s| && 0 <= j < |s| :: s[i] == s[j]
  }

  lemma {:induction false} EqualSums(x: seq<real>, c: real)
    requires forall i | 0 <= i < |x| :: x[i] == c
    ensures Sum(x) == (|x| as real) * c && Dot(x, x) == (|x| as real) * (c * c)
  {
    if x != [] {
      var n := |x| - 1;
      EqualSums(x[..n], c);
      assert ((n as real) + 1.0) * c == (n as real) * c + c;
      assert ((n as real) + 1.0) * (c * c) == (n as real) * (c * c) + c * c;
    }
  }

  /** For integer timestamps the guard fires exactly when all of them are equal. */
  lemma GuardOnIntegers(ts: seq<int>, y: seq<real>)
    requires |ts| >= 2 && |y| >= |ts|
    ensures Degenerate(SumsOf(Reals(ts), y)) <==> AllEqual(ts)
  {
    var x := Reals(ts);
    var s := SumsOf(x, y);
    IntegerSums(ts);
    var d := |ts| * IntSquares(ts) - IntSum(ts) * IntSum(ts);
    ProductOfInts(|ts|, IntSquares(ts));
    ProductOfInts(IntSum(ts), IntSum(ts));
    assert s.SpreadX() == d as real;
    assert Degenerate(s) <==> d == 0;
    SpreadNonNegative(x);
    SpreadOfX(x, y[..|x|]);
    if d == 0 {
      forall i, j | 0 <= i < |ts| && 0 <= j < |ts| ensures ts[i] == ts[j] {
        assert x[i] == x[j];
      }
    }
    if AllEqual(ts) {
      EqualSums(x, ts[0] as real);
      var n, c := s.n, ts[0] as real;
      assert n * (n * (c * c)) == (n * c) * (n * c);
    }
  }

  /** On arbitrary reals the guard rejects unequal abscissae exactly when their spread is positive but too small. */
  lemma GuardRejectsSmallSpread(x: seq<real>, y: seq<real>)
    requires 2 <= |x| <= |y|
    ensures var s := SumsOf(x, y);
            Degenerate(s) && !AllEqual(x) <==> 0.0 < s.SpreadX() < 0.000000000000001
  {
    SpreadNonNegative(x);
    SpreadOfX(x, y[..|x|]);
    if SumsOf(x, y).SpreadX() == 0.0 {
      forall i, j | 0 <= i < |x| && 0 <= j < |x| ensures x[i] == x[j] {
      }
    }
    if AllEqual(x) {
      EqualSums(x, x[0]);
      EqualSpread(|x| as real, x[0]);
    }
  }

  /** There are such abscissae. */
  lemma SmallSpreadExists(y: seq<real>)
    requires |y| >= 2
    ensures var x := [0.0, 0.00000001];
            !AllEqual(x) && Degenerate(SumsOf(x, y))
  {
    var x := [0.0, 0.00000001];
    assert x[..1] == [0.0] && x[..1][..0] == [];
    assert Sum(x[..1]) == 0.0 && Dot(x[..1], x[..1]) == 0.0;
    assert x[0] != x[1];
  }

  /** The loop: five running sums, then the closed form. */
  method OLSSlope(x: seq<real>, y: seq<real>) returns (slope: real, intercept: real, rSquared: real)
    ensures Fit(slope, intercept, rSquared) == Slope(x, y)
    ensures |x| < 2 || |y| < |x| ==> slope == intercept == rSquared == 0.0
    ensures 2 <= |x| <= |y| && -0.000000000000001 < SumsOf(x, y).SpreadX() < 0.000000000000001 ==>
              slope == intercept == rSquared == 0.0
  {
    var n := |x|;
    if n < 2 || |y| < n { return 0.0, 0.0, 0.0; }
    var sumX, sumY, sumXY, sumX2, sumY2 := 0.0, 0.0, 0.0, 0.0, 0.0;
    for i := 0 to n
      invariant sumX == Sum(x[..i]) && sumY == Sum(y[..i])
      invariant sumXY == Dot(x[..i], y[..i]) && sumX2 == Dot(x[..i], x[..i]) && sumY2 == Dot(y[..i], y[..i])
    {
      assert x[..i + 1][..i] == x[..i] && y[..i + 1][..i] == y[..i];
      sumX := sumX + x[i];
      sumY := sumY + y[i];
      sumXY := sumXY + x[i] * y[i];
      sumX2 := sumX2 + x[i] * x[i];
      sumY2 := sumY2 + y[i] * y[i];
    }
    ghost var s := SumsOf(x, y);
    assert s == Sums(n as real, sumX, sumY, sumXY, sumX2, sumY2) by {
      assert x[..n] == x;
    }
    slope, intercept, rSquared := LineThrough(n as real, sumX, sumY, sumXY, sumX2, sumY2, s);
  }

  /** The closed form that follows the loop. */
  method LineThrough(n: real, sumX: real, sumY: real, sumXY: real, sumX2: real, sumY2: real, ghost s: Sums)
    returns (slope: real, intercept: real, rSquared: real)
    requires s == Sums(n, sumX, sumY, sumXY, sumX2, sumY2) && n > 0.0
    ensures Fit(slope, intercept, rSquared) == if Degenerate(s) then NO_FIT else FitOf(s)
  {
    var denom := n * sumX2 - sumX * sumX;
    var num := n * sumXY - sumX * sumY;
    var spreadY := n * sumY2 - sumY * sumY;
    assert denom == s.SpreadX() && num == s.Joint() && spreadY == s.SpreadY();
    if Abs(denom) < EPSILON { return 0.0, 0.0, 0.0; }
    slope, intercept, rSquared := ClosedForm(n, sumX, sumY, denom, spreadY, num);
  }

  method ClosedForm(n: real, sumX: real, sumY: real, denom: real, spreadY: real, num: real)
    returns (slope: real, intercept: real, rSquared: real)
    requires n > 0.0 && denom != 0.0
    ensures Fit(slope, intercept, rSquared) == Line(n, sumX, sumY, denom, spreadY, num)
  {
    slope := num / denom;
    intercept := (sumY - slope * sumX) / n;
    rSquared := Determination(denom, spreadY, num);
  }
}
