/** The least-squares fit behind the trend engine
    (backend/internal/prediction/trend.go, `linearRegression`), over exact reals. */
module LeastSquares {

  datatype Line = Line(slope: real, intercept: real, r2: real)

  /** The five running sums of the first loop, with the sample count. */
  datatype Sums = Sums(n: nat, x: real, y: real, xy: real, xx: real, yy: real)

  function SumsOf(xs: seq<real>, ys: seq<real>): (s: Sums)
    requires |xs| == |ys|
    ensures s.n == |xs|
  {
    if |xs| == 0 then Sums(0, 0.0, 0.0, 0.0, 0.0, 0.0)
    else
      var k := |xs| - 1;
      Push(SumsOf(xs[..k], ys[..k]), xs[k], ys[k])
  }

  function Push(s: Sums, x: real, y: real): Sums {
    Sums(s.n + 1, s.x + x, s.y + y, s.xy + x * y, s.xx + x * x, s.yy + y * y)
  }

  /** n·Σx² − (Σx)²: the denominator of the slope. */
  function Denominator(s: Sums): real {
    s.n as real * s.xx - s.x * s.x
  }

  function Covariance(s: Sums): real {
    s.n as real * s.xy - s.x * s.y
  }

  /** n·Σy² − (Σy)². */
  function Spread(s: Sums): real {
    s.n as real * s.yy - s.y * s.y
  }

  function Mean(s: Sums): real
    requires s.n > 0
  {
    s.y / s.n as real
  }

  function Times(a: real, b: real): real { a * b }

  function Square(v: real): real { Times(v, v) }

  function Term(p: real, q: real, r: real, x: real, y: real): real { p + q * x + r * y }

  function SumOfSquares(vs: seq<real>): real {
    if |vs| == 0 then 0.0
    else SumOfSquares(vs[..|vs| - 1]) + Square(vs[|vs| - 1])
  }

  /** p + q·x + r·y, one value per sample. */
  function Affine(xs: seq<real>, ys: seq<real>, p: real, q: real, r: real): (vs: seq<real>)
    requires |xs| == |ys|
    ensures |vs| == |xs|
    ensures forall i :: 0 <= i < |xs| ==> vs[i] == Term(p, q, r, xs[i], ys[i])
  {
    seq(|xs|, i requires 0 <= i < |xs| => Term(p, q, r, xs[i], ys[i]))
  }

  /** Σ (p + q·x + r·y)², the shape shared by every variation below. */
  function SquareSum(xs: seq<real>, ys: seq<real>, p: real, q: real, r: real): real
    requires |xs| == |ys|
  {
    SumOfSquares(Affine(xs, ys, p, q, r))
  }

  /** Σ (y − (intercept + slope·x))²: what a fitted line should make small. */
  function Residual(xs: seq<real>, ys: seq<real>, slope: real, intercept: real): real
    requires |xs| == |ys|
  {
    SquareSum(xs, ys, -intercept, -slope, 1.0)
  }

  /** Σ ((intercept + slope·x) − mean)². */
  function Explained(xs: seq<real>, ys: seq<real>, slope: real, intercept: real, mean: real): real
    requires |xs| == |ys|
  {
    SquareSum(xs, ys, intercept - mean, slope, 0.0)
  }

  /** Σ (y − mean)². */
  function Variation(xs: seq<real>, ys: seq<real>, mean: real): real
    requires |xs| == |ys|
  {
    SquareSum(xs, ys, -mean, 0.0, 1.0)
  }

  predicate AllEqual(xs: seq<real>) {
    forall i, j :: 0 <= i < |xs| && 0 <= j < |xs| ==> xs[i] == xs[j]
  }

  /** The fit in closed form: a function of the five sums alone, in which R²
      is the squared correlation and no second pass over the samples is made. */
  function Fit(s: Sums): Line {
    if s.n < 2 then Line(0.0, 0.0, 0.0)
    else if Denominator(s) == 0.0 then Line(0.0, Mean(s), 0.0)
    else
      var slope := Covariance(s) / Denominator(s);
      Line(slope,
           (s.y - slope * s.x) / s.n as real,
           if Spread(s) == 0.0 then 1.0
           else Quotient(Times(Covariance(s), Covariance(s)), Times(Denominator(s), Spread(s))))
  }

  function Quotient(a: real, b: real): real {
    if b == 0.0 then 0.0 else a / b
  }

  // ---------- the shared quadratic form ----------

  function Expansion(s: Sums, p: real, q: real, r: real): real {
    s.n as real * p * p + q * q * s.xx + r * r * s.yy
      + 2.0 * p * q * s.x + 2.0 * p * r * s.y + 2.0 * q * r * s.xy
  }

  lemma ExpansionStep(s: Sums, x: real, y: real, p: real, q: real, r: real)
    ensures Expansion(Push(s, x, y), p, q, r) == Expansion(s, p, q, r) + Square(Term(p, q, r, x, y))
  {
    var n := s.n as real;
    assert (s.n + 1) as real == n + 1.0;
    assert (n + 1.0) * p * p == n * p * p + p * p;
    assert q * q * (s.xx + x * x) == q * q * s.xx + (q * x) * (q * x);
    assert r * r * (s.yy + y * y) == r * r * s.yy + (r * y) * (r * y);
    assert 2.0 * p * q * (s.x + x) == 2.0 * p * q * s.x + 2.0 * p * (q * x);
    assert 2.0 * p * r * (s.y + y) == 2.0 * p * r * s.y + 2.0 * p * (r * y);
    assert 2.0 * q * r * (s.xy + x * y) == 2.0 * q * r * s.xy + 2.0 * (q * x) * (r * y);
    SquareOfSum(p, q * x, r * y);
  }

  lemma SquareOfSum(a: real, b: real, c: real)
    ensures Square(a + b + c) == a * a + b * b + c * c + 2.0 * a * b + 2.0 * a * c + 2.0 * b * c
  {}

  lemma SquareSumStep(xs: seq<real>, ys: seq<real>, p: real, q: real, r: real)
    requires |xs| == |ys| > 0
    ensures var k := |xs| - 1;
            SquareSum(xs, ys, p, q, r)
            == SquareSum(xs[..k], ys[..k], p, q, r) + Square(Term(p, q, r, xs[k], ys[k]))
  {
    var k := |xs| - 1;
    assert Affine(xs, ys, p, q, r)[..k] == Affine(xs[..k], ys[..k], p, q, r);
  }

  /** A quantity that grows by one squared term per sample is that square sum. */
  lemma {:induction false} SquareSumIs(f: Sums -> real, xs: seq<real>, ys: seq<real>, p: real, q: real, r: real)
    requires |xs| == |ys|
    requires f(Sums(0, 0.0, 0.0, 0.0, 0.0, 0.0)) == 0.0
    requires forall s: Sums, x: real, y: real :: f(Push(s, x, y)) == f(s) + Square(Term(p, q, r, x, y))
    ensures SquareSum(xs, ys, p, q, r) == f(SumsOf(xs, ys))
  {
    if |xs| != 0 {
      var k := |xs| - 1;
      SquareSumStep(xs, ys, p, q, r);
      SquareSumIs(f, xs[..k], ys[..k], p, q, r);
      assert f(Push(SumsOf(xs[..k], ys[..k]), xs[k], ys[k]))
          == f(SumsOf(xs[..k], ys[..k])) + Square(Term(p, q, r, xs[k], ys[k]));
    }
  }

  /** Every variation is determined by the five sums. */
  lemma SquareSumExpands(xs: seq<real>, ys: seq<real>, p: real, q: real, r: real)
    requires |xs| == |ys|
    ensures SquareSum(xs, ys, p, q, r) == Expansion(SumsOf(xs, ys), p, q, r)
  {
    var f := (s: Sums) => Expansion(s, p, q, r);
    forall s: Sums, x: real, y: real
      ensures f(Push(s, x, y)) == f(s) + Square(Term(p, q, r, x, y))
    {
      ExpansionStep(s, x, y, p, q, r);
    }
    SquareSumIs(f, xs, ys, p, q, r);
  }

  lemma TimesSign(a: real, b: real)
    requires (a > 0.0 && b > 0.0) || (a < 0.0 && b < 0.0)
    ensures Times(a, b) > 0.0
  {}

  lemma SquareSign(v: real)
    ensures Square(v) >= 0.0
    ensures Square(v) == 0.0 <==> v == 0.0
  {
    if v != 0.0 {
      TimesSign(v, v);
    }
  }

  /** A sum of squares is never negative, and vanishes exactly when each term does. */
  lemma {:induction false} SumOfSquaresSign(vs: seq<real>)
    ensures SumOfSquares(vs) >= 0.0
    ensures SumOfSquares(vs) == 0.0 <==> forall i :: 0 <= i < |vs| ==> vs[i] == 0.0
  {
    if |vs| != 0 {
      var k := |vs| - 1;
      SumOfSquaresSign(vs[..k]);
      SquareSign(vs[k]);
      assert forall i :: 0 <= i < k ==> vs[..k][i] == vs[i];
      var rest, last := SumOfSquares(vs[..k]), Square(vs[k]);
      assert SumOfSquares(vs) == rest + last;
    }
  }

  /** The denominator is never negative and is zero exactly when all xs agree. */
  lemma {:induction false} DenominatorSign(xs: seq<real>, ys: seq<real>)
    requires |xs| == |ys|
    ensures Denominator(SumsOf(xs, ys)) >= 0.0
    ensures Denominator(SumsOf(xs, ys)) == 0.0 <==> AllEqual(xs)
  {
    if |xs| != 0 {
      var k := |xs| - 1;
      var s := SumsOf(xs[..k], ys[..k]);
      var vs := Affine(xs[..k], ys[..k], -xs[k], 1.0, 0.0);
      DenominatorSign(xs[..k], ys[..k]);
      SumOfSquaresSign(vs);
      SquareSumExpands(xs[..k], ys[..k], -xs[k], 1.0, 0.0);
      DenominatorStep(s, xs[k], ys[k]);
      var was, gap := Denominator(s), SumOfSquares(vs);
      assert Denominator(SumsOf(xs, ys)) == was + gap;
      assert forall i :: 0 <= i < k ==> xs[..k][i] == xs[i];
      assert forall i :: 0 <= i < k ==> (vs[i] == 0.0 <==> xs[i] == xs[k]);
      if AllEqual(xs) {
        assert forall i :: 0 <= i < k ==> xs[i] == xs[k];
      }
    }
  }

  lemma DenominatorStep(s: Sums, x: real, y: real)
    ensures Denominator(Push(s, x, y)) == Denominator(s) + Expansion(s, -x, 1.0, 0.0)
  {
    var n := s.n as real;
    assert (s.n + 1) as real == n + 1.0;
    assert (n + 1.0) * (s.xx + x * x) == n * s.xx + s.xx + n * x * x + x * x;
    assert (s.x + x) * (s.x + x) == s.x * s.x + 2.0 * x * s.x + x * x;
  }

  // ---------- optimality ----------

  predicate XsAre(s: Sums, x: real) {
    s.x == s.n as real * x && s.xy == x * s.y
  }

  lemma {:induction false} EqualXs(xs: seq<real>, ys: seq<real>, x: real)
    requires |xs| == |ys|
    requires forall i :: 0 <= i < |xs| ==> xs[i] == x
    ensures XsAre(SumsOf(xs, ys), x)
  {
    hide XsAre, Push;
    if |xs| == 0 {
      assert XsAre(Sums(0, 0.0, 0.0, 0.0, 0.0, 0.0), x) by { NoXs(x); }
    } else {
      var k := |xs| - 1;
      EqualXs(xs[..k], ys[..k], x);
      EqualXsStep(SumsOf(xs[..k], ys[..k]), x, ys[k]);
    }
  }

  lemma NoXs(x: real)
    ensures XsAre(Sums(0, 0.0, 0.0, 0.0, 0.0, 0.0), x)
  {}

  lemma EqualXsStep(s: Sums, x: real, y: real)
    requires XsAre(s, x)
    ensures XsAre(Push(s, x, y), x)
  {
    assert (s.n + 1) as real == s.n as real + 1.0;
  }

  /** The two derivatives of the residual, halved; both vanish at the fit. */
  function InterceptGradient(s: Sums, slope: real, intercept: real): real {
    s.n as real * intercept + slope * s.x - s.y
  }

  function SlopeGradient(s: Sums, slope: real, intercept: real): real {
    intercept * s.x + slope * s.xx - s.xy
  }

  predicate Stationary(s: Sums, slope: real, intercept: real) {
    InterceptGradient(s, slope, intercept) == 0.0 && SlopeGradient(s, slope, intercept) == 0.0
  }

  lemma FitIsStationary(xs: seq<real>, ys: seq<real>)
    requires |xs| == |ys| >= 2
    ensures var f := Fit(SumsOf(xs, ys)); Stationary(SumsOf(xs, ys), f.slope, f.intercept)
  {
    hide SumsOf, Stationary, XsAre;
    var s := SumsOf(xs, ys);
    if Denominator(s) == 0.0 {
      DenominatorSign(xs, ys);
      EqualXs(xs, ys, xs[0]);
      StationaryFlat(s, xs[0]);
    } else {
      StationarySloped(s);
    }
  }

  lemma StationaryFlat(s: Sums, x: real)
    requires s.n >= 2 && XsAre(s, x)
    ensures Stationary(s, 0.0, Mean(s))
  {
    var n := s.n as real;
    var mean := s.y / n;
    assert n * mean == s.y;
    assert mean * s.x == (n * mean) * x;
  }

  /** What the two divisions of the fit solve. */
  lemma FitSolves(s: Sums)
    requires s.n >= 2 && Denominator(s) != 0.0
    ensures Fit(s).slope * Denominator(s) == Covariance(s)
    ensures Fit(s).intercept * s.n as real == s.y - Fit(s).slope * s.x
  {
    hide Denominator, Covariance, Spread, Quotient;
    Cancel(Covariance(s), Denominator(s));
    Cancel(s.y - Fit(s).slope * s.x, s.n as real);
  }

  lemma StationarySloped(s: Sums)
    requires s.n >= 2 && Denominator(s) != 0.0
    ensures Stationary(s, Fit(s).slope, Fit(s).intercept)
  {
    hide Fit;
    FitSolves(s);
    SolvedIsStationary(s, Fit(s).slope, Fit(s).intercept);
  }

  lemma SolvedIsStationary(s: Sums, b: real, a: real)
    requires s.n >= 2
    requires b * Denominator(s) == Covariance(s) && a * s.n as real == s.y - b * s.x
    ensures Stationary(s, b, a)
  {
    var n := s.n as real;
    var g := SlopeGradient(s, b, a);
    assert g * n == (a * n) * s.x + b * (n * s.xx) - n * s.xy;
    assert b * Denominator(s) == b * (n * s.xx) - (b * s.x) * s.x;
    assert (a * n) * s.x == s.y * s.x - (b * s.x) * s.x;
    assert g * n == 0.0;
  }

  lemma Cancel(v: real, d: real)
    requires d != 0.0
    ensures v / d * d == v
  {}

  /** Moving the line by (v, u) changes the residual by a square sum plus two
      terms proportional to the gradients. */
  lemma ResidualShift(s: Sums, a: real, b: real, u: real, v: real)
    ensures Expansion(s, -(a + u), -(b + v), 1.0)
         == Expansion(s, -a, -b, 1.0) + Expansion(s, u, v, 0.0)
            + 2.0 * u * InterceptGradient(s, b, a) + 2.0 * v * SlopeGradient(s, b, a)
  {
    var n := s.n as real;
    var p, q := a + u, b + v;
    assert n * p * p == n * a * a + 2.0 * n * a * u + n * u * u;
    assert q * q * s.xx == b * b * s.xx + 2.0 * b * v * s.xx + v * v * s.xx;
    assert 2.0 * p * q * s.x == 2.0 * a * b * s.x + 2.0 * a * v * s.x + 2.0 * u * b * s.x + 2.0 * u * v * s.x;
    assert 2.0 * u * InterceptGradient(s, b, a) == 2.0 * n * a * u + 2.0 * u * b * s.x - 2.0 * u * s.y;
    assert 2.0 * v * SlopeGradient(s, b, a) == 2.0 * a * v * s.x + 2.0 * b * v * s.xx - 2.0 * v * s.xy;
    ExpansionWithOne(s, -p, -q);
    ExpansionWithOne(s, -a, -b);
  }

  lemma ExpansionWithOne(s: Sums, p: real, q: real)
    ensures Expansion(s, p, q, 1.0)
         == s.n as real * p * p + q * q * s.xx + s.yy + 2.0 * p * q * s.x + 2.0 * p * s.y + 2.0 * q * s.xy
  {}

  lemma ShiftFromStationary(s: Sums, slope: real, intercept: real, slope': real, intercept': real)
    requires Stationary(s, slope, intercept)
    ensures Expansion(s, -intercept', -slope', 1.0)
         == Expansion(s, -intercept, -slope, 1.0) + Expansion(s, intercept' - intercept, slope' - slope, 0.0)
  {
    hide Expansion, InterceptGradient, SlopeGradient;
    var u, v := intercept' - intercept, slope' - slope;
    ResidualShift(s, intercept, slope, u, v);
    assert 2.0 * u * InterceptGradient(s, slope, intercept) == 2.0 * u * 0.0;
    assert 2.0 * v * SlopeGradient(s, slope, intercept) == 2.0 * v * 0.0;
    assert intercept + u == intercept' && slope + v == slope';
  }

  /** Any other line pays exactly the squared distance between the two lines. */
  lemma ResidualOfOtherLine(xs: seq<real>, ys: seq<real>, slope: real, intercept: real)
    requires |xs| == |ys| >= 2
    ensures var f := Fit(SumsOf(xs, ys));
            Residual(xs, ys, slope, intercept)
            == Residual(xs, ys, f.slope, f.intercept)
               + SquareSum(xs, ys, intercept - f.intercept, slope - f.slope, 0.0)
  {
    hide Fit, SumsOf, Expansion, Stationary, SquareSum;
    var s := SumsOf(xs, ys);
    var f := Fit(s);
    FitIsStationary(xs, ys);
    ShiftFromStationary(s, f.slope, f.intercept, slope, intercept);
    SquareSumExpands(xs, ys, -intercept, -slope, 1.0);
    SquareSumExpands(xs, ys, -f.intercept, -f.slope, 1.0);
    SquareSumExpands(xs, ys, intercept - f.intercept, slope - f.slope, 0.0);
  }

  ghost predicate Minimises(xs: seq<real>, ys: seq<real>, slope: real, intercept: real)
    requires |xs| == |ys|
  {
    forall b: real, a: real :: Residual(xs, ys, slope, intercept) <= Residual(xs, ys, b, a)
  }

  /** Main result. The returned line minimises the residual over every line,
      for samples of any length, except that a single sample gets the line
      y = 0 and so is fitted only when it lies on it. */
  lemma FitMinimises(xs: seq<real>, ys: seq<real>)
    requires |xs| == |ys|
    ensures var f := Fit(SumsOf(xs, ys));
            Minimises(xs, ys, f.slope, f.intercept) <==> (|xs| == 1 ==> ys[0] == 0.0)
  {
    hide SumsOf, Residual, Denominator, Covariance, Spread, Mean, Quotient;
    var f := Fit(SumsOf(xs, ys));
    if |xs| == 1 {
      SinglePoint(xs, ys);
    } else {
      forall b: real, a: real
        ensures Residual(xs, ys, f.slope, f.intercept) <= Residual(xs, ys, b, a)
      {
        if |xs| >= 2 {
          FitIsBelow(xs, ys, b, a);
        } else {
          NoSamples(xs, ys, f.slope, f.intercept);
          NoSamples(xs, ys, b, a);
        }
      }
    }
  }

  lemma FitIsBelow(xs: seq<real>, ys: seq<real>, slope: real, intercept: real)
    requires |xs| == |ys| >= 2
    ensures var f := Fit(SumsOf(xs, ys));
            Residual(xs, ys, f.slope, f.intercept) <= Residual(xs, ys, slope, intercept)
  {
    hide Fit, SumsOf, Residual;
    var f := Fit(SumsOf(xs, ys));
    ResidualOfOtherLine(xs, ys, slope, intercept);
    SumOfSquaresSign(Affine(xs, ys, intercept - f.intercept, slope - f.slope, 0.0));
  }

  lemma NoSamples(xs: seq<real>, ys: seq<real>, slope: real, intercept: real)
    requires |xs| == |ys| == 0
    ensures Residual(xs, ys, slope, intercept) == 0.0
  {}

  lemma SinglePoint(xs: seq<real>, ys: seq<real>)
    requires |xs| == |ys| == 1
    ensures Minimises(xs, ys, 0.0, 0.0) <==> ys[0] == 0.0
  {
    forall b: real, a: real
      ensures Residual(xs, ys, b, a) == Square(Term(-a, -b, 1.0, xs[0], ys[0])) >= 0.0
    {
      SquareSumStep(xs, ys, -a, -b, 1.0);
      SquareSign(Term(-a, -b, 1.0, xs[0], ys[0]));
    }
    SquareSign(ys[0]);
    SquareSign(0.0);
    assert Term(-0.0, -0.0, 1.0, xs[0], ys[0]) == ys[0];
    assert Term(-ys[0], -0.0, 1.0, xs[0], ys[0]) == 0.0;
    assert Residual(xs, ys, 0.0, ys[0]) == 0.0;
  }

  /** When the xs are not all equal no other line does as well. */
  lemma FitIsTheOnlyMinimum(xs: seq<real>, ys: seq<real>, slope: real, intercept: real)
    requires |xs| == |ys| && !AllEqual(xs)
    ensures var f := Fit(SumsOf(xs, ys));
            Residual(xs, ys, slope, intercept) == Residual(xs, ys, f.slope, f.intercept)
            <==> slope == f.slope && intercept == f.intercept
  {
    hide Fit, SumsOf, Residual, Term;
    var f := Fit(SumsOf(xs, ys));
    var u, v := intercept - f.intercept, slope - f.slope;
    var gaps := Affine(xs, ys, u, v, 0.0);
    ResidualOfOtherLine(xs, ys, slope, intercept);
    SumOfSquaresSign(gaps);
    var i, j :| 0 <= i < |xs| && 0 <= j < |xs| && xs[i] != xs[j];
    OnlyTheZeroLineVanishesTwice(u, v, xs[i], xs[j], ys[i], ys[j]);
    forall k | 0 <= k < |xs|
      ensures u == 0.0 && v == 0.0 ==> gaps[k] == 0.0
    {
      OnlyTheZeroLineVanishesTwice(u, v, xs[k], xs[k] + 1.0, ys[k], ys[k]);
    }
  }

  lemma OnlyTheZeroLineVanishesTwice(u: real, v: real, x: real, x': real, y: real, y': real)
    requires x != x'
    ensures Term(u, v, 0.0, x, y) == 0.0 && Term(u, v, 0.0, x', y') == 0.0 <==> u == 0.0 && v == 0.0
  {
    if Term(u, v, 0.0, x, y) == 0.0 && Term(u, v, 0.0, x', y') == 0.0 {
      assert v * (x - x') == 0.0;
    }
  }

  // ---------- variance decomposition ----------

  /** Total variation is explained plus residual variation. */
  lemma VariationSplits(xs: seq<real>, ys: seq<real>)
    requires |xs| == |ys| >= 2
    ensures var s := SumsOf(xs, ys);
            var f := Fit(s);
            Variation(xs, ys, Mean(s))
            == Explained(xs, ys, f.slope, f.intercept, Mean(s)) + Residual(xs, ys, f.slope, f.intercept)
  {
    hide Fit, SumsOf, Mean, Term, SquareSum;
    var s := SumsOf(xs, ys);
    var f, mean := Fit(s), Mean(s);
    ResidualOfOtherLine(xs, ys, 0.0, mean);
    assert -0.0 == 0.0;
    AffineOpposite(xs, ys, mean - f.intercept, 0.0 - f.slope);
  }

  lemma AffineOpposite(xs: seq<real>, ys: seq<real>, p: real, q: real)
    requires |xs| == |ys|
    ensures SquareSum(xs, ys, p, q, 0.0) == SquareSum(xs, ys, -p, -q, 0.0)
  {
    hide Square;
    SquaresOfOpposites(Affine(xs, ys, p, q, 0.0), Affine(xs, ys, -p, -q, 0.0));
  }

  lemma {:induction false} SquaresOfOpposites(vs: seq<real>, ws: seq<real>)
    requires |vs| == |ws|
    requires forall i :: 0 <= i < |vs| ==> ws[i] == -vs[i]
    ensures SumOfSquares(vs) == SumOfSquares(ws)
  {
    if |vs| != 0 {
      var k := |vs| - 1;
      SquaresOfOpposites(vs[..k], ws[..k]);
      assert Times(-vs[k], -vs[k]) == Times(vs[k], vs[k]);
    }
  }

  /** The two accumulators of the second loop in closed form. */
  lemma VariationsInClosedForm(xs: seq<real>, ys: seq<real>)
    requires |xs| == |ys| >= 2 && Denominator(SumsOf(xs, ys)) != 0.0
    ensures var s := SumsOf(xs, ys);
            var n, f := s.n as real, Fit(s);
            n * Variation(xs, ys, Mean(s)) == Spread(s)
            && n * Explained(xs, ys, f.slope, f.intercept, Mean(s)) * Denominator(s)
               == Times(Covariance(s), Covariance(s))
  {
    hide Fit, SumsOf, Expansion, SquareSum, Denominator, Covariance, Spread;
    var s := SumsOf(xs, ys);
    var n, f, mean := s.n as real, Fit(s), Mean(s);
    SquareSumExpands(xs, ys, -mean, 0.0, 1.0);
    SquareSumExpands(xs, ys, f.intercept - mean, f.slope, 0.0);
    Cancel(s.y, n);
    ClosedVariation(s, mean);
    FitSolves(s);
    ClosedExplained(s, f.slope, f.intercept - mean);
  }

  lemma ClosedVariation(s: Sums, mean: real)
    requires mean * s.n as real == s.y
    ensures s.n as real * Expansion(s, -mean, 0.0, 1.0) == Spread(s)
  {
    var n := s.n as real;
    assert Expansion(s, -mean, 0.0, 1.0) == n * mean * mean + s.yy - 2.0 * mean * s.y;
    assert n * (n * mean * mean) == (mean * n) * (mean * n);
    assert n * (2.0 * mean * s.y) == 2.0 * (mean * n) * s.y;
  }

  lemma ClosedExplained(s: Sums, b: real, p: real)
    requires b * Denominator(s) == Covariance(s) && p * s.n as real == -(b * s.x)
    ensures s.n as real * Expansion(s, p, b, 0.0) * Denominator(s) == Times(Covariance(s), Covariance(s))
  {
    hide Covariance;
    var n, dx := s.n as real, Denominator(s);
    var e, w := Expansion(s, p, b, 0.0), b * s.x;
    assert e == n * p * p + b * b * s.xx + 2.0 * p * b * s.x;
    assert n * (n * p * p) == (p * n) * (p * n) == w * w;
    assert n * (2.0 * p * b * s.x) == 2.0 * (p * n) * w == -2.0 * w * w;
    assert n * e == b * b * (n * s.xx) - w * w;
    assert b * b * dx == b * b * (n * s.xx) - w * w;
    assert n * e * dx == (b * dx) * (b * dx);
  }

  /** A constant series is its own mean and forces slope 0. */
  lemma ConstantSeries(xs: seq<real>, ys: seq<real>)
    requires |xs| == |ys| >= 2
    ensures Variation(xs, ys, Mean(SumsOf(xs, ys))) == 0.0 <==> AllEqual(ys)
    ensures AllEqual(ys) ==> Fit(SumsOf(xs, ys)).slope == 0.0
  {
    hide SumsOf, Mean, Covariance, Denominator, Spread, Term, Fit, YsAre, Square;
    var s := SumsOf(xs, ys);
    var mean := Mean(s);
    var vs := Affine(xs, ys, -mean, 0.0, 1.0);
    SumOfSquaresSign(vs);
    if AllEqual(ys) {
      EqualYs(xs, ys, ys[0]);
      MeanOfConstant(s, ys[0]);
      FlatSlope(s);
    }
    forall i | 0 <= i < |ys|
      ensures vs[i] == 0.0 <==> ys[i] == mean
    {
      DeviationFrom(mean, xs[i], ys[i]);
    }
    if Variation(xs, ys, mean) == 0.0 {
      assert forall i :: 0 <= i < |ys| ==> vs[i] == 0.0;
    }
  }

  lemma FlatSlope(s: Sums)
    requires Covariance(s) == 0.0
    ensures Fit(s).slope == 0.0
  {
    hide Covariance, Denominator, Spread, Quotient, Times, Mean;
  }

  lemma DeviationFrom(mean: real, x: real, y: real)
    ensures Term(-mean, 0.0, 1.0, x, y) == y - mean
  {}

  predicate YsAre(s: Sums, y: real) {
    s.y == s.n as real * y && s.xy == s.x * y
  }

  lemma MeanOfConstant(s: Sums, y: real)
    requires s.n >= 2 && YsAre(s, y)
    ensures Mean(s) == y && Covariance(s) == 0.0
  {
    var n := s.n as real;
    Cancel(s.y, n);
    assert (Mean(s) - y) * n == 0.0;
    assert n * s.xy == n * (s.x * y) == s.x * (n * y);
  }

  lemma {:induction false} EqualYs(xs: seq<real>, ys: seq<real>, y: real)
    requires |xs| == |ys|
    requires forall i :: 0 <= i < |ys| ==> ys[i] == y
    ensures YsAre(SumsOf(xs, ys), y)
  {
    hide YsAre, Push;
    if |ys| == 0 {
      assert YsAre(Sums(0, 0.0, 0.0, 0.0, 0.0, 0.0), y) by { NoYs(y); }
    } else {
      var k := |ys| - 1;
      EqualYs(xs[..k], ys[..k], y);
      EqualYsStep(SumsOf(xs[..k], ys[..k]), xs[k], y);
    }
  }

  lemma NoYs(y: real)
    ensures YsAre(Sums(0, 0.0, 0.0, 0.0, 0.0, 0.0), y)
  {}

  lemma EqualYsStep(s: Sums, x: real, y: real)
    requires YsAre(s, y)
    ensures YsAre(Push(s, x, y), y)
  {
    assert (s.n + 1) as real == s.n as real + 1.0;
  }

  /** R² is the share of the variation that is explained, always in [0, 1],
      and is 1 exactly when every sample lies on the fitted line. */
  lemma R2IsExplainedShare(xs: seq<real>, ys: seq<real>)
    requires |xs| == |ys| && !AllEqual(xs)
    ensures var s := SumsOf(xs, ys);
            var f := Fit(s);
            && 0.0 <= f.r2 <= 1.0
            && (!AllEqual(ys) ==>
                  f.r2 == Quotient(Explained(xs, ys, f.slope, f.intercept, Mean(s)), Variation(xs, ys, Mean(s))))
            && (f.r2 == 1.0 <==> forall i :: 0 <= i < |xs| ==> ys[i] == f.intercept + f.slope * xs[i])
  {
    hide SumsOf, Mean, Covariance, Denominator, Spread, Residual, Explained, Variation, Quotient, Fit, Times;
    var s := SumsOf(xs, ys);
    var f := Fit(s);
    DenominatorSign(xs, ys);
    VariationSplits(xs, ys);
    VariationsInClosedForm(xs, ys);
    ConstantSeries(xs, ys);
    VariationSigns(xs, ys, f.slope, f.intercept, Mean(s));
    ShareOfVariation(s.n as real, Explained(xs, ys, f.slope, f.intercept, Mean(s)), Variation(xs, ys, Mean(s)),
          Denominator(s), Spread(s), Covariance(s));
    R2Cases(s);
  }

  lemma R2Cases(s: Sums)
    requires s.n >= 2 && Denominator(s) != 0.0
    ensures Spread(s) == 0.0 ==> Fit(s).r2 == 1.0
    ensures Spread(s) != 0.0 ==>
              Fit(s).r2 == Quotient(Times(Covariance(s), Covariance(s)), Times(Denominator(s), Spread(s)))
  {
    hide Covariance, Denominator, Spread, Quotient, Times, Mean;
  }

  lemma VariationSigns(xs: seq<real>, ys: seq<real>, slope: real, intercept: real, mean: real)
    requires |xs| == |ys|
    ensures Residual(xs, ys, slope, intercept) >= 0.0
    ensures Explained(xs, ys, slope, intercept, mean) >= 0.0
    ensures Residual(xs, ys, slope, intercept) == 0.0
            <==> forall i :: 0 <= i < |xs| ==> ys[i] == intercept + slope * xs[i]
  {
    hide Term;
    var gaps := Affine(xs, ys, -intercept, -slope, 1.0);
    SumOfSquaresSign(gaps);
    SumOfSquaresSign(Affine(xs, ys, intercept - mean, slope, 0.0));
    forall i | 0 <= i < |xs|
      ensures gaps[i] == 0.0 <==> ys[i] == intercept + slope * xs[i]
    {
      GapAt(slope, intercept, xs[i], ys[i]);
    }
    if Residual(xs, ys, slope, intercept) == 0.0 {
      assert forall i :: 0 <= i < |xs| ==> gaps[i] == 0.0;
    }
  }

  lemma GapAt(slope: real, intercept: real, x: real, y: real)
    ensures Term(-intercept, -slope, 1.0, x, y) == y - (intercept + slope * x)
  {}

  lemma ShareOfVariation(n: real, explained: real, total: real, dx: real, dy: real, cov: real)
    requires n > 0.0 && dx > 0.0 && 0.0 <= explained <= total
    requires n * total == dy && n * explained * dx == Times(cov, cov)
    ensures dy == 0.0 <==> total == 0.0
    ensures total != 0.0 ==> Quotient(Times(cov, cov), Times(dx, dy)) == Quotient(explained, total)
    ensures total != 0.0 ==> 0.0 <= Quotient(explained, total) <= 1.0
    ensures total != 0.0 ==> (Quotient(explained, total) == 1.0 <==> explained == total)
  {
    if total != 0.0 {
      assert dy > 0.0;
      assert dx * dy > 0.0;
      var q := explained / total;
      Cancel(explained, total);
      assert q * (dx * dy) == n * (q * total) * dx;
      assert q * (dx * dy) == cov * cov;
    }
  }

  // ---------- the code ----------

  /** `linearRegression`: two accumulating passes and the two clamps. The
      result is the closed-form fit; in particular neither clamp changes it. */
  method LinearRegression(xs: seq<real>, ys: seq<real>) returns (slope: real, intercept: real, r2: real)
    requires |xs| == |ys|
    ensures Line(slope, intercept, r2) == Fit(SumsOf(xs, ys))
    ensures 0.0 <= r2 <= 1.0
    ensures Minimises(xs, ys, slope, intercept) <==> (|xs| == 1 ==> ys[0] == 0.0)
  {
    hide Minimises, SumsOf, Explained, Variation, AllEqual, Quotient, Spread, Times, Fit, Denominator, Covariance, Mean;
    FitMinimises(xs, ys);
    FitCases(SumsOf(xs, ys));
    var n := |xs| as real;
    if n < 2.0 {
      return 0.0, 0.0, 0.0;
    }
    var sumX, sumY, sumXY, sumX2, sumY2 := AccumulateSums(xs, ys);
    var denom := n * sumX2 - sumX * sumX;
    if denom == 0.0 {
      return 0.0, sumY / n, 0.0;
    }
    slope := (n * sumXY - sumX * sumY) / denom;
    intercept := (sumY - slope * sumX) / n;

    var meanY := sumY / n;
    var ssr, sst := SquaredDeviations(xs, ys, slope, intercept, meanY);
    RatioIsR2(xs, ys);
    if sst == 0.0 {
      if slope == 0.0 {
        return slope, intercept, 1.0;
      }
      return slope, intercept, 0.0;
    }
    r2 := ssr / sst;
    RatioIsQuotient(ssr, sst);
    if r2 < 0.0 {
      r2 := 0.0;
    }
    if r2 > 1.0 {
      r2 := 1.0;
    }
  }

  /** The fit in the raw sums. */
  lemma FitCases(s: Sums)
    ensures s.n < 2 ==> Fit(s) == Line(0.0, 0.0, 0.0)
    ensures Denominator(s) == s.n as real * s.xx - s.x * s.x
    ensures s.n > 0 ==> Mean(s) == s.y / s.n as real
    ensures s.n >= 2 && Denominator(s) == 0.0 ==> Fit(s) == Line(0.0, Mean(s), 0.0)
    ensures s.n >= 2 && Denominator(s) != 0.0 ==>
      && Fit(s).slope == (s.n as real * s.xy - s.x * s.y) / Denominator(s)
      && Fit(s).intercept == (s.y - Fit(s).slope * s.x) / s.n as real
  {
    hide Spread, Quotient, Times;
  }

  lemma RatioIsQuotient(a: real, b: real)
    requires b != 0.0
    ensures Quotient(a, b) == a / b
  {}

  /** What the second pass finds: no variation only with slope 0, where R² is
      reported as 1, and otherwise a ratio that is R² and needs no clamp. */
  lemma RatioIsR2(xs: seq<real>, ys: seq<real>)
    requires |xs| == |ys| >= 2 && Denominator(SumsOf(xs, ys)) != 0.0
    ensures var s := SumsOf(xs, ys);
            var f := Fit(s);
            var ssr, sst := Explained(xs, ys, f.slope, f.intercept, Mean(s)), Variation(xs, ys, Mean(s));
            && 0.0 <= f.r2 <= 1.0
            && f.r2 == (if sst == 0.0 then 1.0 else Quotient(ssr, sst))
            && (sst == 0.0 ==> f.slope == 0.0)
  {
    hide SumsOf, Mean, Covariance, Denominator, Spread, Residual, Explained, Variation, Quotient, Fit, Times;
    var s := SumsOf(xs, ys);
    DenominatorSign(xs, ys);
    R2IsExplainedShare(xs, ys);
    ConstantSeries(xs, ys);
    VariationsInClosedForm(xs, ys);
    R2Cases(s);
  }

  /** The first loop of `linearRegression`. */
  method AccumulateSums(xs: seq<real>, ys: seq<real>)
    returns (sumX: real, sumY: real, sumXY: real, sumX2: real, sumY2: real)
    requires |xs| == |ys|
    ensures Sums(|xs|, sumX, sumY, sumXY, sumX2, sumY2) == SumsOf(xs, ys)
  {
    sumX, sumY, sumXY, sumX2, sumY2 := 0.0, 0.0, 0.0, 0.0, 0.0;
    for i := 0 to |xs|
      invariant Sums(i, sumX, sumY, sumXY, sumX2, sumY2) == SumsOf(xs[..i], ys[..i])
    {
      assert xs[..i + 1][..i] == xs[..i] && ys[..i + 1][..i] == ys[..i];
      sumX, sumY := sumX + xs[i], sumY + ys[i];
      sumXY := sumXY + xs[i] * ys[i];
      sumX2 := sumX2 + xs[i] * xs[i];
      sumY2 := sumY2 + ys[i] * ys[i];
    }
    assert xs[..|xs|] == xs && ys[..|ys|] == ys;
  }

  /** The second loop of `linearRegression`. */
  method SquaredDeviations(xs: seq<real>, ys: seq<real>, slope: real, intercept: real, meanY: real)
    returns (ssr: real, sst: real)
    requires |xs| == |ys|
    ensures ssr == Explained(xs, ys, slope, intercept, meanY)
    ensures sst == Variation(xs, ys, meanY)
  {
    ssr, sst := 0.0, 0.0;
    for i := 0 to |xs|
      invariant ssr == Explained(xs[..i], ys[..i], slope, intercept, meanY)
      invariant sst == Variation(xs[..i], ys[..i], meanY)
    {
      assert xs[..i + 1][..i] == xs[..i] && ys[..i + 1][..i] == ys[..i];
      SquareSumStep(xs[..i + 1], ys[..i + 1], intercept - meanY, slope, 0.0);
      SquareSumStep(xs[..i + 1], ys[..i + 1], -meanY, 0.0, 1.0);
      var pred := intercept + slope * xs[i];
      assert pred - meanY == Term(intercept - meanY, slope, 0.0, xs[i], ys[i]);
      assert ys[i] - meanY == Term(-meanY, 0.0, 1.0, xs[i], ys[i]);
      ssr := ssr + (pred - meanY) * (pred - meanY);
      sst := sst + (ys[i] - meanY) * (ys[i] - meanY);
    }
    assert xs[..|xs|] == xs && ys[..|ys|] == ys;
  }
}
