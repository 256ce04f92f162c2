/** analytics.py `_mean` and `_stddev` in exact arithmetic, and how they follow a change of scale v -> a * v + b. */
module Statistics {
  import opened Vectors

  function Abs(x: real): real { if x >= 0.0 then x else -x }

  function Map<T, U>(f: T -> U, v: seq<T>): seq<U> {
    seq(|v|, i requires 0 <= i < |v| => f(v[i]))
  }

  function Sum(v: seq<real>): real {
    if v == [] then 0.0 else v[0] + Sum(v[1..])
  }

  function Mean(v: seq<real>): real
    requires v != []
  {
    Sum(v) / |v| as real
  }

  function Square(x: real): real { x * x }

  function SquareFrom(m: real): real -> real { x => Square(x - m) }

  function SquaredDeviations(v: seq<real>, m: real): real { Sum(Map(SquareFrom(m), v)) }

  function Variance(v: seq<real>): real
    requires v != []
  {
    SquaredDeviations(v, Mean(v)) / |v| as real
  }

  function StdDev(sqrt: real -> real, v: seq<real>): real {
    if |v| < 2 then 0.0 else sqrt(Variance(v))
  }

  /** The sum is that of the parts; together with one-element sums this fixes it. */
  lemma {:induction false} SumOfParts(a: seq<real>, b: seq<real>, x: real)
    ensures Sum(a + b) == Sum(a) + Sum(b) && Sum([x]) == x
  {
    if a == [] {
      assert a + b == b;
    } else {
      assert (a + b)[1..] == a[1..] + b;
      SumOfParts(a[1..], b, x);
    }
  }

  lemma {:induction false} SumNonNegative(v: seq<real>)
    requires forall i :: 0 <= i < |v| ==> v[i] >= 0.0
    ensures Sum(v) >= 0.0
  {
    if v == [] {
    } else {
      SumNonNegative(v[1..]);
    }
  }

  lemma SquaredDeviationsNonNegative(v: seq<real>, m: real)
    ensures SquaredDeviations(v, m) >= 0.0
  {
    forall i | 0 <= i < |v| ensures Map(SquareFrom(m), v)[i] >= 0.0 {
      SquarePositive(v[i] - m, Square(v[i] - m));
    }
    SumNonNegative(Map(SquareFrom(m), v));
  }

  lemma QuotientNonNegative(x: real, n: real)
    requires x >= 0.0 && n > 0.0
    ensures x / n >= 0.0
  {
  }

  lemma StdDevNonNegative(sqrt: real -> real, v: seq<real>)
    requires IsSqrt(sqrt)
    ensures StdDev(sqrt, v) >= 0.0
  {
    if |v| >= 2 {
      SquaredDeviationsNonNegative(v, Mean(v));
      QuotientNonNegative(SquaredDeviations(v, Mean(v)), |v| as real);
    }
  }

  // ---- Change of scale ----

  function Line(a: real, b: real): real -> real { x => a * x + b }

  function Affine(v: seq<real>, a: real, b: real): seq<real> { Map(Line(a, b), v) }

  lemma MapTail<T, U>(f: T -> U, v: seq<T>)
    requires v != []
    ensures Map(f, v)[1..] == Map(f, v[1..]) && Map(f, v)[0] == f(v[0])
  {
  }

  lemma DistributeRight(a: real, b: real, k: real)
    ensures (a + b) * k == a * k + b * k
  {
  }

  lemma SumStep(a: real, x: real, s: real, n: real, b: real)
    ensures a * x + b + (a * s + n * b) == a * (x + s) + (n + 1.0) * b
  {
    Distribute(a, x, s);
    DistributeRight(n, 1.0, b);
    assert 1.0 * b == b;
  }

  lemma {:induction false} SumAffine(v: seq<real>, a: real, b: real)
    ensures Sum(Affine(v, a, b)) == a * Sum(v) + |v| as real * b
  {
    if v == [] {
    } else {
      MapTail(Line(a, b), v);
      SumAffine(v[1..], a, b);
      SumStep(a, v[0], Sum(v[1..]), |v[1..]| as real, b);
    }
  }

  lemma QuotientOfAffine(a: real, s: real, n: real, b: real)
    requires n > 0.0
    ensures (a * s + n * b) / n == a * (s / n) + b
  {
    var q := s / n;
    assert a * s + n * b == n * (a * q + b) by {
      assert s == n * q;
      assert a * (n * q) == n * (a * q);
    }
    Cancel(n, a * q + b);
  }

  lemma Cancel(n: real, x: real)
    requires n != 0.0
    ensures n * x / n == x
  {
  }

  lemma MeanAffine(v: seq<real>, a: real, b: real)
    requires v != []
    ensures Mean(Affine(v, a, b)) == Line(a, b)(Mean(v))
  {
    SumAffine(v, a, b);
    QuotientOfAffine(a, Sum(v), |v| as real, b);
  }

  /** The mean is the point from which the deviations balance. */
  lemma MeanBalances(v: seq<real>)
    requires v != []
    ensures Sum(Affine(v, 1.0, -Mean(v))) == 0.0
  {
    SumAffine(v, 1.0, -Mean(v));
    TimesOwnShare(Sum(v), |v| as real);
  }

  lemma TimesOwnShare(s: real, n: real)
    requires n != 0.0
    ensures n * -(s / n) == -s
  {
  }

  lemma SquareStep(x: real, m: real, p: real, s: real, n: real, rest: real, more: real, square: real, total: real)
    requires rest == p - 2.0 * (m * s) + n * (m * m)
    requires more == n + 1.0 && square == x * x + p && total == x + s
    ensures Square(x - m) + rest == square - 2.0 * (m * total) + more * (m * m)
  {
    Distribute(m, x, s);
    DistributeRight(n, 1.0, m * m);
    assert (x - m) * (x - m) == x * x - 2.0 * (m * x) + m * m;
  }

  lemma {:induction false} DeviationsFromSquares(v: seq<real>, m: real)
    ensures SquaredDeviations(v, m) == SumSquares(v) - 2.0 * (m * Sum(v)) + |v| as real * (m * m)
  {
    if v == [] {
    } else {
      MapTail(SquareFrom(m), v);
      DeviationsFromSquares(v[1..], m);
      SquareStep(v[0], m, SumSquares(v[1..]), Sum(v[1..]), |v[1..]| as real, SquaredDeviations(v[1..], m),
                 |v| as real, SumSquares(v), Sum(v));
    }
  }

  lemma MeanSquared(s: real, n: real, m: real)
    requires n > 0.0 && m == s / n
    ensures m * s == n * (m * m)
  {
    assert s == n * m;
  }

  /** The variance is the mean of the squares less the square of the mean (over n values, not n - 1), and the standard
      deviation its root; fewer than two values have none. */
  lemma VarianceFromSquares(sqrt: real -> real, v: seq<real>, m: real, n: real, variance: real)
    requires IsSqrt(sqrt) && v != [] && m == Mean(v) && n == |v| as real
    requires n * variance == SumSquares(v) - n * (m * m)
    ensures Variance(v) == variance >= 0.0
    ensures |v| >= 2 ==> IsRoot(StdDev(sqrt, v), variance)
    ensures |v| == 1 ==> StdDev(sqrt, v) == 0.0
  {
    DeviationsFromSquares(v, m);
    MeanSquared(Sum(v), n, m);
    assert SquaredDeviations(v, m) == n * variance;
    Cancel(n, variance);
    SquaredDeviationsNonNegative(v, m);
    QuotientNonNegative(SquaredDeviations(v, m), n);
    PositiveRoot(sqrt, variance);
    if |v| >= 2 {
      SameRoot(StdDev(sqrt, v), sqrt(variance), variance);
    }
  }

  lemma SameRoot(r: real, q: real, x: real)
    requires r == q && IsRoot(q, x)
    ensures IsRoot(r, x)
  {
  }

  function Times(k: real): real -> real { x => k * x }

  lemma {:induction false} SumTimes(v: seq<real>, k: real)
    ensures Sum(Map(Times(k), v)) == Times(k)(Sum(v))
  {
    if v == [] {
      assert k * 0.0 == 0.0;
    } else {
      MapTail(Times(k), v);
      SumTimes(v[1..], k);
      Distribute(k, v[0], Sum(v[1..]));
    }
  }

  /** When g after f is k after h on every element, it is so on the whole sequence. */
  lemma MapsCommute(v: seq<real>, f: real -> real, g: real -> real, h: real -> real, k: real -> real)
    requires forall i :: 0 <= i < |v| ==> g(f(v[i])) == k(h(v[i]))
    ensures Map(g, Map(f, v)) == Map(k, Map(h, v))
  {
  }

  lemma SquareOfProduct(a: real, d: real)
    ensures a * d * (a * d) == a * a * (d * d)
  {
  }

  lemma DeviationStep(a: real, x: real, m: real, b: real, shifted: real, square: real)
    requires shifted == a * m + b && square == a * a
    ensures SquareFrom(shifted)(Line(a, b)(x)) == Times(square)(SquareFrom(m)(x))
  {
    var d := x - m;
    Distribute(a, x, -m);
    assert Line(a, b)(x) - shifted == a * d;
    SquareOfProduct(a, d);
    assert Square(Line(a, b)(x) - shifted) == square * Square(d);
  }

  lemma DeviationsAffine(v: seq<real>, a: real, b: real, m: real, shifted: real, square: real)
    requires shifted == a * m + b && square == a * a
    ensures SquaredDeviations(Affine(v, a, b), shifted) == Times(square)(SquaredDeviations(v, m))
  {
    forall i | 0 <= i < |v| ensures SquareFrom(shifted)(Line(a, b)(v[i])) == Times(square)(SquareFrom(m)(v[i])) {
      DeviationStep(a, v[i], m, b, shifted, square);
    }
    MapsCommute(v, Line(a, b), SquareFrom(shifted), SquareFrom(m), Times(square));
    SumTimes(Map(SquareFrom(m), v), square);
  }

  lemma ScaledQuotient(k: real, x: real, n: real)
    requires n > 0.0
    ensures k * x / n == k * (x / n)
  {
    var q := x / n;
    assert x == n * q;
    assert k * (n * q) == n * (k * q);
    Cancel(n, k * q);
  }

  lemma RootIsUnique(r: real, q: real, x: real)
    requires IsRoot(r, x) && IsRoot(q, x)
    ensures r == q
  {
    var sum, difference := r + q, r - q;
    assert sum * difference == r * r - q * q;
    if r > q {
      ProductPositive(sum, difference, sum * difference);
    } else if q > r {
      ProductPositive(sum, -difference, sum * -difference);
    }
  }

  lemma ScaledRoot(a: real, r: real, x: real)
    requires IsRoot(r, x)
    ensures IsRoot(Abs(a) * r, a * a * x)
  {
    var p := Abs(a);
    assert p * p == a * a;
    assert p * r * (p * r) == p * p * (r * r);
    ProductNonNegative(p, r, p * r);
  }

  lemma ProductNonNegative(p: real, r: real, product: real)
    requires p >= 0.0 && r >= 0.0 && product == p * r
    ensures product >= 0.0
  {
    if p > 0.0 && r > 0.0 {
      ProductPositive(p, r, product);
    }
  }

  lemma VarianceAffine(v: seq<real>, a: real, b: real, square: real)
    requires v != [] && square == a * a
    ensures Variance(Affine(v, a, b)) == square * Variance(v) && Variance(v) >= 0.0
  {
    var m, n := Mean(v), |v| as real;
    MeanAffine(v, a, b);
    DeviationsAffine(v, a, b, m, Mean(Affine(v, a, b)), square);
    SquaredDeviationsNonNegative(v, m);
    ScaledQuotient(square, SquaredDeviations(v, m), n);
    QuotientNonNegative(SquaredDeviations(v, m), n);
  }

  lemma ScaledSqrt(sqrt: real -> real, a: real, x: real, y: real)
    requires IsSqrt(sqrt) && x >= 0.0 && y == a * a * x
    ensures sqrt(y) == Abs(a) * sqrt(x)
  {
    PositiveRoot(sqrt, x);
    ScaledRoot(a, sqrt(x), x);
    SquarePositive(a, a * a);
    ProductNonNegative(a * a, x, a * a * x);
    PositiveRoot(sqrt, y);
    RootIsUnique(sqrt(y), Abs(a) * sqrt(x), y);
  }

  /** The standard deviation scales with |a| and ignores the shift. */
  lemma StdDevAffine(sqrt: real -> real, v: seq<real>, a: real, b: real)
    requires IsSqrt(sqrt)
    ensures StdDev(sqrt, Affine(v, a, b)) == Abs(a) * StdDev(sqrt, v)
  {
    if |v| >= 2 {
      VarianceAffine(v, a, b, a * a);
      ScaledSqrt(sqrt, a, Variance(v), Variance(Affine(v, a, b)));
    }
  }

  lemma ScaledDistance(a: real, b: real, x: real, m: real, fx: real, fm: real)
    requires fx == Line(a, b)(x) && fm == Line(a, b)(m)
    ensures Abs(fx - fm) == Abs(a) * Abs(x - m)
  {
    var d := x - m;
    Distribute(a, x, -m);
    assert fx - fm == a * d;
    AbsProduct(a, d);
  }

  lemma AbsProduct(a: real, d: real)
    ensures Abs(a * d) == Abs(a) * Abs(d)
  {
    var p, q := Abs(a), Abs(d);
    ProductNonNegative(p, q, p * q);
    assert a * d == p * q || a * d == -(p * q) by {
      assert p * -q == -(p * q) && -p * q == -(p * q) && -p * -q == p * q;
    }
  }

  lemma CommonFactor(p: real, x: real, s: real)
    requires p > 0.0 && s != 0.0
    ensures p * s != 0.0 && p * x / (p * s) == x / s
  {
    NonZeroProduct(p, s);
    var q := x / s;
    assert x == s * q;
    assert p * (s * q) == p * s * q;
    Cancel(p * s, q);
  }

  lemma NonZeroProduct(p: real, s: real)
    requires p > 0.0
    ensures p * s == 0.0 <==> s == 0.0
  {
    if s > 0.0 {
      ProductPositive(p, s, p * s);
    } else if s < 0.0 {
      ProductPositive(p, -s, p * -s);
    }
  }
}
