/** Vector similarity and score normalisation, in exact real arithmetic. */
module Vectors {

  predicate IsRoot(root: real, x: real) { root >= 0.0 && root * root == x }

  /** What the model assumes of `math.sqrt`. */
  ghost predicate IsSqrt(sqrt: real -> real) {
    forall x :: x >= 0.0 ==> IsRoot(sqrt(x), x)
  }

  function Dot(l: seq<real>, r: seq<real>): real
    requires |l| == |r|
  {
    if l == [] then 0.0 else l[0] * r[0] + Dot(l[1..], r[1..])
  }

  function SumSquares(v: seq<real>): real { Dot(v, v) }

  lemma {:induction false} SumSquaresNonNegative(v: seq<real>)
    ensures SumSquares(v) >= 0.0
  {
    if v == [] {
    } else {
      SumSquaresNonNegative(v[1..]);
      SquarePositive(v[0], v[0] * v[0]);
    }
  }

  function Combine(x: real, l: seq<real>, y: real, r: seq<real>): seq<real>
    requires |l| == |r|
  {
    if l == [] then [] else [x * l[0] - y * r[0]] + Combine(x, l[1..], y, r[1..])
  }

  function Quadratic(x: real, p: real, y: real, q: real, d: real): real {
    x * x * p - 2.0 * x * y * d + y * y * q
  }

  lemma {:induction false} SumSquaresOfCombination(x: real, l: seq<real>, y: real, r: seq<real>)
    requires |l| == |r|
    ensures SumSquares(Combine(x, l, y, r)) == Quadratic(x, SumSquares(l), y, SumSquares(r), Dot(l, r))
  {
    if l == [] {
    } else {
      SumSquaresOfCombination(x, l[1..], y, r[1..]);
      var whole := Combine(x, l, y, r);
      assert whole[1..] == Combine(x, l[1..], y, r[1..]);
      CombinationStep(x, l[0], SumSquares(l[1..]), y, r[0], SumSquares(r[1..]), Dot(l[1..], r[1..]));
    }
  }

  lemma CombinationStep(x: real, a: real, p: real, y: real, b: real, q: real, d: real)
    ensures (x * a - y * b) * (x * a - y * b) + Quadratic(x, p, y, q, d)
         == Quadratic(x, a * a + p, y, b * b + q, a * b + d)
  {
    assert (x * a - y * b) * (x * a - y * b) == x * x * (a * a) - 2.0 * x * y * (a * b) + y * y * (b * b);
    Distribute(x * x, a * a, p);
    Distribute(2.0 * x * y, a * b, d);
    Distribute(y * y, b * b, q);
  }

  lemma Distribute(k: real, a: real, b: real)
    ensures k * (a + b) == k * a + k * b
  {
  }

  /** (l . r)^2 <= (l . l)(r . r). */
  lemma CauchySchwarz(l: seq<real>, r: seq<real>)
    requires |l| == |r|
    ensures Dot(l, r) * Dot(l, r) <= SumSquares(l) * SumSquares(r)
  {
    var a, b, s := SumSquares(l), SumSquares(r), Dot(l, r);
    SumSquaresNonNegative(r);
    if b == 0.0 {
      DotWithZero(l, r);
    } else {
      SumSquaresOfCombination(b, l, s, r);
      SumSquaresNonNegative(Combine(b, l, s, r));
      Discriminant(a, b, s);
    }
  }

  lemma {:induction false} DotWithZero(l: seq<real>, r: seq<real>)
    requires |l| == |r| && SumSquares(r) == 0.0
    ensures Dot(l, r) == 0.0
  {
    if l == [] {
    } else {
      SumSquaresNonNegative(r[1..]);
      SquarePositive(r[0], r[0] * r[0]);
      DotWithZero(l[1..], r[1..]);
    }
  }

  lemma Discriminant(a: real, b: real, s: real)
    requires b > 0.0 && Quadratic(b, a, s, b, s) >= 0.0
    ensures s * s <= a * b
  {
    var ss := s * s;
    var slack := a * b - ss;
    calc {
      Quadratic(b, a, s, b, s);
      b * (a * b) - b * (2.0 * ss) + b * ss;
      { Distribute(b, a * b, -(2.0 * ss)); Distribute(b, a * b - 2.0 * ss, ss); }
      b * slack;
    }
    if slack < 0.0 {
      ProductPositive(b, -slack, -(b * slack));
    }
  }

  /** If s^2 <= m^2 for a positive m, the quotient s/m lies in [-1, 1]. */
  lemma QuotientBound(s: real, m: real)
    requires m > 0.0 && s * s <= m * m
    ensures -1.0 <= s / m <= 1.0
  {
    SquareGrows(m, s);
    SquareGrows(m, -s);
    assert (-s) * (-s) == s * s;
    var q := s / m;
    assert q * m == s;
    ProductGrows(q, m);
    ProductGrows(-q, m);
    assert (-q) * m == -s;
  }

  lemma SquareGrows(m: real, s: real)
    requires 0.0 < m
    ensures m < s ==> m * m < s * s
  {
    if m < s {
      assert m * m < m * s < s * s;
    }
  }

  lemma ProductGrows(q: real, m: real)
    requires 0.0 < m
    ensures 1.0 < q ==> m < q * m
  {
  }

  lemma ProductPositive(a: real, b: real, p: real)
    requires a > 0.0 && b > 0.0 && p == a * b
    ensures p > 0.0
  {
  }

  lemma SquarePositive(r: real, p: real)
    requires p == r * r
    ensures r == 0.0 ==> p == 0.0
    ensures r != 0.0 ==> p > 0.0
  {
    if r > 0.0 {
      ProductPositive(r, r, p);
    } else if r < 0.0 {
      ProductPositive(-r, -r, p);
    }
  }

  lemma PositiveRoot(sqrt: real -> real, x: real)
    requires IsSqrt(sqrt) && x >= 0.0
    ensures IsRoot(sqrt(x), x)
    ensures x == 0.0 ==> sqrt(x) == 0.0
    ensures x > 0.0 ==> sqrt(x) > 0.0
  {
    SquarePositive(sqrt(x), x);
  }

  /** knowledge.py compares the common prefix of the two vectors. */
  function CosineSimilarity(sqrt: real -> real, left: seq<real>, right: seq<real>): real {
    if left == [] || right == [] then 0.0
    else
      var n := if |left| < |right| then |left| else |right|;
      Cosine(sqrt, left[..n], right[..n])
  }

  function Cosine(sqrt: real -> real, l: seq<real>, r: seq<real>): real
    requires |l| == |r|
  {
    Quotient(Dot(l, r), sqrt(SumSquares(l)), sqrt(SumSquares(r)))
  }

  function Quotient(dot: real, lm: real, rm: real): real {
    if lm == 0.0 || rm == 0.0 then 0.0 else assert lm * rm != 0.0; dot / (lm * rm)
  }

  lemma CosineRange(sqrt: real -> real, l: seq<real>, r: seq<real>)
    requires IsSqrt(sqrt) && |l| == |r|
    ensures -1.0 <= Cosine(sqrt, l, r) <= 1.0
  {
    var a, b := SumSquares(l), SumSquares(r);
    SumSquaresNonNegative(l);
    SumSquaresNonNegative(r);
    PositiveRoot(sqrt, a);
    PositiveRoot(sqrt, b);
    if b > 0.0 {
      CauchySchwarz(l, r);
      var s := Dot(l, r);
      QuotientRange(s, s * s, a, b, a * b, sqrt(a), sqrt(b));
    }
  }

  lemma QuotientRange(s: real, ss: real, a: real, b: real, ab: real, lm: real, rm: real)
    requires IsRoot(lm, a) && IsRoot(rm, b)
    requires ss == s * s && ab == a * b && ss <= ab
    ensures -1.0 <= Quotient(s, lm, rm) <= 1.0
  {
    if lm != 0.0 && rm != 0.0 {
      var m := lm * rm;
      ProductPositive(lm, rm, m);
      assert m * m == ab;
      QuotientBound(s, m);
    }
  }

  lemma CosineSimilarityRange(sqrt: real -> real, left: seq<real>, right: seq<real>)
    requires IsSqrt(sqrt)
    ensures -1.0 <= CosineSimilarity(sqrt, left, right) <= 1.0
  {
    if left != [] && right != [] {
      var n := if |left| < |right| then |left| else |right|;
      CosineRange(sqrt, left[..n], right[..n]);
    }
  }

  function Scaled(k: real, v: seq<real>): seq<real> { if v == [] then [] else [k * v[0]] + Scaled(k, v[1..]) }

  lemma {:induction false} DotScaled(k: real, v: seq<real>)
    ensures |Scaled(k, v)| == |v|
    ensures Dot(Scaled(k, v), v) == k * SumSquares(v)
    ensures SumSquares(Scaled(k, v)) == k * k * SumSquares(v)
  {
    if v == [] {
    } else {
      DotScaled(k, v[1..]);
      assert Scaled(k, v)[1..] == Scaled(k, v[1..]);
      ScaleStep(k, v[0], SumSquares(v[1..]));
    }
  }

  lemma ScaleStep(k: real, x: real, p: real)
    ensures k * x * x + k * p == k * (x * x + p)
    ensures k * x * (k * x) + k * k * p == k * k * (x * x + p)
  {
    Distribute(k, x * x, p);
    Distribute(k * k, x * x, p);
    assert k * x * (k * x) == k * k * (x * x);
  }

  lemma {:induction false} DotSymmetric(l: seq<real>, r: seq<real>)
    requires |l| == |r|
    ensures Dot(l, r) == Dot(r, l)
  {
    if l != [] {
      DotSymmetric(l[1..], r[1..]);
    }
  }

  lemma RootOfSquare(r: real, k: real, q: real, x: real, y: real)
    requires IsRoot(r, y) && y == k * k * x && IsRoot(q, x) && k > 0.0
    ensures r == k * q
  {
    var p := k * q;
    assert p * p == k * k * (q * q);
    var sum, difference := r + p, r - p;
    assert sum * difference == r * r - p * p;
    if p < 0.0 {
      ProductPositive(k, -q, -p);
    }
    if r > p {
      ProductPositive(sum, difference, sum * difference);
    } else if p > r {
      ProductPositive(sum, -difference, sum * -difference);
    }
  }

  lemma {:induction false} SomeSquare(v: seq<real>)
    ensures SumSquares(v) == 0.0 <==> forall i :: 0 <= i < |v| ==> v[i] == 0.0
  {
    if v == [] {
    } else {
      SomeSquare(v[1..]);
      SumSquaresNonNegative(v[1..]);
      SquarePositive(v[0], v[0] * v[0]);
      assert forall i :: 0 < i < |v| ==> v[i] == v[1..][i - 1];
    }
  }

  lemma QuotientOfSame(x: real, r: real, k: real, dot: real, kr: real)
    requires IsRoot(r, x) && x > 0.0 && k > 0.0 && dot == k * x && kr == k * r
    ensures Quotient(dot, kr, r) == 1.0
  {
    SquarePositive(r, x);
    ProductPositive(k, r, kr);
    ProductPositive(k, x, dot);
    assert k * r * r == k * (r * r);
    SelfQuotient(dot, kr * r);
  }

  lemma SelfQuotient(x: real, y: real)
    requires x == y && x != 0.0
    ensures x / y == 1.0
  {
  }

  /** Vectors that point the same way have similarity 1, whatever their lengths; a zero vector has none with any; the
      order of the two does not matter. */
  lemma CosineOfParallel(sqrt: real -> real, v: seq<real>, k: real)
    requires IsSqrt(sqrt) && k > 0.0
    ensures |Scaled(k, v)| == |v|
    ensures (exists i :: 0 <= i < |v| && v[i] != 0.0) ==> Cosine(sqrt, Scaled(k, v), v) == 1.0
    ensures (forall i :: 0 <= i < |v| ==> v[i] == 0.0) ==> Cosine(sqrt, Scaled(k, v), v) == 0.0
  {
    var x := SumSquares(v);
    DotScaled(k, v);
    SomeSquare(v);
    SumSquaresNonNegative(v);
    PositiveRoot(sqrt, x);
    var y := SumSquares(Scaled(k, v));
    SumSquaresNonNegative(Scaled(k, v));
    PositiveRoot(sqrt, y);
    RootOfSquare(sqrt(y), k, sqrt(x), x, y);
    if x > 0.0 {
      QuotientOfSame(x, sqrt(x), k, Dot(Scaled(k, v), v), sqrt(y));
    }
  }

  lemma CosineSymmetric(sqrt: real -> real, l: seq<real>, r: seq<real>)
    requires |l| == |r|
    ensures Cosine(sqrt, l, r) == Cosine(sqrt, r, l)
  {
    DotSymmetric(l, r);
    var a, b := sqrt(SumSquares(l)), sqrt(SumSquares(r));
    QuotientSymmetric(Dot(l, r), a, b);
  }

  lemma QuotientSymmetric(dot: real, a: real, b: real)
    ensures Quotient(dot, a, b) == Quotient(dot, b, a)
  {
    assert a * b == b * a;
  }

  /** The similarity of knowledge.py looks at the common prefix alone; an empty vector is similar to nothing. */
  lemma OnlyCommonPrefix(sqrt: real -> real, l: seq<real>, r: seq<real>, more: seq<real>)
    requires |l| == |r|
    ensures CosineSimilarity(sqrt, l + more, r) == CosineSimilarity(sqrt, l, r)
    ensures CosineSimilarity(sqrt, l, r + more) == CosineSimilarity(sqrt, l, r)
    ensures CosineSimilarity(sqrt, l, r) == if l == [] then 0.0 else Cosine(sqrt, l, r)
    ensures CosineSimilarity(sqrt, [], more) == 0.0 == CosineSimilarity(sqrt, more, [])
  {
    assert (l + more)[..|l|] == l && (r + more)[..|r|] == r && l[..|l|] == l && r[..|r|] == r;
  }

  /** Orthogonal vectors have similarity 0: the dot product is bilinear, and two different unit vectors have none. */
  lemma {:induction false} DotOfSum(a: seq<real>, b: seq<real>, c: seq<real>, r: seq<real>)
    requires |a| == |b| == |c| == |r| && forall i :: 0 <= i < |a| ==> c[i] == a[i] + b[i]
    ensures Dot(c, r) == Dot(a, r) + Dot(b, r)
  {
    if a == [] {
    } else {
      DotOfSum(a[1..], b[1..], c[1..], r[1..]);
      DistributeLeft(a[0], b[0], r[0]);
    }
  }

  lemma DistributeLeft(a: real, b: real, k: real)
    ensures (a + b) * k == a * k + b * k
  {
  }

  /** embedding_vector_rag.py refuses vectors of different lengths and clips below at 0. */
  function ClippedCosine(sqrt: real -> real, left: seq<real>, right: seq<real>): real {
    if left == [] || right == [] || |left| != |right| then 0.0
    else
      var c := Cosine(sqrt, left, right);
      if c > 0.0 then c else 0.0
  }

  /** It is the plain similarity where that is positive, and 0 otherwise and for vectors of different lengths. */
  lemma ClippedCosineMeans(sqrt: real -> real, left: seq<real>, right: seq<real>)
    ensures |left| != |right| || left == [] ==> ClippedCosine(sqrt, left, right) == 0.0
    ensures |left| == |right| > 0 ==>
              ClippedCosine(sqrt, left, right) >= 0.0
              && ClippedCosine(sqrt, left, right) >= CosineSimilarity(sqrt, left, right)
              && (ClippedCosine(sqrt, left, right) == 0.0
                  || ClippedCosine(sqrt, left, right) == CosineSimilarity(sqrt, left, right))
  {
    if |left| == |right| {
      OnlyCommonPrefix(sqrt, left, right, []);
    }
  }

  lemma ClippedCosineRange(sqrt: real -> real, left: seq<real>, right: seq<real>)
    requires IsSqrt(sqrt)
    ensures 0.0 <= ClippedCosine(sqrt, left, right) <= 1.0
  {
    if |left| == |right| {
      CosineRange(sqrt, left, right);
    }
  }

  // ---- Min-max normalisation of the keyword scores ----

  function Min(v: seq<real>): (lo: real)
    requires v != []
    ensures lo in v && forall i :: 0 <= i < |v| ==> lo <= v[i]
  {
    if |v| == 1 then v[0]
    else
      var rest := Min(v[1..]);
      assert forall i :: 1 <= i < |v| ==> v[i] == v[1..][i - 1];
      if v[0] <= rest then v[0] else rest
  }

  function Max(v: seq<real>): (hi: real)
    requires v != []
    ensures hi in v && forall i :: 0 <= i < |v| ==> v[i] <= hi
  {
    if |v| == 1 then v[0]
    else
      var rest := Max(v[1..]);
      assert forall i :: 1 <= i < |v| ==> v[i] == v[1..][i - 1];
      if v[0] >= rest then v[0] else rest
  }

  function Fraction(x: real, lo: real, hi: real): real
    requires hi != lo
  {
    (x - lo) / (hi - lo)
  }

  function NormalizeScores(raw: seq<real>): seq<real> {
    if raw == [] then []
    else
      var lo, hi := Min(raw), Max(raw);
      if hi == lo then seq(|raw|, i => 0.5)
      else seq(|raw|, i requires 0 <= i < |raw| => Fraction(raw[i], lo, hi))
  }

  lemma FractionRange(x: real, lo: real, hi: real)
    requires lo <= x <= hi && lo != hi
    ensures 0.0 <= Fraction(x, lo, hi) <= 1.0
  {
    UnitFraction(x - lo, hi - lo);
  }

  lemma UnitFraction(d: real, span: real)
    requires span > 0.0 && 0.0 <= d <= span
    ensures 0.0 <= d / span <= 1.0
  {
  }

  lemma FractionOrder(x: real, y: real, lo: real, hi: real)
    requires lo < hi
    ensures x < y ==> Fraction(x, lo, hi) < Fraction(y, lo, hi)
  {
    var p, q := (x - lo) / (hi - lo), (y - lo) / (hi - lo);
    var span := hi - lo;
    assert p * span == x - lo && q * span == y - lo;
    assert (q - p) * span == y - x;
  }

  lemma NormalizedPair(raw: seq<real>, i: nat, j: nat)
    requires i < |raw| && j < |raw|
    ensures |NormalizeScores(raw)| == |raw|
    ensures 0.0 <= NormalizeScores(raw)[i] <= 1.0
    ensures raw[i] < raw[j] ==> NormalizeScores(raw)[i] < NormalizeScores(raw)[j]
    ensures raw[i] == raw[j] ==> NormalizeScores(raw)[i] == NormalizeScores(raw)[j]
  {
    var lo, hi := Min(raw), Max(raw);
    assert lo <= raw[i] <= hi && lo <= raw[j] <= hi;
    if hi != lo {
      assert NormalizeScores(raw)[i] == Fraction(raw[i], lo, hi) && NormalizeScores(raw)[j] == Fraction(raw[j], lo, hi);
      FractionRange(raw[i], lo, hi);
      FractionOrder(raw[i], raw[j], lo, hi);
    }
  }

  lemma FractionSteps(x: real, y: real, z: real, w: real, lo: real, hi: real)
    requires lo < hi && x - y == z - w
    ensures Fraction(x, lo, hi) - Fraction(y, lo, hi) == Fraction(z, lo, hi) - Fraction(w, lo, hi)
  {
    EqualShares(x - lo, y - lo, z - lo, w - lo, hi - lo);
  }

  lemma EqualShares(a: real, b: real, c: real, d: real, span: real)
    requires span > 0.0 && a - b == c - d
    ensures a / span - b / span == c / span - d / span
  {
    ShareOfDifference(a, b, span);
    ShareOfDifference(c, d, span);
  }

  lemma ShareOfDifference(a: real, b: real, span: real)
    requires span > 0.0
    ensures a / span - b / span == (a - b) / span
  {
  }

  lemma FractionEnds(lo: real, hi: real)
    requires lo < hi
    ensures Fraction(lo, lo, hi) == 0.0 && Fraction(hi, lo, hi) == 1.0
  {
    SelfQuotient(hi - lo, hi - lo);
  }

  /** The best score becomes 1 and the worst 0; scores that are all equal become 0.5. */
  lemma NormalizedEnds(raw: seq<real>, best: nat, worst: nat)
    requires best < |raw| && worst < |raw|
    requires forall n :: 0 <= n < |raw| ==> raw[worst] <= raw[n] <= raw[best]
    ensures |NormalizeScores(raw)| == |raw|
    ensures raw[worst] == raw[best] ==> NormalizeScores(raw)[best] == 0.5
    ensures raw[worst] < raw[best] ==> NormalizeScores(raw)[best] == 1.0 && NormalizeScores(raw)[worst] == 0.0
  {
    ExtremesAre(raw, best, worst);
    ScoresAt(raw, raw[worst], raw[best]);
    if raw[worst] < raw[best] {
      FractionEnds(raw[worst], raw[best]);
    }
  }

  /** Equal differences stay equal. */
  lemma EqualStepsStayEqual(raw: seq<real>, i: nat, j: nat, k: nat, l: nat)
    requires i < |raw| && j < |raw| && k < |raw| && l < |raw| && raw[i] - raw[j] == raw[k] - raw[l]
    ensures |NormalizeScores(raw)| == |raw|
    ensures NormalizeScores(raw)[i] - NormalizeScores(raw)[j] == NormalizeScores(raw)[k] - NormalizeScores(raw)[l]
  {
    var lo, hi := Min(raw), Max(raw);
    ScoresAt(raw, lo, hi);
    assert lo <= raw[i] <= hi;
    if lo < hi {
      FractionSteps(raw[i], raw[j], raw[k], raw[l], lo, hi);
    }
  }

  lemma ScoresAt(raw: seq<real>, lo: real, hi: real)
    requires raw != [] && lo == Min(raw) && hi == Max(raw)
    ensures |NormalizeScores(raw)| == |raw|
    ensures forall k :: 0 <= k < |raw| ==>
              NormalizeScores(raw)[k] == if hi == lo then 0.5 else Fraction(raw[k], lo, hi)
  {
  }

  lemma ExtremesAre(raw: seq<real>, best: nat, worst: nat)
    requires best < |raw| && worst < |raw|
    requires forall k :: 0 <= k < |raw| ==> raw[worst] <= raw[k] <= raw[best]
    ensures Min(raw) == raw[worst] && Max(raw) == raw[best]
  {
  }

  /** Normalised scores lie in [0, 1] and compare exactly as the raw ones do. */
  lemma NormalizedScores(raw: seq<real>)
    ensures |NormalizeScores(raw)| == |raw|
    ensures forall i :: 0 <= i < |raw| ==> 0.0 <= NormalizeScores(raw)[i] <= 1.0
    ensures forall i, j :: 0 <= i < |raw| && 0 <= j < |raw|
              ==> (raw[i] < raw[j] <==> NormalizeScores(raw)[i] < NormalizeScores(raw)[j])
  {
    forall i, j | 0 <= i < |raw| && 0 <= j < |raw|
      ensures |NormalizeScores(raw)| == |raw| && 0.0 <= NormalizeScores(raw)[i] <= 1.0
      ensures raw[i] < raw[j] <==> NormalizeScores(raw)[i] < NormalizeScores(raw)[j]
    {
      NormalizedPair(raw, i, j);
      NormalizedPair(raw, j, i);
    }
  }
}
