/** Mean and population deviation of a list of scores, over the reals. Scores
    are compared through their standard scores (x - mean) / deviation, which sum
    to 0 and whose squares sum to their number: the tail inequalities and the
    independence of the unit of the scores follow from that. */
module Statistics {

  // ------------------------------------------------------ products, one at a time

  lemma ProductPositive(a: real, b: real)
    requires a > 0.0 && b > 0.0
    ensures Product(a, b) > 0.0
  {
  }

  lemma ProductStrict(a: real, b: real, c: real)
    requires c > 0.0
    ensures a > b ==> a * c > b * c
  {
    if a > b {
      ProductPositive(a - b, c);
      assert (a - b) * c == a * c - b * c;
    }
  }

  /** Multiplying by a positive number keeps order both ways. */
  lemma ProductOrder(a: real, b: real, c: real)
    requires c > 0.0
    ensures a <= b <==> a * c <= b * c
    ensures a == b <==> a * c == b * c
  {
    ProductStrict(a, b, c);
    ProductStrict(b, a, c);
  }

  lemma Distribute(p: real, q: real, c: real)
    ensures (p + q) * c == p * c + q * c
  {
  }

  lemma Associate(a: real, b: real, c: real)
    ensures a * (b * c) == (a * b) * c
  {
  }

  lemma SquareOfProduct(a: real, b: real)
    ensures (a * b) * (a * b) == (a * a) * (b * b)
  {
    Associate(a * b, a, b);
    Associate(a, b, a);
    Associate(a, a, b);
    Associate(a * a, b, b);
  }

  lemma RootUnique(p: real, q: real)
    requires p >= 0.0 && q >= 0.0 && p * p == q * q
    ensures p == q
  {
    assert (p - q) * (p + q) == p * p - q * q;
    if p + q > 0.0 {
      ProductOrder(p - q, 0.0, p + q);
    }
  }

  // ------------------------------------------------------ the statistics

  function Sum(xs: seq<real>): real {
    if xs == [] then 0.0 else Sum(xs[..|xs| - 1]) + xs[|xs| - 1]
  }

  /** statistics.mean, and 0 for no scores. */
  function Mean(xs: seq<real>): real {
    if xs == [] then 0.0 else Sum(xs) / |xs| as real
  }

  function Product(a: real, b: real): real {
    a * b
  }

  function Squared(d: real): real {
    Product(d, d)
  }

  /** The sum of (x - m)^2. */
  function SquaredDeviations(xs: seq<real>, m: real): real {
    if xs == [] then 0.0 else SquaredDeviations(xs[..|xs| - 1], m) + Squared(xs[|xs| - 1] - m)
  }

  /** sd is what statistics.pstdev computes, and 0 for fewer than two scores. */
  ghost predicate IsDeviation(xs: seq<real>, sd: real) {
    && sd >= 0.0
    && SquaredDeviations(xs, Mean(xs)) == |xs| as real * Squared(sd)
    && (|xs| <= 1 ==> sd == 0.0)
  }

  /** How many scores satisfy p. */
  function Count(p: real -> bool, xs: seq<real>): nat {
    if xs == [] then 0 else Count(p, xs[..|xs| - 1]) + (if p(xs[|xs| - 1]) then 1 else 0)
  }

  lemma MeanBalances(xs: seq<real>)
    ensures Sum(xs) == |xs| as real * Mean(xs)
  {
  }

  // ------------------------------------------------------ standard scores

  function Standard(x: real, m: real, sd: real): (z: real)
    requires sd > 0.0
    ensures z * sd == x - m
  {
    (x - m) / sd
  }

  function Standards(xs: seq<real>, m: real, sd: real): (zs: seq<real>)
    requires sd > 0.0
    ensures |zs| == |xs|
    ensures forall i | 0 <= i < |xs| :: zs[i] == Standard(xs[i], m, sd)
  {
    seq(|xs|, i requires 0 <= i < |xs| => Standard(xs[i], m, sd))
  }

  lemma StandardsInit(xs: seq<real>, m: real, sd: real)
    requires sd > 0.0 && xs != []
    ensures Standards(xs, m, sd)[..|xs| - 1] == Standards(xs[..|xs| - 1], m, sd)
  {
  }

  lemma {:induction false} StandardSum(xs: seq<real>, m: real, sd: real)
    requires sd > 0.0
    ensures Sum(Standards(xs, m, sd)) * sd == Sum(xs) - |xs| as real * m
  {
    if xs != [] {
      var n := |xs| - 1;
      StandardSum(xs[..n], m, sd);
      StandardsInit(xs, m, sd);
      Distribute(Sum(Standards(xs[..n], m, sd)), Standard(xs[n], m, sd), sd);
      assert (n + 1) as real * m == n as real * m + m;
    }
  }

  lemma StandardSquare(z: real, d: real, sd: real)
    requires z * sd == d
    ensures Squared(z) * Squared(sd) == Squared(d)
  {
    SquareOfProduct(z, sd);
  }

  lemma {:induction false} StandardSquares(xs: seq<real>, m: real, sd: real)
    requires sd > 0.0
    ensures SquaredDeviations(Standards(xs, m, sd), 0.0) * Squared(sd) == SquaredDeviations(xs, m)
  {
    if xs != [] {
      var n := |xs| - 1;
      StandardSquares(xs[..n], m, sd);
      StandardsInit(xs, m, sd);
      StandardSquare(Standard(xs[n], m, sd), xs[n] - m, sd);
      Distribute(SquaredDeviations(Standards(xs[..n], m, sd), 0.0), Squared(Standard(xs[n], m, sd)), Squared(sd));
    }
  }

  /** Mean 0 and deviation 1. */
  ghost predicate IsStandard(zs: seq<real>) {
    Sum(zs) == 0.0 && SquaredDeviations(zs, 0.0) == |zs| as real
  }

  lemma SquaredPositive(d: real)
    requires d > 0.0
    ensures Squared(d) > 0.0
  {
    ProductPositive(d, d);
  }

  lemma StandardsAreStandard(xs: seq<real>, sd: real)
    requires IsDeviation(xs, sd) && sd > 0.0
    ensures IsStandard(Standards(xs, Mean(xs), sd))
  {
    var zs := Standards(xs, Mean(xs), sd);
    MeanBalances(xs);
    StandardSum(xs, Mean(xs), sd);
    ProductOrder(Sum(zs), 0.0, sd);
    StandardSquares(xs, Mean(xs), sd);
    SquaredPositive(sd);
    ProductOrder(SquaredDeviations(zs, 0.0), |zs| as real, Squared(sd));
  }

  // ------------------------------------------------------ tails

  /** Chebyshev: scores whose square is at least e. */
  lemma {:induction false} Chebyshev(zs: seq<real>, p: real -> bool, e: real)
    requires forall z :: p(z) ==> e <= Squared(z)
    ensures Count(p, zs) as real * e <= SquaredDeviations(zs, 0.0)
  {
    if zs != [] {
      var n := |zs| - 1;
      Chebyshev(zs[..n], p, e);
      SquareNonNegative(zs[n]);
      assert (Count(p, zs[..n]) + 1) as real * e == Count(p, zs[..n]) as real * e + e;
    }
  }

  lemma SquareNonNegative(d: real)
    ensures Squared(d) >= 0.0
  {
  }

  /** A quadratic k2 z^2 + k1 z + 1. */
  function Quadratic(k2: real, k1: real, z: real): real {
    k2 * Squared(z) + (z * k1 + 1.0)
  }

  function QuadraticSum(k2: real, k1: real, zs: seq<real>): real {
    if zs == [] then 0.0 else QuadraticSum(k2, k1, zs[..|zs| - 1]) + Quadratic(k2, k1, zs[|zs| - 1])
  }

  lemma {:induction false} QuadraticSumSplit(k2: real, k1: real, zs: seq<real>)
    ensures QuadraticSum(k2, k1, zs) == k2 * SquaredDeviations(zs, 0.0) + (Sum(zs) * k1 + |zs| as real)
  {
    if zs == [] {
      TimesZero(k2, 0.0);
    } else {
      var n := |zs| - 1;
      QuadraticSumSplit(k2, k1, zs[..n]);
      Distribute(SquaredDeviations(zs[..n], 0.0), Squared(zs[n]), k2);
      Distribute(Sum(zs[..n]), zs[n], k1);
    }
  }

  /** Cantelli: scores at which a quadratic that is nowhere negative reaches w. */
  lemma {:induction false} QuadraticTail(zs: seq<real>, p: real -> bool, k2: real, k1: real, w: real)
    requires forall z :: (if p(z) then w else 0.0) <= Quadratic(k2, k1, z)
    ensures Count(p, zs) as real * w <= QuadraticSum(k2, k1, zs)
  {
    if zs != [] {
      QuadraticTail(zs[..|zs| - 1], p, k2, k1, w);
      Distribute(Count(p, zs[..|zs| - 1]) as real, 1.0, w);
    }
  }

  /** At most 4 / 13 of standard scores are 3/2 or more. */
  lemma HighTail(zs: seq<real>, p: real -> bool)
    requires IsStandard(zs) && forall z :: p(z) ==> z >= 1.5
    ensures 13 * Count(p, zs) <= 4 * |zs|
  {
    forall z ensures (if p(z) then 10.5625 else 0.0) <= Quadratic(2.25, 3.0, z) {
      SquareNonNegative(z + 2.0 / 3.0);
      if p(z) {
        UpperSquare(z, 1.5);
      }
    }
    QuadraticTail(zs, p, 2.25, 3.0, 10.5625);
    QuadraticSumSplit(2.25, 3.0, zs);
  }

  /** At most 4 / 5 of standard scores are 1/2 or more. */
  lemma AboveHalfTail(zs: seq<real>, p: real -> bool)
    requires IsStandard(zs) && forall z :: p(z) ==> z >= 0.5
    ensures 5 * Count(p, zs) <= 4 * |zs|
  {
    forall z ensures (if p(z) then 1.5625 else 0.0) <= Quadratic(0.25, 1.0, z) {
      SquareNonNegative(z + 2.0);
      if p(z) {
        UpperSquare(z, 0.5);
      }
    }
    QuadraticTail(zs, p, 0.25, 1.0, 1.5625);
    QuadraticSumSplit(0.25, 1.0, zs);
  }

  lemma UpperSquare(z: real, k: real)
    requires z >= k >= 0.0
    ensures Squared(k) <= Squared(z)
  {
    SquareNonNegative(z - k);
    if z > k && k > 0.0 {
      ProductPositive(z - k, k);
    }
  }

  // ------------------------------------------------------ change of units

  function Scaled(x: real, a: real, b: real): real {
    a * x + b
  }

  function Rescale(xs: seq<real>, a: real, b: real): (ys: seq<real>)
    ensures |ys| == |xs| && forall i | 0 <= i < |xs| :: ys[i] == Scaled(xs[i], a, b)
  {
    seq(|xs|, i requires 0 <= i < |xs| => Scaled(xs[i], a, b))
  }

  lemma RescaleInit(xs: seq<real>, a: real, b: real)
    requires xs != []
    ensures Rescale(xs, a, b)[..|xs| - 1] == Rescale(xs[..|xs| - 1], a, b)
  {
  }

  lemma {:induction false} RescaleSum(xs: seq<real>, a: real, b: real)
    ensures Sum(Rescale(xs, a, b)) == a * Sum(xs) + |xs| as real * b
  {
    if xs != [] {
      var n := |xs| - 1;
      RescaleSum(xs[..n], a, b);
      RescaleInit(xs, a, b);
      Distribute(Sum(xs[..n]), xs[n], a);
      assert (n + 1) as real * b == n as real * b + b;
    }
  }

  lemma RescaleMean(xs: seq<real>, a: real, b: real)
    requires xs != []
    ensures Mean(Rescale(xs, a, b)) == Scaled(Mean(xs), a, b)
  {
    var ys := Rescale(xs, a, b);
    RescaleSum(xs, a, b);
    MeanBalances(xs);
    MeanBalances(ys);
    RescaleArithmetic(|xs| as real, Mean(xs), Mean(ys), a, b);
  }

  lemma RescaleArithmetic(n: real, m: real, m': real, a: real, b: real)
    requires n > 0.0 && n * m' == a * (n * m) + n * b
    ensures m' == Scaled(m, a, b)
  {
    assert a * (n * m) + n * b == n * (a * m + b);
    ProductOrder(m', a * m + b, n);
  }

  lemma {:induction false} RescaleSquares(xs: seq<real>, m: real, a: real, b: real)
    ensures SquaredDeviations(Rescale(xs, a, b), Scaled(m, a, b)) == SquaredDeviations(xs, m) * Squared(a)
  {
    if xs != [] {
      var n := |xs| - 1;
      RescaleSquares(xs[..n], m, a, b);
      RescaleInit(xs, a, b);
      ScaledSquare(xs[n], m, a, b);
      Distribute(SquaredDeviations(xs[..n], m), Squared(xs[n] - m), Squared(a));
    }
  }

  lemma ScaledSquare(x: real, m: real, a: real, b: real)
    ensures Squared(Scaled(x, a, b) - Scaled(m, a, b)) == Squared(x - m) * Squared(a)
  {
    assert Scaled(x, a, b) - Scaled(m, a, b) == (x - m) * a;
    SquareOfProduct(x - m, a);
  }

  /** The deviation scales with the unit. */
  lemma RescaleDeviation(xs: seq<real>, sd: real, sd': real, a: real, b: real)
    requires IsDeviation(xs, sd) && IsDeviation(Rescale(xs, a, b), sd') && a > 0.0
    ensures sd' == a * sd
  {
    if |xs| > 1 {
      RescaleMean(xs, a, b);
      RescaleSquares(xs, Mean(xs), a, b);
      SameRoot(|xs| as real, SquaredDeviations(xs, Mean(xs)), sd, sd', a);
    } else {
      TimesZero(a, sd);
    }
  }

  lemma TimesZero(a: real, z: real)
    requires z == 0.0
    ensures a * z == 0.0
  {
  }

  lemma SameRoot(n: real, q: real, sd: real, sd': real, a: real)
    requires n > 0.0 && sd >= 0.0 && sd' >= 0.0 && a > 0.0
    requires q == n * Squared(sd) && n * Squared(sd') == q * Squared(a)
    ensures sd' == a * sd
  {
    SquareOfProduct(a, sd);
    assert (n * Squared(sd)) * Squared(a) == n * Squared(a * sd);
    ProductOrder(Squared(sd'), Squared(a * sd), n);
    ProductOrder(0.0, sd, a);
    RootUnique(sd', a * sd);
  }
}
