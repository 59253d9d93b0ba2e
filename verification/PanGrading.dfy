/** Norm-referenced grading of one class (app/api/analytics.py): letters, the
    0-10 scale, T-scores and the conversion to a UM score. Scores are reals; the
    deviation is any real that IsDeviation describes. */
module PanGrading {
  import opened Statistics

  datatype Letter = A | B | C | D | E

  /** A is highest. */
  function Level(l: Letter): nat {
    match l
    case A => 4
    case B => 3
    case C => 2
    case D => 1
    case E => 0
  }

  datatype Thresholds = Thresholds(aMin: real, bMin: real, cMin: real, dMin: real)

  function BuildThresholds(m: real, sd: real): Thresholds {
    Thresholds(m + 1.5 * sd, m + 0.5 * sd, m - 0.5 * sd, m - 1.5 * sd)
  }

  function ClassifyLetter(x: real, m: real, sd: real): Letter {
    if sd <= 0.0 then C else
    var t := BuildThresholds(m, sd);
    if x >= t.aMin then A
    else if x >= t.bMin then B
    else if x >= t.cMin then C
    else if x >= t.dMin then D
    else E
  }

  function ClassifyScale10(x: real, m: real, sd: real): nat {
    if sd <= 0.0 then 5
    else if x >= m + 2.25 * sd then 10
    else if x >= m + 1.75 * sd then 9
    else if x >= m + 1.25 * sd then 8
    else if x >= m + 0.75 * sd then 7
    else if x >= m + 0.25 * sd then 6
    else if x >= m - 0.25 * sd then 5
    else if x >= m - 0.75 * sd then 4
    else if x >= m - 1.25 * sd then 3
    else if x >= m - 1.75 * sd then 2
    else if x >= m - 2.25 * sd then 1
    else 0
  }

  function TScore(x: real, m: real, sd: real): real {
    if sd <= 0.0 then 50.0 else 50.0 + Standard(x, m, sd) * 10.0
  }

  // ------------------------------------------------------ rounding

  /** Python's round: to the nearest integer, halves to the even one. */
  function RoundHalfEven(x: real): (r: int)
    ensures -0.5 <= r as real - x <= 0.5
    ensures (r as real - x == 0.5 || x - r as real == 0.5) ==> r % 2 == 0
  {
    var f := x.Floor;
    var d := x - f as real;
    if d < 0.5 then f else if d > 0.5 then f + 1 else if f % 2 == 0 then f else f + 1
  }

  lemma RoundKeepsOrder(x: real, y: real)
    requires x <= y
    ensures RoundHalfEven(x) <= RoundHalfEven(y)
  {
  }

  lemma RoundFixesIntegers(k: int)
    ensures RoundHalfEven(k as real) == k
  {
  }

  function Round2(x: real): real {
    RoundHalfEven(x * 100.0) as real / 100.0
  }

  // ------------------------------------------------------ UM scores

  function UmMin(l: Letter): int {
    match l
    case A => 90
    case B => 85
    case C => 80
    case D => 75
    case E => 70
  }

  function UmMax(l: Letter): int {
    match l
    case A => 95
    case B => 89
    case C => 84
    case D => 79
    case E => 74
  }

  function Max2(a: real, b: real): real {
    if a >= b then a else b
  }

  function Min2(a: real, b: real): real {
    if a <= b then a else b
  }

  function Lower(l: Letter, t: Thresholds, lowest: real): real {
    match l
    case A => t.aMin
    case B => t.bMin
    case C => t.cMin
    case D => t.dMin
    case E => Min2(lowest, t.dMin)
  }

  function Upper(l: Letter, t: Thresholds, lowest: real, highest: real): real {
    match l
    case A => Max2(highest, t.aMin)
    case B => Max2(t.aMin, t.bMin)
    case C => Max2(t.bMin, t.cMin)
    case D => Max2(t.cMin, t.dMin)
    case E => Max2(t.dMin, Lower(E, t, lowest))
  }

  function ClampRatio(v: real): real {
    if v < 0.0 then 0.0 else if v > 1.0 then 1.0 else v
  }

  function Ratio(x: real, lower: real, upper: real): (r: real)
    ensures 0.0 <= r <= 1.0
  {
    if upper <= lower then 0.5 else ClampRatio(Standard(x, lower, upper - lower))
  }

  function Spread(l: Letter): (w: real)
    ensures w > 0.0
  {
    (UmMax(l) - UmMin(l)) as real
  }

  /** The point at ratio r of a band of width w. */
  function InBand(base: real, r: real, w: real): int {
    RoundHalfEven(base + r * w)
  }

  function Place(l: Letter, r: real): int {
    InBand(UmMin(l) as real, r, Spread(l))
  }

  function ComputeUm(x: real, l: Letter, t: Thresholds, lowest: real, highest: real): int {
    Place(l, Ratio(x, Lower(l, t, lowest), Upper(l, t, lowest, highest)))
  }

  lemma PlaceInBand(l: Letter, r: real)
    requires 0.0 <= r <= 1.0
    ensures UmMin(l) <= Place(l, r) <= UmMax(l)
  {
    WithinBand(r, Spread(l));
    RoundKeepsOrder(UmMin(l) as real, UmMin(l) as real + r * Spread(l));
    RoundKeepsOrder(UmMin(l) as real + r * Spread(l), UmMax(l) as real);
    RoundFixesIntegers(UmMin(l));
    RoundFixesIntegers(UmMax(l));
  }

  lemma UmInBand(x: real, l: Letter, t: Thresholds, lowest: real, highest: real)
    ensures UmMin(l) <= ComputeUm(x, l, t, lowest, highest) <= UmMax(l)
  {
    PlaceInBand(l, Ratio(x, Lower(l, t, lowest), Upper(l, t, lowest, highest)));
  }

  lemma WithinBand(r: real, w: real)
    requires 0.0 <= r <= 1.0 && w > 0.0
    ensures 0.0 <= r * w <= w
  {
    ProductOrder(0.0, r, w);
    ProductOrder(r, 1.0, w);
  }

  lemma StandardKeepsOrder(x: real, y: real, m: real, sd: real)
    requires sd > 0.0 && x <= y
    ensures Standard(x, m, sd) <= Standard(y, m, sd)
  {
    ProductOrder(Standard(x, m, sd), Standard(y, m, sd), sd);
  }

  lemma RatioKeepsOrder(x: real, y: real, lower: real, upper: real)
    requires x <= y
    ensures Ratio(x, lower, upper) <= Ratio(y, lower, upper)
  {
    if upper > lower {
      StandardKeepsOrder(x, y, lower, upper - lower);
    }
  }

  lemma BandKeepsOrder(base: real, r: real, s: real, w: real)
    requires r <= s && w > 0.0
    ensures InBand(base, r, w) <= InBand(base, s, w)
  {
    ProductOrder(r, s, w);
    RoundKeepsOrder(base + r * w, base + s * w);
  }

  lemma PlaceKeepsOrder(l: Letter, r: real, s: real)
    requires r <= s
    ensures Place(l, r) <= Place(l, s)
  {
    BandKeepsOrder(UmMin(l) as real, r, s, Spread(l));
  }

  lemma UmKeepsOrderInLetter(x: real, y: real, l: Letter, t: Thresholds, lowest: real, highest: real)
    requires x <= y
    ensures ComputeUm(x, l, t, lowest, highest) <= ComputeUm(y, l, t, lowest, highest)
  {
    var lower, upper := Lower(l, t, lowest), Upper(l, t, lowest, highest);
    RatioKeepsOrder(x, y, lower, upper);
    PlaceKeepsOrder(l, Ratio(x, lower, upper), Ratio(y, lower, upper));
  }

  // ------------------------------------------------------ one graded row

  datatype Row = Row(score: real, letter: Letter, scale10: nat, tScore: real, um: int)

  /** What the ranking loop writes into the row of score x. */
  function Grade(x: real, m: real, sd: real, lowest: real, highest: real): Row {
    var l := ClassifyLetter(x, m, sd);
    Row(x, l, ClassifyScale10(x, m, sd), Round2(TScore(x, m, sd)),
        ComputeUm(x, l, BuildThresholds(m, sd), lowest, highest))
  }

  /** Graded at most as high, in all four columns. */
  predicate NotAbove(p: Row, q: Row) {
    Level(p.letter) <= Level(q.letter) && p.scale10 <= q.scale10 && p.tScore <= q.tScore && p.um <= q.um
  }

  lemma TScoreKeepsOrder(x: real, y: real, m: real, sd: real)
    requires x <= y
    ensures TScore(x, m, sd) <= TScore(y, m, sd)
    ensures Round2(TScore(x, m, sd)) <= Round2(TScore(y, m, sd))
  {
    if sd > 0.0 {
      StandardKeepsOrder(x, y, m, sd);
    }
    RoundKeepsOrder(TScore(x, m, sd) * 100.0, TScore(y, m, sd) * 100.0);
  }

  lemma LetterKeepsOrder(x: real, y: real, m: real, sd: real)
    requires x <= y
    ensures Level(ClassifyLetter(x, m, sd)) <= Level(ClassifyLetter(y, m, sd))
    ensures ClassifyScale10(x, m, sd) <= ClassifyScale10(y, m, sd)
  {
  }

  /** Bands of different letters do not meet. */
  lemma BandsApart(l: Letter, k: Letter)
    requires Level(l) < Level(k)
    ensures UmMax(l) < UmMin(k)
  {
  }

  lemma LevelInjective(l: Letter, k: Letter)
    requires Level(l) == Level(k)
    ensures l == k
  {
  }

  lemma UmKeepsOrder(x: real, y: real, m: real, sd: real, lowest: real, highest: real)
    requires x <= y
    ensures Grade(x, m, sd, lowest, highest).um <= Grade(y, m, sd, lowest, highest).um
  {
    var l, k, t := ClassifyLetter(x, m, sd), ClassifyLetter(y, m, sd), BuildThresholds(m, sd);
    LetterKeepsOrder(x, y, m, sd);
    if Level(l) < Level(k) {
      BandsApart(l, k);
      UmInBand(x, l, t, lowest, highest);
      UmInBand(y, k, t, lowest, highest);
    } else {
      LevelInjective(l, k);
      UmKeepsOrderInLetter(x, y, l, t, lowest, highest);
    }
  }

  /** A higher or equal score is graded at least as high in every column. */
  lemma GradesFollowScores(x: real, y: real, m: real, sd: real, lowest: real, highest: real)
    requires x <= y
    ensures NotAbove(Grade(x, m, sd, lowest, highest), Grade(y, m, sd, lowest, highest))
  {
    LetterKeepsOrder(x, y, m, sd);
    TScoreKeepsOrder(x, y, m, sd);
    UmKeepsOrder(x, y, m, sd, lowest, highest);
  }

  // ------------------------------------------------------ cut-offs as T-scores

  lemma StandardReaches(x: real, m: real, sd: real, k: real)
    requires sd > 0.0
    ensures Standard(x, m, sd) >= k <==> x >= m + k * sd
  {
    ProductOrder(k, Standard(x, m, sd), sd);
  }

  /** The letters are cut at T = 65, 55, 45 and 35, exactly. */
  lemma LetterCutoffs(x: real, m: real, sd: real)
    requires sd > 0.0
    ensures Level(ClassifyLetter(x, m, sd)) >= 4 <==> TScore(x, m, sd) >= 65.0
    ensures Level(ClassifyLetter(x, m, sd)) >= 3 <==> TScore(x, m, sd) >= 55.0
    ensures Level(ClassifyLetter(x, m, sd)) >= 2 <==> TScore(x, m, sd) >= 45.0
    ensures Level(ClassifyLetter(x, m, sd)) >= 1 <==> TScore(x, m, sd) >= 35.0
  {
    StandardReaches(x, m, sd, 1.5);
    StandardReaches(x, m, sd, 0.5);
    StandardReaches(x, m, sd, -0.5);
    StandardReaches(x, m, sd, -1.5);
  }

  /** The 0-10 scale is cut every five T points, from 27.5 to 72.5. */
  lemma Scale10Cutoffs(x: real, m: real, sd: real, g: nat)
    requires sd > 0.0 && 1 <= g <= 10
    ensures ClassifyScale10(x, m, sd) >= g <==> TScore(x, m, sd) >= 22.5 + 5.0 * g as real
  {
    StandardReaches(x, m, sd, 2.25);
    StandardReaches(x, m, sd, 1.75);
    StandardReaches(x, m, sd, 1.25);
    StandardReaches(x, m, sd, 0.75);
    StandardReaches(x, m, sd, 0.25);
    StandardReaches(x, m, sd, -0.25);
    StandardReaches(x, m, sd, -0.75);
    StandardReaches(x, m, sd, -1.25);
    StandardReaches(x, m, sd, -1.75);
    StandardReaches(x, m, sd, -2.25);
  }

  // ------------------------------------------------------ UM scores as T-scores

  /** Where a letter starts, in deviations from the mean. */
  function Cut(l: Letter): real {
    match l
    case A => 1.5
    case B => 0.5
    case C => -0.5
    case D => -1.5
    case E => -2.5
  }

  lemma StandardShift(x: real, m: real, sd: real, k: real)
    requires sd > 0.0
    ensures Standard(x, m + k * sd, sd) == Standard(x, m, sd) - k
  {
    Distribute(Standard(x, m, sd), -k, sd);
    ProductOrder(Standard(x, m + k * sd, sd), Standard(x, m, sd) - k, sd);
  }

  lemma MiddleRatio(x: real, m: real, sd: real, l: Letter, lowest: real, highest: real)
    requires sd > 0.0 && l == ClassifyLetter(x, m, sd) && l in {B, C, D}
    ensures var t := BuildThresholds(m, sd);
            Ratio(x, Lower(l, t, lowest), Upper(l, t, lowest, highest)) == Standard(x, m, sd) - Cut(l)
  {
    var t := BuildThresholds(m, sd);
    assert Lower(l, t, lowest) == m + Cut(l) * sd;
    assert Upper(l, t, lowest, highest) - Lower(l, t, lowest) == sd;
    StandardShift(x, m, sd, Cut(l));
    StandardReaches(x, m, sd, Cut(l));
    StandardReaches(x, m, sd, Cut(l) + 1.0);
  }

  lemma PlaceNear(l: Letter, r: real)
    requires l in {B, C, D}
    ensures -0.5 <= Place(l, r) as real - (UmMin(l) as real + 4.0 * r) <= 0.5
  {
  }

  /** Within B, C and D the UM score is the T-score in other units, rounded:
      0.4 points of UM for a point of T above the cut-off of the letter. */
  lemma MiddleBandsFollowT(x: real, m: real, sd: real, lowest: real, highest: real)
    requires sd > 0.0 && ClassifyLetter(x, m, sd) in {B, C, D}
    ensures var l, um := ClassifyLetter(x, m, sd), Grade(x, m, sd, lowest, highest).um;
            -0.5 <= um as real - (UmMin(l) as real + 0.4 * (TScore(x, m, sd) - (50.0 + 10.0 * Cut(l)))) <= 0.5
  {
    MiddleRatio(x, m, sd, ClassifyLetter(x, m, sd), lowest, highest);
    PlaceNear(ClassifyLetter(x, m, sd), Standard(x, m, sd) - Cut(ClassifyLetter(x, m, sd)));
  }

  // ------------------------------------------------------ how many get a grade

  function HasLetter(l: Letter, m: real, sd: real): real -> bool {
    x => ClassifyLetter(x, m, sd) == l
  }

  function HasScale10(g: nat, m: real, sd: real): real -> bool {
    x => ClassifyScale10(x, m, sd) == g
  }

  /** Counting scores or counting their standard scores. */
  lemma {:induction false} CountStandards(p: real -> bool, q: real -> bool, xs: seq<real>, m: real, sd: real)
    requires sd > 0.0
    requires forall x :: p(x) == q(Standard(x, m, sd))
    ensures Count(p, xs) == Count(q, Standards(xs, m, sd))
  {
    if xs != [] {
      CountStandards(p, q, xs[..|xs| - 1], m, sd);
      StandardsInit(xs, m, sd);
    }
  }

  lemma {:induction false} CountNone(p: real -> bool, xs: seq<real>)
    requires forall x :: !p(x)
    ensures Count(p, xs) == 0
  {
    if xs != [] {
      CountNone(p, xs[..|xs| - 1]);
    }
  }

  lemma {:induction false} CountUnion(p: real -> bool, q: real -> bool, r: real -> bool, xs: seq<real>)
    requires forall x :: r(x) == (p(x) || q(x)) && !(p(x) && q(x))
    ensures Count(r, xs) == Count(p, xs) + Count(q, xs)
  {
    if xs != [] {
      CountUnion(p, q, r, xs[..|xs| - 1]);
    }
  }

  function AtLeast(k: real): real -> bool {
    z => z >= k
  }

  function Outside(k: real): real -> bool {
    z => z >= k || z < -k
  }

  function Either(p: real -> bool, q: real -> bool): real -> bool {
    x => p(x) || q(x)
  }

  /** At most 4 in 13 of any class get an A. */
  lemma FewGetA(xs: seq<real>, sd: real)
    requires IsDeviation(xs, sd)
    ensures 13 * Count(HasLetter(A, Mean(xs), sd), xs) <= 4 * |xs|
  {
    var p := HasLetter(A, Mean(xs), sd);
    if sd > 0.0 {
      forall x ensures p(x) == AtLeast(1.5)(Standard(x, Mean(xs), sd)) {
        StandardReaches(x, Mean(xs), sd, 1.5);
      }
      CountStandards(p, AtLeast(1.5), xs, Mean(xs), sd);
      StandardsAreStandard(xs, sd);
      HighTail(Standards(xs, Mean(xs), sd), AtLeast(1.5));
    } else {
      CountNone(p, xs);
    }
  }

  /** At most 4 in 5 of any class get an A or a B. */
  lemma NotAllAboveC(xs: seq<real>, sd: real)
    requires IsDeviation(xs, sd)
    ensures 5 * (Count(HasLetter(A, Mean(xs), sd), xs) + Count(HasLetter(B, Mean(xs), sd), xs)) <= 4 * |xs|
  {
    var a, b := HasLetter(A, Mean(xs), sd), HasLetter(B, Mean(xs), sd);
    CountUnion(a, b, Either(a, b), xs);
    if sd > 0.0 {
      forall x ensures Either(a, b)(x) == AtLeast(0.5)(Standard(x, Mean(xs), sd)) {
        StandardReaches(x, Mean(xs), sd, 0.5);
      }
      CountStandards(Either(a, b), AtLeast(0.5), xs, Mean(xs), sd);
      StandardsAreStandard(xs, sd);
      AboveHalfTail(Standards(xs, Mean(xs), sd), AtLeast(0.5));
    } else {
      CountNone(Either(a, b), xs);
    }
  }

  /** Standard scores at distance k or more. */
  lemma OutsideTail(zs: seq<real>, k: real)
    requires IsStandard(zs) && k >= 0.0
    ensures Count(Outside(k), zs) as real * Squared(k) <= |zs| as real
  {
    forall z ensures Outside(k)(z) ==> Squared(k) <= Squared(z) {
      if z >= k {
        UpperSquare(z, k);
      } else if z < -k {
        UpperSquare(-z, k);
      }
    }
    Chebyshev(zs, Outside(k), Squared(k));
  }

  /** At most 4 in 9 of any class get an A or an E. */
  lemma FewExtremeLetters(xs: seq<real>, sd: real)
    requires IsDeviation(xs, sd)
    ensures 9 * (Count(HasLetter(A, Mean(xs), sd), xs) + Count(HasLetter(E, Mean(xs), sd), xs)) <= 4 * |xs|
  {
    var a, e := HasLetter(A, Mean(xs), sd), HasLetter(E, Mean(xs), sd);
    CountUnion(a, e, Either(a, e), xs);
    if sd > 0.0 {
      forall x ensures Either(a, e)(x) == Outside(1.5)(Standard(x, Mean(xs), sd)) {
        StandardReaches(x, Mean(xs), sd, 1.5);
        StandardReaches(x, Mean(xs), sd, -1.5);
      }
      CountStandards(Either(a, e), Outside(1.5), xs, Mean(xs), sd);
      StandardsAreStandard(xs, sd);
      OutsideTail(Standards(xs, Mean(xs), sd), 1.5);
    } else {
      CountNone(Either(a, e), xs);
    }
  }

  /** At most 16 in 81 of any class get a 10 or a 0. */
  lemma FewExtremeGrades(xs: seq<real>, sd: real)
    requires IsDeviation(xs, sd)
    ensures 81 * (Count(HasScale10(10, Mean(xs), sd), xs) + Count(HasScale10(0, Mean(xs), sd), xs)) <= 16 * |xs|
  {
    var a, e := HasScale10(10, Mean(xs), sd), HasScale10(0, Mean(xs), sd);
    CountUnion(a, e, Either(a, e), xs);
    if sd > 0.0 {
      forall x ensures Either(a, e)(x) == Outside(2.25)(Standard(x, Mean(xs), sd)) {
        StandardReaches(x, Mean(xs), sd, 2.25);
        StandardReaches(x, Mean(xs), sd, -2.25);
      }
      CountStandards(Either(a, e), Outside(2.25), xs, Mean(xs), sd);
      StandardsAreStandard(xs, sd);
      OutsideTail(Standards(xs, Mean(xs), sd), 2.25);
    } else {
      CountNone(Either(a, e), xs);
    }
  }

  // ------------------------------------------------------ the whole class

  function Highest(xs: seq<real>): (r: real)
    ensures xs != [] ==> r in xs
  {
    if xs == [] then 0.0
    else if |xs| == 1 then xs[0]
    else Max2(Highest(xs[..|xs| - 1]), xs[|xs| - 1])
  }

  function Lowest(xs: seq<real>): (r: real)
    ensures xs != [] ==> r in xs
  {
    if xs == [] then 0.0
    else if |xs| == 1 then xs[0]
    else Min2(Lowest(xs[..|xs| - 1]), xs[|xs| - 1])
  }

  lemma {:induction false} HighestBounds(xs: seq<real>, i: nat)
    requires i < |xs|
    ensures Lowest(xs) <= xs[i] <= Highest(xs)
  {
    if i < |xs| - 1 {
      HighestBounds(xs[..|xs| - 1], i);
    }
  }

  /** The row of score x in the class xs. */
  function RowIn(xs: seq<real>, sd: real, x: real): Row {
    Grade(x, Mean(xs), sd, Lowest(xs), Highest(xs))
  }

  /** A score of the class lies in the interval its letter is converted over,
      so clamping never changes a ratio. */
  lemma ScoreInItsInterval(xs: seq<real>, sd: real, i: nat)
    requires IsDeviation(xs, sd) && i < |xs|
    ensures var t, l := BuildThresholds(Mean(xs), sd), ClassifyLetter(xs[i], Mean(xs), sd);
            sd > 0.0 ==> Lower(l, t, Lowest(xs)) <= xs[i] <= Upper(l, t, Lowest(xs), Highest(xs))
  {
    HighestBounds(xs, i);
  }

  lemma StandardOfTop(m: real, sd: real)
    requires sd > 0.0
    ensures Standard(m + sd, m, sd) == 1.0
  {
    ProductOrder(Standard(m + sd, m, sd), 1.0, sd);
  }

  lemma StandardOfBottom(m: real, sd: real)
    requires sd > 0.0
    ensures Standard(m, m, sd) == 0.0
  {
    ProductOrder(Standard(m, m, sd), 0.0, sd);
  }

  /** A best score strictly above the A threshold is worth 95, a worst score
      below the D threshold 70; a class without spread is worth 82 throughout. */
  lemma TopAndFlat(xs: seq<real>, sd: real)
    requires IsDeviation(xs, sd) && xs != []
    ensures sd > 0.0 && Highest(xs) > Mean(xs) + 1.5 * sd ==> RowIn(xs, sd, Highest(xs)).um == 95
    ensures sd > 0.0 && Lowest(xs) < Mean(xs) - 1.5 * sd ==> RowIn(xs, sd, Lowest(xs)).um == 70
    ensures sd == 0.0 ==> forall x :: RowIn(xs, sd, x) == Row(x, C, 5, 50.0, 82)
  {
    if sd > 0.0 && Highest(xs) > Mean(xs) + 1.5 * sd {
      StandardOfTop(Mean(xs) + 1.5 * sd, Highest(xs) - (Mean(xs) + 1.5 * sd));
      RoundFixesIntegers(95);
    }
    if sd > 0.0 && Lowest(xs) < Mean(xs) - 1.5 * sd {
      StandardOfBottom(Lowest(xs), Mean(xs) - 1.5 * sd - Lowest(xs));
      RoundFixesIntegers(70);
    }
    RoundFixesIntegers(82);
    RoundFixesIntegers(5000);
  }

  // ------------------------------------------------------ the row in points

  lemma QuotientIs(d: real, w: real, q: real)
    requires w > 0.0 && q * w == d
    ensures d / w == q
  {
    ProductOrder(d / w, q, w);
  }

  lemma RatioWithin(x: real, lower: real, upper: real)
    requires lower <= x <= upper && lower < upper
    ensures Ratio(x, lower, upper) == (x - lower) / (upper - lower)
  {
    var z, w := Standard(x, lower, upper - lower), upper - lower;
    QuotientIs(x - lower, w, z);
    ProductOrder(0.0, z, w);
    ProductOrder(z, 1.0, w);
  }

  lemma PlaceByPoints(l: Letter, r: real)
    ensures l == A ==> -0.5 <= Place(l, r) as real - (90.0 + 5.0 * r) <= 0.5
    ensures l == B ==> -0.5 <= Place(l, r) as real - (85.0 + 4.0 * r) <= 0.5
    ensures l == C ==> -0.5 <= Place(l, r) as real - (80.0 + 4.0 * r) <= 0.5
    ensures l == D ==> -0.5 <= Place(l, r) as real - (75.0 + 4.0 * r) <= 0.5
    ensures l == E ==> -0.5 <= Place(l, r) as real - (70.0 + 4.0 * r) <= 0.5
  {
    InBandNear(UmMin(l) as real, r, Spread(l));
    match l
    case A => assert UmMin(l) == 90 && Spread(l) == 5.0;
    case B => assert UmMin(l) == 85 && Spread(l) == 4.0;
    case C => assert UmMin(l) == 80 && Spread(l) == 4.0;
    case D => assert UmMin(l) == 75 && Spread(l) == 4.0;
    case E => assert UmMin(l) == 70 && Spread(l) == 4.0;
  }

  lemma InBandNear(base: real, r: real, w: real)
    ensures -0.5 <= InBand(base, r, w) as real - (base + r * w) <= 0.5
  {
  }

  /** An A is converted from the A threshold to the best score; when the best
      score stands on the threshold it is worth 92. */
  lemma UmOfA(x: real, m: real, sd: real, lowest: real, highest: real)
    requires sd > 0.0 && m + 1.5 * sd <= x <= highest
    ensures var cut, um := m + 1.5 * sd, Grade(x, m, sd, lowest, highest).um;
            && (highest > cut ==> -0.5 <= um as real - (90.0 + 5.0 * ((x - cut) / (highest - cut))) <= 0.5)
            && (highest == cut ==> um == 92)
  {
    var cut := m + 1.5 * sd;
    assert ClassifyLetter(x, m, sd) == A;
    if highest > cut {
      RatioWithin(x, cut, highest);
      PlaceByPoints(A, Ratio(x, cut, highest));
    } else {
      assert Ratio(x, cut, highest) == 0.5;
    }
  }

  /** An E is converted from the worst score to the D threshold. */
  lemma UmOfE(x: real, m: real, sd: real, lowest: real, highest: real)
    requires sd > 0.0 && lowest <= x < m - 1.5 * sd
    ensures var cut, um := m - 1.5 * sd, Grade(x, m, sd, lowest, highest).um;
            -0.5 <= um as real - (70.0 + 4.0 * ((x - lowest) / (cut - lowest))) <= 0.5
  {
    var cut := m - 1.5 * sd;
    assert ClassifyLetter(x, m, sd) == E;
    RatioWithin(x, lowest, cut);
    PlaceByPoints(E, Ratio(x, lowest, cut));
  }

  /** In between, a deviation is worth four points. */
  lemma UmOfMiddle(x: real, m: real, sd: real, lowest: real, highest: real)
    requires sd > 0.0 && m - 1.5 * sd <= x < m + 1.5 * sd
    ensures var z, um := (x - m) / sd, Grade(x, m, sd, lowest, highest).um as real;
            && (x >= m + 0.5 * sd ==> -0.5 <= um - (85.0 + 4.0 * (z - 0.5)) <= 0.5)
            && (m - 0.5 * sd <= x < m + 0.5 * sd ==> -0.5 <= um - (80.0 + 4.0 * (z + 0.5)) <= 0.5)
            && (x < m - 0.5 * sd ==> -0.5 <= um - (75.0 + 4.0 * (z + 1.5)) <= 0.5)
  {
    var l := ClassifyLetter(x, m, sd);
    StandardIs(x, m, sd);
    MiddleRatio(x, m, sd, l, lowest, highest);
    PlaceByPoints(l, Standard(x, m, sd) - Cut(l));
  }

  /** So in a class, for its members. */
  lemma ClassUmOfA(xs: seq<real>, sd: real, i: nat)
    requires IsDeviation(xs, sd) && sd > 0.0 && i < |xs| && xs[i] >= Mean(xs) + 1.5 * sd
    ensures var cut, best, um := Mean(xs) + 1.5 * sd, Highest(xs), RowIn(xs, sd, xs[i]).um;
            && best >= cut
            && (best > cut ==> -0.5 <= um as real - (90.0 + 5.0 * ((xs[i] - cut) / (best - cut))) <= 0.5)
            && (best == cut ==> um == 92)
  {
    HighestBounds(xs, i);
    UmOfA(xs[i], Mean(xs), sd, Lowest(xs), Highest(xs));
  }

  lemma ClassUmOfE(xs: seq<real>, sd: real, i: nat)
    requires IsDeviation(xs, sd) && sd > 0.0 && i < |xs| && xs[i] < Mean(xs) - 1.5 * sd
    ensures var cut, worst, um := Mean(xs) - 1.5 * sd, Lowest(xs), RowIn(xs, sd, xs[i]).um;
            && worst < cut
            && -0.5 <= um as real - (70.0 + 4.0 * ((xs[i] - worst) / (cut - worst))) <= 0.5
  {
    HighestBounds(xs, i);
    UmOfE(xs[i], Mean(xs), sd, Lowest(xs), Highest(xs));
  }

  /** The letter by the thresholds, and the T-score to two places. */
  lemma LetterByScore(x: real, m: real, sd: real, lowest: real, highest: real)
    requires sd > 0.0
    ensures var row := Grade(x, m, sd, lowest, highest);
            && row.score == x
            && (row.letter == A <==> m + 1.5 * sd <= x)
            && (row.letter == B <==> m + 0.5 * sd <= x < m + 1.5 * sd)
            && (row.letter == C <==> m - 0.5 * sd <= x < m + 0.5 * sd)
            && (row.letter == D <==> m - 1.5 * sd <= x < m - 0.5 * sd)
            && (row.letter == E <==> x < m - 1.5 * sd)
  {
  }

  lemma TScoreToTwoPlaces(x: real, m: real, sd: real, lowest: real, highest: real)
    requires sd > 0.0
    ensures var t, row := 50.0 + 10.0 * ((x - m) / sd), Grade(x, m, sd, lowest, highest);
            && -0.005 <= row.tScore - t <= 0.005
            && row.tScore * 100.0 == RoundHalfEven(t * 100.0) as real
  {
    StandardIs(x, m, sd);
  }

  lemma StandardIs(x: real, m: real, sd: real)
    requires sd > 0.0
    ensures (x - m) / sd == Standard(x, m, sd)
  {
    QuotientIs(x - m, sd, Standard(x, m, sd));
  }

  lemma Scale10ByStandard(x: real, m: real, sd: real, g: nat)
    requires sd > 0.0 && 1 <= g <= 10
    ensures ClassifyScale10(x, m, sd) <= 10
    ensures ClassifyScale10(x, m, sd) >= g <==> Standard(x, m, sd) >= 0.5 * g as real - 2.75
  {
    Scale10Cutoffs(x, m, sd, g);
  }

  /** The grade by the thresholds: half a deviation a grade. */
  lemma Scale10ByScore(x: real, m: real, sd: real, lowest: real, highest: real, g: nat)
    requires sd > 0.0 && 1 <= g <= 10
    ensures Grade(x, m, sd, lowest, highest).scale10 <= 10
    ensures Grade(x, m, sd, lowest, highest).scale10 >= g <==> (x - m) / sd >= 0.5 * g as real - 2.75
  {
    StandardIs(x, m, sd);
    Scale10ByStandard(x, m, sd, g);
  }

  ghost predicate Descending(xs: seq<real>) {
    forall i, j | 0 <= i < j < |xs| :: xs[j] <= xs[i]
  }

  /** counts has one entry a letter: how many of the scores got it. */
  ghost predicate Counted(counts: map<Letter, nat>, m: real, sd: real, scores: seq<real>) {
    forall l: Letter :: l in counts && counts[l] == Count(HasLetter(l, m, sd), scores)
  }

  lemma CountedNone(m: real, sd: real)
    ensures Counted(map[A := 0, B := 0, C := 0, D := 0, E := 0], m, sd, [])
  {
    var counts: map<Letter, nat> := map[A := 0, B := 0, C := 0, D := 0, E := 0];
    forall l: Letter ensures l in counts && counts[l] == 0 {
      match l
      case A => case B => case C => case D => case E =>
    }
  }

  /** The first i scores are in the rows and in the counts. */
  ghost predicate Recorded(rows: seq<Row>, counts: map<Letter, nat>, m: real, sd: real, scores: seq<real>, i: nat)
    requires i <= |scores|
  {
    && |rows| == i
    && (forall k | 0 <= k < i :: rows[k] == RowIn(scores, sd, scores[k]))
    && Counted(counts, m, sd, scores[..i])
  }

  lemma CountedNext(counts: map<Letter, nat>, m: real, sd: real, scores: seq<real>, i: nat, l: Letter)
    requires i < |scores| && Counted(counts, m, sd, scores[..i]) && l == ClassifyLetter(scores[i], m, sd)
    ensures Counted(counts[l := counts[l] + 1], m, sd, scores[..i + 1])
  {
    assert scores[..i + 1][..i] == scores[..i];
  }

  lemma RecordedNext(rows: seq<Row>, counts: map<Letter, nat>, row: Row, m: real, sd: real, scores: seq<real>, i: nat)
    requires i < |scores| && Recorded(rows, counts, m, sd, scores, i)
    requires m == Mean(scores) && row == RowIn(scores, sd, scores[i])
    ensures Recorded(rows + [row], counts[row.letter := counts[row.letter] + 1], m, sd, scores, i + 1)
  {
    CountedNext(counts, m, sd, scores, i, row.letter);
  }

  lemma {:induction false} EveryScoreCounted(m: real, sd: real, scores: seq<real>)
    ensures Count(HasLetter(A, m, sd), scores) + Count(HasLetter(B, m, sd), scores) + Count(HasLetter(C, m, sd), scores)
            + Count(HasLetter(D, m, sd), scores) + Count(HasLetter(E, m, sd), scores) == |scores|
  {
    if scores != [] {
      EveryScoreCounted(m, sd, scores[..|scores| - 1]);
    }
  }

  lemma LettersBounded(counts: map<Letter, nat>, scores: seq<real>, sd: real)
    requires IsDeviation(scores, sd) && Counted(counts, Mean(scores), sd, scores)
    ensures counts[A] + counts[B] + counts[C] + counts[D] + counts[E] == |scores|
    ensures 13 * counts[A] <= 4 * |scores| && 9 * (counts[A] + counts[E]) <= 4 * |scores|
  {
    EveryScoreCounted(Mean(scores), sd, scores);
    FewGetA(scores, sd);
    FewExtremeLetters(scores, sd);
  }

  /** The ranking loop over scores sorted from best to worst. */
  method GradeClass(scores: seq<real>, sd: real) returns (rows: seq<Row>, counts: map<Letter, nat>)
    requires IsDeviation(scores, sd) && Descending(scores)
    ensures |rows| == |scores| && forall i | 0 <= i < |rows| :: rows[i] == RowIn(scores, sd, scores[i])
    ensures forall i, j | 0 <= i < j < |rows| :: NotAbove(rows[j], rows[i])
    ensures Counted(counts, Mean(scores), sd, scores)
    ensures counts[A] + counts[B] + counts[C] + counts[D] + counts[E] == |rows|
    ensures 13 * counts[A] <= 4 * |rows| && 9 * (counts[A] + counts[E]) <= 4 * |rows|
  {
    var m, lowest, highest := Mean(scores), Lowest(scores), Highest(scores);
    rows := [];
    counts := map[A := 0, B := 0, C := 0, D := 0, E := 0];
    CountedNone(m, sd);
    var i := 0;
    while i < |scores|
      invariant 0 <= i <= |scores| && Recorded(rows, counts, m, sd, scores, i)
    {
      var row := Grade(scores[i], m, sd, lowest, highest);
      RecordedNext(rows, counts, row, m, sd, scores, i);
      rows := rows + [row];
      counts := counts[row.letter := counts[row.letter] + 1];
      i := i + 1;
    }
    assert scores[..i] == scores;
    RowsFollowScores(scores, sd, rows);
    LettersBounded(counts, scores, sd);
  }

  /** Ranked rows never go up again, in any column. */
  lemma RowsFollowScores(scores: seq<real>, sd: real, rows: seq<Row>)
    requires Descending(scores) && |rows| == |scores|
    requires forall i | 0 <= i < |rows| :: rows[i] == RowIn(scores, sd, scores[i])
    ensures forall i, j | 0 <= i < j < |rows| :: NotAbove(rows[j], rows[i])
  {
    forall i, j | 0 <= i < j < |rows| ensures NotAbove(rows[j], rows[i]) {
      GradesFollowScores(scores[j], scores[i], Mean(scores), sd, Lowest(scores), Highest(scores));
    }
  }

  // ------------------------------------------------------ the unit of the scores

  lemma ScaledOrder(x: real, y: real, a: real, b: real)
    requires a > 0.0
    ensures x <= y <==> Scaled(x, a, b) <= Scaled(y, a, b)
    ensures x == y <==> Scaled(x, a, b) == Scaled(y, a, b)
  {
    ProductOrder(x, y, a);
  }

  lemma ScaledCut(m: real, sd: real, k: real, a: real, b: real)
    ensures Scaled(m, a, b) + k * (a * sd) == Scaled(m + k * sd, a, b)
  {
    Distribute(m, k * sd, a);
    Associate(k, a, sd);
    Associate(k, sd, a);
  }

  lemma ScaledStandard(x: real, m: real, sd: real, a: real, b: real, d: real)
    requires sd > 0.0 && a > 0.0 && d > 0.0 && d == a * sd
    ensures Standard(Scaled(x, a, b), Scaled(m, a, b), d) == Standard(x, m, sd)
  {
    var z, z' := Standard(x, m, sd), Standard(Scaled(x, a, b), Scaled(m, a, b), d);
    Associate(z, sd, a);
    assert (x - m) * a == Scaled(x, a, b) - Scaled(m, a, b);
    assert z * d == z' * d;
    ProductOrder(z, z', d);
  }

  lemma ScaledRatio(x: real, lower: real, upper: real, a: real, b: real)
    requires a > 0.0
    ensures Ratio(Scaled(x, a, b), Scaled(lower, a, b), Scaled(upper, a, b)) == Ratio(x, lower, upper)
  {
    ScaledOrder(upper, lower, a, b);
    if upper > lower {
      ScaledStandard(x, lower, upper - lower, a, b, Scaled(upper, a, b) - Scaled(lower, a, b));
    }
  }

  function ScaledThresholds(t: Thresholds, a: real, b: real): Thresholds {
    Thresholds(Scaled(t.aMin, a, b), Scaled(t.bMin, a, b), Scaled(t.cMin, a, b), Scaled(t.dMin, a, b))
  }

  lemma ThresholdsScale(m: real, sd: real, a: real, b: real)
    ensures BuildThresholds(Scaled(m, a, b), a * sd) == ScaledThresholds(BuildThresholds(m, sd), a, b)
  {
    ScaledCut(m, sd, 1.5, a, b);
    ScaledCut(m, sd, 0.5, a, b);
    ScaledCut(m, sd, -0.5, a, b);
    ScaledCut(m, sd, -1.5, a, b);
  }

  lemma ScaledMaxMin(x: real, y: real, a: real, b: real)
    requires a > 0.0
    ensures Max2(Scaled(x, a, b), Scaled(y, a, b)) == Scaled(Max2(x, y), a, b)
    ensures Min2(Scaled(x, a, b), Scaled(y, a, b)) == Scaled(Min2(x, y), a, b)
  {
    ScaledOrder(x, y, a, b);
    ScaledOrder(y, x, a, b);
  }

  lemma ScaledInterval(l: Letter, t: Thresholds, lowest: real, highest: real, a: real, b: real)
    requires a > 0.0
    ensures Lower(l, ScaledThresholds(t, a, b), Scaled(lowest, a, b)) == Scaled(Lower(l, t, lowest), a, b)
    ensures Upper(l, ScaledThresholds(t, a, b), Scaled(lowest, a, b), Scaled(highest, a, b))
            == Scaled(Upper(l, t, lowest, highest), a, b)
  {
    match l
    case A => ScaledMaxMin(highest, t.aMin, a, b);
    case B => ScaledMaxMin(t.aMin, t.bMin, a, b);
    case C => ScaledMaxMin(t.bMin, t.cMin, a, b);
    case D => ScaledMaxMin(t.cMin, t.dMin, a, b);
    case E =>
      ScaledMaxMin(lowest, t.dMin, a, b);
      ScaledMaxMin(t.dMin, Min2(lowest, t.dMin), a, b);
  }

  lemma ScaledUm(x: real, l: Letter, t: Thresholds, lowest: real, highest: real, a: real, b: real)
    requires a > 0.0
    ensures ComputeUm(Scaled(x, a, b), l, ScaledThresholds(t, a, b), Scaled(lowest, a, b), Scaled(highest, a, b))
            == ComputeUm(x, l, t, lowest, highest)
  {
    ScaledInterval(l, t, lowest, highest, a, b);
    ScaledRatio(x, Lower(l, t, lowest), Upper(l, t, lowest, highest), a, b);
  }

  lemma ScaledTScore(x: real, m: real, sd: real, a: real, b: real)
    requires a > 0.0
    ensures TScore(Scaled(x, a, b), Scaled(m, a, b), a * sd) == TScore(x, m, sd)
  {
    ProductOrder(sd, 0.0, a);
    if sd > 0.0 {
      ScaledStandard(x, m, sd, a, b, a * sd);
    }
  }

  lemma ScaledLetter(x: real, m: real, sd: real, a: real, b: real)
    requires a > 0.0 && sd > 0.0 && a * sd > 0.0
    ensures ClassifyLetter(Scaled(x, a, b), Scaled(m, a, b), a * sd) == ClassifyLetter(x, m, sd)
  {
    ScaledTScore(x, m, sd, a, b);
    LetterCutoffs(x, m, sd);
    LetterCutoffs(Scaled(x, a, b), Scaled(m, a, b), a * sd);
    LevelInjective(ClassifyLetter(Scaled(x, a, b), Scaled(m, a, b), a * sd), ClassifyLetter(x, m, sd));
  }

  lemma ScaledScale10(x: real, m: real, sd: real, a: real, b: real)
    requires a > 0.0 && sd > 0.0 && a * sd > 0.0
    ensures ClassifyScale10(Scaled(x, a, b), Scaled(m, a, b), a * sd) == ClassifyScale10(x, m, sd)
  {
    ScaledTScore(x, m, sd, a, b);
    var g, g' := ClassifyScale10(x, m, sd), ClassifyScale10(Scaled(x, a, b), Scaled(m, a, b), a * sd);
    if g >= 1 {
      Scale10Cutoffs(x, m, sd, g);
      Scale10Cutoffs(Scaled(x, a, b), Scaled(m, a, b), a * sd, g);
    }
    if g' >= 1 {
      Scale10Cutoffs(x, m, sd, g');
      Scale10Cutoffs(Scaled(x, a, b), Scaled(m, a, b), a * sd, g');
    }
  }

  lemma {:induction false} ScaledExtremes(xs: seq<real>, a: real, b: real)
    requires a > 0.0 && xs != []
    ensures Highest(Rescale(xs, a, b)) == Scaled(Highest(xs), a, b)
    ensures Lowest(Rescale(xs, a, b)) == Scaled(Lowest(xs), a, b)
  {
    if |xs| > 1 {
      var n := |xs| - 1;
      ScaledExtremes(xs[..n], a, b);
      RescaleInit(xs, a, b);
      ScaledMaxMin(Highest(xs[..n]), xs[n], a, b);
      ScaledMaxMin(Lowest(xs[..n]), xs[n], a, b);
    }
  }

  /** Measuring a class in other units changes no letter, 0-10 grade, T-score
      or UM score. */
  lemma UnitDoesNotMatter(xs: seq<real>, sd: real, sd': real, a: real, b: real, x: real)
    requires a > 0.0 && xs != [] && IsDeviation(xs, sd) && IsDeviation(Rescale(xs, a, b), sd')
    ensures RowIn(Rescale(xs, a, b), sd', Scaled(x, a, b)) == RowIn(xs, sd, x).(score := Scaled(x, a, b))
    ensures TScore(Scaled(x, a, b), Mean(Rescale(xs, a, b)), sd') == TScore(x, Mean(xs), sd)
  {
    RescaleMean(xs, a, b);
    RescaleDeviation(xs, sd, sd', a, b);
    ScaledExtremes(xs, a, b);
    ScaledTScore(x, Mean(xs), sd, a, b);
    ThresholdsScale(Mean(xs), sd, a, b);
    ProductOrder(0.0, sd, a);
    ProductOrder(sd, 0.0, a);
    if sd > 0.0 {
      ScaledLetter(x, Mean(xs), sd, a, b);
      ScaledScale10(x, Mean(xs), sd, a, b);
    }
    ScaledUm(x, ClassifyLetter(x, Mean(xs), sd), BuildThresholds(Mean(xs), sd), Lowest(xs), Highest(xs), a, b);
  }

  // ------------------------------------------------------ the A bound is sharp

  function Repeat(xs: seq<real>, y: real, k: nat): seq<real> {
    if k == 0 then xs else Repeat(xs, y, k - 1) + [y]
  }

  lemma RepeatInit(xs: seq<real>, y: real, k: nat)
    requires k > 0
    ensures Repeat(xs, y, k) != [] && Repeat(xs, y, k)[..|Repeat(xs, y, k)| - 1] == Repeat(xs, y, k - 1)
  {
  }

  lemma {:induction false} HighScores(k: nat, p: real -> bool)
    requires p(13.0)
    ensures var ys := Repeat([], 13.0, k);
            |ys| == k && Sum(ys) == 13.0 * k as real && SquaredDeviations(ys, 4.0) == 81.0 * k as real
                && Count(p, ys) == k
  {
    if k > 0 {
      HighScores(k - 1, p);
      RepeatInit([], 13.0, k);
    }
  }

  lemma {:induction false} LowScores(k: nat, xs: seq<real>, p: real -> bool)
    requires !p(0.0)
    ensures var ys := Repeat(xs, 0.0, k);
            |ys| == |xs| + k && Sum(ys) == Sum(xs)
            && SquaredDeviations(ys, 4.0) == SquaredDeviations(xs, 4.0) + 16.0 * k as real
                && Count(p, ys) == Count(p, xs)
  {
    if k > 0 {
      LowScores(k - 1, xs, p);
      RepeatInit(xs, 0.0, k);
    }
  }

  /** Four scores of 13 before nine of 0: four of the thirteen get an A. */
  lemma BoundReached() returns (xs: seq<real>, sd: real)
    ensures IsDeviation(xs, sd) && |xs| == 13 && 13 * Count(HasLetter(A, Mean(xs), sd), xs) == 4 * |xs|
  {
    var high := Repeat([], 13.0, 4);
    xs, sd := Repeat(high, 0.0, 9), 6.0;
    HighScores(4, HasLetter(A, 4.0, sd));
    LowScores(9, high, HasLetter(A, 4.0, sd));
  }
}
