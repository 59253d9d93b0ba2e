/** The three percentile helpers of the load scripts, over the reals:
    scripts/load_test_answer_sync.py, scripts/synthetic_runtime_guard.py and
    scripts/prod_concurrent_exam_load.py. */
module Percentile {
  import opened Common
  import S = Statistics

  // ------------------------------------------------------ sorting

  ghost predicate Ascending(xs: seq<real>) {
    forall i, j | 0 <= i < j < |xs| :: xs[i] <= xs[j]
  }

  function Insert(x: real, xs: seq<real>): seq<real> {
    if xs == [] then [x]
    else if xs[|xs| - 1] <= x then xs + [x]
    else Insert(x, xs[..|xs| - 1]) + [xs[|xs| - 1]]
  }

  function Sorted(xs: seq<real>): seq<real> {
    if xs == [] then [] else Insert(xs[|xs| - 1], Sorted(xs[..|xs| - 1]))
  }

  lemma {:induction false} InsertAdds(x: real, xs: seq<real>)
    ensures multiset(Insert(x, xs)) == multiset(xs) + multiset{x}
  {
    if xs != [] {
      assert xs == xs[..|xs| - 1] + [xs[|xs| - 1]];
      InsertAdds(x, xs[..|xs| - 1]);
    }
  }

  lemma {:induction false} InsertBelow(x: real, xs: seq<real>, top: real)
    requires x <= top && forall i | 0 <= i < |xs| :: xs[i] <= top
    ensures forall i | 0 <= i < |Insert(x, xs)| :: Insert(x, xs)[i] <= top
  {
    if xs != [] {
      InsertBelow(x, xs[..|xs| - 1], top);
    }
  }

  lemma {:induction false} InsertIsSorted(x: real, xs: seq<real>)
    requires Ascending(xs)
    ensures Ascending(Insert(x, xs))
  {
    if xs != [] && xs[|xs| - 1] > x {
      InsertIsSorted(x, xs[..|xs| - 1]);
      InsertBelow(x, xs[..|xs| - 1], xs[|xs| - 1]);
    }
  }

  lemma {:induction false} SortedIsSorted(xs: seq<real>)
    ensures Ascending(Sorted(xs)) && multiset(Sorted(xs)) == multiset(xs) && |Sorted(xs)| == |xs|
  {
    if xs != [] {
      var init, last := xs[..|xs| - 1], xs[|xs| - 1];
      SortedIsSorted(init);
      InsertIsSorted(last, Sorted(init));
      InsertAdds(last, Sorted(init));
      assert xs == init + [last];
    }
    assert |multiset(Sorted(xs))| == |multiset(xs)|;
  }

  lemma LastIsTop(xs: seq<real>, x: real)
    requires Ascending(xs) && x in multiset(xs)
    ensures x <= xs[|xs| - 1]
  {
    var i :| 0 <= i < |xs| && xs[i] == x;
  }

  lemma WithoutLast(xs: seq<real>)
    requires xs != []
    ensures multiset(xs[..|xs| - 1]) == multiset(xs) - multiset{xs[|xs| - 1]}
    ensures xs[|xs| - 1] in multiset(xs)
  {
    assert xs == xs[..|xs| - 1] + [xs[|xs| - 1]];
  }

  lemma SameLength(xs: seq<real>, ys: seq<real>)
    requires multiset(xs) == multiset(ys)
    ensures |xs| == |ys|
  {
    assert |multiset(xs)| == |multiset(ys)|;
  }

  lemma SameLast(xs: seq<real>, ys: seq<real>)
    requires Ascending(xs) && Ascending(ys) && multiset(xs) == multiset(ys) && xs != []
    ensures |xs| == |ys| && xs[|xs| - 1] == ys[|ys| - 1]
    ensures multiset(xs[..|xs| - 1]) == multiset(ys[..|ys| - 1])
  {
    SameLength(xs, ys);
    WithoutLast(xs);
    WithoutLast(ys);
    LastIsTop(xs, ys[|ys| - 1]);
    LastIsTop(ys, xs[|xs| - 1]);
  }

  lemma AscendingInit(xs: seq<real>)
    requires Ascending(xs) && xs != []
    ensures Ascending(xs[..|xs| - 1]) && xs == xs[..|xs| - 1] + [xs[|xs| - 1]]
  {
  }

  /** There is one ascending arrangement. */
  lemma {:induction false} AscendingUnique(xs: seq<real>, ys: seq<real>)
    requires Ascending(xs) && Ascending(ys) && multiset(xs) == multiset(ys)
    ensures xs == ys
  {
    if xs == [] {
      SameLength(xs, ys);
    } else {
      SameLast(xs, ys);
      AscendingInit(xs);
      AscendingInit(ys);
      AscendingUnique(xs[..|xs| - 1], ys[..|ys| - 1]);
    }
  }

  // ------------------------------------------------------ the three helpers

  /** int() drops the fraction, toward zero. */
  function Truncate(x: real): int {
    if x >= 0.0 then x.Floor else -((-x).Floor)
  }

  function Ceiling(x: real): int {
    -((-x).Floor)
  }

  function Blend(a: real, b: real, w: real): real {
    a * (1.0 - w) + b * w
  }

  function Clamped(p: real): (r: real)
    ensures 0.0 <= r <= 1.0
  {
    if p < 0.0 then 0.0 else if p > 1.0 then 1.0 else p
  }

  function Rank(n: nat, p: real): real {
    p * (n - 1) as real
  }

  lemma RankInRange(n: nat, p: real)
    requires n >= 1 && 0.0 <= p <= 1.0
    ensures 0.0 <= Rank(n, p) <= (n - 1) as real
  {
    if n > 1 {
      S.ProductOrder(0.0, p, (n - 1) as real);
      S.ProductOrder(p, 1.0, (n - 1) as real);
    }
  }

  lemma RankKeepsOrder(n: nat, p: real, q: real)
    requires n >= 1 && p <= q
    ensures Rank(n, p) <= Rank(n, q)
  {
    if n > 1 {
      S.ProductOrder(p, q, (n - 1) as real);
    }
  }

  /** Between the values at the floor and the ceiling of a rank. */
  function AtRank(ordered: seq<real>, rank: real): real
    requires 0.0 <= rank <= (|ordered| - 1) as real
  {
    var low, high := rank.Floor, Ceiling(rank);
    if low == high then ordered[low] else Blend(ordered[low], ordered[high], rank - low as real)
  }

  /** synthetic_runtime_guard.py. */
  function GuardPercentile(values: seq<real>, p: real): real {
    if values == [] then 0.0 else
    SortedIsSorted(values);
    var ordered := Sorted(values);
    if |ordered| == 1 then ordered[0] else
    RankInRange(|ordered|, Clamped(p));
    AtRank(ordered, Rank(|ordered|, Clamped(p)))
  }

  /** prod_concurrent_exam_load.py: as above, with no value for no input. */
  function ProdPercentile(values: seq<real>, ratio: real): Option<real> {
    if values == [] then None else Some(GuardPercentile(values, ratio))
  }

  /** values[i] in Python: negative indices count from the end; None for an
      IndexError. */
  function Item(values: seq<real>, i: int): Option<real> {
    if 0 <= i < |values| then Some(values[i])
    else if -|values| <= i < 0 then Some(values[|values| + i])
    else None
  }

  /** load_test_answer_sync.py, which neither clamps nor looks for an exact
      rank; None when it fails. */
  function LoadPercentile(values: seq<real>, pct: real): Option<real> {
    if values == [] then Some(0.0)
    else if |values| == 1 then Some(values[0])
    else
      var ordered := Sorted(values);
      AtIndex(ordered, Rank(|ordered|, pct))
  }

  /** Between the value at the truncated index and the next one, if any. */
  function AtIndex(ordered: seq<real>, index: real): Option<real> {
    var lower := Truncate(index);
    var upper := if lower + 1 <= |ordered| - 1 then lower + 1 else |ordered| - 1;
    if Item(ordered, lower).None? || Item(ordered, upper).None? then None
    else Some(Blend(Item(ordered, lower).value, Item(ordered, upper).value, index - lower as real))
  }

  // ------------------------------------------------------ laws

  lemma BlendForm(a: real, b: real, w: real)
    ensures Blend(a, b, w) == a + w * (b - a)
  {
  }

  lemma IndexIsRank(ordered: seq<real>, rank: real)
    requires 0.0 <= rank <= (|ordered| - 1) as real
    ensures AtIndex(ordered, rank) == Some(AtRank(ordered, rank))
  {
    var lower := Truncate(rank);
    if Ceiling(rank) == lower {
      var upper := if lower + 1 <= |ordered| - 1 then lower + 1 else |ordered| - 1;
      BlendForm(ordered[lower], ordered[upper], 0.0);
    }
  }

  /** The helpers agree on every non-empty list. */
  lemma PercentilesAgree(values: seq<real>, p: real)
    requires values != [] && 0.0 <= p <= 1.0
    ensures LoadPercentile(values, p) == ProdPercentile(values, p) == Some(GuardPercentile(values, p))
  {
    SortedIsSorted(values);
    if |values| == 1 {
      AscendingUnique(Sorted(values), values);
    } else {
      RankInRange(|values|, p);
      IndexIsRank(Sorted(values), Rank(|values|, p));
    }
  }

  lemma IndexFailsAbove(ordered: seq<real>, index: real)
    requires |ordered| > 1 && index >= 0.0
    ensures AtIndex(ordered, index).None? <==> index >= |ordered| as real
  {
  }

  lemma SortedLength(values: seq<real>)
    ensures |Sorted(values)| == |values|
  {
    SortedIsSorted(values);
  }

  /** Beyond that the first one fails once the rank leaves the list. */
  lemma LoadFailsAbove(values: seq<real>, p: real)
    requires |values| > 1 && p >= 0.0
    ensures LoadPercentile(values, p).None? <==> Rank(|values|, p) >= |values| as real
  {
    SortedLength(values);
    RankKeepsOrder(|values|, 0.0, p);
    IndexFailsAbove(Sorted(values), Rank(|values|, p));
  }

  /** None depends on the order of the input. */
  lemma InputOrderIrrelevant(xs: seq<real>, ys: seq<real>, p: real)
    requires multiset(xs) == multiset(ys)
    ensures GuardPercentile(xs, p) == GuardPercentile(ys, p) && ProdPercentile(xs, p) == ProdPercentile(ys, p)
    ensures LoadPercentile(xs, p) == LoadPercentile(ys, p)
  {
    assert |multiset(xs)| == |multiset(ys)|;
    SortedIsSorted(xs);
    SortedIsSorted(ys);
    AscendingUnique(Sorted(xs), Sorted(ys));
    if |xs| == 1 {
      AscendingUnique(Sorted(xs), xs);
      AscendingUnique(Sorted(ys), ys);
    }
  }

  lemma BlendKeepsOrder(a: real, b: real, v: real, w: real)
    requires a <= b && v <= w
    ensures Blend(a, b, v) <= Blend(a, b, w)
  {
    BlendForm(a, b, v);
    BlendForm(a, b, w);
    if a < b {
      S.ProductOrder(v, w, b - a);
    }
  }

  lemma BlendBetween(a: real, b: real, w: real)
    requires a <= b && 0.0 <= w <= 1.0
    ensures a <= Blend(a, b, w) <= b
  {
    BlendKeepsOrder(a, b, 0.0, w);
    BlendKeepsOrder(a, b, w, 1.0);
  }

  /** A value at a rank lies between its two neighbours. */
  lemma AtRankBetween(ordered: seq<real>, rank: real)
    requires Ascending(ordered) && 0.0 <= rank <= (|ordered| - 1) as real
    ensures ordered[rank.Floor] <= AtRank(ordered, rank) <= ordered[Ceiling(rank)]
  {
    if rank.Floor != Ceiling(rank) {
      BlendBetween(ordered[rank.Floor], ordered[Ceiling(rank)], rank - rank.Floor as real);
    }
  }

  lemma AtRankKeepsOrder(ordered: seq<real>, r: real, s: real)
    requires Ascending(ordered) && 0.0 <= r <= s <= (|ordered| - 1) as real
    ensures AtRank(ordered, r) <= AtRank(ordered, s)
  {
    AtRankBetween(ordered, r);
    AtRankBetween(ordered, s);
    if r.Floor == s.Floor && r.Floor as real != r {
      BlendKeepsOrder(ordered[r.Floor], ordered[Ceiling(r)], r - r.Floor as real, s - s.Floor as real);
    }
  }

  /** A higher p never gives a lower percentile, across all segments. */
  lemma PercentileKeepsOrder(values: seq<real>, p: real, q: real)
    requires p <= q
    ensures GuardPercentile(values, p) <= GuardPercentile(values, q)
    ensures 0.0 <= p && q <= 1.0 && values != [] ==>
              LoadPercentile(values, p).Some? && LoadPercentile(values, q).Some?
              && LoadPercentile(values, p).value <= LoadPercentile(values, q).value
  {
    if values != [] {
      SortedIsSorted(values);
      RankInRange(|values|, Clamped(p));
      RankInRange(|values|, Clamped(q));
      RankKeepsOrder(|values|, Clamped(p), Clamped(q));
      if |values| > 1 {
        AtRankKeepsOrder(Sorted(values), Rank(|values|, Clamped(p)), Rank(|values|, Clamped(q)));
      }
      if 0.0 <= p && q <= 1.0 {
        PercentilesAgree(values, p);
        PercentilesAgree(values, q);
      }
    }
  }

  /** Never below the least nor above the greatest value; both are reached. */
  lemma PercentileBetween(values: seq<real>, p: real)
    requires values != []
    ensures GuardPercentile(values, 0.0) <= GuardPercentile(values, p) <= GuardPercentile(values, 1.0)
    ensures forall i | 0 <= i < |values| :: GuardPercentile(values, 0.0) <= values[i] <= GuardPercentile(values, 1.0)
    ensures GuardPercentile(values, 0.0) in multiset(values) && GuardPercentile(values, 1.0) in multiset(values)
  {
    Extremes(values);
    SortedIsSorted(values);
    PercentileKeepsOrder(values, Clamped(p), 1.0);
    PercentileKeepsOrder(values, 0.0, Clamped(p));
    var ordered := Sorted(values);
    forall i | 0 <= i < |values| ensures ordered[0] <= values[i] <= ordered[|values| - 1] {
      assert values[i] in multiset(values);
      var j :| 0 <= j < |ordered| && ordered[j] == values[i];
    }
  }

  lemma Extremes(values: seq<real>)
    requires values != []
    ensures |Sorted(values)| == |values|
    ensures GuardPercentile(values, 0.0) == Sorted(values)[0]
    ensures GuardPercentile(values, 1.0) == Sorted(values)[|values| - 1]
  {
    SortedIsSorted(values);
    if |values| > 1 {
      ExtremeRanks(Sorted(values));
    }
  }

  lemma ExtremeRanks(ordered: seq<real>)
    requires |ordered| > 1
    ensures Rank(|ordered|, 0.0) == 0.0 && Rank(|ordered|, 1.0) == (|ordered| - 1) as real
    ensures AtRank(ordered, 0.0) == ordered[0] && AtRank(ordered, (|ordered| - 1) as real) == ordered[|ordered| - 1]
  {
  }

  lemma AnySortIsSorted(values: seq<real>, ordered: seq<real>)
    requires Ascending(ordered) && multiset(ordered) == multiset(values)
    ensures ordered == Sorted(values) && |ordered| == |values|
  {
    SortedIsSorted(values);
    AscendingUnique(ordered, Sorted(values));
  }

  /** Between two neighbours of the ordered values the percentile is on the
      straight line through them. */
  lemma PercentileIsLinear(values: seq<real>, ordered: seq<real>, p: real, rank: real, i: nat)
    requires Ascending(ordered) && multiset(ordered) == multiset(values)
    requires 0.0 <= p <= 1.0 && i + 1 < |ordered|
    requires rank == p * (|values| - 1) as real && i as real <= rank <= (i + 1) as real
    ensures GuardPercentile(values, p) == ordered[i] + (rank - i as real) * (ordered[i + 1] - ordered[i])
  {
    AnySortIsSorted(values, ordered);
    GuardAtRank(values, p);
    assert Rank(|values|, p) == rank;
    AtRankIsLinear(ordered, rank, i);
  }

  lemma GuardAtRank(values: seq<real>, p: real)
    requires |values| > 1 && 0.0 <= p <= 1.0
    ensures 0.0 <= Rank(|values|, p) <= (|Sorted(values)| - 1) as real
    ensures GuardPercentile(values, p) == AtRank(Sorted(values), Rank(|values|, p))
  {
    SortedIsSorted(values);
    RankInRange(|values|, p);
  }

  lemma AtRankIsLinear(ordered: seq<real>, rank: real, i: nat)
    requires i + 1 < |ordered| && i as real <= rank <= (i + 1) as real
    ensures AtRank(ordered, rank) == ordered[i] + (rank - i as real) * (ordered[i + 1] - ordered[i])
  {
    var a, b := ordered[i], ordered[i + 1];
    BlendForm(a, b, rank - i as real);
    if rank == i as real {
      assert rank.Floor == i && Ceiling(rank) == i;
    } else if rank == (i + 1) as real {
      assert rank.Floor == i + 1 && Ceiling(rank) == i + 1;
    } else {
      assert rank.Floor == i && Ceiling(rank) == i + 1;
    }
  }

  /** The clamped helpers, outside [0, 1] and on no values. */
  lemma PercentileEdges(values: seq<real>, p: real)
    ensures p < 0.0 ==> GuardPercentile(values, p) == GuardPercentile(values, 0.0)
    ensures p > 1.0 ==> GuardPercentile(values, p) == GuardPercentile(values, 1.0)
    ensures GuardPercentile([], p) == 0.0 && LoadPercentile([], p) == Some(0.0) && ProdPercentile([], p) == None
  {
  }
}
