// What the prune means, told over scores, prices, unit scores and counts instead of over
// effective scores and sorted lists.
module PrunerLaws {
  import opened Common
  import opened Sorting
  import opened Pruner

  // ---- prices ----

  /** p is the least positive price. */
  ghost predicate LeastPrice(effCost: map<string, real>, p: real) {
    && p > 0.0
    && (exists c :: c in effCost && effCost[c] == p)
    && (forall x :: x in effCost && effCost[x] > 0.0 ==> p <= effCost[x])
  }

  lemma Quotient(c: real, r: real, p: real)
    requires p > 0.0 && c == r * p
    ensures c / p == r
  {
    assert (c / p) * p == c;
    assert (c / p - r) * p == 0.0;
  }

  lemma DivMonotone(a: real, b: real, p: real)
    requires p > 0.0 && a <= b
    ensures a / p <= b / p
  {
    var qa, qb := a / p, b / p;
    assert qa * p == a && qb * p == b;
    assert (qb - qa) * p >= 0.0;
  }

  lemma PenaltyOfPrice(effCost: map<string, real>, m: string, p: real)
    requires LeastPrice(effCost, p) && m in effCost && effCost[m] > 0.0
    ensures CostPenalty(effCost, m) == 0.10 * (effCost[m] / p - 1.0)
  {
    var c :| c in effCost && effCost[c] == p;
    assert m in Positive(effCost) && c in Positive(effCost);
    assert effCost[Cheapest(effCost, Positive(effCost))] == p;
  }

  /** A model at r times the least price is 10% per further multiple below an equally scored model at that price. */
  lemma PriceGap(f: Field, i: nat, j: nat, r: real)
    requires f.Valid() && f.units == map[] && i < |f.order| && j < |f.order|
    requires f.order[i] in f.scores && f.order[j] in f.scores && f.scores[f.order[i]] == f.scores[f.order[j]]
    requires f.order[i] in f.effCost && f.order[j] in f.effCost
    requires LeastPrice(f.effCost, f.effCost[f.order[j]]) && r > 0.0
    requires f.effCost[f.order[i]] == r * f.effCost[f.order[j]]
    ensures f.Values()[i] == f.Values()[j] - 0.10 * (r - 1.0)
  {
    var p := f.effCost[f.order[j]];
    assert r * p > 0.0;
    PenaltyOfPrice(f.effCost, f.order[i], p);
    PenaltyOfPrice(f.effCost, f.order[j], p);
    Quotient(f.effCost[f.order[i]], r, p);
    Quotient(p, 1.0, p);
    assert CostPenalty(f.effCost, f.order[i]) == 0.10 * (r - 1.0);
    assert CostPenalty(f.effCost, f.order[j]) == 0.0;
    hide CostPenalty;
  }

  /** A model without a positive price has its plain score. */
  lemma UnpricedIsFree(f: Field, i: nat)
    requires f.Valid() && f.units == map[] && i < |f.order| && f.order[i] in f.scores
    requires f.order[i] in f.effCost ==> f.effCost[f.order[i]] <= 0.0
    ensures f.Values()[i] == f.scores[f.order[i]]
  {
  }

  lemma PriceIsLeast(effCost: map<string, real>, m: string) returns (p: real)
    requires m in effCost && effCost[m] > 0.0
    ensures LeastPrice(effCost, p)
  {
    assert m in Positive(effCost);
    p := effCost[Cheapest(effCost, Positive(effCost))];
    forall x | x in effCost && effCost[x] > 0.0 ensures p <= effCost[x] {
      assert x in Positive(effCost);
    }
  }

  /** Outside the paired branch: no worse and no dearer than a survivor is enough to survive. */
  lemma BetterAndCheaperSurvives(f: Field, o1: set<string>, x: string, m: string)
    requires f.Valid() && !BranchOf(f).PairedBootstrap? && f.units == map[] && IsPruned(f, o1)
    requires x in f.scores && m in f.scores && f.scores[x] <= f.scores[m]
    requires x in f.effCost && m in f.effCost && 0.0 < f.effCost[m] <= f.effCost[x]
    ensures x in o1 ==> m in o1
  {
    var p := PriceIsLeast(f.effCost, m);
    PenaltyOfPrice(f.effCost, x, p);
    PenaltyOfPrice(f.effCost, m, p);
    DivMonotone(f.effCost[m], f.effCost[x], p);
    if x in o1 {
      UpwardClosed(f, x, m);
    }
  }

  // ---- variation over task units ----

  lemma {:induction false} SumAppend(a: seq<real>, b: seq<real>)
    ensures Sum(a + b) == Sum(a) + Sum(b)
  {
    if b == [] {
      assert a + b == a;
    } else {
      var n := |b| - 1;
      SumAppend(a, b[..n]);
      assert (a + b)[..|a + b| - 1] == a + b[..n];
    }
  }

  lemma {:induction false} SumConstant(xs: seq<real>, c: real)
    requires forall i :: 0 <= i < |xs| ==> xs[i] == c
    ensures Sum(xs) == |xs| as real * c
  {
    if xs != [] {
      var n := |xs| - 1;
      SumConstant(xs[..n], c);
      assert (n + 1) as real * c == n as real * c + c;
    }
  }

  /** The mean of these scores, apart from its sign, or 1 where it is as good as zero. */
  function Scale(xs: seq<real>): real
    requires xs != []
  {
    var mean := Sum(xs) / |xs| as real;
    if mean > 0.000000001 then mean else if mean < -0.000000001 then -mean else 1.0
  }

  /** Against an equally scored model without variation: 20% of the standard deviation over the mean lower. */
  lemma VariationGap(f: Field, i: nat, j: nat)
    requires f.Valid() && f.effCost == map[] && i < |f.order| && j < |f.order|
    requires f.order[i] in f.scores && f.order[j] in f.scores && f.scores[f.order[i]] == f.scores[f.order[j]]
    requires f.order[i] in f.units && |f.units[f.order[i]]| >= 2
    requires f.order[j] !in f.units || |f.units[f.order[j]]| < 2 || f.chance.pstdev(f.units[f.order[j]]) == 0.0
    ensures f.Values()[i] ==
            f.Values()[j] - 0.20 * (f.chance.pstdev(f.units[f.order[i]]) / Scale(f.units[f.order[i]]))
  {
  }

  lemma ScaleIsPositive(xs: seq<real>)
    requires xs != []
    ensures Scale(xs) > 0.0
  {
  }

  /** At the same mean, more variation never raises the value. */
  lemma MoreVariationIsNoBetter(f: Field, i: nat, j: nat)
    requires f.Valid() && f.effCost == map[] && i < |f.order| && j < |f.order|
    requires f.order[i] in f.scores && f.order[j] in f.scores && f.scores[f.order[i]] == f.scores[f.order[j]]
    requires f.order[i] in f.units && f.order[j] in f.units
    requires var a, b := f.units[f.order[i]], f.units[f.order[j]];
             |a| == |b| >= 2 && Sum(a) == Sum(b) && f.chance.pstdev(a) <= f.chance.pstdev(b)
    ensures f.Values()[i] >= f.Values()[j]
  {
    var a, b := f.units[f.order[i]], f.units[f.order[j]];
    ScaleIsPositive(a);
    DivMonotone(f.chance.pstdev(a), f.chance.pstdev(b), Scale(a));
    assert VariancePenalty(f.units, f.chance, f.order[i]) == 0.20 * (f.chance.pstdev(a) / Scale(a));
    assert VariancePenalty(f.units, f.chance, f.order[j]) == 0.20 * (f.chance.pstdev(b) / Scale(a));
  }

  // ---- order statistics by counting ----

  lemma {:induction false} CountBelow(s: seq<real>, p: nat, y: real)
    requires p <= |s| && forall i :: 0 <= i < p ==> s[i] < y
    ensures CountAtLeast(s, y) <= |s| - p
  {
    if s != [] {
      CountBelow(s[1..], if p > 0 then p - 1 else 0, y);
    }
  }

  /** x is the k-th largest: at least k values reach it, fewer than k pass it. */
  ghost predicate KthLargest(xs: seq<real>, k: nat, x: real) {
    x in xs && CountAtLeast(xs, x) >= k && forall y :: y > x ==> CountAtLeast(xs, y) < k
  }

  lemma SortedIsKth(xs: seq<real>, i: nat)
    requires i < |xs|
    ensures |SortReals(xs)| == |xs| && KthLargest(xs, |xs| - i, SortReals(xs)[i])
  {
    var s := SortReals(xs);
    SortedReals(xs);
    CountSuffix(s, i, s[i]);
    CountSorted(xs, s[i]);
    forall y | y > s[i] ensures CountAtLeast(xs, y) < |xs| - i {
      CountBelow(s, i + 1, y);
      CountSorted(xs, y);
    }
  }

  /** There is only one k-th largest value. */
  lemma KthIsUnique(xs: seq<real>, k: nat, x: real, y: real)
    requires KthLargest(xs, k, x) && KthLargest(xs, k, y)
    ensures x == y
  {
    assert x > y ==> CountAtLeast(xs, x) < k;
    assert y > x ==> CountAtLeast(xs, y) < k;
  }

  /** The median is the middle value, or half way between the two middle ones. */
  lemma MedianIsMiddle(xs: seq<real>, lo: real, hi: real)
    requires xs != [] && KthLargest(xs, |xs| / 2 + 1, lo) && KthLargest(xs, (|xs| + 1) / 2, hi)
    ensures 2.0 * Median(xs) == lo + hi
  {
    var n := |xs|;
    SortedIsKth(xs, n - (n / 2 + 1));
    SortedIsKth(xs, n - (n + 1) / 2);
    KthIsUnique(xs, n / 2 + 1, lo, SortReals(xs)[n - (n / 2 + 1)]);
    KthIsUnique(xs, (n + 1) / 2, hi, SortReals(xs)[n - (n + 1) / 2]);
  }

  /** The percentile leaves a fortieth of the values below it: 25 of 1000. */
  lemma PercentileIsLow(xs: seq<real>, x: real)
    requires xs != [] && KthLargest(xs, |xs| - |xs| / 40, x)
    ensures Percentile(xs) == x
  {
    SortedIsKth(xs, |xs| / 40);
    KthIsUnique(xs, |xs| - |xs| / 40, x, SortReals(xs)[|xs| / 40]);
  }

  // ---- the lines ----

  function CountEqual(xs: seq<real>, v: real): nat {
    if xs == [] then 0 else (if xs[0] == v then 1 else 0) + CountEqual(xs[1..], v)
  }

  lemma {:induction false} EqualAndMore(xs: seq<real>, v: real, y: real)
    ensures CountAtLeast(xs, v) >= CountEqual(xs, v)
    ensures y > v ==> CountAtLeast(xs, y) + CountEqual(xs, v) <= |xs|
  {
    if xs != [] {
      EqualAndMore(xs[1..], v, y);
    }
  }

  lemma {:induction false} EqualIsThere(xs: seq<real>, v: real)
    ensures CountEqual(xs, v) > 0 ==> v in xs
  {
    if xs != [] {
      EqualIsThere(xs[1..], v);
    }
  }

  /** A value held by more than half is the median. */
  lemma MajorityIsMedian(xs: seq<real>, v: real)
    requires xs != [] && 2 * CountEqual(xs, v) > |xs|
    ensures Median(xs) == v
  {
    EqualAndMore(xs, v, v);
    EqualIsThere(xs, v);
    forall y | y > v ensures 2 * CountAtLeast(xs, y) < |xs| {
      EqualAndMore(xs, v, y);
    }
    MedianIsMiddle(xs, v, v);
  }

  lemma {:induction false} EqualDeviatesNothing(xs: seq<real>, v: real)
    ensures CountEqual(Deviations(xs, v), 0.0) == CountEqual(xs, v)
  {
    if xs != [] {
      EqualDeviatesNothing(xs[1..], v);
      assert Deviations(xs, v)[1..] == Deviations(xs[1..], v);
    }
  }

  /**
   * When more than half of the values are v: with no spread to speak of everybody is kept, otherwise exactly
   * those within one and a half standard deviations below v.
   */
  lemma MajorityLine(f: Field, o1: set<string>, v: real, i: nat)
    requires f.Valid() && IsPruned(f, o1) && |f.scores| > 3 && i < |f.order|
    requires 2 * CountEqual(f.Values(), v) > |f.Values()|
    ensures |f.Values()| == |f.order|
    ensures f.order[i] in o1 <==>
            f.chance.pstdev(f.Values()) <= 0.000000001 || f.Values()[i] >= v - 1.5 * f.chance.pstdev(f.Values())
  {
    var values := f.Values();
    BigFieldHasValues(f);
    MajorityIsMedian(values, v);
    EqualDeviatesNothing(values, v);
    MajorityIsMedian(Deviations(values, v), 0.0);
    assert f.order[i] in Elements(f.order);
  }

  /** The median of the absolute distances from the median. */
  lemma SpreadIs(values: seq<real>, center: real, lo: real, hi: real)
    requires values != [] && center == Median(values)
    requires KthLargest(Deviations(values, center), |values| / 2 + 1, lo)
    requires KthLargest(Deviations(values, center), (|values| + 1) / 2, hi)
    ensures 2.0 * Mad(values) == lo + hi
  {
    MedianIsMiddle(Deviations(values, center), lo, hi);
  }

  lemma ConstantPercentile(xs: seq<real>, c: real)
    requires xs != [] && forall i :: 0 <= i < |xs| ==> xs[i] == c
    ensures Percentile(xs) == c
  {
    SortedReals(xs);
    assert Percentile(xs) in SortReals(xs);
  }

  /** Counting from position p on: each of these positions counts. */
  lemma {:induction false} CountsAtLeast(xs: seq<real>, x: real, p: nat, reach: set<nat>)
    requires p <= |xs| && forall i :: i in reach ==> p <= i < |xs| && xs[i] >= x
    ensures CountAtLeast(xs[p..], x) >= |reach|
    decreases |xs| - p
  {
    if p == |xs| {
      assert reach == {};
    } else {
      CountsAtLeast(xs, x, p + 1, reach - {p});
      assert xs[p..][1..] == xs[p + 1..];
    }
  }

  lemma QuietBound(values: seq<real>, pick: (nat, nat, nat) -> nat, v: real, quiet: set<nat>)
    requires values != [] && (forall i, k, n :: n > 0 ==> pick(i, k, n) < n) && |quiet| >= 975
    requires forall j :: 0 <= j < 1000 ==> Median(Resample(values, pick, j)) >= Median(values)
    requires forall j :: j in quiet ==> j < 1000 && Median(Resample(values, pick, j)) == Median(values)
    ensures UnpairedBound(Median(values), v, ResampleMedians(values, pick, N_BOOTSTRAP)) == v
  {
    var medians := ResampleMedians(values, pick, N_BOOTSTRAP);
    var below, x := Below(v, medians), v - Median(values);
    hide Median;
    forall j | j in quiet ensures j < |below| && below[j] >= x {
    }
    CountsAtLeast(below, x, 0, quiet);
    assert below[0..] == below;
    forall y | y > x ensures CountAtLeast(below, y) < 975 {
      CountBelow(below, |below|, y);
    }
    var some :| some in quiet;
    assert below[some] == x;
    PercentileIsLow(below, x);
  }

  /**
   * Unpaired branch with little sampling noise: if at least 975 of the 1000 resamples have the field's own median
   * and the rest a higher one, exactly those within two and a half MADs below the median are kept.
   */
  lemma QuietUnpairedLine(f: Field, o1: set<string>, i: nat, quiet: set<nat>)
    requires f.Valid() && IsPruned(f, o1) && |f.scores| > 3 && BranchOf(f).UnpairedBootstrap? && i < |f.order|
    requires f.Values() != [] && |quiet| >= 975
    requires forall j :: 0 <= j < 1000 ==> Median(Resample(f.Values(), f.chance.pick, j)) >= Median(f.Values())
    requires forall j :: j in quiet ==>
               j < 1000 && Median(Resample(f.Values(), f.chance.pick, j)) == Median(f.Values())
    ensures |f.Values()| == |f.order|
    ensures f.order[i] in o1 <==> f.Values()[i] >= Median(f.Values()) - 2.5 * Mad(f.Values())
  {
    assert f.order[i] in Elements(f.order);
    QuietBound(f.Values(), f.chance.pick, f.Values()[i], quiet);
  }

  // ---- the paired branch when the units do not matter ----

  /** Every model has the same score, its aggregate, on every unit. */
  ghost predicate FlatUnits(f: Field) {
    forall m :: m in f.scores ==> m in f.units && forall k :: 0 <= k < |f.units[m]| ==> f.units[m][k] == f.scores[m]
  }

  /** The mean of any draw from a constant row. */
  lemma FlatMean(p: Paired, i: nat, j: nat, c: real)
    requires p.Valid() && i < |p.rows| && forall k :: 0 <= k < |p.rows[i]| ==> p.rows[i][k] == c
    ensures Sum(p.Drawn(i, j)) / p.unitCount as real == c
  {
    SumConstant(p.Drawn(i, j), c);
    Quotient(Sum(p.Drawn(i, j)), c, p.unitCount as real);
  }

  lemma FlatRow(f: Field, j: nat, i: nat)
    requires f.Valid() && |f.scores| > 3 && UsesPaired(f) && FlatUnits(f) && i < |f.order|
    ensures f.order != [] && PairedOf(f).Valid() && |PairedOf(f).rows| == |f.order| == |f.Values()|
    ensures PairedOf(f).Means(j)[i] == f.Values()[i]
  {
    PairedIsValid(f);
    var p := PairedOf(f);
    assert f.order[i] in Elements(f.order);
    var c := f.scores[f.order[i]];
    assert p.penalties[i] == f.Penalty(f.order[i]);
    assert p.rows[i] == f.units[f.order[i]];
    FlatMean(p, i, j, c);
    hide Paired.Drawn;
    hide Sum;
    hide VariancePenalty;
    hide CostPenalty;
  }

  lemma FlatMeans(f: Field, j: nat)
    requires f.Valid() && |f.scores| > 3 && UsesPaired(f) && FlatUnits(f)
    ensures f.order != [] && PairedOf(f).Valid() && PairedOf(f).Means(j) == f.Values()
  {
    PairedIsValid(f);
    forall i | 0 <= i < |f.order| ensures PairedOf(f).Means(j)[i] == f.Values()[i] {
      FlatRow(f, j, i);
    }
  }

  lemma FlatPercentile(f: Field, i: nat)
    requires f.Valid() && |f.scores| > 3 && UsesPaired(f) && FlatUnits(f) && i < |f.order| && f.Values() != []
    ensures f.order != [] && PairedOf(f).Valid() && |PairedOf(f).rows| == |f.order| == |f.Values()|
    ensures Percentile(PairedOf(f).DeviationsOf(i, N_BOOTSTRAP)) == f.Values()[i] - Median(f.Values())
  {
    PairedIsValid(f);
    var p := PairedOf(f);
    var devs := p.DeviationsOf(i, N_BOOTSTRAP);
    hide Paired.Means;
    forall j | 0 <= j < N_BOOTSTRAP ensures devs[j] == f.Values()[i] - Median(f.Values()) {
      FlatMeans(f, j);
    }
    ConstantPercentile(devs, f.Values()[i] - Median(f.Values()));
  }

  /** Then the draws make no difference: exactly those within two and a half MADs below the median are kept. */
  lemma FlatPairedLine(f: Field, o1: set<string>, i: nat)
    requires f.Valid() && IsPruned(f, o1) && |f.scores| > 3 && BranchOf(f).PairedBootstrap? && FlatUnits(f)
    requires i < |f.order| && f.Values() != []
    ensures |f.Values()| == |f.order|
    ensures f.order[i] in o1 <==> f.Values()[i] >= Median(f.Values()) - 2.5 * Mad(f.Values())
  {
    assert UsesPaired(f);
    assert PairedSurvives(f, i) <==> f.order[i] in o1;
    FlatPercentile(f, i);
    hide IsPruned;
    hide BranchOf;
    hide UsesPaired;
    hide Median;
    hide Mad;
    hide Percentile;
    hide PairedOf;
    hide FlatUnits;
  }

  lemma SameRowSameDeviations(p: Paired, i: nat, j: nat, nb: nat)
    requires p.Valid() && i < |p.rows| && j < |p.rows| && p.rows[i] == p.rows[j] && p.penalties[i] == p.penalties[j]
    ensures p.DeviationsOf(i, nb) == p.DeviationsOf(j, nb)
  {
    forall b | 0 <= b < nb ensures p.DeviationsOf(i, nb)[b] == p.DeviationsOf(j, nb)[b] {
      assert p.Drawn(i, b) == p.Drawn(j, b);
    }
  }

  /** The draws are shared: two models with the same unit scores and penalties survive together or not at all. */
  lemma PairedTwins(f: Field, o1: set<string>, i: nat, j: nat)
    requires f.Valid() && IsPruned(f, o1) && |f.scores| > 3 && BranchOf(f).PairedBootstrap?
    requires i < |f.order| && j < |f.order| && f.order[i] in f.scores && f.order[j] in f.scores
    requires f.order[i] in f.units && f.order[j] in f.units && f.units[f.order[i]] == f.units[f.order[j]]
    requires f.Penalty(f.order[i]) == f.Penalty(f.order[j])
    ensures f.order[i] in o1 <==> f.order[j] in o1
  {
    assert UsesPaired(f);
    assert PairedSurvives(f, i) <==> f.order[i] in o1;
    assert PairedSurvives(f, j) <==> f.order[j] in o1;
    hide IsPruned;
    hide BranchOf;
    PairedIsValid(f);
    hide Paired.DeviationsOf;
    SameRowSameDeviations(PairedOf(f), i, j, N_BOOTSTRAP);
  }
}
