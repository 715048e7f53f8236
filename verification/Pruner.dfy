// The MAD-bootstrap pruner. Bootstrap draws and the population standard deviation are
// arbitrary inputs, so every result holds for every seed.
module Pruner {
  import opened Common
  import opened Sorting

  /** pick(i, j, n) is the j-th draw of iteration i from 0..n-1; pstdev is the standard deviation. */
  datatype Chance = Chance(pick: (nat, nat, nat) -> nat, pstdev: seq<real> -> real)

  ghost predicate ValidChance(c: Chance) {
    && (forall i, j, n :: n > 0 ==> c.pick(i, j, n) < n)
    && (forall xs :: c.pstdev(xs) >= 0.0)
  }

  const N_BOOTSTRAP: nat := 1000
  const TINY := 0.000000001

  // ---- order statistics ----

  function SortReals(xs: seq<real>): seq<real> {
    SortBy((a: real, b: real) => a <= b, xs)
  }

  function Median(xs: seq<real>): real
    requires xs != []
  {
    SortPermutes((a: real, b: real) => a <= b, xs);
    var s := SortReals(xs);
    if |s| % 2 == 1 then s[|s| / 2] else (s[|s| / 2 - 1] + s[|s| / 2]) / 2.0
  }

  lemma SortedReals(xs: seq<real>)
    ensures |SortReals(xs)| == |xs|
    ensures forall i, j :: 0 <= i <= j < |xs| ==> SortReals(xs)[i] <= SortReals(xs)[j]
    ensures forall x :: x in SortReals(xs) <==> x in xs
  {
    var le := (a: real, b: real) => a <= b;
    SortSorts(le, xs);
    SortPermutes(le, xs);
    PermutationMembers(SortBy(le, xs), xs);
  }

  /** The median lies between the two middle order statistics, so within the range of the data. */
  lemma MedianInRange(xs: seq<real>, lo: real, hi: real)
    requires xs != []
    requires forall x :: x in xs ==> lo <= x <= hi
    ensures lo <= Median(xs) <= hi
    ensures |SortReals(xs)| == |xs| && SortReals(xs)[|xs| / 2] >= Median(xs)
  {
    SortedReals(xs);
    var s := SortReals(xs);
    assert s[|s| / 2] in s && s[(|s| - 1) / 2] in s;
  }

  function Shift(xs: seq<real>, d: real): seq<real> {
    seq(|xs|, i requires 0 <= i < |xs| => xs[i] + d)
  }

  lemma {:induction false} InsertShift(x: real, s: seq<real>, d: real)
    ensures Insert((a: real, b: real) => a <= b, x + d, Shift(s, d)) ==
            Shift(Insert((a: real, b: real) => a <= b, x, s), d)
  {
    var le := (a: real, b: real) => a <= b;
    if s != [] && !le(x, s[0]) {
      InsertShift(x, s[1..], d);
      assert Shift(s, d)[1..] == Shift(s[1..], d);
      assert Shift([s[0]] + Insert(le, x, s[1..]), d) == [s[0] + d] + Shift(Insert(le, x, s[1..]), d);
    } else {
      assert Shift([x] + s, d) == [x + d] + Shift(s, d);
    }
  }

  /** Moving all the data moves every order statistic by the same amount. */
  lemma {:induction false} SortShift(s: seq<real>, d: real)
    ensures SortReals(Shift(s, d)) == Shift(SortReals(s), d)
  {
    if s != [] {
      SortShift(s[1..], d);
      assert Shift(s, d)[1..] == Shift(s[1..], d);
      InsertShift(s[0], SortReals(s[1..]), d);
    }
  }

  // ---- penalties ----

  ghost function Cheapest(effCost: map<string, real>, ms: set<string>): (m: string)
    requires ms != {} && ms <= effCost.Keys
    ensures m in ms && forall x :: x in ms ==> effCost[m] <= effCost[x]
  {
    var x :| x in ms;
    if ms - {x} == {} then
      assert ms == {x};
      x
    else
      var y := Cheapest(effCost, ms - {x});
      if effCost[x] <= effCost[y] then x else y
  }

  ghost function Positive(effCost: map<string, real>): set<string> {
    set m | m in effCost && effCost[m] > 0.0
  }

  function PenaltyOver(cost: real, cheapest: real): real {
    if cheapest > 0.0 then 0.10 * (cost / cheapest - 1.0) else 0.0
  }

  /** 10% per multiple of the cheapest positive cost. */
  ghost function CostPenalty(effCost: map<string, real>, m: string): real {
    if m in Positive(effCost)
    then PenaltyOver(effCost[m], effCost[Cheapest(effCost, Positive(effCost))])
    else 0.0
  }

  function Sum(xs: seq<real>): real {
    if xs == [] then 0.0 else Sum(xs[..|xs| - 1]) + xs[|xs| - 1]
  }

  function Abs(x: real): real {
    if x < 0.0 then -x else x
  }

  /** 20% of the coefficient of variation over task units. */
  function VariancePenalty(units: map<string, seq<real>>, c: Chance, m: string): real {
    if m !in units || |units[m]| < 2 then 0.0
    else
      var mean := Sum(units[m]) / |units[m]| as real;
      var denom := if Abs(mean) > TINY then Abs(mean) else 1.0;
      0.20 * (c.pstdev(units[m]) / denom)
  }

  /** Everything the pruner is called with; `order` is the iteration order of the score dict. */
  datatype Field = Field(order: seq<string>, scores: map<string, real>, units: map<string, seq<real>>,
                         effCost: map<string, real>, chance: Chance)
  {
    ghost predicate Valid() {
      && NoDuplicates(order) && Elements(order) == scores.Keys
      && ValidChance(chance)
    }

    ghost function Penalty(m: string): real {
      VariancePenalty(units, chance, m) + CostPenalty(effCost, m)
    }

    ghost function Eff(m: string): real
      requires m in scores
    {
      scores[m] - VariancePenalty(units, chance, m) - CostPenalty(effCost, m)
    }

    ghost function Values(): seq<real>
      requires Elements(order) == scores.Keys
    {
      EffOver(order)
    }

    ghost function EffOver(ms: seq<string>): seq<real>
      requires Elements(ms) <= scores.Keys
    {
      seq(|ms|, i requires 0 <= i < |ms| => assert ms[i] in Elements(ms); Eff(ms[i]))
    }
  }

  function Deviations(values: seq<real>, center: real): seq<real> {
    seq(|values|, i requires 0 <= i < |values| => Abs(values[i] - center))
  }

  function Mad(values: seq<real>): real
    requires values != []
  {
    Median(Deviations(values, Median(values)))
  }

  // ---- bootstrap lower bounds ----

  function Resample(values: seq<real>, pick: (nat, nat, nat) -> nat, j: nat): seq<real>
    requires values != []
    requires forall i, k, n :: n > 0 ==> pick(i, k, n) < n
  {
    seq(|values|, k requires 0 <= k < |values| => values[pick(j, k, |values|)])
  }

  function ResampleMedians(values: seq<real>, pick: (nat, nat, nat) -> nat, nb: nat): seq<real>
    requires values != []
    requires forall i, k, n :: n > 0 ==> pick(i, k, n) < n
  {
    seq(nb, j requires 0 <= j < nb => Median(Resample(values, pick, j)))
  }

  /** v minus each resample median. */
  function Below(v: real, medians: seq<real>): seq<real> {
    seq(|medians|, j requires 0 <= j < |medians| => v - medians[j])
  }

  function Percentile(deviations: seq<real>): real
    requires deviations != []
  {
    SortPermutes((a: real, b: real) => a <= b, deviations);
    SortReals(deviations)[|deviations| / 40]
  }

  function UnpairedBound(median: real, v: real, medians: seq<real>): real
    requires medians != []
  {
    median + Percentile(Below(v, medians))
  }

  lemma PercentileInRange(xs: seq<real>, lo: real)
    requires xs != [] && forall x :: x in xs ==> x >= lo
    ensures Percentile(xs) >= lo
  {
    SortedReals(xs);
    assert SortReals(xs)[|xs| / 40] in SortReals(xs);
  }

  /** A better value has a bound better by the same amount. */
  lemma UnpairedBoundShift(median: real, v: real, w: real, medians: seq<real>)
    requires medians != []
    ensures UnpairedBound(median, w, medians) == UnpairedBound(median, v, medians) + (w - v)
  {
    assert Below(w, medians) == Shift(Below(v, medians), w - v);
    SortShift(Below(v, medians), w - v);
    SortedReals(Below(v, medians));
  }

  lemma BigFieldHasValues(f: Field)
    requires f.Valid() && |f.scores| > 3
    ensures |f.Values()| == |f.scores| && f.Values() != []
  {
    DistinctSize(f.order);
  }

  // ---- the paired bootstrap: one draw of task units per iteration, shared by all candidates ----

  ghost predicate UsesPaired(f: Field) {
    forall m :: m in f.scores ==> m in f.units && |f.units[m]| >= 2
  }

  /** One row of unit scores and one penalty per model, in dict order. */
  datatype Paired = Paired(rows: seq<seq<real>>, penalties: seq<real>, unitCount: nat, pick: (nat, nat, nat) -> nat) {
    ghost predicate Valid() {
      && |rows| == |penalties| > 0 && unitCount > 0
      && (forall i :: 0 <= i < |rows| ==> |rows[i]| >= unitCount)
      && (forall i, j, n :: n > 0 ==> pick(i, j, n) < n)
    }

    /** The unit scores of row i that iteration j draws. */
    function Drawn(i: nat, j: nat): seq<real>
      requires Valid() && i < |rows|
    {
      seq(unitCount, k requires 0 <= k < unitCount => rows[i][pick(j, k, unitCount)])
    }

    function Means(j: nat): seq<real>
      requires Valid()
    {
      seq(|rows|, i requires 0 <= i < |rows| => Sum(Drawn(i, j)) / unitCount as real - penalties[i])
    }

    function Deviation(i: nat, j: nat): real
      requires Valid() && i < |rows|
    {
      Means(j)[i] - Median(Means(j))
    }

    function DeviationsOf(i: nat, nb: nat): seq<real>
      requires Valid() && i < |rows|
    {
      seq(nb, j requires 0 <= j < nb => Deviation(i, j))
    }
  }

  function MinLength(rows: seq<seq<real>>): (n: nat)
    requires rows != []
    ensures forall i :: 0 <= i < |rows| ==> n <= |rows[i]|
    ensures exists i :: 0 <= i < |rows| && |rows[i]| == n
  {
    if |rows| == 1 then |rows[0]|
    else
      var rest := MinLength(rows[1..]);
      assert exists i :: 0 <= i < |rows| && |rows[i]| == rest by {
        var i :| 0 <= i < |rows[1..]| && |rows[1..][i]| == rest;
        assert |rows[i + 1]| == rest;
      }
      assert forall i :: 1 <= i < |rows| ==> rows[i] == rows[1..][i - 1];
      if |rows[0]| <= rest then |rows[0]| else rest
  }

  function RowsOf(f: Field): seq<seq<real>>
    requires Elements(f.order) == f.scores.Keys
    requires forall m :: m in f.scores ==> m in f.units
  {
    seq(|f.order|, i requires 0 <= i < |f.order| => assert f.order[i] in Elements(f.order); f.units[f.order[i]])
  }

  ghost function PenaltiesOf(f: Field): seq<real> {
    seq(|f.order|, i requires 0 <= i < |f.order| => f.Penalty(f.order[i]))
  }

  ghost function PairedOf(f: Field): Paired
    requires f.Valid() && f.order != [] && UsesPaired(f)
  {
    var rows := RowsOf(f);
    Paired(rows, PenaltiesOf(f), MinLength(rows), f.chance.pick)
  }

  lemma PairedIsValid(f: Field)
    requires f.Valid() && |f.scores| > 3 && UsesPaired(f)
    ensures f.order != [] && PairedOf(f).Valid() && PairedOf(f).unitCount >= 2
  {
    BigFieldHasValues(f);
    assert forall i :: 0 <= i < |f.order| ==> f.order[i] in Elements(f.order);
  }

  ghost predicate PairedSurvives(f: Field, i: nat)
    requires f.Valid() && i < |f.order| && |f.scores| > 3 && UsesPaired(f)
  {
    BigFieldHasValues(f);
    PairedIsValid(f);
    Median(f.Values()) + Percentile(PairedOf(f).DeviationsOf(i, N_BOOTSTRAP)) >=
      Median(f.Values()) - 2.5 * Mad(f.Values())
  }

  // ---- survivors ----

  datatype Branch = KeepAll | ConstantCluster | PairedBootstrap | UnpairedBootstrap

  ghost function BranchOf(f: Field): Branch
    requires f.Valid()
  {
    if |f.scores| <= 3 then KeepAll
    else
      BigFieldHasValues(f);
      if Mad(f.Values()) <= TINY then
        if f.chance.pstdev(f.Values()) <= TINY then KeepAll else ConstantCluster
      else if UsesPaired(f) then PairedBootstrap
      else UnpairedBootstrap
  }

  /** Kept by the branches that compare one effective score with one line. */
  ghost predicate Survives(f: Field, m: string)
    requires f.Valid() && m in f.scores && !BranchOf(f).PairedBootstrap?
  {
    match BranchOf(f)
    case KeepAll => true
    case ConstantCluster =>
      BigFieldHasValues(f);
      f.Eff(m) >= Median(f.Values()) - 1.5 * f.chance.pstdev(f.Values())
    case UnpairedBootstrap =>
      BigFieldHasValues(f);
      UnpairedBound(Median(f.Values()), f.Eff(m), ResampleMedians(f.Values(), f.chance.pick, N_BOOTSTRAP))
      >= Median(f.Values()) - 2.5 * Mad(f.Values())
  }

  /** What promote() may get back. */
  ghost predicate IsPruned(f: Field, survivors: set<string>)
    requires f.Valid()
  {
    && survivors <= f.scores.Keys
    && (!BranchOf(f).PairedBootstrap? ==> forall m :: m in f.scores ==> (m in survivors <==> Survives(f, m)))
    && (BranchOf(f).PairedBootstrap? ==> forall i :: 0 <= i < |f.order| ==>
      (f.order[i] in survivors <==> PairedSurvives(f, i)))
  }

  /** Every input has survivors in this sense. */
  lemma PruneExists(f: Field) returns (survivors: set<string>)
    requires f.Valid()
    ensures IsPruned(f, survivors)
  {
    if BranchOf(f).PairedBootstrap? {
      survivors := set i | 0 <= i < |f.order| && PairedSurvives(f, i) :: f.order[i];
      forall m | m in survivors ensures m in f.scores {
        assert m in Elements(f.order);
      }
    } else {
      survivors := set m | m in f.scores && Survives(f, m);
    }
  }

  // ---- the function itself ----

  /** min of the positive costs, if there are any. */
  method CheapestCost(effCost: map<string, real>) returns (cheapest: Option<real>)
    ensures cheapest.None? <==> Positive(effCost) == {}
    ensures cheapest.Some? ==> cheapest.value == effCost[Cheapest(effCost, Positive(effCost))]
  {
    cheapest := None;
    var costs := Enumerate(effCost.Keys);
    ghost var best := "";
    for i := 0 to |costs|
      invariant forall j :: 0 <= j < |costs| ==> costs[j] in effCost
      invariant cheapest.None? ==> forall j :: 0 <= j < i ==> effCost[costs[j]] <= 0.0
      invariant cheapest.Some? ==> best in Positive(effCost) && effCost[best] == cheapest.value
      invariant cheapest.Some? ==> forall j :: 0 <= j < i && effCost[costs[j]] > 0.0 ==>
        cheapest.value <= effCost[costs[j]]
    {
      var c := effCost[costs[i]];
      if c > 0.0 && (cheapest.None? || c < cheapest.value) {
        cheapest := Some(c);
        best := costs[i];
      }
    }
    forall m | m in Positive(effCost) ensures exists j :: 0 <= j < |costs| && costs[j] == m {
      assert m in Elements(costs);
    }
    if cheapest.Some? {
      ghost var m := Cheapest(effCost, Positive(effCost));
      ghost var j :| 0 <= j < |costs| && costs[j] == m;
      assert effCost[m] <= effCost[best];
    }
  }

  lemma PenaltyIs(effCost: map<string, real>, m: string, cheapest: Option<real>, cost: real)
    requires cheapest.None? <==> Positive(effCost) == {}
    requires cheapest.Some? ==> cheapest.value == effCost[Cheapest(effCost, Positive(effCost))]
    requires cost == if m in effCost && effCost[m] > 0.0 && cheapest.Some?
             then PenaltyOver(effCost[m], cheapest.value) else 0.0
    ensures cost == CostPenalty(effCost, m)
  {
    if m in effCost && effCost[m] > 0.0 {
      assert m in Positive(effCost);
    }
  }

  /** Effective scores and the penalties in them, in dict order. */
  method Penalise(f: Field) returns (values: seq<real>, penalties: seq<real>)
    requires f.Valid()
    ensures values == f.Values() && penalties == PenaltiesOf(f)
  {
    var cheapest := CheapestCost(f.effCost);
    values, penalties := [], [];
    for i := 0 to |f.order|
      invariant |values| == |penalties| == i
      invariant forall j :: 0 <= j < i ==> values[j] == f.Values()[j] && penalties[j] == PenaltiesOf(f)[j]
    {
      var m := f.order[i];
      assert m in Elements(f.order);
      var variance := VariancePenalty(f.units, f.chance, m);
      var cost := 0.0;
      if m in f.effCost && f.effCost[m] > 0.0 && cheapest.Some? {
        cost := PenaltyOver(f.effCost[m], cheapest.value);
      }
      PenaltyIs(f.effCost, m, cheapest, cost);
      values := values + [f.scores[m] - variance - cost];
      penalties := penalties + [variance + cost];
    }
  }

  /** Models whose figure reaches the threshold. */
  method AtOrAbove(order: seq<string>, figures: seq<real>, threshold: real) returns (kept: set<string>)
    requires NoDuplicates(order) && |figures| == |order|
    ensures kept <= Elements(order)
    ensures forall i :: 0 <= i < |order| ==> (order[i] in kept <==> figures[i] >= threshold)
  {
    kept := {};
    for i := 0 to |order|
      invariant forall m :: m in kept ==> m in order[..i]
      invariant forall j :: 0 <= j < i ==> (order[j] in kept <==> figures[j] >= threshold)
    {
      assert order[i] !in order[..i];
      if figures[i] >= threshold {
        kept := kept + {order[i]};
      }
    }
  }

  method PairedDeviations(p: Paired, nb: nat) returns (devs: seq<seq<real>>)
    requires p.Valid()
    ensures |devs| == |p.rows|
    ensures forall i :: 0 <= i < |devs| ==> devs[i] == p.DeviationsOf(i, nb)
  {
    devs := seq(|p.rows|, i => []);
    for j := 0 to nb
      invariant |devs| == |p.rows|
      invariant forall i :: 0 <= i < |devs| ==> devs[i] == p.DeviationsOf(i, j)
    {
      var means := p.Means(j);
      var median := Median(means);
      ghost var before := devs;
      devs := seq(|devs|, i requires 0 <= i < |devs| && |devs| == |means| => devs[i] + [means[i] - median]);
      forall i | 0 <= i < |devs| ensures devs[i] == p.DeviationsOf(i, j + 1) {
        assert before[i] == p.DeviationsOf(i, j);
      }
    }
  }

  lemma LineDecides(f: Field, kept: set<string>)
    requires f.Valid() && !BranchOf(f).PairedBootstrap?
    requires kept <= f.scores.Keys
    requires forall i :: 0 <= i < |f.order| ==>
             f.order[i] in f.scores && (f.order[i] in kept <==> Survives(f, f.order[i]))
    ensures IsPruned(f, kept)
  {
    forall m | m in f.scores ensures m in kept <==> Survives(f, m) {
      assert m in Elements(f.order);
    }
  }

  method ConstantPrune(f: Field, values: seq<real>) returns (survivors: set<string>)
    requires f.Valid() && |f.scores| > 3 && values == f.Values()
    requires BranchOf(f).ConstantCluster?
    ensures IsPruned(f, survivors)
  {
    BigFieldHasValues(f);
    survivors := AtOrAbove(f.order, values, Median(values) - 1.5 * f.chance.pstdev(values));
    forall i | 0 <= i < |f.order| ensures f.order[i] in f.scores
      && (f.order[i] in survivors <==> Survives(f, f.order[i])) {
      assert f.order[i] in Elements(f.order);
      assert values[i] == f.Eff(f.order[i]);
    }
    LineDecides(f, survivors);
  }

  method UnpairedPrune(f: Field, values: seq<real>) returns (survivors: set<string>)
    requires f.Valid() && |f.scores| > 3 && values == f.Values()
    requires BranchOf(f).UnpairedBootstrap?
    ensures IsPruned(f, survivors)
  {
    BigFieldHasValues(f);
    var median := Median(values);
    var medians := ResampleMedians(values, f.chance.pick, N_BOOTSTRAP);
    var bounds := seq(|values|, i requires 0 <= i < |values| => UnpairedBound(median, values[i], medians));
    survivors := AtOrAbove(f.order, bounds, median - 2.5 * Mad(values));
    forall i | 0 <= i < |f.order| ensures f.order[i] in f.scores
      && (f.order[i] in survivors <==> Survives(f, f.order[i])) {
      assert f.order[i] in Elements(f.order);
      assert values[i] == f.Eff(f.order[i]);
    }
    LineDecides(f, survivors);
  }

  method PairedPrune(f: Field, values: seq<real>, penalties: seq<real>) returns (survivors: set<string>)
    requires f.Valid() && |f.scores| > 3 && values == f.Values() && penalties == PenaltiesOf(f)
    requires BranchOf(f).PairedBootstrap?
    ensures IsPruned(f, survivors)
  {
    BigFieldHasValues(f);
    PairedIsValid(f);
    var rows := RowsOf(f);
    var p := Paired(rows, penalties, MinLength(rows), f.chance.pick);
    assert p == PairedOf(f);
    var devs := PairedDeviations(p, N_BOOTSTRAP);
    var median := Median(values);
    var bounds := seq(|devs|, i requires 0 <= i < |devs| && devs[i] != [] => median + Percentile(devs[i]));
    survivors := AtOrAbove(f.order, bounds, median - 2.5 * Mad(values));
  }

  method MadBootstrapPrune(f: Field) returns (survivors: set<string>)
    requires f.Valid()
    ensures IsPruned(f, survivors)
  {
    if |f.scores| <= 3 {
      return f.scores.Keys;
    }
    BigFieldHasValues(f);
    var values, penalties := Penalise(f);
    if Mad(values) <= TINY {
      if f.chance.pstdev(values) <= TINY {
        return f.scores.Keys;
      }
      survivors := ConstantPrune(f, values);
      return;
    }
    if forall m :: m in f.scores ==> m in f.units && |f.units[m]| >= 2 {
      survivors := PairedPrune(f, values, penalties);
    } else {
      survivors := UnpairedPrune(f, values);
    }
  }

  // ---- guarantees for every seed ----

  /** A model at least as good as a survivor survives. */
  lemma UpwardClosed(f: Field, a: string, b: string)
    requires f.Valid() && !BranchOf(f).PairedBootstrap?
    requires a in f.scores && b in f.scores && Survives(f, a) && f.Eff(b) >= f.Eff(a)
    ensures Survives(f, b)
  {
    if BranchOf(f).UnpairedBootstrap? {
      BigFieldHasValues(f);
      var medians := ResampleMedians(f.Values(), f.chance.pick, N_BOOTSTRAP);
      UnpairedBoundShift(Median(f.Values()), f.Eff(a), f.Eff(b), medians);
    }
  }

  ghost predicate IsTop(f: Field, m: string)
    requires f.Valid()
  {
    m in f.scores && forall x :: x in f.scores ==> f.Eff(x) <= f.Eff(m)
  }

  lemma ValuesBoundedByTop(f: Field, top: string)
    requires f.Valid() && |f.scores| > 3 && IsTop(f, top)
    ensures forall x :: x in f.Values() ==> x <= f.Eff(top)
  {
    forall x | x in f.Values() ensures x <= f.Eff(top) {
      var i :| 0 <= i < |f.order| && f.Values()[i] == x;
      assert f.order[i] in Elements(f.order);
    }
  }

  ghost function Lowest(xs: seq<real>): (r: real)
    requires xs != []
    ensures forall x :: x in xs ==> r <= x
  {
    SortedReals(xs);
    SortReals(xs)[0]
  }

  lemma MadNonNegative(values: seq<real>)
    requires values != []
    ensures Mad(values) >= 0.0
  {
    var d := Deviations(values, Median(values));
    SortedReals(d);
    MedianInRange(d, 0.0, SortReals(d)[|d| - 1]);
  }

  /** The best effective score always survives. */
  lemma TopSurvives(f: Field, top: string)
    requires f.Valid() && !BranchOf(f).PairedBootstrap? && IsTop(f, top)
    ensures Survives(f, top)
  {
    if !BranchOf(f).KeepAll? {
      BigFieldHasValues(f);
      ValuesBoundedByTop(f, top);
      var values, t := f.Values(), f.Eff(top);
      MedianInRange(values, Lowest(values), t);
      if BranchOf(f).UnpairedBootstrap? {
        var medians := ResampleMedians(values, f.chance.pick, N_BOOTSTRAP);
        forall j | 0 <= j < |medians| ensures medians[j] <= t {
          var r := Resample(values, f.chance.pick, j);
          assert forall x :: x in r ==> x in values;
          MedianInRange(r, Lowest(values), t);
        }
        assert forall x :: x in Below(t, medians) ==> x >= 0.0;
        PercentileInRange(Below(t, medians), 0.0);
        MadNonNegative(values);
      }
    }
  }

  // ---- at least half of a constant cluster survives ----

  function CountAtLeast(xs: seq<real>, x: real): nat {
    if xs == [] then 0 else CountAtLeast(xs[1..], x) + if xs[0] >= x then 1 else 0
  }

  lemma {:induction false} CountInsert(y: real, s: seq<real>, x: real)
    ensures CountAtLeast(Insert((a: real, b: real) => a <= b, y, s), x) == CountAtLeast(s, x) + if y >= x then 1 else 0
  {
    var le := (a: real, b: real) => a <= b;
    if s != [] && !le(y, s[0]) {
      CountInsert(y, s[1..], x);
      assert ([s[0]] + Insert(le, y, s[1..]))[1..] == Insert(le, y, s[1..]);
    } else {
      assert ([y] + s)[1..] == s;
    }
  }

  lemma {:induction false} CountSorted(xs: seq<real>, x: real)
    ensures CountAtLeast(SortReals(xs), x) == CountAtLeast(xs, x)
  {
    if xs != [] {
      CountSorted(xs[1..], x);
      CountInsert(xs[0], SortReals(xs[1..]), x);
    }
  }

  lemma {:induction false} CountSuffix(s: seq<real>, p: nat, x: real)
    requires p <= |s| && forall i :: p <= i < |s| ==> s[i] >= x
    ensures CountAtLeast(s, x) >= |s| - p
  {
    if s != [] {
      CountSuffix(s[1..], if p == 0 then 0 else p - 1, x);
    }
  }

  lemma EffOverHead(f: Field, ms: seq<string>)
    requires ms != [] && Elements(ms) <= f.scores.Keys && Elements(ms[1..]) <= f.scores.Keys
    ensures ms[0] in f.scores
    ensures f.EffOver(ms) == [f.Eff(ms[0])] + f.EffOver(ms[1..])
  {
    hide Field.Eff;
    assert ms[0] in Elements(ms);
  }

  lemma {:induction false} CountModels(f: Field, ms: seq<string>, x: real)
    requires NoDuplicates(ms) && Elements(ms) <= f.scores.Keys
    ensures CountAtLeast(f.EffOver(ms), x) == |set m | m in ms && f.Eff(m) >= x|
  {
    hide Field.Eff;
    var all := set m | m in ms && f.Eff(m) >= x;
    if ms == [] {
      assert all == {};
    } else {
      var first, rest := ms[0], ms[1..];
      assert Elements(ms) == {first} + Elements(rest) && first !in rest;
      CountModels(f, rest, x);
      EffOverHead(f, ms);
      hide Field.EffOver;
      var some := set m | m in rest && f.Eff(m) >= x;
      if f.Eff(first) >= x {
        assert all == some + {first};
      } else {
        assert all == some;
      }
    }
  }

  lemma HalfSurvive(f: Field, survivors: set<string>)
    requires f.Valid() && BranchOf(f).ConstantCluster? && IsPruned(f, survivors)
    ensures 2 * |survivors| >= |f.scores|
  {
    BigFieldHasValues(f);
    var values := f.Values();
    var median, s := Median(values), SortReals(values);
    SortedReals(values);
    MedianInRange(values, s[0], s[|s| - 1]);
    CountSuffix(s, |s| / 2, median);
    CountSorted(values, median);
    CountModels(f, f.order, median);
    var good := set m | m in f.order && f.Eff(m) >= median;
    forall m | m in good ensures m in survivors {
      assert m in Elements(f.order);
      assert Survives(f, m);
    }
    SubsetSize(good, survivors);
  }
}
