// The cost-only TOP-N ranker: per-call cost of a catalogue entry, seats reserved per
// provider, and topping up with the cheapest of the rest.
module Estimator {
  import opened Common
  import opened Sorting
  import opened Scoring

  datatype CostProfile = CostProfile(systemTokens: nat, userTokens: nat, outputTokens: nat, reasoningTokens: int,
                                     cacheHitRatio: real)

  datatype Entry = Entry(
    modelId: string,
    inputPricePerM: Option<real>,
    outputPricePerM: Option<real>,
    cacheReadPricePerM: Option<real>,
    contextLength: Option<nat>,
    maxCompletionTokens: Option<nat>,
    supportsReasoning: bool,
    isModerated: bool,
    bestUptime30m: Option<real>,
    bestLatencyP50Ms: Option<real>)

  // ---- cost of one call ----

  function Clamp01(x: real): real {
    if x < 0.0 then 0.0 else if x > 1.0 then 1.0 else x
  }

  datatype CallCost = CallCost(total: real, freshInput: real, cached: real, output: real, hasCache: bool)

  function CachedTokens(p: CostProfile): real {
    Clamp01(p.cacheHitRatio) * p.systemTokens as real
  }

  function FreshTokens(p: CostProfile): real {
    (1.0 - Clamp01(p.cacheHitRatio)) * p.systemTokens as real + p.userTokens as real
  }

  function OutputTokens(p: CostProfile): real {
    (p.outputTokens + (if p.reasoningTokens > 0 then p.reasoningTokens else 0)) as real
  }

  function EstimateCallCost(input: Option<real>, output: Option<real>, cacheRead: Option<real>, fee: real,
                            p: CostProfile): Option<CallCost> {
    if input.None? || output.None? || input.value < 0.0 || output.value < 0.0 then None
    else
      var prompt, completion := input.value / 1000000.0, output.value / 1000000.0;
      var hasCache := cacheRead.Some? && cacheRead.value > 0.0;
      var read := if hasCache then cacheRead.value / 1000000.0 else prompt;
      var cached, freshInput, out := CachedTokens(p) * read, FreshTokens(p) * prompt, OutputTokens(p) * completion;
      Some(CallCost(cached + freshInput + out + fee, freshInput, cached, out, hasCache))
  }

  lemma MulNonNegative(x: real, y: real)
    requires x >= 0.0 && y >= 0.0
    ensures x * y >= 0.0
  {
  }

  lemma MulMonotone(x: real, y: real, z: real)
    requires x >= 0.0 && y <= z
    ensures x * y <= x * z
  {
    MulNonNegative(x, z - y);
    assert x * (z - y) == x * z - x * y;
  }

  lemma TokensNonNegative(p: CostProfile)
    ensures CachedTokens(p) >= 0.0 && FreshTokens(p) >= 0.0 && OutputTokens(p) >= 0.0
  {
    MulNonNegative(Clamp01(p.cacheHitRatio), p.systemTokens as real);
    MulNonNegative(1.0 - Clamp01(p.cacheHitRatio), p.systemTokens as real);
  }

  /** A priced call never costs less than its fee, and a discounted cache rate never makes it dearer. */
  lemma CacheDiscountHelps(input: real, output: real, cacheRead: real, fee: real, p: CostProfile)
    requires input >= 0.0 && output >= 0.0 && 0.0 < cacheRead <= input
    ensures var with, without := EstimateCallCost(Some(input), Some(output), Some(cacheRead), fee, p),
                                 EstimateCallCost(Some(input), Some(output), None, fee, p);
            && with.Some? && without.Some?
            && fee <= with.value.total <= without.value.total
  {
    TokensNonNegative(p);
    hide CachedTokens;
    hide FreshTokens;
    hide OutputTokens;
    var read, prompt, completion := cacheRead / 1000000.0, input / 1000000.0, output / 1000000.0;
    assert 0.0 <= read <= prompt && 0.0 <= completion;
    MulNonNegative(CachedTokens(p), read);
    MulMonotone(CachedTokens(p), read, prompt);
    MulNonNegative(FreshTokens(p), prompt);
    MulNonNegative(OutputTokens(p), completion);
  }

  // ---- the sort key ----

  datatype Estimate = Estimate(entry: Entry, costUsd: real)

  datatype RankKey = RankKey(cost: real, context: int, completion: int, reasoning: int, uptime: real, latency: Cost)

  function RankKeyOf(e: Estimate, moderatedPenalty: real): RankKey {
    RankKey(if e.entry.isModerated then e.costUsd * moderatedPenalty else e.costUsd,
            -(e.entry.contextLength.GetOr(0) as int), -(e.entry.maxCompletionTokens.GetOr(0) as int),
            if e.entry.supportsReasoning then -1 else 0,
            -(e.entry.bestUptime30m.GetOr(0.0)),
            if e.entry.bestLatencyP50Ms.Some? then Fin(e.entry.bestLatencyP50Ms.value) else Inf)
  }

  predicate RankLe(a: RankKey, b: RankKey) {
    a.cost < b.cost || (a.cost == b.cost &&
    (a.context < b.context || (a.context == b.context &&
    (a.completion < b.completion || (a.completion == b.completion &&
    (a.reasoning < b.reasoning || (a.reasoning == b.reasoning &&
    (a.uptime < b.uptime || (a.uptime == b.uptime && CostLe(a.latency, b.latency))))))))))
  }

  predicate AtOrBefore(penalty: real, a: Estimate, b: Estimate) {
    RankLe(RankKeyOf(a, penalty), RankKeyOf(b, penalty))
  }

  lemma RankLePreorder(a: RankKey, b: RankKey, c: RankKey)
    ensures RankLe(a, b) || RankLe(b, a)
    ensures RankLe(a, b) && RankLe(b, c) ==> RankLe(a, c)
  {
  }

  lemma AtOrBeforeIsPreorder(penalty: real)
    ensures TotalPreorder((a, b) => AtOrBefore(penalty, a, b))
  {
    forall a: Estimate, b: Estimate, c: Estimate
      ensures AtOrBefore(penalty, a, b) || AtOrBefore(penalty, b, a)
      ensures AtOrBefore(penalty, a, b) && AtOrBefore(penalty, b, c) ==> AtOrBefore(penalty, a, c)
    {
      RankLePreorder(RankKeyOf(a, penalty), RankKeyOf(b, penalty), RankKeyOf(c, penalty));
    }
  }

  /** estimates.sort(key=_sort_key) */
  function ByRank(penalty: real, es: seq<Estimate>): seq<Estimate> {
    SortBy((a, b) => AtOrBefore(penalty, a, b), es)
  }

  lemma ByRankSorts(penalty: real, es: seq<Estimate>)
    ensures multiset(ByRank(penalty, es)) == multiset(es) && |ByRank(penalty, es)| == |es|
    ensures forall i, j :: 0 <= i < j < |es| ==> AtOrBefore(penalty, ByRank(penalty, es)[i], ByRank(penalty, es)[j])
  {
    var le := (a, b) => AtOrBefore(penalty, a, b);
    AtOrBeforeIsPreorder(penalty);
    SortSorts(le, es);
    SortPermutes(le, es);
    assert ByRank(penalty, es) == SortBy(le, es);
  }

  /** Vendor prefix of the model id. */
  function ProviderOf(modelId: string): string {
    if modelId == [] then []
    else if modelId[0] == '/' then []
    else [modelId[0]] + ProviderOf(modelId[1..])
  }

  function Vendor(e: Estimate): string {
    ProviderOf(e.entry.modelId)
  }

  predicate DistinctModels(es: seq<Estimate>) {
    forall i, j :: 0 <= i < j < |es| ==> es[i].entry.modelId != es[j].entry.modelId
  }

  // ---- seats and top-up over the sorted estimates ----

  /** The positions below i that belong to provider p, in order. */
  function Positions(es: seq<Estimate>, p: string, i: nat): seq<nat>
    requires i <= |es|
  {
    if i == 0 then []
    else if Vendor(es[i - 1]) == p then Positions(es, p, i - 1) + [i - 1]
    else Positions(es, p, i - 1)
  }

  /** How many estimates of the same provider come before position i. */
  function Rank(es: seq<Estimate>, i: nat): nat
    requires i < |es|
  {
    |Positions(es, Vendor(es[i]), i)|
  }

  /** Position i holds one of its provider's k reserved seats. */
  predicate IsSeat(es: seq<Estimate>, k: int, i: nat)
    requires i < |es|
  {
    Rank(es, i) < k
  }

  function Seats(es: seq<Estimate>, k: int): set<nat> {
    set i | 0 <= i < |es| && IsSeat(es, k, i)
  }

  /** The r-th position of a provider is the one of rank r. */
  lemma {:induction false} PositionsByRank(es: seq<Estimate>, p: string, i: nat)
    requires i <= |es|
    ensures forall r :: 0 <= r < |Positions(es, p, i)| ==>
              var x := Positions(es, p, i)[r]; x < i && Vendor(es[x]) == p && Rank(es, x) == r
    ensures forall x :: 0 <= x < i && Vendor(es[x]) == p ==>
              Rank(es, x) < |Positions(es, p, i)| && Positions(es, p, i)[Rank(es, x)] == x
  {
    if i > 0 {
      PositionsByRank(es, p, i - 1);
    }
  }

  function MaxInt(x: int, y: int): int {
    if x >= y then x else y
  }

  function MinInt(x: int, y: int): int {
    if x <= y then x else y
  }

  /** The chosen positions: all seats, plus the earliest others until n in total. */
  ghost predicate IsSelection(es: seq<Estimate>, k: int, n: int, chosen: set<nat>) {
    && (forall i :: i in chosen ==> i < |es|)
    && Seats(es, k) <= chosen
    && |chosen| == MaxInt(|Seats(es, k)|, MinInt(n, |es|))
    && forall i, j :: 0 <= i < j < |es| && j in chosen && j !in Seats(es, k) ==> i in chosen
  }

  function SeatsOf(es: seq<Estimate>, k: int, providers: seq<string>): set<nat> {
    set i | 0 <= i < |es| && IsSeat(es, k, i) && Vendor(es[i]) in providers
  }

  lemma FirstOfProvider(es: seq<Estimate>, k: int, p: string, seats: seq<nat>)
    requires k > 0
    requires var models := Positions(es, p, |es|); seats == models[..if k < |models| then k else |models|]
    ensures NoDuplicates(seats) && Elements(seats) == SeatsOf(es, k, [p])
  {
    PositionsByRank(es, p, |es|);
    forall x, y | 0 <= x < y < |seats| ensures seats[x] != seats[y] {
      assert Rank(es, seats[x]) == x && Rank(es, seats[y]) == y;
    }
    forall i | i in SeatsOf(es, k, [p]) ensures i in seats {
      assert seats[Rank(es, i)] == i;
    }
  }

  lemma NextProvider(es: seq<Estimate>, k: int, providers: seq<string>, a: nat, before: seq<nat>, seats: seq<nat>)
    requires a < |providers| && NoDuplicates(providers)
    requires NoDuplicates(before) && Elements(before) == SeatsOf(es, k, providers[..a])
    requires NoDuplicates(seats) && Elements(seats) == SeatsOf(es, k, [providers[a]])
    ensures NoDuplicates(before + seats) && Elements(before + seats) == SeatsOf(es, k, providers[..a + 1])
  {
    assert providers[a] !in providers[..a];
    forall x, y | 0 <= x < |before| && 0 <= y < |seats| ensures before[x] != seats[y] {
      assert before[x] in Elements(before) && seats[y] in Elements(seats);
    }
    ElementsAppend(before, seats);
    assert providers[..a + 1] == providers[..a] + [providers[a]];
  }

  /** The provider-diversity step: group by provider, then take the first k of each group. */
  method ReserveSeats(es: seq<Estimate>, k: int) returns (order: seq<nat>)
    ensures NoDuplicates(order) && Elements(order) == Seats(es, k)
  {
    order := [];
    if k <= 0 {
      return;
    }
    var perProvider: map<string, seq<nat>> := map[];
    for i := 0 to |es|
      invariant forall p :: p in perProvider ==> perProvider[p] == Positions(es, p, i)
      invariant forall p :: p !in perProvider ==> Positions(es, p, i) == []
    {
      var p := Vendor(es[i]);
      perProvider := perProvider[p := (if p in perProvider then perProvider[p] else []) + [i]];
    }
    var providers := Enumerate(perProvider.Keys);
    for a := 0 to |providers|
      invariant NoDuplicates(order) && Elements(order) == SeatsOf(es, k, providers[..a])
    {
      assert providers[a] in Elements(providers);
      var models := perProvider[providers[a]];
      var seats := models[..if k < |models| then k else |models|];
      FirstOfProvider(es, k, providers[a], seats);
      NextProvider(es, k, providers, a, order, seats);
      order := order + seats;
    }
    assert providers[..|providers|] == providers;
    assert Elements(order) == Seats(es, k) by {
      forall i | 0 <= i < |es| && IsSeat(es, k, i) ensures Vendor(es[i]) in providers {
        PositionsByRank(es, Vendor(es[i]), |es|);
        assert Vendor(es[i]) in Elements(providers);
      }
    }
  }

  ghost predicate Topped(es: seq<Estimate>, seats: set<nat>, chosen: set<nat>, j: nat, remaining: int, n: int) {
    && (forall x :: x in chosen ==> x < |es|)
    && seats <= chosen
    && remaining >= 0 && |chosen| + remaining == MaxInt(|seats|, n)
    && (remaining > 0 ==> forall x :: 0 <= x < j ==> x in chosen)
    && (forall x :: x in chosen && x !in seats ==> x < j)
    && (forall x, y :: 0 <= x < y < |es| && y in chosen && y !in seats ==> x in chosen)
  }

  lemma {:induction false} AllChosen(n: nat, s: set<nat>)
    requires forall x :: x in s <==> 0 <= x < n
    ensures |s| == n
  {
    if n == 0 {
      assert s == {};
    } else {
      AllChosen(n - 1, s - {n - 1});
    }
  }

  lemma ToppedSize(es: seq<Estimate>, seats: set<nat>, chosen: set<nat>, remaining: int, n: int)
    requires Topped(es, seats, chosen, |es|, remaining, n)
             || (remaining == 0 && exists j :: Topped(es, seats, chosen, j, 0, n))
    ensures |chosen| == MaxInt(|seats|, MinInt(n, |es|))
  {
    IndexBound(|es|, chosen);
    if remaining > 0 {
      AllChosen(|es|, chosen);
    }
    SubsetSize(seats, chosen);
  }

  /** Tops the seats up to n with the earliest other positions. */
  method TopUp(es: seq<Estimate>, seats: seq<nat>, k: int, n: int) returns (order: seq<nat>)
    requires NoDuplicates(seats) && Elements(seats) == Seats(es, k)
    ensures NoDuplicates(order) && IsSelection(es, k, n, Elements<nat>(order))
  {
    order := seats;
    var chosen := Elements(seats);
    DistinctSize(seats);
    var remaining := MaxInt(0, n - |order|);
    for j := 0 to |es|
      invariant NoDuplicates(order) && Elements(order) == chosen
      invariant Topped(es, Elements(seats), chosen, j, remaining, n)
    {
      if remaining == 0 {
        break;
      }
      if j in chosen {
        continue;
      }
      ElementsAppend(order, [j]);
      assert j !in Elements(order);
      order := order + [j];
      chosen := chosen + {j};
      remaining := remaining - 1;
    }
    ToppedSize(es, Elements(seats), chosen, remaining, n);
  }

  // ---- the whole function ----

  /** What the caller is promised about the result, in terms of the estimates. */
  ghost predicate IsTopN(result: seq<Estimate>, es: seq<Estimate>, k: int, n: int, penalty: real) {
    && (forall i, j :: 0 <= i < j < |result| ==> AtOrBefore(penalty, result[i], result[j]))
    && NoDuplicates(result)
    && (forall e :: e in result ==> e in es)
    && |result| == MaxInt(|Seats(es, k)|, MinInt(n, |es|))
    && (forall i :: 0 <= i < |es| && IsSeat(es, k, i) ==> es[i] in result)
    && (forall i, j :: 0 <= i < |es| && 0 <= j < |es| && es[i] !in result && es[j] in result && !IsSeat(es, k, j)
          ==> AtOrBefore(penalty, es[j], es[i]))
  }

  ghost predicate Gathered(selected: seq<Estimate>, es: seq<Estimate>, order: seq<nat>) {
    && |selected| == |order|
    && forall x :: 0 <= x < |order| ==> order[x] < |es| && selected[x] == es[order[x]]
  }

  lemma GatheredMembers(selected: seq<Estimate>, es: seq<Estimate>, order: seq<nat>, chosen: set<nat>)
    requires Gathered(selected, es, order) && NoDuplicates(es) && NoDuplicates(order)
    requires forall i :: i in chosen <==> i in order
    ensures NoDuplicates(selected)
    ensures forall i :: 0 <= i < |es| ==> (es[i] in selected <==> i in chosen)
    ensures forall e :: e in selected ==> e in es
  {
    forall i | 0 <= i < |es| ensures es[i] in selected <==> i in chosen {
      if i in chosen {
        var x :| 0 <= x < |order| && order[x] == i;
        assert selected[x] == es[i];
      }
      if es[i] in selected {
        var x :| 0 <= x < |selected| && selected[x] == es[i];
        assert order[x] == i;
      }
    }
  }

  lemma SelectionIsTopN(result: seq<Estimate>, selected: seq<Estimate>, es: seq<Estimate>, k: int, n: int,
                        penalty: real, chosen: set<nat>)
    requires forall i, j :: 0 <= i < j < |es| ==> AtOrBefore(penalty, es[i], es[j])
    requires IsSelection(es, k, n, chosen)
    requires NoDuplicates(selected) && |selected| == |chosen|
    requires forall i :: 0 <= i < |es| ==> (es[i] in selected <==> i in chosen)
    requires forall e :: e in selected ==> e in es
    requires multiset(result) == multiset(selected)
    requires forall i, j :: 0 <= i < j < |result| ==> AtOrBefore(penalty, result[i], result[j])
    ensures IsTopN(result, es, k, n, penalty)
  {
    PermutationMembers(selected, result);
    PermutationDistinct(selected, result);
    forall i, j | 0 <= i < |es| && 0 <= j < |es| && es[i] !in result && es[j] in result && !IsSeat(es, k, j)
      ensures AtOrBefore(penalty, es[j], es[i])
    {
      assert j in chosen && i !in chosen && j !in Seats(es, k) && i != j;
    }
  }

  method PickTopN(unsorted: seq<Estimate>, k: int, n: int, penalty: real) returns (result: seq<Estimate>)
    requires DistinctModels(unsorted)
    ensures IsTopN(result, ByRank(penalty, unsorted), k, n, penalty)
  {
    var sorted := ByRank(penalty, unsorted);
    ByRankSorts(penalty, unsorted);
    PermutationDistinct(unsorted, sorted);
    var seats := ReserveSeats(sorted, k);
    var order := TopUp(sorted, seats, k, n);
    ghost var chosen := Elements<nat>(order);
    var selected := [];
    for i := 0 to |order|
      invariant Gathered(selected, sorted, order[..i])
    {
      assert order[i] in chosen;
      selected := selected + [sorted[order[i]]];
    }
    assert order[..|order|] == order;
    GatheredMembers(selected, sorted, order, chosen);
    DistinctSize<nat>(order);
    result := ByRank(penalty, selected);
    ByRankSorts(penalty, selected);
    SelectionIsTopN(result, selected, sorted, k, n, penalty, chosen);
  }

  /** The rows that survive the filters, each with its projected cost. */
  function Priced(rows: seq<Entry>, keep: Entry -> bool, blacklist: set<string>, p: CostProfile): seq<Estimate> {
    if rows == [] then []
    else
      var before, e := Priced(rows[..|rows| - 1], keep, blacklist, p), rows[|rows| - 1];
      var cost := EstimateCallCost(e.inputPricePerM, e.outputPricePerM, e.cacheReadPricePerM, 0.0, p);
      if e.modelId == "" || e.modelId in blacklist || !keep(e) || cost.None? then before
      else before + [Estimate(e, cost.value.total)]
  }

  lemma {:induction false} PricedDistinct(rows: seq<Entry>, keep: Entry -> bool, blacklist: set<string>, p: CostProfile)
    requires forall i, j :: 0 <= i < j < |rows| ==> rows[i].modelId != rows[j].modelId
    ensures DistinctModels(Priced(rows, keep, blacklist, p))
    ensures forall e :: e in Priced(rows, keep, blacklist, p) ==> e.entry in rows
  {
    if rows != [] {
      var n := |rows| - 1;
      PricedDistinct(rows[..n], keep, blacklist, p);
      var before := Priced(rows[..n], keep, blacklist, p);
      forall i | 0 <= i < |before| ensures before[i].entry.modelId != rows[n].modelId {
        assert before[i] in before;
        var x :| 0 <= x < n && rows[..n][x] == before[i].entry;
        assert rows[x] == before[i].entry;
      }
    }
  }

  method EstimateTopNByCost(rows: seq<Entry>, keep: Entry -> bool, blacklist: set<string>, profile: CostProfile,
                            includeReasoningModels: bool, k: int, n: int, penalty: real)
    returns (result: seq<Estimate>)
    requires forall i, j :: 0 <= i < j < |rows| ==> rows[i].modelId != rows[j].modelId
    ensures var p := if includeReasoningModels then profile else profile.(reasoningTokens := 0);
            IsTopN(result, ByRank(penalty, Priced(rows, keep, blacklist, p)), k, n, penalty)
  {
    var p := if includeReasoningModels then profile else profile.(reasoningTokens := 0);
    var estimates: seq<Estimate> := [];
    for i := 0 to |rows|
      invariant estimates == Priced(rows[..i], keep, blacklist, p)
    {
      assert rows[..i + 1][..i] == rows[..i];
      var e := rows[i];
      if e.modelId == "" || e.modelId in blacklist {
        continue;
      }
      if !keep(e) {
        continue;
      }
      var cost := EstimateCallCost(e.inputPricePerM, e.outputPricePerM, e.cacheReadPricePerM, 0.0, p);
      if cost.None? {
        continue;
      }
      estimates := estimates + [Estimate(e, cost.value.total)];
    }
    assert rows[..|rows|] == rows;
    PricedDistinct(rows, keep, blacklist, p);
    result := PickTopN(estimates, k, n, penalty);
  }

  /** Every omitted model has at least k models of its own provider in the result, each at or before it. */
  lemma OmittedHasBetterSiblings(result: seq<Estimate>, unsorted: seq<Estimate>, k: int, n: int, penalty: real, i: nat)
    requires IsTopN(result, ByRank(penalty, unsorted), k, n, penalty)
    requires i < |ByRank(penalty, unsorted)| && ByRank(penalty, unsorted)[i] !in result
    ensures var es := ByRank(penalty, unsorted);
            |set j | 0 <= j < i && Vendor(es[j]) == Vendor(es[i]) && es[j] in result
              && AtOrBefore(penalty, es[j], es[i])| >= k
  {
    var es := ByRank(penalty, unsorted);
    ByRankSorts(penalty, unsorted);
    var found := set j | 0 <= j < i && Vendor(es[j]) == Vendor(es[i]) && es[j] in result
      && AtOrBefore(penalty, es[j], es[i]);
    if k > 0 {
      PositionsByRank(es, Vendor(es[i]), i);
      var best := Positions(es, Vendor(es[i]), i)[..k];
      forall x, y | 0 <= x < y < |best| ensures best[x] != best[y] {
        assert Rank(es, best[x]) == x && Rank(es, best[y]) == y;
      }
      DistinctSize(best);
      forall j | j in best ensures j in found {
        var x :| 0 <= x < |best| && best[x] == j;
        assert Rank(es, j) == x && IsSeat(es, k, j);
      }
      SubsetSize(Elements(best), found);
    }
  }

  // ---- prices and order told by the catalogue figures ----

  lemma PerMillion(tokens: real, rate: real)
    ensures 1000000.0 * (tokens * (rate / 1000000.0)) == tokens * rate
  {
    var perToken := rate / 1000000.0;
    assert perToken * 1000000.0 == rate;
  }

  /** Cached prompt tokens at the cache rate, the rest of the prompt at the input rate, output at the output rate. */
  lemma CallCostIs(input: real, output: real, cacheRead: Option<real>, fee: real, p: CostProfile)
    requires input >= 0.0 && output >= 0.0 && 0.0 <= p.cacheHitRatio <= 1.0
    ensures var c := EstimateCallCost(Some(input), Some(output), cacheRead, fee, p);
            var read := if cacheRead.Some? && cacheRead.value > 0.0 then cacheRead.value else input;
            var hits := p.cacheHitRatio * p.systemTokens as real;
            var answer := (p.outputTokens + MaxInt(0, p.reasoningTokens)) as real;
            && c.Some? && c.value.total == c.value.cached + c.value.freshInput + c.value.output + fee
            && 1000000.0 * c.value.cached == hits * read
            && 1000000.0 * c.value.freshInput == (p.systemTokens as real - hits + p.userTokens as real) * input
            && 1000000.0 * c.value.output == answer * output
  {
    var read := if cacheRead.Some? && cacheRead.value > 0.0 then cacheRead.value else input;
    assert FreshTokens(p) == p.systemTokens as real - CachedTokens(p) + p.userTokens as real;
    PerMillion(CachedTokens(p), read);
    PerMillion(FreshTokens(p), input);
    PerMillion(OutputTokens(p), output);
  }

  lemma SameTokensSameCost(input: Option<real>, output: Option<real>, cacheRead: Option<real>, fee: real,
                           p: CostProfile, q: CostProfile)
    requires CachedTokens(p) == CachedTokens(q) && FreshTokens(p) == FreshTokens(q)
    requires OutputTokens(p) == OutputTokens(q)
    ensures EstimateCallCost(input, output, cacheRead, fee, p) == EstimateCallCost(input, output, cacheRead, fee, q)
  {
    hide CachedTokens;
    hide FreshTokens;
    hide OutputTokens;
    var c, d := EstimateCallCost(input, output, cacheRead, fee, p), EstimateCallCost(input, output, cacheRead, fee, q);
    assert c.Some? <==> d.Some?;
    if c.Some? {
      assert c.value.cached == d.value.cached && c.value.freshInput == d.value.freshInput;
      assert c.value.output == d.value.output && c.value.total == d.value.total;
    }
  }

  /** A hit ratio outside 0..1 counts as the nearer bound. */
  lemma RatioIsClamped(input: Option<real>, output: Option<real>, cacheRead: Option<real>, fee: real, p: CostProfile,
                       bound: real)
    requires (p.cacheHitRatio > 1.0 && bound == 1.0) || (p.cacheHitRatio < 0.0 && bound == 0.0)
    ensures EstimateCallCost(input, output, cacheRead, fee, p) ==
            EstimateCallCost(input, output, cacheRead, fee, p.(cacheHitRatio := bound))
  {
    var q := p.(cacheHitRatio := bound);
    assert Clamp01(p.cacheHitRatio) == Clamp01(q.cacheHitRatio);
    SameTokensSameCost(input, output, cacheRead, fee, p, q);
  }

  /** Not priced exactly when a rate is missing or negative; a rate of zero is a price. */
  lemma UnpricedIff(input: Option<real>, output: Option<real>, cacheRead: Option<real>, fee: real, p: CostProfile)
    ensures EstimateCallCost(input, output, cacheRead, fee, p).None? <==>
            !(exists i, o :: input == Some(i) && output == Some(o) && i >= 0.0 && o >= 0.0)
  {
  }

  /** The estimates are of exactly the named, unblocked, kept entries that have a price, at that price. */
  lemma {:induction false} PricedIff(rows: seq<Entry>, keep: Entry -> bool, blacklist: set<string>, p: CostProfile,
                                     e: Estimate)
    ensures e in Priced(rows, keep, blacklist, p) <==>
            && e.entry in rows && e.entry.modelId != "" && e.entry.modelId !in blacklist && keep(e.entry)
            && var c := EstimateCallCost(e.entry.inputPricePerM, e.entry.outputPricePerM, e.entry.cacheReadPricePerM,
                                         0.0, p);
               c.Some? && e.costUsd == c.value.total
  {
    if rows != [] {
      var n := |rows| - 1;
      PricedIff(rows[..n], keep, blacklist, p, e);
      assert rows == rows[..n] + [rows[n]];
    }
  }

  /** What comes first: the cheaper, a moderated model counting as dearer by the penalty. */
  lemma CheaperComesFirst(penalty: real, a: Estimate, b: Estimate)
    requires (if a.entry.isModerated then a.costUsd * penalty else a.costUsd)
             < if b.entry.isModerated then b.costUsd * penalty else b.costUsd
    ensures AtOrBefore(penalty, a, b) && !AtOrBefore(penalty, b, a)
  {
  }

  /** At the same price and moderation: longer context, longer answers, reasoning, uptime, then lower latency. */
  lemma TiesGoByCapability(penalty: real, a: Estimate, b: Estimate)
    requires a.costUsd == b.costUsd && a.entry.isModerated == b.entry.isModerated
    ensures var x, y := a.entry, b.entry;
            var cx, cy := x.contextLength.GetOr(0), y.contextLength.GetOr(0);
            var ax, ay := x.maxCompletionTokens.GetOr(0), y.maxCompletionTokens.GetOr(0);
            var ux, uy := x.bestUptime30m.GetOr(0.0), y.bestUptime30m.GetOr(0.0);
            && (cx > cy ==> !AtOrBefore(penalty, b, a))
            && (cx == cy && ax > ay ==> !AtOrBefore(penalty, b, a))
            && (cx == cy && ax == ay && x.supportsReasoning && !y.supportsReasoning ==> !AtOrBefore(penalty, b, a))
            && (cx == cy && ax == ay && x.supportsReasoning == y.supportsReasoning && ux > uy ==>
                  !AtOrBefore(penalty, b, a))
            && (cx == cy && ax == ay && x.supportsReasoning == y.supportsReasoning && ux == uy &&
                x.bestLatencyP50Ms.Some? &&
                (y.bestLatencyP50Ms.Some? ==> x.bestLatencyP50Ms.value < y.bestLatencyP50Ms.value) ==>
                  !AtOrBefore(penalty, b, a))
  {
  }

  /** The vendor is what stands before the first slash, or the whole id. */
  lemma {:induction false} ProviderIsPrefix(vendor: string, model: string)
    requires '/' !in vendor
    ensures ProviderOf(vendor + "/" + model) == vendor && ProviderOf(vendor) == vendor
  {
    var id := vendor + "/" + model;
    if vendor != [] {
      ProviderIsPrefix(vendor[1..], model);
      assert id[1..] == vendor[1..] + "/" + model;
    }
  }
}
