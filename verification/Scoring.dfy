// The (score, cost, model) sort key shared by ranking and halving, as a total order.
module Scoring {
  import opened Common
  import opened Sorting

  /** A price; missing prices are infinite. */
  datatype Cost = Fin(usd: real) | Inf

  predicate CostLe(a: Cost, b: Cost) {
    b.Inf? || (a.Fin? && a.usd <= b.usd)
  }

  /** Lexicographic order of model ids. */
  predicate StrLe(a: string, b: string) {
    a == [] || (b != [] && (a[0] < b[0] || (a[0] == b[0] && StrLe(a[1..], b[1..]))))
  }

  lemma {:induction false} StrLeTotal(a: string, b: string)
    ensures StrLe(a, b) || StrLe(b, a)
  {
    if a != [] && b != [] {
      StrLeTotal(a[1..], b[1..]);
    }
  }

  lemma {:induction false} StrLeAntisymmetric(a: string, b: string)
    requires StrLe(a, b) && StrLe(b, a)
    ensures a == b
  {
    if a != [] && b != [] {
      StrLeAntisymmetric(a[1..], b[1..]);
      assert a == [a[0]] + a[1..] && b == [b[0]] + b[1..];
    }
  }

  lemma {:induction false} StrLeTransitive(a: string, b: string, c: string)
    requires StrLe(a, b) && StrLe(b, c)
    ensures StrLe(a, c)
  {
    if a != [] && a[0] == b[0] == c[0] {
      StrLeTransitive(a[1..], b[1..], c[1..]);
    }
  }

  datatype TieKey = TieKey(negScore: real, cost: Cost, model: string)

  /** Cheapest effective cost, weighted by latency where one is known and positive. */
  function TieCost(model: string, effCost: map<string, real>, latency: map<string, real>): Cost {
    if model !in effCost then Inf
    else if model in latency && latency[model] > 0.0 then Fin(effCost[model] * latency[model])
    else Fin(effCost[model])
  }

  function CostTiebreakKey(model: string, score: real, effCost: map<string, real>, latency: map<string, real>): TieKey {
    TieKey(-score, TieCost(model, effCost, latency), model)
  }

  predicate KeyLe(a: TieKey, b: TieKey) {
    || a.negScore < b.negScore
    || (a.negScore == b.negScore && !CostLe(b.cost, a.cost))
    || (a.negScore == b.negScore && a.cost == b.cost && StrLe(a.model, b.model))
  }

  lemma KeyLeTotalOrder(a: TieKey, b: TieKey, c: TieKey)
    ensures KeyLe(a, b) || KeyLe(b, a)
    ensures KeyLe(a, b) && KeyLe(b, a) ==> a == b
    ensures KeyLe(a, b) && KeyLe(b, c) ==> KeyLe(a, c)
  {
    StrLeTotal(a.model, b.model);
    if StrLe(a.model, b.model) && StrLe(b.model, a.model) {
      StrLeAntisymmetric(a.model, b.model);
    }
    if StrLe(a.model, b.model) && StrLe(b.model, c.model) {
      StrLeTransitive(a.model, b.model, c.model);
    }
  }

  /** How promote() orders the models of a score dict. */
  predicate RanksBefore(scores: map<string, real>, effCost: map<string, real>, latency: map<string, real>, a: string,
                        b: string)
  {
    var sa, sb := if a in scores then scores[a] else 0.0, if b in scores then scores[b] else 0.0;
    KeyLe(CostTiebreakKey(a, sa, effCost, latency), CostTiebreakKey(b, sb, effCost, latency))
  }

  // ---- the order told without the key ----

  /** a and b agree up to position i, where a is smaller. */
  predicate SmallerAt(a: string, b: string, i: nat) {
    i < |a| && i < |b| && a[..i] == b[..i] && a[i] < b[i]
  }

  lemma SmallerInTail(a: string, b: string, i: nat)
    requires a != [] && b != [] && a[0] == b[0]
    ensures SmallerAt(a, b, i + 1) <==> SmallerAt(a[1..], b[1..], i)
    ensures !SmallerAt(a, b, 0)
  {
    if i < |a[1..]| && i < |b[1..]| {
      assert a[..i + 1] == [a[0]] + a[1..][..i] && b[..i + 1] == [b[0]] + b[1..][..i];
      assert a[..i + 1] == b[..i + 1] ==> a[1..][..i] == a[..i + 1][1..] && b[1..][..i] == b[..i + 1][1..];
    }
  }

  /** a comes no later than b: a is a prefix of b, or smaller where they first differ. */
  lemma {:induction false} StrLeIsLexicographic(a: string, b: string)
    ensures StrLe(a, b) <==> a <= b || exists i: nat :: SmallerAt(a, b, i)
  {
    if a != [] && b != [] && a[0] == b[0] {
      StrLeIsLexicographic(a[1..], b[1..]);
      assert a == [a[0]] + a[1..] && b == [b[0]] + b[1..];
      if i: nat :| SmallerAt(a[1..], b[1..], i) {
        SmallerInTail(a, b, i);
      }
      if i: nat :| SmallerAt(a, b, i) {
        SmallerInTail(a, b, if i > 0 then i - 1 else 0);
      }
    } else if a != [] && b != [] {
      assert a[0] < b[0] ==> SmallerAt(a, b, 0);
      if i: nat :| SmallerAt(a, b, i) {
        assert i > 0 ==> a[..i][0] == b[..i][0];
      }
    }
  }

  /** Price per call, times the latency where one is known and positive. */
  function Weighted(m: string, effCost: map<string, real>, latency: map<string, real>): real
    requires m in effCost
  {
    effCost[m] * (if m in latency && latency[m] > 0.0 then latency[m] else 1.0)
  }

  /** x has a price, and m has none or a higher one. */
  predicate Undercuts(effCost: map<string, real>, latency: map<string, real>, x: string, m: string) {
    x in effCost && (m in effCost ==> Weighted(x, effCost, latency) < Weighted(m, effCost, latency))
  }

  /** Better score, then lower price, then smaller name. */
  predicate Ahead(scores: map<string, real>, effCost: map<string, real>, latency: map<string, real>, x: string,
                  m: string)
    requires x in scores && m in scores
  {
    || scores[x] > scores[m]
    || (scores[x] == scores[m] && Undercuts(effCost, latency, x, m))
    || (scores[x] == scores[m] && !Undercuts(effCost, latency, m, x) && x != m && StrLe(x, m))
  }

  lemma RanksBeforeIffAhead(scores: map<string, real>, effCost: map<string, real>, latency: map<string, real>,
                            x: string, m: string)
    requires x in scores && m in scores && x != m
    ensures RanksBefore(scores, effCost, latency, x, m) <==> Ahead(scores, effCost, latency, x, m)
  {
  }

  lemma RankingIsTotalOrder(scores: map<string, real>, effCost: map<string, real>, latency: map<string, real>)
    ensures TotalPreorder((a, b) => RanksBefore(scores, effCost, latency, a, b))
    ensures forall a, b ::
              RanksBefore(scores, effCost, latency, a, b) && RanksBefore(scores, effCost, latency, b, a) ==> a == b
  {
    var key := (m: string) => CostTiebreakKey(m, if m in scores then scores[m] else 0.0, effCost, latency);
    forall a, b, c
      ensures RanksBefore(scores, effCost, latency, a, b) || RanksBefore(scores, effCost, latency, b, a)
      ensures RanksBefore(scores, effCost, latency, a, b) && RanksBefore(scores, effCost, latency, b, c) ==>
              RanksBefore(scores, effCost, latency, a, c)
      ensures RanksBefore(scores, effCost, latency, a, b) && RanksBefore(scores, effCost, latency, b, a) ==> a == b
    {
      KeyLeTotalOrder(key(a), key(b), key(c));
    }
  }

  /** sorted(scores.items(), key=cost_tiebreak_key), from whatever order the dict was in. */
  function Ranking(order: seq<string>, scores: map<string, real>, effCost: map<string, real>,
                   latency: map<string, real>): seq<string> {
    SortBy((a, b) => RanksBefore(scores, effCost, latency, a, b), order)
  }

  ghost predicate IsRanking(r: seq<string>, scores: map<string, real>, effCost: map<string, real>,
                            latency: map<string, real>) {
    && NoDuplicates(r) && Elements(r) == scores.Keys
    && forall i, j :: 0 <= i < j < |r| ==> RanksBefore(scores, effCost, latency, r[i], r[j])
  }

  lemma RankingSorts(order: seq<string>, scores: map<string, real>, effCost: map<string, real>,
                     latency: map<string, real>)
    requires NoDuplicates(order) && Elements(order) == scores.Keys
    ensures IsRanking(Ranking(order, scores, effCost, latency), scores, effCost, latency)
    ensures |Ranking(order, scores, effCost, latency)| == |scores|
  {
    var le := (a, b) => RanksBefore(scores, effCost, latency, a, b);
    RankingIsTotalOrder(scores, effCost, latency);
    SortSorts(le, order);
    SortPermutes(le, order);
    PermutationMembers(order, SortBy(le, order));
    PermutationDistinct(order, SortBy(le, order));
    DistinctSize(order);
  }

  lemma {:induction false} RankEqual(r: seq<string>, t: seq<string>, scores: map<string, real>,
                                     effCost: map<string, real>, latency: map<string, real>, i: nat)
    requires IsRanking(r, scores, effCost, latency) && IsRanking(t, scores, effCost, latency)
    requires i < |r| == |t|
    ensures r[i] == t[i]
    decreases i
  {
    forall j | 0 <= j < i ensures r[j] == t[j] {
      RankEqual(r, t, scores, effCost, latency, j);
    }
    assert r[i] in Elements(t) && t[i] in Elements(r) by {
      assert r[i] in Elements(r) && t[i] in Elements(t);
    }
    var a :| 0 <= a < |t| && t[a] == r[i];
    var b :| 0 <= b < |r| && r[b] == t[i];
    assert a >= i && b >= i;
    RankingIsTotalOrder(scores, effCost, latency);
  }

  /** The order is total and ties nothing, so the dict's own order never shows. */
  lemma {:induction false} RankingIsUnique(r: seq<string>, t: seq<string>, scores: map<string, real>,
                                           effCost: map<string, real>, latency: map<string, real>)
    requires IsRanking(r, scores, effCost, latency) && IsRanking(t, scores, effCost, latency)
    ensures r == t
    decreases |r|
  {
    DistinctSize(r);
    DistinctSize(t);
    forall i | 0 <= i < |r| ensures r[i] == t[i] {
      RankEqual(r, t, scores, effCost, latency, i);
    }
  }
}
