// Validator pairing: who checks whose output. The random shuffles are arbitrary
// permutations, so every result holds for every seed.
module Pairing {
  import opened Common
  import opened Sorting
  import opened Scoring

  type Pair = (string, string)

  /** Any permutation at each step: what random.shuffle may do. */
  ghost predicate IsShuffle(shuffle: (nat, seq<string>) -> seq<string>) {
    forall i, xs :: multiset(shuffle(i, xs)) == multiset(xs)
  }

  /** Validators already chosen for v by the pairs made so far. */
  predicate Chose(pairs: seq<Pair>, producer: string, validator: string) {
    (producer, validator) in pairs
  }

  /** How often v validates. */
  function Load(pairs: seq<Pair>, v: string): nat {
    if pairs == [] then 0
    else Load(pairs[..|pairs| - 1], v) + if pairs[|pairs| - 1].1 == v then 1 else 0
  }

  /** May validate the producer without a mutual pair. */
  predicate Eligible(pairs: seq<Pair>, producer: string, v: string) {
    v != producer && !Chose(pairs, v, producer)
  }

  function FamilyRank(family: string -> string, producer: string, v: string): nat {
    if family(v) != family(producer) then 0 else 1
  }

  /** The sort key (load, family rank), compared lexicographically. */
  predicate Preferred(load: map<string, nat>, family: string -> string, producer: string, v: string, w: string) {
    var lv, lw := if v in load then load[v] else 0, if w in load then load[w] else 0;
    lv < lw || (lv == lw && FamilyRank(family, producer, v) <= FamilyRank(family, producer, w))
  }

  lemma PreferredIsPreorder(load: map<string, nat>, family: string -> string, producer: string)
    ensures TotalPreorder((v, w) => Preferred(load, family, producer, v, w))
  {
  }

  // ---- what a greedy assignment guarantees ----

  /** Pair i is for the i-th producer, with a best eligible validator given the pairs before it. */
  ghost predicate GreedyAt(candidates: seq<string>, family: string -> string, pairs: seq<Pair>, i: nat)
    requires i < |pairs| <= |candidates|
  {
    var producer, v := candidates[i], pairs[i].1;
    && pairs[i].0 == producer
    && v in candidates
    && Eligible(pairs[..i], producer, v)
    && forall w :: w in candidates && Eligible(pairs[..i], producer, w) ==>
         Load(pairs[..i], v) < Load(pairs[..i], w)
         || (Load(pairs[..i], v) == Load(pairs[..i], w)
           && FamilyRank(family, producer, v) <= FamilyRank(family, producer, w))
  }

  ghost predicate Greedy(candidates: seq<string>, family: string -> string, pairs: seq<Pair>) {
    && |pairs| <= |candidates|
    && forall i :: 0 <= i < |pairs| ==> GreedyAt(candidates, family, pairs, i)
  }

  ghost predicate Balanced(pairs: seq<Pair>) {
    forall v :: Load(pairs, v) <= 2
  }

  // ---- counting ----

  /** The indices of pairs validated by a member of vs. */
  function By(pairs: seq<Pair>, vs: set<string>): set<nat> {
    set i | 0 <= i < |pairs| && pairs[i].1 in vs
  }

  lemma {:induction false} LoadCounts(pairs: seq<Pair>, v: string)
    ensures Load(pairs, v) == |By(pairs, {v})|
  {
    if pairs == [] {
      assert By(pairs, {v}) == {};
    } else {
      var front, n := pairs[..|pairs| - 1], |pairs| - 1;
      LoadCounts(front, v);
      if pairs[n].1 == v {
        assert By(pairs, {v}) == By(front, {v}) + {n};
      } else {
        assert By(pairs, {v}) == By(front, {v});
      }
    }
  }

  /** If each of k validators has load at least 2, together they account for at least 2k pairs. */
  lemma {:induction false} LoadsAdd(pairs: seq<Pair>, vs: set<string>)
    requires forall v :: v in vs ==> Load(pairs, v) >= 2
    ensures |By(pairs, vs)| >= 2 * |vs|
  {
    if vs != {} {
      var v :| v in vs;
      LoadsAdd(pairs, vs - {v});
      LoadCounts(pairs, v);
      assert By(pairs, vs) == By(pairs, {v}) + By(pairs, vs - {v});
      assert By(pairs, {v}) !! By(pairs, vs - {v});
    }
  }

  lemma ProducesOnce(candidates: seq<string>, family: string -> string, pairs: seq<Pair>, i: nat, j: nat)
    requires NoDuplicates(candidates) && Greedy(candidates, family, pairs)
    requires i < |pairs| && j < |pairs| && pairs[i].0 == pairs[j].0
    ensures i == j
  {
    assert GreedyAt(candidates, family, pairs, i) && GreedyAt(candidates, family, pairs, j);
  }

  lemma GreedyPrefix(candidates: seq<string>, family: string -> string, pairs: seq<Pair>, n: nat)
    requires Greedy(candidates, family, pairs) && n <= |pairs|
    ensures Greedy(candidates, family, pairs[..n])
  {
    forall i | 0 <= i < n ensures GreedyAt(candidates, family, pairs[..n], i) {
      assert GreedyAt(candidates, family, pairs, i);
      assert pairs[..n][..i] == pairs[..i];
    }
  }

  /** Producers that chose c: no more than c's load, since each producer chose once. */
  lemma {:induction false} ChoosersCount(candidates: seq<string>, family: string -> string, pairs: seq<Pair>,
                                         c: string, choosers: set<string>)
    requires NoDuplicates(candidates) && Greedy(candidates, family, pairs)
    requires forall p :: p in choosers ==> Chose(pairs, p, c)
    ensures |choosers| <= Load(pairs, c)
  {
    if pairs == [] {
      assert choosers == {};
    } else {
      var n := |pairs| - 1;
      var front, last := pairs[..n], pairs[n];
      GreedyPrefix(candidates, family, pairs, n);
      forall p | p in choosers - {last.0} ensures Chose(front, p, c) {
        var i :| 0 <= i < |pairs| && pairs[i] == (p, c);
        assert front[i] == (p, c);
      }
      ChoosersCount(candidates, family, front, c, choosers - {last.0});
      if last.0 in choosers {
        var i :| 0 <= i < |pairs| && pairs[i] == (last.0, c);
        ProducesOnce(candidates, family, pairs, i, n);
        assert |choosers| == |choosers - {last.0}| + 1;
      } else {
        assert choosers - {last.0} == choosers;
      }
    }
  }

  /** Only the producer itself and those who chose it are not eligible. */
  lemma EligibleCount(candidates: seq<string>, family: string -> string, pairs: seq<Pair>, producer: string,
                      eligible: set<string>)
    requires NoDuplicates(candidates) && Greedy(candidates, family, pairs)
    requires forall w :: w in candidates && Eligible(pairs, producer, w) ==> w in eligible
    ensures |candidates| <= |eligible| + Load(pairs, producer) + 1
  {
    var all := Elements(candidates);
    DistinctSize(candidates);
    var choosers := set p | p in all && Chose(pairs, p, producer);
    ChoosersCount(candidates, family, pairs, producer, choosers);
    SubsetSize(all, eligible + choosers + {producer});
  }

  lemma LoadedCount(pairs: seq<Pair>, producer: string, loaded: set<string>)
    requires producer !in loaded && forall w :: w in loaded ==> Load(pairs, w) >= 2
    ensures 2 * |loaded| + Load(pairs, producer) <= |pairs|
  {
    LoadsAdd(pairs, loaded);
    LoadCounts(pairs, producer);
    var a, b := By(pairs, loaded), By(pairs, {producer});
    assert a !! b;
    IndexBound(|pairs|, a + b);
  }

  /** With 4 or more candidates the next producer has an eligible validator whose load is at most 1. */
  lemma SomeoneIsFree(candidates: seq<string>, family: string -> string, pairs: seq<Pair>, producer: string)
    returns (v: string)
    requires NoDuplicates(candidates) && |candidates| >= 4
    requires Greedy(candidates, family, pairs) && Balanced(pairs)
    requires |pairs| < |candidates| && producer == candidates[|pairs|]
    ensures v in candidates && Eligible(pairs, producer, v) && Load(pairs, v) <= 1
  {
    var eligible := set w | w in candidates && Eligible(pairs, producer, w);
    var loaded := set w | w in eligible && Load(pairs, w) >= 2;
    EligibleCount(candidates, family, pairs, producer, eligible);
    LoadedCount(pairs, producer, loaded);
    hide Greedy;
    assert Load(pairs, producer) <= 2;
    assert |loaded| < |eligible|;
    assert loaded != eligible;
    v :| v in eligible && v !in loaded;
  }

  lemma GreedyGrows(candidates: seq<string>, family: string -> string, pairs: seq<Pair>, pair: Pair)
    requires NoDuplicates(candidates) && |candidates| >= 4
    requires Greedy(candidates, family, pairs) && Balanced(pairs) && |pairs| < |candidates|
    requires GreedyAt(candidates, family, pairs + [pair], |pairs|)
    ensures Greedy(candidates, family, pairs + [pair]) && Balanced(pairs + [pair])
  {
    var longer := pairs + [pair];
    forall i | 0 <= i < |longer| ensures GreedyAt(candidates, family, longer, i) {
      if i < |pairs| {
        assert GreedyAt(candidates, family, pairs, i);
        assert longer[..i] == pairs[..i];
      }
    }
    assert longer[..|pairs|] == pairs;
    var v := SomeoneIsFree(candidates, family, pairs, candidates[|pairs|]);
    assert Load(pairs, pair.1) <= 1;
  }

  // ---- the guarantees of a full assignment ----

  ghost predicate Independent(candidates: seq<string>, pairs: seq<Pair>) {
    && |pairs| == |candidates|
    && (forall i :: 0 <= i < |pairs| ==> pairs[i].0 == candidates[i] && pairs[i].1 in candidates)
    && (forall p :: p in pairs ==> p.0 != p.1)
    && (forall p :: p in pairs ==> (p.1, p.0) !in pairs)
    && (forall v :: Load(pairs, v) <= 2)
  }

  lemma NeverMutual(candidates: seq<string>, family: string -> string, pairs: seq<Pair>, i: nat, j: nat)
    requires Greedy(candidates, family, pairs) && i <= j < |pairs|
    ensures pairs[i] != (pairs[j].1, pairs[j].0)
  {
    assert GreedyAt(candidates, family, pairs, j);
    if i < j {
      assert pairs[..j][i] == pairs[i];
    }
  }

  lemma GreedyIsIndependent(candidates: seq<string>, family: string -> string, pairs: seq<Pair>)
    requires |pairs| == |candidates| && Greedy(candidates, family, pairs) && Balanced(pairs)
    ensures Independent(candidates, pairs)
  {
    forall i | 0 <= i < |pairs|
      ensures pairs[i].0 == candidates[i] && pairs[i].1 in candidates && pairs[i].0 != pairs[i].1
    {
      assert GreedyAt(candidates, family, pairs, i);
    }
    forall i, j | 0 <= i < |pairs| && 0 <= j < |pairs| ensures pairs[i] != (pairs[j].1, pairs[j].0) {
      if i <= j {
        NeverMutual(candidates, family, pairs, i, j);
      } else {
        NeverMutual(candidates, family, pairs, j, i);
      }
    }
  }

  /** The two dicts of the source mirror the pairs made so far. */
  ghost predicate Mirrors(candidates: seq<string>, pairs: seq<Pair>, chosen: map<string, set<string>>,
                          load: map<string, nat>) {
    && chosen.Keys == load.Keys == Elements(candidates)
    && (forall v :: v in candidates ==> load[v] == Load(pairs, v))
    && (forall v, w :: v in candidates ==> (w in chosen[v] <==> Chose(pairs, v, w)))
  }

  lemma MirrorsGrows(candidates: seq<string>, pairs: seq<Pair>, chosen: map<string, set<string>>,
                     load: map<string, nat>, p: string, v: string)
    requires Mirrors(candidates, pairs, chosen, load) && p in candidates && v in candidates
    ensures Mirrors(candidates, pairs + [(p, v)], chosen[p := chosen[p] + {v}], load[v := load[v] + 1])
  {
    var longer := pairs + [(p, v)];
    assert longer[..|pairs|] == pairs;
    forall x, w | x in candidates ensures Chose(longer, x, w) <==> Chose(pairs, x, w) || (x, w) == (p, v) {
      assert longer[|pairs|] == (p, v);
    }
  }

  /** `[v for v in candidates if v != producer and producer not in used_validators_for[v]]`. */
  function EligibleList(candidates: seq<string>, chosen: map<string, set<string>>, producer: string): (r: seq<string>)
    requires forall v :: v in candidates ==> v in chosen
    ensures forall v :: v in r <==> v in candidates && v != producer && producer !in chosen[v]
  {
    if candidates == [] then []
    else
      var n := |candidates| - 1;
      assert candidates == candidates[..n] + [candidates[n]];
      var rest := EligibleList(candidates[..n], chosen, producer);
      if candidates[n] != producer && producer !in chosen[candidates[n]] then rest + [candidates[n]] else rest
  }

  /** Whatever the shuffle, the head of the sorted list is an eligible candidate no other beats. */
  lemma BestFirst(load: map<string, nat>, family: string -> string, producer: string, eligible: seq<string>,
                  shuffled: seq<string>)
    requires eligible != [] && multiset(shuffled) == multiset(eligible)
    ensures var ranked := SortBy((v, w) => Preferred(load, family, producer, v, w), shuffled);
            && |ranked| == |eligible| && ranked[0] in eligible
            && forall w :: w in eligible ==> Preferred(load, family, producer, ranked[0], w)
  {
    var le := (v, w) => Preferred(load, family, producer, v, w);
    PreferredIsPreorder(load, family, producer);
    SortSorts(le, shuffled);
    SortPermutes(le, shuffled);
    var ranked := SortBy(le, shuffled);
    PermutationMembers(ranked, eligible);
    forall w | w in eligible ensures le(ranked[0], w) {
      var j :| 0 <= j < |ranked| && ranked[j] == w;
    }
  }

  /** One turn of the loop: filter, shuffle, sort, take the first. */
  method PickValidator(candidates: seq<string>, family: string -> string, shuffle: (nat, seq<string>) -> seq<string>,
                       ghost pairs: seq<Pair>, chosen: map<string, set<string>>, load: map<string, nat>, k: nat)
    returns (validator: string)
    requires NoDuplicates(candidates) && |candidates| >= 4 && IsShuffle(shuffle)
    requires k == |pairs| < |candidates| && Greedy(candidates, family, pairs) && Balanced(pairs)
    requires Mirrors(candidates, pairs, chosen, load)
    ensures GreedyAt(candidates, family, pairs + [(candidates[k], validator)], k)
  {
    var producer := candidates[k];
    var eligible := EligibleList(candidates, chosen, producer);
    ghost var free := SomeoneIsFree(candidates, family, pairs, producer);
    assert free in eligible;
    if eligible == [] {
      // The source falls back to any other candidate here; that branch is never taken.
      assert false;
    }
    var shuffled := shuffle(k, eligible);
    var ranked := SortBy((v, w) => Preferred(load, family, producer, v, w), shuffled);
    BestFirst(load, family, producer, eligible, shuffled);
    validator := ranked[0];
    assert (pairs + [(producer, validator)])[..k] == pairs;
    forall w | w in candidates && Eligible(pairs, producer, w)
      ensures Preferred(load, family, producer, validator, w)
    {
      assert w in eligible;
    }
  }

  lemma CyclicLoads(c: seq<string>, pairs: seq<Pair>)
    requires |c| == 3 && NoDuplicates(c)
    requires pairs == [(c[0], c[1]), (c[1], c[2]), (c[2], c[0])]
    ensures Independent(c, pairs)
    ensures forall v :: v in c ==> Load(pairs, v) == 1
  {
    var p1, p2 := pairs[..1], pairs[..2];
    assert pairs[..2][..1] == p1 && p1[..0] == [];
    forall v ensures Load(pairs, v) ==
      (if v == c[1] then 1 else 0) + (if v == c[2] then 1 else 0) + (if v == c[0] then 1 else 0) {
      assert Load(p1, v) == if v == c[1] then 1 else 0;
      assert Load(p2, v) == Load(p1, v) + if v == c[2] then 1 else 0;
    }
  }

  method AllowedValidatorPairs(candidates: seq<string>, family: string -> string,
                               shuffle: (nat, seq<string>) -> seq<string>)
    returns (pairs: seq<Pair>)
    requires NoDuplicates(candidates)
    requires IsShuffle(shuffle)
    ensures |candidates| < 3 ==> pairs == []
    ensures |candidates| >= 3 ==> Independent(candidates, pairs)
    ensures |candidates| == 3 ==> forall v :: v in candidates ==> Load(pairs, v) == 1
    ensures |candidates| >= 4 ==> Greedy(candidates, family, pairs)
  {
    var n := |candidates|;
    if n < 3 {
      return [];
    }
    if n == 3 {
      pairs := [(candidates[0], candidates[1]), (candidates[1], candidates[2]), (candidates[2], candidates[0])];
      CyclicLoads(candidates, pairs);
      return;
    }
    pairs := [];
    var usedValidatorsFor: map<string, set<string>> := map c | c in candidates :: {};
    var usedValidatorsOverall: map<string, nat> := map c | c in candidates :: 0;
    for k := 0 to n
      invariant |pairs| == k
      invariant Greedy(candidates, family, pairs) && Balanced(pairs)
      invariant Mirrors(candidates, pairs, usedValidatorsFor, usedValidatorsOverall)
    {
      var producer := candidates[k];
      var validator := PickValidator(candidates, family, shuffle, pairs, usedValidatorsFor, usedValidatorsOverall, k);
      GreedyGrows(candidates, family, pairs, (producer, validator));
      assert validator in candidates;
      MirrorsGrows(candidates, pairs, usedValidatorsFor, usedValidatorsOverall, producer, validator);
      pairs := pairs + [(producer, validator)];
      usedValidatorsFor := usedValidatorsFor[producer := usedValidatorsFor[producer] + {validator}];
      usedValidatorsOverall := usedValidatorsOverall[validator := usedValidatorsOverall[validator] + 1];
    }
    GreedyIsIndependent(candidates, family, pairs);
  }

  /** Two candidates cannot be paired independently: any assignment is mutual. */
  lemma TwoAreAlwaysMutual(candidates: seq<string>, pairs: seq<Pair>)
    requires |candidates| == 2 && NoDuplicates(candidates)
    ensures !Independent(candidates, pairs)
  {
    var c0, c1 := candidates[0], candidates[1];
    if pairs == [(c0, c1), (c1, c0)] {
      assert pairs[0] in pairs && pairs[1] in pairs;
    } else if |pairs| == 2 {
      assert pairs[0] in pairs && pairs[1] in pairs;
    }
  }

  // ---- the validator of one stage call ----

  /** The sort key (family rank, effective cost, model id). */
  predicate Cheaper(family: string -> string, producer: string, effCost: map<string, real>, v: string, w: string) {
    var fv, fw := FamilyRank(family, producer, v), FamilyRank(family, producer, w);
    var cv, cw := TieCost(v, effCost, map[]), TieCost(w, effCost, map[]);
    || fv < fw
    || (fv == fw && !CostLe(cw, cv))
    || (fv == fw && cv == cw && StrLe(v, w))
  }

  lemma CheaperIsTotalOrder(family: string -> string, producer: string, effCost: map<string, real>)
    ensures TotalPreorder((v, w) => Cheaper(family, producer, effCost, v, w))
    ensures forall v, w :: Cheaper(family, producer, effCost, v, w) && Cheaper(family, producer, effCost, w, v) ==>
            v == w
  {
    forall a, b, c
      ensures Cheaper(family, producer, effCost, a, b) || Cheaper(family, producer, effCost, b, a)
      ensures Cheaper(family, producer, effCost, a, b) && Cheaper(family, producer, effCost, b, a) ==> a == b
      ensures Cheaper(family, producer, effCost, a, b) && Cheaper(family, producer, effCost, b, c) ==>
              Cheaper(family, producer, effCost, a, c)
    {
      StrLeTotal(a, b);
      if StrLe(a, b) && StrLe(b, a) {
        StrLeAntisymmetric(a, b);
      }
      if StrLe(a, b) && StrLe(b, c) {
        StrLeTransitive(a, b, c);
      }
    }
  }

  /** The candidate no other non-producer beats. */
  ghost predicate BestValidator(family: string -> string, producer: string, pool: seq<string>,
                                effCost: map<string, real>, v: string) {
    && v in pool && v != producer
    && forall w :: w in pool && w != producer ==> Cheaper(family, producer, effCost, v, w)
  }

  lemma BestValidatorUnique(family: string -> string, producer: string, pool: seq<string>, effCost: map<string, real>,
                            v: string, w: string)
    requires BestValidator(family, producer, pool, effCost, v) && BestValidator(family, producer, pool, effCost, w)
    ensures v == w
  {
    CheaperIsTotalOrder(family, producer, effCost);
  }

  function Others(pool: seq<string>, producer: string): (r: seq<string>)
    ensures forall v :: v in r <==> v in pool && v != producer
  {
    if pool == [] then []
    else if pool[0] != producer then [pool[0]] + Others(pool[1..], producer)
    else Others(pool[1..], producer)
  }

  /**
   * Never the producer; None only when there is nobody else. The best validator is unique, so the
   * shuffle never shows.
   */
  method SelectValidatorForProducer(producer: string, pool: seq<string>, family: string -> string,
                                    effCost: map<string, real>,
                                    shuffle: (nat, seq<string>) -> seq<string>)
    returns (v: Option<string>)
    requires IsShuffle(shuffle)
    ensures v.None? <==> forall m :: m in pool ==> m == producer
    ensures v.Some? ==> BestValidator(family, producer, pool, effCost, v.value)
  {
    var eligible := Others(pool, producer);
    if eligible == [] {
      return None;
    }
    var le := (a, b) => Cheaper(family, producer, effCost, a, b);
    var shuffled := shuffle(0, eligible);
    var ranked := SortBy(le, shuffled);
    CheaperIsTotalOrder(family, producer, effCost);
    SortSorts(le, shuffled);
    SortPermutes(le, shuffled);
    PermutationMembers(ranked, eligible);
    forall w | w in eligible ensures le(ranked[0], w) {
      var j :| 0 <= j < |ranked| && ranked[j] == w;
    }
    assert ranked[0] in eligible;
    return Some(ranked[0]);
  }

  // ---- the preferences told by families, prices and names ----

  /** A greedy pair takes the least loaded eligible validator, and among those one of another family if there is one. */
  lemma LightestThenOtherFamily(candidates: seq<string>, family: string -> string, pairs: seq<Pair>, i: nat, w: string)
    requires Greedy(candidates, family, pairs) && i < |pairs|
    requires w in candidates && w != pairs[i].0 && (w, pairs[i].0) !in pairs[..i]
    ensures Load(pairs[..i], pairs[i].1) <= Load(pairs[..i], w)
    ensures Load(pairs[..i], pairs[i].1) == Load(pairs[..i], w) && family(w) != family(pairs[i].0) ==>
            family(pairs[i].1) != family(pairs[i].0)
  {
    assert GreedyAt(candidates, family, pairs, i);
    assert Eligible(pairs[..i], candidates[i], w);
  }

  /**
   * The selected validator is of another family if any candidate is; among candidates of its kind nobody with a
   * known price is cheaper, it has a price if one of them has, and at one price it has the smallest name.
   */
  lemma BestValidatorIs(family: string -> string, producer: string, pool: seq<string>, effCost: map<string, real>,
                        v: string, w: string)
    requires BestValidator(family, producer, pool, effCost, v) && w in pool && w != producer
    ensures family(w) != family(producer) ==> family(v) != family(producer)
    ensures (family(v) == family(producer) <==> family(w) == family(producer)) && w in effCost ==>
            v in effCost && effCost[v] <= effCost[w] && (effCost[v] == effCost[w] ==> StrLe(v, w))
    ensures (family(v) == family(producer) <==> family(w) == family(producer)) && v !in effCost && w !in effCost ==>
            StrLe(v, w)
  {
    assert Cheaper(family, producer, effCost, v, w);
  }
}
