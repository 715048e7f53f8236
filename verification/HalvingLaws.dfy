// What every round decision guarantees, whatever the scores, winners, draws and error history.
module HalvingLaws {
  import opened Common
  import opened Schedule
  import opened AliveFilter
  import opened Scoring
  import opened Pruner
  import opened Halving

  /** candidates_in is split: nobody is lost, nobody is on both sides, everyone out has a reason. */
  lemma PromotePartitions(r: RoundResult, s: Standing, o1: set<string>, target: nat, final: bool, history: History)
    requires Decides(r, s, o1, target, final, history)
    ensures Elements(r.candidatesOut) !! Elements(r.eliminated)
    ensures Elements(r.candidatesOut) + Elements(r.eliminated) == Elements(r.candidatesIn)
    ensures |r.candidatesOut| + |r.eliminated| == |r.candidatesIn|
    ensures r.reasons.Keys == Elements(r.eliminated)
  {
    var outs, gone := Elements(r.candidatesOut), Elements(r.eliminated);
    forall m ensures m in outs + gone <==> m in s.scores {
      assert m in outs <==> m in r.candidatesOut;
      assert m in gone <==> m in r.eliminated;
    }
    DistinctSize(r.candidatesOut);
    DistinctSize(r.eliminated);
    DistinctSize(r.candidatesIn);
  }

  lemma {:induction false} FewElements<T>(xs: seq<T>)
    ensures |Elements(xs)| <= |xs|
  {
    if xs != [] {
      FewElements(xs[1..]);
      assert Elements(xs) == {xs[0]} + Elements(xs[1..]);
    }
  }

  lemma CutSize(s: Standing, target: nat)
    ensures |s.Cut(target)| <= target
  {
    FewElements(Top(s.Ranked(), target));
  }

  /** At most the target plus one seat per distinct stage winner; after the last round at most the target. */
  lemma OutputBounded(r: RoundResult, s: Standing, o1: set<string>, target: nat, final: bool, history: History)
    requires Decides(r, s, o1, target, final, history)
    ensures |r.candidatesOut| <= target + if final then 0 else |s.winners.Values|
  {
    var outs := Elements(r.candidatesOut);
    DistinctSize(r.candidatesOut);
    CutSize(s, target);
    var room := s.Cut(target) + if final then {} else s.winners.Values;
    forall m | m in outs ensures m in room {
      assert m in r.candidatesOut;
      assert Advances(s, o1, target, final, history, m);
      if m !in s.Cut(target) {
        var st :| st in s.StagesWon(m);
        assert s.winners[st] in s.winners.Values;
      }
    }
    SubsetSize(outs, room);
    assert |room| <= |s.Cut(target)| + if final then 0 else |s.winners.Values|;
  }

  /** Before the last round every living stage winner that passed the gate goes on. */
  lemma SpecialistsAreKept(r: RoundResult, s: Standing, o1: set<string>, target: nat, history: History, stage: string)
    requires Decides(r, s, o1, target, false, history)
    requires stage in s.winners && s.winners[stage] != "" && s.winners[stage] in s.Kept()
             && Alive(s.winners[stage], history)
    ensures s.winners[stage] in r.candidatesOut
  {
    assert stage in s.StagesWon(s.winners[stage]);
    assert Advances(s, o1, target, false, history, s.winners[stage]);
  }

  /** In a ranking, whoever is not in the top has the whole top ahead. */
  lemma TopIsAhead(ranked: seq<string>, target: nat, m: string, scores: map<string, real>, cost: map<string, real>,
                   latency: map<string, real>)
    requires IsRanking(ranked, scores, cost, latency) && m in scores && m !in Elements(Top(ranked, target))
    ensures var ahead := Elements(Top(ranked, target));
            && |ahead| == target && ahead <= scores.Keys
            && forall x :: x in ahead ==> x != m && RanksBefore(scores, cost, latency, x, m)
  {
    assert m in Elements(ranked);
    var i :| 0 <= i < |ranked| && ranked[i] == m;
    var top := Top(ranked, target);
    assert forall j :: 0 <= j < |top| ==> ranked[j] == top[j] && top[j] in Elements(top);
    assert i >= |top| == target;
    DistinctSize(top);
    forall x | x in top ensures x in scores && x != m && RanksBefore(scores, cost, latency, x, m) {
      var j :| 0 <= j < |top| && top[j] == x;
      assert ranked[j] == x && x in Elements(ranked);
    }
  }

  /** A model cut for its rank has at least `target` models strictly ahead of it. */
  lemma CutoffIsEarned(r: RoundResult, s: Standing, o1: set<string>, target: nat, final: bool, history: History,
                       m: string)
    returns (ahead: set<string>)
    requires s.Valid() && Decides(r, s, o1, target, final, history)
    requires m in r.reasons && r.reasons[m] == BelowCutoff
    ensures |ahead| >= target && ahead <= s.Kept().Keys
    ensures forall x :: x in ahead ==> x != m && RanksBefore(s.Kept(), s.Drop(s.effCost), s.Drop(s.latency), x, m)
  {
    assert m in Elements(r.eliminated);
    assert ReasonIs(s, o1, target, final, history, m, BelowCutoff);
    assert m in s.Kept() && m !in s.Cut(target);
    KeptIsValid(s);
    ahead := s.Cut(target);
    TopIsAhead(s.Ranked(), target, m, s.Kept(), s.Drop(s.effCost), s.Drop(s.latency));
  }

  /** Among covered models the kept figures are the given ones, so the order is the one of the whole standing. */
  lemma AheadAmongKept(s: Standing, x: string, m: string)
    requires x in s.Kept() && m in s.Kept() && x != m
    requires RanksBefore(s.Kept(), s.Drop(s.effCost), s.Drop(s.latency), x, m)
    ensures Ahead(s.scores, s.effCost, s.latency, x, m)
  {
    RanksBeforeIffAhead(s.Kept(), s.Drop(s.effCost), s.Drop(s.latency), x, m);
    hide RanksBefore;
    hide Standing.Covered;
    hide StrLe;
  }

  /** The target after round k, by the plan table. */
  lemma TargetIs(schedule: HalvingSchedule, k: int)
    requires schedule.Valid() && 1 <= k <= |schedule.roundSizes|
    ensures schedule.HasRound(k)
    ensures schedule.NextRoundSize(k) == Ok(if k < |schedule.roundSizes| then schedule.roundSizes[k] else 1)
    ensures schedule.IsFinal(k) <==> k == |schedule.roundSizes|
  {
  }

  /** Told by the plan table: a model cut after round k has at least the next round's size of covered models ahead. */
  lemma CutoffLine(r: RoundResult, o1: set<string>, schedule: HalvingSchedule, k: int, s: Standing, history: History,
                   m: string)
    returns (ahead: set<string>)
    requires schedule.Valid() && s.Valid() && 1 <= k <= |schedule.roundSizes| && s.scores != map[]
    requires Judged(Ok(r), o1, schedule, k, s, history)
    requires m in r.reasons && r.reasons[m] == BelowCutoff
    ensures |ahead| >= if k < |schedule.roundSizes| then schedule.roundSizes[k] else 1
    ensures m in s.scores
    ensures forall x :: x in ahead ==>
              x in s.scores && s.Covered(x) && x != m && Ahead(s.scores, s.effCost, s.latency, x, m)
  {
    TargetIs(schedule, k);
    var target, final := schedule.NextRoundSize(k).value, schedule.IsFinal(k);
    assert Decides(r, s, o1, target, final, history);
    assert m in Elements(r.eliminated) && m in s.Kept();
    ahead := CutoffIsEarned(r, s, o1, target, final, history, m);
    hide Judged;
    hide Decides;
    hide RanksBefore;
    hide Ahead;
    forall x | x in ahead
      ensures x in s.scores && s.Covered(x) && x != m && Ahead(s.scores, s.effCost, s.latency, x, m)
    {
      assert x in s.Kept();
      AheadAmongKept(s, x, m);
    }
  }

  /** Nobody uncovered, pruned or dead, and no stage winners. */
  ghost predicate PlainRound(s: Standing, o1: set<string>, history: History) {
    && s.winners == map[]
    && forall m :: m in s.scores ==> s.Covered(m) && m in o1 && Alive(m, history)
  }

  /** Nobody is rescued, nobody is dead and the prune drops nobody: the cut alone decides. */
  lemma CutDecides(s: Standing, o1: set<string>, target: nat, final: bool, history: History, m: string)
    requires s.Valid() && PlainRound(s, o1, history)
    ensures Advances(s, o1, target, final, history, m) <==> m in s.Cut(target)
  {
    CutIsTop(s, target);
    assert !s.Specialist(m);
    hide Standing.Ranked;
    if m in s.Cut(target) {
      assert m in Elements(s.Ranked());
    }
  }

  lemma PlainAdvances(r: RoundResult, s: Standing, o1: set<string>, target: nat, final: bool, history: History)
    requires s.Valid() && Decides(r, s, o1, target, final, history) && PlainRound(s, o1, history)
    ensures s.Kept() == s.scores && NoDuplicates(r.candidatesOut)
    ensures Elements(r.candidatesOut) == Elements(Top(s.Ranked(), target))
  {
    assert s.Kept() == s.scores;
    CutIsTop(s, target);
    forall m ensures m in Elements(r.candidatesOut) <==> m in s.Cut(target) {
      CutDecides(s, o1, target, final, history, m);
      assert m in r.candidatesOut <==> Advances(s, o1, target, final, history, m);
    }
    hide *;
  }

  /** The head of a ranking of all scores: as many as asked for, each ahead of whoever is left out. */
  lemma HeadIsAhead(s: Standing, target: nat, x: string, m: string)
    requires s.Valid() && s.Kept() == s.scores
    requires x in Elements(Top(s.Ranked(), target)) && m in s.scores && m !in Elements(Top(s.Ranked(), target))
    ensures x in s.scores && Ahead(s.scores, s.effCost, s.latency, x, m)
  {
    KeptIsValid(s);
    hide RanksBefore;
    hide Standing.Ranked;
    TopIsAhead(s.Ranked(), target, m, s.Kept(), s.Drop(s.effCost), s.Drop(s.latency));
    AheadAmongKept(s, x, m);
  }

  lemma TopSize(s: Standing, target: nat)
    requires s.Valid()
    ensures |Elements(Top(s.Ranked(), target))| == if target < |s.Kept()| then target else |s.Kept()|
  {
    KeptIsValid(s);
    hide Standing.Ranked;
    hide RanksBefore;
    DistinctSize(Top(s.Ranked(), target));
  }

  /** Then exactly the next round's size goes on, or everybody if they are fewer, and they are the best ranked. */
  lemma PlainRoundCuts(r: RoundResult, o1: set<string>, schedule: HalvingSchedule, k: int, s: Standing,
                       history: History)
    requires schedule.Valid() && s.Valid() && 1 <= k <= |schedule.roundSizes| && s.scores != map[]
    requires Judged(Ok(r), o1, schedule, k, s, history) && PlainRound(s, o1, history)
    ensures var size := if k < |schedule.roundSizes| then schedule.roundSizes[k] else 1;
            |r.candidatesOut| == if size < |s.scores| then size else |s.scores|
    ensures forall x, m :: x in r.candidatesOut && m in s.scores && m !in r.candidatesOut ==>
              x in s.scores && Ahead(s.scores, s.effCost, s.latency, x, m)
  {
    TargetIs(schedule, k);
    var target := schedule.NextRoundSize(k).value;
    PlainAdvances(r, s, o1, target, schedule.IsFinal(k), history);
    TopSize(s, target);
    DistinctSize(r.candidatesOut);
    hide Judged;
    hide PlainRound;
    hide Ahead;
    hide Standing.Ranked;
    hide Standing.Kept;
    forall x, m | x in r.candidatesOut && m in s.scores && m !in r.candidatesOut
      ensures x in s.scores && Ahead(s.scores, s.effCost, s.latency, x, m)
    {
      assert x in Elements(r.candidatesOut) && m !in Elements(r.candidatesOut);
      HeadIsAhead(s, target, x, m);
    }
  }

  /** Nobody dead goes on, and nobody the coverage gate stopped. */
  lemma OnlyLivingAndCovered(r: RoundResult, s: Standing, o1: set<string>, target: nat, final: bool, history: History,
                             m: string)
    requires Decides(r, s, o1, target, final, history) && m in r.candidatesOut
    ensures Alive(m, history) && m in s.scores && s.Covered(m)
  {
    assert Advances(s, o1, target, final, history, m);
  }

  // ---- every input has an outcome ----

  ghost function ReasonOf(s: Standing, o1: set<string>, target: nat, final: bool, history: History, m: string): Reason
    requires m in s.scores && !Advances(s, o1, target, final, history, m)
  {
    if !s.Covered(m) then BelowCoverage
    else if s.Elected(m, o1, target, final) then Dead(CauseOfDeath(m, history).value)
    else if m !in o1 then StatisticalOutlier
    else BelowCutoff
  }

  lemma ReasonFits(s: Standing, o1: set<string>, target: nat, final: bool, history: History, m: string)
    requires m in s.scores && !Advances(s, o1, target, final, history, m)
    ensures ReasonIs(s, o1, target, final, history, m, ReasonOf(s, o1, target, final, history, m))
  {
    hide Standing.Elected;
  }

  ghost function ReasonsOf(s: Standing, o1: set<string>, target: nat, final: bool, history: History)
    : (r: map<string, Reason>)
    ensures forall m :: m in r <==> m in s.scores && !Advances(s, o1, target, final, history, m)
    ensures forall m :: m in r ==> ReasonIs(s, o1, target, final, history, m, r[m])
  {
    var gone := set m | m in s.scores && !Advances(s, o1, target, final, history, m);
    assert forall m :: m in gone ==>
      ReasonIs(s, o1, target, final, history, m, ReasonOf(s, o1, target, final, history, m)) by {
      forall m | m in gone
        ensures ReasonIs(s, o1, target, final, history, m, ReasonOf(s, o1, target, final, history, m))
      {
        ReasonFits(s, o1, target, final, history, m);
      }
    }
    map m | m in gone :: ReasonOf(s, o1, target, final, history, m)
  }

  lemma AdvancersAreScored(s: Standing, o1: set<string>, target: nat, final: bool, history: History)
    ensures forall m :: Advances(s, o1, target, final, history, m) ==> m in s.scores
  {
  }

  lemma SplitDecides(r: RoundResult, s: Standing, o1: set<string>, target: nat, final: bool, history: History)
    requires NoDuplicates(r.candidatesIn) && NoDuplicates(r.candidatesOut) && NoDuplicates(r.eliminated)
    requires Elements(r.candidatesIn) == s.scores.Keys && Elements(r.eliminated) == r.reasons.Keys
    requires forall m :: m in r.candidatesOut <==> m in s.scores && m !in r.reasons
    requires forall m :: m in r.eliminated <==> m in r.reasons
    requires forall m :: m in r.reasons <==> m in s.scores && !Advances(s, o1, target, final, history, m)
    requires forall m :: m in r.reasons ==> ReasonIs(s, o1, target, final, history, m, r.reasons[m])
    requires forall m :: Advances(s, o1, target, final, history, m) ==> m in s.scores
    ensures Decides(r, s, o1, target, final, history)
  {
    hide Advances;
    hide ReasonIs;
    hide NoDuplicates;
    hide Elements;
  }

  /** The lists of a result, from whatever predicate says who advances. */
  lemma SplitExists(k: int, s: Standing, o1: set<string>, target: nat, final: bool, history: History)
    returns (r: RoundResult)
    requires s.Valid()
    ensures Decides(r, s, o1, target, final, history) && r.roundIdx == k
  {
    AdvancersAreScored(s, o1, target, final, history);
    hide Advances;
    hide ReasonIs;
    hide Decides;
    hide NoDuplicates;
    hide Elements;
    var reasons := ReasonsOf(s, o1, target, final, history);
    var outs := s.scores.Keys - reasons.Keys;
    r := RoundResult(k, s.order, ListOf(outs), ListOf(reasons.Keys), reasons, map[], map[], map[]);
    SplitDecides(r, s, o1, target, final, history);
  }

  lemma SpecialtiesExist(s: Standing, o1: set<string>, target: nat, final: bool, history: History)
    returns (listed: map<string, seq<string>>)
    ensures SpecialtiesAre(listed, s, o1, target, final, history)
  {
    assert forall m :: s.Specialist(m) ==> m in s.Kept();
    hide Standing.Specialist;
    hide Standing.Elected;
    hide Standing.StagesWon;
    hide Alive;
    listed := map m | m in s.Kept() && s.Specialist(m) && !(s.Elected(m, o1, target, final) && !Alive(m, history))
      :: ListOf(s.StagesWon(m));
  }

  lemma SameSplit(r: RoundResult, r': RoundResult, s: Standing, o1: set<string>, target: nat, final: bool,
                  history: History)
    requires Decides(r, s, o1, target, final, history)
    requires r'.candidatesIn == r.candidatesIn && r'.candidatesOut == r.candidatesOut
    requires r'.eliminated == r.eliminated && r'.reasons == r.reasons
    ensures Decides(r', s, o1, target, final, history)
  {
    hide Advances;
    hide ReasonIs;
    hide NoDuplicates;
  }

  lemma DecisionExists(k: int, s: Standing, o1: set<string>, target: nat, final: bool, history: History)
    returns (r: RoundResult)
    requires s.Valid()
    ensures Decided(r, s, o1, target, final, history) && r.roundIdx == k
  {
    var split := SplitExists(k, s, o1, target, final, history);
    var listed := SpecialtiesExist(s, o1, target, final, history);
    r := split.(scores := WithBonus(s.Kept(), BonusOf(s)), specialtyPreserved := listed,
                effectiveCost := if s.Kept() == map[] then map[] else s.Drop(s.effCost));
    SameSplit(split, r, s, o1, target, final, history);
    hide Decides;
    hide SpecialtiesAre;
  }

  /** For every schedule, round, standing and history there is something promote() may return. */
  lemma OutcomeExists(schedule: HalvingSchedule, k: int, s: Standing, history: History)
    returns (r: RoundResult, o1: set<string>)
    requires schedule.Valid() && s.Valid() && schedule.HasRound(k) && s.scores != map[]
    ensures Judged(Ok(r), o1, schedule, k, s, history)
  {
    KeptIsValid(s);
    o1 := PruneExists(s.PrunerField());
    hide Decided;
    hide IsPruned;
    r := DecisionExists(k, s, o1, schedule.NextRoundSize(k).value, schedule.IsFinal(k), history);
  }

  // ---- the specialty list and the eliminated ----

  /** A listed model is eliminated exactly after the last round, when the cut or the prune removed it. */
  lemma SpecialtyOverlap(r: RoundResult, s: Standing, o1: set<string>, target: nat, final: bool, history: History,
                         m: string)
    requires Decides(r, s, o1, target, final, history)
    requires SpecialtiesAre(r.specialtyPreserved, s, o1, target, final, history)
    requires m in r.specialtyPreserved
    ensures m in r.eliminated <==> final && !(m in s.Cut(target) && m in o1)
  {
    assert m in r.eliminated <==> m in s.scores && !Advances(s, o1, target, final, history, m);
  }

  /** Some model is both listed and eliminated. */
  ghost predicate Overlaps(r: RoundResult) {
    exists m :: m in r.specialtyPreserved && m in r.eliminated
  }

  lemma OverlapsIff(r: RoundResult, s: Standing, o1: set<string>, target: nat, final: bool, history: History)
    requires Decided(r, s, o1, target, final, history)
    ensures Overlaps(r) <==> final && exists m :: s.Specialist(m) && !(m in s.Cut(target) && m in o1)
  {
    if Overlaps(r) {
      var m :| m in r.specialtyPreserved && m in r.eliminated;
      SpecialtyOverlap(r, s, o1, target, final, history, m);
      assert s.Specialist(m);
    }
    if final && exists m :: s.Specialist(m) && !(m in s.Cut(target) && m in o1) {
      var m :| s.Specialist(m) && !(m in s.Cut(target) && m in o1);
      assert m in r.specialtyPreserved;
      SpecialtyOverlap(r, s, o1, target, final, history, m);
    }
  }

  lemma HeadOnly(xs: seq<string>)
    requires xs != []
    ensures Elements(xs[..1]) == {xs[0]}
  {
    assert xs[..1] == [xs[0]];
  }

  lemma RankedAreScored(s: Standing)
    requires s.Valid() && s.Ranked() != []
    ensures s.Kept() != map[] && s.scores != map[]
  {
    KeptIsValid(s);
    hide Standing.Ranked;
    assert |s.Kept()| > 0;
    var m :| m in s.Kept();
    assert m in s.scores;
  }

  lemma LastRoundDecided(r: RoundResult, o1: set<string>, schedule: HalvingSchedule, k: int, s: Standing,
                         history: History)
    requires schedule.Valid() && s.Valid() && schedule.HasRound(k) && schedule.IsFinal(k) && s.scores != map[]
    requires Judged(Ok(r), o1, schedule, k, s, history)
    ensures Pruned(s, o1) && Decided(r, s, o1, 1, true, history)
  {
    hide Pruned;
    hide Decided;
  }

  lemma CutOfOne(s: Standing)
    requires s.Ranked() != []
    ensures s.Cut(1) == {s.Ranked()[0]}
  {
    hide Standing.Ranked;
    HeadOnly(s.Ranked());
  }

  /**
   * The last round in general: the two overlap if and only if a covered stage winner is not the head of
   * the ranking, or is the head and the prune dropped it.
   */
  lemma LastRoundOverlapsIff(r: RoundResult, o1: set<string>, schedule: HalvingSchedule, k: int, s: Standing,
                             history: History)
    requires schedule.Valid() && s.Valid() && schedule.HasRound(k) && schedule.IsFinal(k)
    requires Judged(Ok(r), o1, schedule, k, s, history) && s.Ranked() != []
    ensures var best := s.Ranked()[0];
            Overlaps(r) <==> (exists m :: s.Specialist(m) && m != best) || (s.Specialist(best) && best !in o1)
  {
    RankedAreScored(s);
    LastRoundDecided(r, o1, schedule, k, s, history);
    CutOfOne(s);
    hide *;
    OverlapsIff(r, s, o1, 1, true, history);
    assert forall m :: m in s.Cut(1) <==> m == s.Ranked()[0];
  }

  /** Before the last round the two never overlap; after it they do whenever two models won stages, for every seed. */
  lemma TwoWinnersOverlap(r: RoundResult, o1: set<string>, schedule: HalvingSchedule, k: int, s: Standing,
                          history: History, a: string, b: string)
    requires schedule.Valid() && s.Valid() && schedule.HasRound(k)
    requires Judged(Ok(r), o1, schedule, k, s, history)
    requires a != b && s.Specialist(a) && s.Specialist(b)
    ensures Overlaps(r) <==> schedule.IsFinal(k)
  {
    assert s.scores != map[] && s.Kept() != map[];
    if schedule.IsFinal(k) {
      KeptIsValid(s);
      LastRoundOverlapsIff(r, o1, schedule, k, s, history);
    } else {
      OverlapsIff(r, s, o1, schedule.NextRoundSize(k).value, false, history);
    }
  }

  lemma TwoWinners() returns (s: Standing)
    ensures s.Valid() && s.Specialist("a") && s.Specialist("b") && s.scores == map["a" := 1.0, "b" := 0.5]
  {
    s := Standing(["a", "b"], map["a" := 1.0, "b" := 0.5], map[], map["read" := "a", "write" := "b"], None,
                  map[], map[], Chance((i, j, n) => 0, xs => 0.0));
    assert Elements(s.order) == s.scores.Keys;
    assert "read" in s.StagesWon("a") && "write" in s.StagesWon("b");
  }

  /** Concretely: the schedule of one round, two models, each the best of one stage, no gate. */
  lemma OverlapHappens() returns (r: RoundResult, o1: set<string>, schedule: HalvingSchedule, s: Standing)
    ensures schedule.Valid() && s.Valid()
    ensures Judged(Ok(r), o1, schedule, 1, s, map[]) && Overlaps(r)
  {
    schedule := HalvingSchedule([2], [1], 1);
    s := TwoWinners();
    assert "a" in s.scores;
    assert schedule.Valid() && schedule.HasRound(1) && schedule.IsFinal(1);
    hide *;
    r, o1 := OutcomeExists(schedule, 1, s, map[]);
    TwoWinnersOverlap(r, o1, schedule, 1, s, map[], "a", "b");
  }

  // ---- equal costs and no unit breakdown: the cut keeps a prefix of the ranking ----

  predicate EqualCosts(effCost: map<string, real>) {
    forall a, b :: a in effCost && b in effCost && effCost[a] > 0.0 && effCost[b] > 0.0 ==> effCost[a] == effCost[b]
  }

  lemma SamePriceNoPenalty(cost: real)
    requires cost > 0.0
    ensures PenaltyOver(cost, cost) == 0.0
  {
    assert cost / cost == 1.0;
  }

  lemma NoPenalty(f: Field, m: string)
    requires f.Valid() && f.units == map[] && EqualCosts(f.effCost) && m in f.scores
    ensures f.Eff(m) == f.scores[m]
  {
    hide PenaltyOver;
    if m in Positive(f.effCost) {
      var c := Cheapest(f.effCost, Positive(f.effCost));
      assert f.effCost[c] == f.effCost[m];
      SamePriceNoPenalty(f.effCost[m]);
    }
  }

  lemma RankedByScore(r: seq<string>, scores: map<string, real>, effCost: map<string, real>,
                      latency: map<string, real>, i: nat, j: nat)
    requires IsRanking(r, scores, effCost, latency) && i <= j < |r|
    ensures r[i] in scores && r[j] in scores && scores[r[i]] >= scores[r[j]]
  {
    assert r[i] in Elements(r) && r[j] in Elements(r);
    if i < j {
      assert RanksBefore(scores, effCost, latency, r[i], r[j]);
    }
  }

  lemma BetterScoreFirst(s: Standing, i: nat, j: nat)
    requires s.Valid() && i <= j < |s.Ranked()|
    ensures s.Ranked()[i] in s.Kept() && s.Ranked()[j] in s.Kept()
    ensures s.Kept()[s.Ranked()[i]] >= s.Kept()[s.Ranked()[j]]
  {
    KeptIsValid(s);
    hide *;
    RankedByScore(s.Ranked(), s.Kept(), s.Drop(s.effCost), s.Drop(s.latency), i, j);
  }

  /** No unit breakdown: never the paired branch. */
  lemma NotPaired(f: Field, some: string)
    requires f.Valid() && f.units == map[] && some in f.scores
    ensures !BranchOf(f).PairedBootstrap?
  {
    assert some !in f.units;
    assert !UsesPaired(f);
  }

  /** Whenever the prune is not paired, membership is decided by one line. */
  lemma SurvivorIs(f: Field, o1: set<string>, m: string)
    requires f.Valid() && !BranchOf(f).PairedBootstrap? && IsPruned(f, o1) && m in f.scores
    ensures m in o1 <==> Survives(f, m)
  {
  }

  lemma PlainUpward(f: Field, o1: set<string>, a: string, b: string)
    requires f.Valid() && f.units == map[] && EqualCosts(f.effCost) && IsPruned(f, o1)
    requires a in f.scores && b in f.scores && f.scores[a] <= f.scores[b] && a in o1
    ensures b in o1
  {
    NotPaired(f, a);
    NoPenalty(f, a);
    NoPenalty(f, b);
    SurvivorIs(f, o1, a);
    SurvivorIs(f, o1, b);
    UpwardClosed(f, a, b);
  }

  lemma PlainTop(f: Field, o1: set<string>, b: string)
    requires f.Valid() && f.units == map[] && EqualCosts(f.effCost) && IsPruned(f, o1)
    requires b in f.scores && forall m :: m in f.scores ==> f.scores[m] <= f.scores[b]
    ensures b in o1
  {
    NotPaired(f, b);
    forall m | m in f.scores ensures f.Eff(m) == f.scores[m] {
      NoPenalty(f, m);
    }
    TopSurvives(f, b);
    SurvivorIs(f, o1, b);
  }

  lemma PositionOf(r: seq<string>, scores: map<string, real>, effCost: map<string, real>, latency: map<string, real>,
                   m: string) returns (j: nat)
    requires IsRanking(r, scores, effCost, latency) && m in scores
    ensures j < |r| && r[j] == m
  {
    assert m in Elements(r);
    j :| 0 <= j < |r| && r[j] == m;
  }

  lemma FirstIsBest(s: Standing)
    requires s.Valid() && s.Kept() != map[]
    ensures s.Ranked() != [] && s.Ranked()[0] in s.Kept()
    ensures forall m :: m in s.Kept() ==> s.Kept()[m] <= s.Kept()[s.Ranked()[0]]
  {
    KeptIsValid(s);
    hide *;
    var ranked := s.Ranked();
    BetterScoreFirst(s, 0, 0);
    forall m | m in s.Kept() ensures s.Kept()[m] <= s.Kept()[ranked[0]] {
      var j := PositionOf(ranked, s.Kept(), s.Drop(s.effCost), s.Drop(s.latency), m);
      BetterScoreFirst(s, 0, j);
    }
  }

  lemma SurvivorsAreTopScores(s: Standing, o1: set<string>)
    requires s.Valid() && Pruned(s, o1) && s.Kept() != map[]
    requires s.units == map[] && EqualCosts(s.Drop(s.effCost))
    ensures s.Ranked() != [] && s.Ranked()[0] in o1
    ensures forall i, j :: 0 <= i <= j < |s.Ranked()| && s.Ranked()[j] in o1 ==> s.Ranked()[i] in o1
  {
    KeptIsValid(s);
    var ranked := s.Ranked();
    assert s.PrunerField().units == map[];
    FirstIsBest(s);
    PlainTop(s.PrunerField(), o1, ranked[0]);
    forall i, j | 0 <= i <= j < |ranked| && ranked[j] in o1 ensures ranked[i] in o1 {
      BetterScoreFirst(s, i, j);
      PlainUpward(s.PrunerField(), o1, ranked[j], ranked[i]);
    }
  }

  lemma {:induction false} PrefixLength(ranked: seq<string>, o1: set<string>, p: nat) returns (n: nat)
    requires p <= |ranked|
    requires forall i, j :: 0 <= i <= j < |ranked| && ranked[j] in o1 ==> ranked[i] in o1
    ensures n <= p
    ensures forall i :: 0 <= i < p ==> (ranked[i] in o1 <==> i < n)
  {
    if p == 0 {
      n := 0;
    } else {
      n := PrefixLength(ranked, o1, p - 1);
      if ranked[p - 1] in o1 {
        n := p;
      }
    }
  }

  lemma TopAndSurvivors(ranked: seq<string>, o1: set<string>, target: nat, n: nat)
    requires n <= |Top(ranked, target)|
    requires forall i :: 0 <= i < |Top(ranked, target)| ==> (ranked[i] in o1 <==> i < n)
    ensures Elements(Top(ranked, target)) * o1 == Elements(ranked[..n])
  {
    var top := Top(ranked, target);
    forall m ensures m in Elements(top) * o1 <==> m in Elements(ranked[..n]) {
      if m in Elements(top) * o1 {
        var i :| 0 <= i < |top| && top[i] == m;
        assert ranked[i] == m && i < n;
        assert ranked[..n][i] == m;
      }
      if m in Elements(ranked[..n]) {
        var i :| 0 <= i < n && ranked[..n][i] == m;
        assert top[i] == m;
      }
    }
  }

  /** For every seed: what the cut and the prune leave is a non-empty prefix of the ranking. */
  lemma CutKeepsPrefix(s: Standing, o1: set<string>, target: nat) returns (n: nat)
    requires s.Valid() && Pruned(s, o1) && s.Kept() != map[] && target >= 1
    requires s.units == map[] && EqualCosts(s.Drop(s.effCost))
    ensures 1 <= n <= |s.Ranked()| && n <= target
    ensures s.Cut(target) * o1 == Elements(s.Ranked()[..n])
  {
    SurvivorsAreTopScores(s, o1);
    hide Pruned;
    hide Standing.Ranked;
    var top := Top(s.Ranked(), target);
    n := PrefixLength(s.Ranked(), o1, |top|);
    TopAndSurvivors(s.Ranked(), o1, target, n);
  }

  /**
   * With equal costs and no unit breakdown the prune keeps the head of the ranking, so only another stage
   * winner overlaps.
   */
  lemma PlainOverlapsIff(r: RoundResult, o1: set<string>, schedule: HalvingSchedule, k: int, s: Standing,
                         history: History)
    requires schedule.Valid() && s.Valid() && schedule.HasRound(k) && schedule.IsFinal(k)
    requires Judged(Ok(r), o1, schedule, k, s, history) && s.Ranked() != []
    requires s.units == map[] && EqualCosts(s.Drop(s.effCost))
    ensures Overlaps(r) <==> exists m :: s.Specialist(m) && m != s.Ranked()[0]
  {
    LastRoundOverlapsIff(r, o1, schedule, k, s, history);
    RankedAreScored(s);
    LastRoundDecided(r, o1, schedule, k, s, history);
    hide *;
    SurvivorsAreTopScores(s, o1);
  }

  // ---- what goes into a decision and what it reports ----

  /** The prune is given the covered models with their own scores, prices and unit scores, and nobody else. */
  lemma PrunerSeesCovered(s: Standing, m: string)
    ensures var f := s.PrunerField();
            && (m in f.scores <==> m in s.scores && s.Covered(m))
            && (m in f.scores ==> f.scores[m] == s.scores[m])
            && (m in f.scores ==> (m in f.effCost <==> m in s.effCost))
            && (m in f.scores && m in f.effCost ==> f.effCost[m] == s.effCost[m])
            && (m in f.scores ==> (m in f.units <==> m in s.units))
            && (m in f.scores && m in f.units ==> f.units[m] == s.units[m])
            && f.chance == s.chance
  {
    hide Standing.Covered;
  }

  /** The model won two different stages and passed the gate. */
  ghost predicate WonTwice(s: Standing, m: string) {
    && m != "" && m in s.scores && s.Covered(m)
    && exists a, b :: a in s.winners && b in s.winners && a != b && s.winners[a] == m && s.winners[b] == m
  }

  lemma BonusIffWonTwice(s: Standing, m: string)
    ensures m in BonusOf(s) <==> WonTwice(s, m)
    ensures m in BonusOf(s) ==> BonusOf(s)[m] == 0.05
  {
    hide Standing.Covered;
    var won := s.StagesWon(m);
    if |won| >= 2 {
      var a :| a in won;
      assert |won - {a}| >= 1;
      var b :| b in won - {a};
      assert a in s.winners && b in s.winners && a != b && s.winners[a] == m && s.winners[b] == m;
    }
    if a, b :| a in s.winners && b in s.winners && a != b && s.winners[a] == m && s.winners[b] == m {
      SubsetSize({a, b}, won);
    }
  }

  /**
   * A decision reports every covered model's score, 0.05 higher for a model that won two stages and at most 1,
   * and the price of everybody the gate did not stop.
   */
  lemma ReportedFigures(r: RoundResult, s: Standing, o1: set<string>, target: nat, final: bool, history: History,
                        m: string)
    requires Decided(r, s, o1, target, final, history)
    ensures m in r.scores <==> m in s.scores && s.Covered(m)
    ensures m in r.scores ==>
              var raised := s.scores[m] + if WonTwice(s, m) then 0.05 else 0.0;
              r.scores[m] == if raised <= 1.0 then raised else 1.0
    ensures (exists x :: x in s.scores && s.Covered(x)) ==>
              && (m in r.effectiveCost <==> m in s.effCost && (m in s.scores ==> s.Covered(m)))
              && (m in r.effectiveCost ==> r.effectiveCost[m] == s.effCost[m])
  {
    BonusIffWonTwice(s, m);
    hide BonusOf;
    hide WonTwice;
    hide Decides;
    hide SpecialtiesAre;
    hide Standing.Covered;
    if x :| x in s.scores && s.Covered(x) {
      assert x in s.Kept();
    }
  }
}
