// Halving.promote: coverage gate, statistical prune, halving cut, specialist rescue and
// dead filter, in that order, over the scores of one finished round.
module Halving {
  import opened Common
  import opened Schedule
  import opened AliveFilter
  import opened Scoring
  import opened Pruner

  datatype Reason =
    | BelowCoverage
    | StatisticalOutlier
    | BelowCutoff
    | Dead(why: Death)

  datatype RoundResult = RoundResult(
    roundIdx: int,
    candidatesIn: seq<string>,
    candidatesOut: seq<string>,
    eliminated: seq<string>,
    reasons: map<string, Reason>,
    scores: map<string, real>,
    effectiveCost: map<string, real>,
    specialtyPreserved: map<string, seq<string>>)

  /** Attempts per model against the number of attempts a full round has. */
  datatype Coverage = Coverage(attempted: map<string, nat>, total: nat, minimum: real)

  /** Stages among the given ones that m won. */
  function WonAmong(winners: map<string, string>, stages: set<string>, m: string): set<string> {
    set st | st in stages && st in winners && winners[st] == m
  }

  /** What promote() is called with; `order` is the iteration order of the score dict. */
  datatype Standing = Standing(
    order: seq<string>,
    scores: map<string, real>,
    effCost: map<string, real>,
    winners: map<string, string>,   // stage -> best model of the stage
    coverage: Option<Coverage>,
    latency: map<string, real>,
    units: map<string, seq<real>>,
    chance: Chance)
  {
    ghost predicate Valid() {
      NoDuplicates(order) && Elements(order) == scores.Keys && ValidChance(chance)
    }

    /** The coverage gate lets the model through. */
    predicate Covered(m: string) {
      || coverage.None?
      || coverage.value.total == 0
      || coverage.value.minimum <= 0.0
      || Attempted(m) as real / coverage.value.total as real >= coverage.value.minimum
    }

    function Attempted(m: string): nat
      requires coverage.Some?
    {
      At(coverage.value.attempted, m, 0)
    }

    /** Scores that pass the gate; costs and latencies lose the models it stops. */
    function Kept(): map<string, real> {
      map m | m in scores && Covered(m) :: scores[m]
    }

    function Drop(figures: map<string, real>): map<string, real> {
      map m | m in figures && !(m in scores && !Covered(m)) :: figures[m]
    }

    function KeptOrder(): seq<string> {
      FilterCovered(order)
    }

    function FilterCovered(ms: seq<string>): (r: seq<string>)
      ensures forall m :: m in r <==> m in ms && Covered(m)
      ensures NoDuplicates(ms) ==> NoDuplicates(r)
    {
      if ms == [] then []
      else
        var rest := FilterCovered(ms[1..]);
        assert ms == [ms[0]] + ms[1..];
        assert NoDuplicates(ms) ==> NoDuplicates(ms[1..]) && ms[0] !in ms[1..];
        if Covered(ms[0]) then [ms[0]] + rest else rest
    }

    function PrunerField(): Field {
      Field(KeptOrder(), Kept(), map m | m in units && m in Kept() :: units[m], Drop(effCost), chance)
    }

    function Ranked(): seq<string> {
      Ranking(KeptOrder(), Kept(), Drop(effCost), Drop(latency))
    }

    /** The top of the ranking, up to the target size. */
    function Cut(target: nat): set<string> {
      Elements(Ranked()[..if target < |Ranked()| then target else |Ranked()|])
    }

    function StagesWon(m: string): set<string> {
      WonAmong(winners, winners.Keys, m)
    }

    /** Wins at least one stage and passed the gate. */
    predicate Specialist(m: string) {
      m != "" && m in Kept() && StagesWon(m) != {}
    }

    /** Promoted before the dead filter is applied. */
    predicate Elected(m: string, o1: set<string>, target: nat, final: bool) {
      (m in Cut(target) && m in o1) || (!final && Specialist(m))
    }
  }

  lemma KeptIsValid(s: Standing)
    requires s.Valid()
    ensures s.PrunerField().Valid()
    ensures NoDuplicates(s.KeptOrder()) && Elements(s.KeptOrder()) == s.Kept().Keys
    ensures IsRanking(s.Ranked(), s.Kept(), s.Drop(s.effCost), s.Drop(s.latency))
    ensures |s.Ranked()| == |s.Kept()|
  {
    forall m ensures m in s.KeptOrder() <==> m in s.Kept() {
      assert m in s.order <==> m in Elements(s.order);
    }
    RankingSorts(s.KeptOrder(), s.Kept(), s.Drop(s.effCost), s.Drop(s.latency));
  }

  // ---- what a round decides ----

  /** Who goes on to the next round. */
  ghost predicate Advances(s: Standing, o1: set<string>, target: nat, final: bool, history: History, m: string) {
    m in s.Kept() && s.Elected(m, o1, target, final) && Alive(m, history)
  }

  ghost predicate ReasonIs(s: Standing, o1: set<string>, target: nat, final: bool, history: History, m: string,
                           why: Reason) {
    if !s.Covered(m) then why == BelowCoverage
    else if s.Elected(m, o1, target, final)
    then CauseOfDeath(m, history).Some? && why == Dead(CauseOfDeath(m, history).value)
    else if m !in o1 then why == StatisticalOutlier
    else why == BelowCutoff
  }

  /** The statistical prune of this round may have left these survivors. */
  ghost predicate Pruned(s: Standing, o1: set<string>)
    requires s.Valid()
  {
    s.PrunerField().Valid() && IsPruned(s.PrunerField(), o1)
  }

  /** The whole outcome: candidates_in is split into who advances and who is out, each with its reason. */
  ghost predicate Decides(r: RoundResult, s: Standing, o1: set<string>, target: nat, final: bool, history: History)
  {
    && NoDuplicates(r.candidatesIn) && NoDuplicates(r.candidatesOut) && NoDuplicates(r.eliminated)
    && Elements(r.candidatesIn) == s.scores.Keys
    && (forall m :: m in r.candidatesOut <==> Advances(s, o1, target, final, history, m))
    && (forall m :: m in r.eliminated <==> m in s.scores && !Advances(s, o1, target, final, history, m))
    && r.reasons.Keys == Elements(r.eliminated)
    && (forall m :: m in r.reasons ==> ReasonIs(s, o1, target, final, history, m, r.reasons[m]))
  }

  /** Two or more stages won earn a bonus for the next round. */
  function BonusOf(s: Standing): map<string, real> {
    map m | m in s.Kept() && m != "" && |s.StagesWon(m)| >= 2 :: 0.05
  }

  function MinReal(x: real, y: real): real {
    if x <= y then x else y
  }

  function WithBonus(scores: map<string, real>, bonus: map<string, real>): map<string, real> {
    map m | m in scores :: MinReal(1.0, scores[m] + if m in bonus then bonus[m] else 0.0)
  }

  /** Stages listed per specialist; a specialist that was elected and is dead is taken off the list. */
  ghost predicate SpecialtiesAre(kept: map<string, seq<string>>, s: Standing, o1: set<string>, target: nat,
                                 final: bool, history: History) {
    && (forall m :: m in kept <==> s.Specialist(m) && !(s.Elected(m, o1, target, final) && !Alive(m, history)))
    && (forall m :: m in kept ==> Elements(kept[m]) == s.StagesWon(m))
  }

  ghost predicate Decided(r: RoundResult, s: Standing, o1: set<string>, target: nat, final: bool, history: History) {
    && Decides(r, s, o1, target, final, history)
    && r.scores == WithBonus(s.Kept(), BonusOf(s))
    && r.effectiveCost == (if s.Kept() == map[] then map[] else s.Drop(s.effCost))
    && SpecialtiesAre(r.specialtyPreserved, s, o1, target, final, history)
  }

  /** What promote() returns: nothing for no scores, an error for an unknown round, else the decision. */
  ghost predicate Judged(r: Result<RoundResult, ScheduleError>, o1: set<string>, schedule: HalvingSchedule, k: int,
                         s: Standing, history: History)
    requires schedule.Valid() && s.Valid()
  {
    && (r.Err? <==> s.scores != map[] && !schedule.HasRound(k))
    && (r.Ok? ==> r.value.roundIdx == k)
    && (s.scores == map[] ==> r == Ok(RoundResult(k, [], [], [], map[], map[], map[], map[])))
    && (r.Ok? && s.scores != map[] ==>
          && Pruned(s, o1)
          && Decided(r.value, s, o1, schedule.NextRoundSize(k).value, schedule.IsFinal(k), history))
  }

  // ---- the steps of promote ----

  method Prune(s: Standing) returns (o1: set<string>)
    requires s.Valid()
    ensures Pruned(s, o1)
  {
    KeptIsValid(s);
    o1 := MadBootstrapPrune(s.PrunerField());
  }

  /** Nobody passed the gate, so nobody advances and there is nothing else to say. */
  lemma ExcludedDecides(r: RoundResult, s: Standing, o1: set<string>, target: nat, final: bool, history: History)
    requires s.Kept() == map[] && forall m :: m in s.scores ==> !s.Covered(m)
    requires NoDuplicates(r.candidatesIn) && Elements(r.candidatesIn) == s.scores.Keys
    requires r.eliminated == r.candidatesIn && r.candidatesOut == []
    requires r.reasons == map m | m in s.scores :: BelowCoverage
    requires r.scores == map[] && r.effectiveCost == map[] && r.specialtyPreserved == map[]
    ensures Decided(r, s, o1, target, final, history)
  {
    assert forall m :: !s.Specialist(m);
    hide NoDuplicates;
    hide Standing.Elected;
    hide Standing.Specialist;
    assert forall m :: m in r.eliminated <==> m in Elements(r.eliminated);
  }

  /** The degenerate round: everybody is below the coverage minimum. */
  method AllExcluded(k: int, s: Standing, ghost target: nat, ghost final: bool, ghost history: History,
                     ghost o1: set<string>)
    returns (r: RoundResult)
    requires s.Valid() && s.Kept() == map[]
    ensures Decided(r, s, o1, target, final, history) && r.roundIdx == k
  {
    var excluded := set m | m in s.scores && !s.Covered(m);
    forall m | m in s.scores ensures !s.Covered(m) {
      assert m !in s.Kept();
    }
    assert excluded == s.scores.Keys;
    var all := Enumerate(excluded);
    r := RoundResult(k, all, [], all, map m | m in excluded :: BelowCoverage, map[], map[], map[]);
    hide Decided;
    ExcludedDecides(r, s, o1, target, final, history);
  }

  lemma SpecialistsAre(s: Standing, specialty: map<string, seq<string>>)
    requires forall m :: m in specialty <==>
             m != "" && m in s.Kept().Keys && WonAmong(s.winners, s.winners.Keys, m) != {}
    requires forall m :: m in specialty ==> Elements(specialty[m]) == WonAmong(s.winners, s.winners.Keys, m)
    ensures forall m :: m in specialty <==> s.Specialist(m)
    ensures forall m :: m in specialty ==> Elements(specialty[m]) == s.StagesWon(m)
  {
  }

  function Top(ranked: seq<string>, target: nat): seq<string> {
    ranked[..if target < |ranked| then target else |ranked|]
  }

  lemma CutIsTop(s: Standing, target: nat)
    requires s.Valid()
    ensures s.Cut(target) == Elements(Top(s.Ranked(), target))
    ensures NoDuplicates(s.Ranked()) && Elements(s.Ranked()) == s.Kept().Keys
  {
    KeptIsValid(s);
  }

  lemma ElectedAre(s: Standing, o1: set<string>, target: nat, final: bool, promoted: seq<string>)
    requires s.Valid()
    requires forall m :: m in promoted <==>
             (m in Elements(Top(s.Ranked(), target)) && m in o1) || (!final && s.Specialist(m))
    ensures forall m :: m in promoted <==> m in s.Kept() && s.Elected(m, o1, target, final)
  {
    CutIsTop(s, target);
    forall m | m in Elements(Top(s.Ranked(), target)) ensures m in s.Kept() {
      assert m in Elements(s.Ranked());
    }
  }

  /** The step results, put together, are the decision. */
  lemma VerdictsDecide(r: RoundResult, s: Standing, o1: set<string>, target: nat, final: bool, history: History,
                       elected: seq<string>, verdicts: map<string, Reason>)
    requires forall m :: m in elected <==> m in s.Kept() && s.Elected(m, o1, target, final)
    requires forall m :: m in verdicts <==> m in s.Kept() && m !in elected
    requires forall m :: m in verdicts ==> verdicts[m] == if m !in o1 then StatisticalOutlier else BelowCutoff
    requires NoDuplicates(r.candidatesIn) && NoDuplicates(r.candidatesOut) && NoDuplicates(r.eliminated)
    requires Elements(r.candidatesIn) == s.scores.Keys && Elements(r.eliminated) == r.reasons.Keys
    requires forall m :: m in r.candidatesOut <==> m in elected && Alive(m, history)
    requires forall m :: m in r.reasons <==>
               m in verdicts || (m in elected && !Alive(m, history)) || (m in s.scores && !s.Covered(m))
    requires forall m :: m in r.reasons ==>
               if m in s.scores && !s.Covered(m) then r.reasons[m] == BelowCoverage
               else if m in elected
               then CauseOfDeath(m, history).Some? && r.reasons[m] == Dead(CauseOfDeath(m, history).value)
               else r.reasons[m] == verdicts[m]
    ensures Decides(r, s, o1, target, final, history)
  {
    forall m ensures m in r.eliminated <==> m in s.scores && !Advances(s, o1, target, final, history, m) {
      assert m in r.eliminated <==> m in Elements(r.eliminated);
    }
    forall m | m in r.reasons ensures ReasonIs(s, o1, target, final, history, m, r.reasons[m]) {
    }
  }

  /** promoted = survivors of both the cut and the prune; everyone else gets a first reason. */
  method CutAndPrune(kept: set<string>, ranked: seq<string>, o1: set<string>, target: nat)
    returns (promoted: seq<string>, reasons: map<string, Reason>)
    requires NoDuplicates(ranked) && Elements(ranked) == kept
    ensures NoDuplicates(promoted)
    ensures forall m :: m in promoted <==> m in Elements(Top(ranked, target)) && m in o1
    ensures forall m :: m in reasons <==> m in kept && m !in promoted
    ensures forall m :: m in reasons ==> reasons[m] == if m !in o1 then StatisticalOutlier else BelowCutoff
  {
    var cut := Top(ranked, target);
    promoted := [];
    for i := 0 to |cut|
      invariant NoDuplicates(promoted)
      invariant forall m :: m in promoted <==> m in cut[..i] && m in o1
    {
      assert cut[i] !in cut[..i];
      assert cut[..i + 1] == cut[..i] + [cut[i]];
      if cut[i] in o1 {
        promoted := promoted + [cut[i]];
      }
    }
    assert cut[..|cut|] == cut;
    var eliminated := kept - Elements(promoted);
    reasons := map m | m in eliminated :: if m !in o1 then StatisticalOutlier else BelowCutoff;
  }

  /** One stage of the rescue loop, for a winner that passed the gate. */
  method RescueWinner(stage: string, winner: string, final: bool, promoted0: seq<string>, reasons0: map<string, Reason>,
                      specialty0: map<string, seq<string>>)
    returns (promoted: seq<string>, reasons: map<string, Reason>, specialty: map<string, seq<string>>)
    requires NoDuplicates(promoted0)
    ensures NoDuplicates(promoted)
    ensures forall m :: m in promoted <==> m in promoted0 || (!final && m == winner)
    ensures reasons == if !final && winner !in promoted0 then reasons0 - {winner} else reasons0
    ensures specialty == specialty0[winner := if winner in specialty0 then specialty0[winner] + [stage] else [stage]]
  {
    promoted, reasons := promoted0, reasons0;
    if winner in specialty0 {
      specialty := specialty0[winner := specialty0[winner] + [stage]];
    } else {
      specialty := specialty0[winner := [stage]];
    }
    if !final && winner !in promoted {
      promoted := promoted + [winner];
      reasons := reasons - {winner};
    }
  }

  /** What the rescue loop has done after the stages in `seen`. */
  ghost predicate Rescued(kept: set<string>, winners: map<string, string>, final: bool, promoted0: seq<string>,
                          reasons0: map<string, Reason>,
                          seen: set<string>, promoted: seq<string>, reasons: map<string, Reason>,
                          specialty: map<string, seq<string>>)
  {
    && NoDuplicates(promoted)
    && (forall m :: m in promoted <==> m in promoted0 || (!final && m in specialty))
    && (forall m :: m in reasons <==> m in kept && m !in promoted)
    && (forall m :: m in reasons ==> m in reasons0 && reasons[m] == reasons0[m])
    && (forall m :: m in specialty <==> m != "" && m in kept && WonAmong(winners, seen, m) != {})
    && (forall m :: m in specialty ==> Elements(specialty[m]) == WonAmong(winners, seen, m))
  }

  lemma RescueBegins(kept: set<string>, winners: map<string, string>, final: bool, promoted0: seq<string>,
                     reasons0: map<string, Reason>)
    requires NoDuplicates(promoted0)
    requires forall m :: m in reasons0 <==> m in kept && m !in promoted0
    ensures Rescued(kept, winners, final, promoted0, reasons0, {}, promoted0, reasons0, map[])
  {
  }

  lemma RescuedNoDuplicates(kept: set<string>, winners: map<string, string>, final: bool, promoted0: seq<string>,
                            reasons0: map<string, Reason>,
                            seen: set<string>, promoted: seq<string>, reasons: map<string, Reason>,
                            specialty: map<string, seq<string>>)
    requires Rescued(kept, winners, final, promoted0, reasons0, seen, promoted, reasons, specialty)
    ensures NoDuplicates(promoted)
  {
  }

  lemma WonMore(winners: map<string, string>, seen: set<string>, stage: string)
    requires stage in winners
    ensures forall m :: WonAmong(winners, seen + {stage}, m) ==
                        WonAmong(winners, seen, m) + if winners[stage] == m then {stage} else {}
  {
    forall m ensures WonAmong(winners, seen + {stage}, m) ==
                     WonAmong(winners, seen, m) + if winners[stage] == m then {stage} else {} {
    }
  }

  lemma RescuedMore(kept: set<string>, winners: map<string, string>, final: bool, promoted0: seq<string>,
                    reasons0: map<string, Reason>,
                    seen: set<string>, stage: string,
                    p: seq<string>, w: map<string, Reason>, t: map<string, seq<string>>,
                    p': seq<string>, w': map<string, Reason>, t': map<string, seq<string>>)
    requires Rescued(kept, winners, final, promoted0, reasons0, seen, p, w, t)
    requires stage in winners
    requires var winner := winners[stage];
             if winner != "" && winner in kept
             then && NoDuplicates(p')
                  && (forall m :: m in p' <==> m in p || (!final && m == winner))
                  && w' == (if !final && winner !in p then w - {winner} else w)
                  && t' == t[winner := if winner in t then t[winner] + [stage] else [stage]]
             else p' == p && w' == w && t' == t
    ensures Rescued(kept, winners, final, promoted0, reasons0, seen + {stage}, p', w', t')
  {
    var winner := winners[stage];
    WonMore(winners, seen, stage);
    if winner != "" && winner in kept {
      if winner in t {
        ElementsAppend(t[winner], [stage]);
      } else {
        assert WonAmong(winners, seen, winner) == {};
      }
      forall m | m in t' ensures Elements(t'[m]) == WonAmong(winners, seen + {stage}, m) {
      }
    }
  }

  /** Force-promotes stage winners the cut eliminated, except after the last round. */
  method Rescue(kept: set<string>, winners: map<string, string>, final: bool, promoted0: seq<string>,
                reasons0: map<string, Reason>)
    returns (promoted: seq<string>, reasons: map<string, Reason>, specialty: map<string, seq<string>>)
    requires NoDuplicates(promoted0)
    requires forall m :: m in reasons0 <==> m in kept && m !in promoted0
    ensures Rescued(kept, winners, final, promoted0, reasons0, winners.Keys, promoted, reasons, specialty)
  {
    hide Rescued;
    promoted, reasons, specialty := promoted0, reasons0, map[];
    var stages := Enumerate(winners.Keys);
    RescueBegins(kept, winners, final, promoted0, reasons0);
    ghost var seen: set<string> := {};
    for i := 0 to |stages|
      invariant seen == Elements(stages[..i])
      invariant Rescued(kept, winners, final, promoted0, reasons0, seen, promoted, reasons, specialty)
    {
      assert stages[i] in Elements(stages);
      var stage, winner := stages[i], winners[stages[i]];
      assert stages[..i + 1] == stages[..i] + [stage];
      ElementsAppend(stages[..i], [stage]);
      ghost var p, w, t := promoted, reasons, specialty;
      RescuedNoDuplicates(kept, winners, final, promoted0, reasons0, seen, promoted, reasons, specialty);
      if winner != "" && winner in kept {
        promoted, reasons, specialty := RescueWinner(stage, winner, final, promoted, reasons, specialty);
      }
      RescuedMore(kept, winners, final, promoted0, reasons0, seen, stage, p, w, t, promoted, reasons, specialty);
      seen := seen + {stage};
    }
    assert stages[..|stages|] == stages;
  }

  /** Dead overrides every other verdict. */
  method DropDead(history: History, promoted0: seq<string>, reasons0: map<string, Reason>,
                  specialty0: map<string, seq<string>>)
    returns (promoted: seq<string>, reasons: map<string, Reason>, specialty: map<string, seq<string>>)
    requires NoDuplicates(promoted0)
    requires forall m :: m in reasons0 ==> m !in promoted0
    ensures NoDuplicates(promoted)
    ensures forall m :: m in promoted <==> m in promoted0 && Alive(m, history)
    ensures forall m :: m in reasons <==> m in reasons0 || (m in promoted0 && !Alive(m, history))
    ensures forall m :: m in reasons ==>
              if m in promoted0
              then CauseOfDeath(m, history).Some? && reasons[m] == Dead(CauseOfDeath(m, history).value)
              else m in reasons0 && reasons[m] == reasons0[m]
    ensures forall m :: m in specialty <==> m in specialty0 && !(m in promoted0 && !Alive(m, history))
    ensures forall m :: m in specialty ==> specialty[m] == specialty0[m]
  {
    promoted, reasons, specialty := [], reasons0, specialty0;
    for i := 0 to |promoted0|
      invariant NoDuplicates(promoted)
      invariant forall m :: m in promoted <==> m in promoted0[..i] && Alive(m, history)
      invariant forall m :: m in reasons <==> m in reasons0 || (m in promoted0[..i] && !Alive(m, history))
      invariant forall m :: m in reasons ==>
                  if m in promoted0
                  then CauseOfDeath(m, history).Some? && reasons[m] == Dead(CauseOfDeath(m, history).value)
                  else m in reasons0 && reasons[m] == reasons0[m]
      invariant forall m :: m in specialty <==> m in specialty0 && !(m in promoted0[..i] && !Alive(m, history))
      invariant forall m :: m in specialty ==> specialty[m] == specialty0[m]
    {
      var m := promoted0[i];
      assert m !in promoted0[..i];
      var cause := CauseOfDeath(m, history);
      if cause.Some? {
        reasons := reasons[m := Dead(cause.value)];
        specialty := specialty - {m};
      } else {
        promoted := promoted + [m];
      }
    }
    assert promoted0[..|promoted0|] == promoted0;
  }

  /** Cut, rescue and dead filter for a round in which somebody passed the coverage gate. */
  method Decide(k: int, s: Standing, o1: set<string>, target: nat, final: bool, history: History)
    returns (r: RoundResult)
    requires s.Valid() && s.Kept() != map[]
    ensures Decided(r, s, o1, target, final, history) && r.roundIdx == k
  {
    CutIsTop(s, target);
    var excluded := set m | m in s.scores && !s.Covered(m);
    var kept, ranked := s.Kept(), s.Ranked();
    var promoted, reasons := CutAndPrune(kept.Keys, ranked, o1, target);
    ghost var first := reasons;
    var specialty;
    promoted, reasons, specialty := Rescue(kept.Keys, s.winners, final, promoted, reasons);
    SpecialistsAre(s, specialty);
    ElectedAre(s, o1, target, final, promoted);
    ghost var elected, verdicts := promoted, reasons;
    promoted, reasons, specialty := DropDead(history, promoted, reasons, specialty);
    reasons := map m | m in reasons.Keys + excluded :: if m in excluded then BelowCoverage else reasons[m];
    var eliminated := Enumerate(reasons.Keys);
    var candidatesIn := Enumerate(s.scores.Keys);
    r := RoundResult(k, candidatesIn, promoted, eliminated, reasons, WithBonus(kept, BonusOf(s)), s.Drop(s.effCost),
      specialty);
    VerdictsDecide(r, s, o1, target, final, history, elected, verdicts);
  }

  method Judge(schedule: HalvingSchedule, k: int, s: Standing, history: History)
    returns (r: Result<RoundResult, ScheduleError>, ghost o1: set<string>)
    requires schedule.Valid() && s.Valid()
    ensures Judged(r, o1, schedule, k, s, history)
  {
    o1 := {};
    if s.scores == map[] {
      return Ok(RoundResult(k, [], [], [], map[], map[], map[], map[])), {};
    }
    var size := schedule.NextRoundSize(k);
    if size.Err? {
      return Err(size.error), {};
    }
    var survivors := Prune(s);
    o1 := survivors;
    var result: RoundResult;
    if s.Kept() == map[] {
      result := AllExcluded(k, s, size.value, k == |schedule.roundSizes|, history, survivors);
    } else {
      result := Decide(k, s, survivors, size.value, k == |schedule.roundSizes|, history);
    }
    r := Ok(result);
  }

  class Halving {
    const schedule: HalvingSchedule
    var survivorsByRound: map<int, seq<string>>
    var errorHistory: History
    var lastEffCost: map<string, real>
    var lastScoreBonus: map<string, real>

    constructor (schedule: HalvingSchedule)
      requires schedule.Valid()
      ensures this.schedule == schedule
      ensures survivorsByRound == map[] && errorHistory == map[] && lastEffCost == map[] && lastScoreBonus == map[]
    {
      this.schedule := schedule;
      survivorsByRound, errorHistory, lastEffCost, lastScoreBonus := map[], map[], map[], map[];
    }

    method Remember(k: int, promoted: seq<string>, effCost: map<string, real>, bonus: map<string, real>)
      modifies this`survivorsByRound, this`lastEffCost, this`lastScoreBonus
      ensures survivorsByRound == old(survivorsByRound)[k := promoted] && lastEffCost == effCost
              && lastScoreBonus == bonus
    {
      survivorsByRound := survivorsByRound[k := promoted];
      lastEffCost := effCost;
      lastScoreBonus := bonus;
    }

    method Promote(k: int, s: Standing) returns (r: Result<RoundResult, ScheduleError>, ghost o1: set<string>)
      requires schedule.Valid() && s.Valid()
      modifies this`survivorsByRound, this`lastEffCost, this`lastScoreBonus
      ensures Judged(r, o1, schedule, k, s, errorHistory)
      ensures if r.Ok? && s.Kept() != map[]
              then && survivorsByRound == old(survivorsByRound)[k := r.value.candidatesOut]
                   && lastEffCost == s.Drop(s.effCost) && lastScoreBonus == BonusOf(s)
              else && survivorsByRound == old(survivorsByRound)
                   && lastEffCost == old(lastEffCost) && lastScoreBonus == old(lastScoreBonus)
    {
      r, o1 := Judge(schedule, k, s, errorHistory);
      if r.Ok? && s.Kept() != map[] {
        Remember(k, r.value.candidatesOut, s.Drop(s.effCost), BonusOf(s));
      }
    }
  }
}
