// run_round and run_phase: rounds of pipelines, ranking and promotion, each feeding its
// survivors to the next. The ranking of a round re-reads every row of the tag, so its scores
// and stage winners are arbitrary and may name models eliminated long ago.
module Cascade {
  import opened Common
  import opened Schedule
  import opened AliveFilter
  import opened StageGraph
  import opened Pruner
  import opened Halving
  import opened HalvingLaws
  import opened Scoring
  import QuarantineLaws
  import RoundRunner

  const COVERAGE_MIN := 0.7

  datatype Setup = Setup(
    schedule: HalvingSchedule,
    stages: seq<Stage>,          // in topological order
    units: seq<string>,
    quarantineDurationSec: real,
    quarantineCostMultiplier: real)

  /** What the outside world does in one round: pipeline turns, then whatever the ranking says. */
  datatype RoundInput = RoundInput(
    turns: seq<(nat, RoundRunner.Outcome)>,
    order: seq<string>,
    scores: map<string, real>,
    effCost: map<string, real>,
    winners: map<string, string>,
    latency: map<string, real>,
    unitScores: map<string, seq<real>>,
    chance: Chance)

  ghost predicate ValidInput(x: RoundInput) {
    NoDuplicates(x.order) && Elements(x.order) == x.scores.Keys && ValidChance(x.chance)
  }

  function ConfigOf(setup: Setup, candidates: seq<string>, slice: seq<string>): RoundRunner.Config {
    RoundRunner.Config(candidates, slice, setup.stages, setup.quarantineDurationSec, setup.quarantineCostMultiplier)
  }

  /** The multi-specialty bonus of the previous round, added to the fresh scores. */
  function Boosted(scores: map<string, real>, bonus: map<string, real>): map<string, real> {
    map m | m in scores :: if m in bonus && bonus[m] != 0.0 then MinReal(1.0, scores[m] + bonus[m]) else scores[m]
  }

  function StandingOf(setup: Setup, k: int, x: RoundInput, bonus: map<string, real>,
                      attempted: map<string, nat>): Standing
    requires setup.schedule.Valid() && setup.schedule.HasRound(k)
  {
    Standing(x.order, Boosted(x.scores, bonus), x.effCost, x.winners,
             Some(Coverage(attempted, |setup.stages| * setup.schedule.unitsPerArm[k - 1], COVERAGE_MIN)),
             x.latency, x.unitScores, x.chance)
  }

  /** One finished round as the cascade remembers it. */
  datatype RoundLog = RoundLog(k: int, entered: seq<string>, standing: Standing, o1: set<string>, history: History,
                               result: RoundResult)

  /** The attempts and the error history come from pipelines over the entered candidates only. */
  ghost predicate RanOn(setup: Setup, log: RoundLog, before: History, turns: seq<(nat, RoundRunner.Outcome)>)
    requires setup.schedule.Valid() && setup.schedule.HasRound(log.k)
  {
    var cfg := ConfigOf(setup, log.entered, setup.schedule.Slice(log.k, setup.units).value);
    var board := RoundRunner.AdvanceAll(cfg, RoundRunner.Start(cfg, before), turns);
    && log.standing.coverage == Some(Coverage(board.attempted, |setup.stages| * setup.schedule.unitsPerArm[log.k - 1],
      COVERAGE_MIN))
    && log.history == board.history
  }

  /** The log is of a round that ran its pipelines on `entered` and then promoted. */
  ghost predicate RoundOk(setup: Setup, log: RoundLog)
    requires setup.schedule.Valid()
  {
    && setup.schedule.HasRound(log.k)
    && log.standing.Valid()
    && (exists before, turns :: RanOn(setup, log, before, turns))
    && Judged(Ok(log.result), log.o1, setup.schedule, log.k, log.standing, log.history)
  }

  // ---- outsiders ----

  lemma MulPositive(a: nat, b: nat)
    requires a > 0 && b > 0
    ensures a * b > 0
  {
  }

  /** With a stage graph, a model that did not enter the round has no attempts and fails the gate. */
  lemma OutsidersFailCoverage(setup: Setup, log: RoundLog, m: string)
    requires setup.schedule.Valid() && setup.stages != []
    requires RoundOk(setup, log) && m !in log.entered
    ensures !log.standing.Covered(m)
  {
    var before, turns :| RanOn(setup, log, before, turns);
    var cfg := ConfigOf(setup, log.entered, setup.schedule.Slice(log.k, setup.units).value);
    RoundRunner.OutsidersAreNotAttempted(cfg, before, turns, m);
    MulPositive(|setup.stages|, setup.schedule.unitsPerArm[log.k - 1]);
    assert log.standing.Attempted(m) == 0;
    assert 0 as real / log.standing.coverage.value.total as real == 0.0;
  }

  /** candidates_out of a round is drawn from the candidates that entered it. */
  lemma OutputsEntered(setup: Setup, log: RoundLog, m: string)
    requires setup.schedule.Valid() && setup.stages != []
    requires RoundOk(setup, log) && m in log.result.candidatesOut
    ensures m in log.entered && Alive(m, log.history)
  {
    if m !in log.entered {
      OutsidersFailCoverage(setup, log, m);
    }
    var target := setup.schedule.NextRoundSize(log.k).value;
    OnlyLivingAndCovered(log.result, log.standing, log.o1, target, setup.schedule.IsFinal(log.k), log.history, m);
  }

  lemma LoneCandidateIsCut(s: Standing, o1: set<string>, target: nat, m: string)
    requires s.Valid() && Pruned(s, o1) && s.scores.Keys == {m} && s.Covered(m) && target >= 1
    ensures m in s.Kept() && m in s.Cut(target) && m in o1
  {
    assert s.Kept() == s.scores;
    assert |s.scores| == 1 by { assert |s.scores.Keys| == 1; }
    KeptIsValid(s);
    assert Survives(s.PrunerField(), m);
    hide IsPruned;
    var ranked := s.Ranked();
    assert ranked == [m] by { assert ranked[0] in Elements(ranked); }
    assert Top(ranked, target)[0] == m;
  }

  /** Without stages the gate is off: a lone living model that never entered comes out. */
  lemma EmptyGraphAdmitsOutsiders(setup: Setup, log: RoundLog, m: string)
    requires setup.schedule.Valid() && setup.stages == []
    requires RoundOk(setup, log) && m !in log.entered
    requires log.standing.scores.Keys == {m} && Alive(m, log.history)
    ensures m in log.result.candidatesOut
  {
    var before, turns :| RanOn(setup, log, before, turns);
    var s, target := log.standing, setup.schedule.NextRoundSize(log.k).value;
    assert s.coverage.value.total == 0;
    hide RanOn;
    assert m in s.scores;
    LoneCandidateIsCut(s, log.o1, target, m);
    assert Advances(s, log.o1, target, setup.schedule.IsFinal(log.k), log.history, m);
  }

  /** A ranking that knows only m, with one full score. */
  lemma LoneStanding(setup: Setup, k: int, m: string) returns (s: Standing)
    requires setup.schedule.Valid() && setup.schedule.HasRound(k)
    ensures s.Valid() && m in s.scores && s.scores.Keys == {m}
    ensures s.coverage == Some(Coverage(map[], |setup.stages| * setup.schedule.unitsPerArm[k - 1], COVERAGE_MIN))
  {
    s := Standing([m], map[m := 1.0], map[], map[],
                  Some(Coverage(map[], |setup.stages| * setup.schedule.unitsPerArm[k - 1], COVERAGE_MIN)), map[], map[],
                  Chance((i, j, n) => 0, xs => 0.0));
    assert Elements(s.order) == s.scores.Keys;
  }

  /** A round over the entered candidates in which no pipeline has taken a turn yet. */
  lemma QuietRound(setup: Setup, k: int, entered: seq<string>, s: Standing, o1: set<string>, r: RoundResult)
    requires setup.schedule.Valid() && setup.schedule.HasRound(k) && s.Valid()
    requires s.coverage == Some(Coverage(map[], |setup.stages| * setup.schedule.unitsPerArm[k - 1], COVERAGE_MIN))
    requires Judged(Ok(r), o1, setup.schedule, k, s, map[])
    ensures RoundOk(setup, RoundLog(k, entered, s, o1, map[], r))
  {
    hide Judged;
    hide Standing.Valid;
    var log := RoundLog(k, entered, s, o1, map[], r);
    assert RanOn(setup, log, map[], []);
  }

  /** Such a round exists for every setup, with a ranking that knows only m. */
  lemma LoneOutsiderRound(setup: Setup, k: int, entered: seq<string>, m: string) returns (log: RoundLog)
    requires setup.schedule.Valid() && setup.schedule.HasRound(k)
    ensures RoundOk(setup, log) && log.k == k && log.entered == entered
    ensures log.standing.scores.Keys == {m} && Alive(m, log.history)
  {
    var s := LoneStanding(setup, k, m);
    var r, o1 := OutcomeExists(setup.schedule, k, s, map[]);
    QuietRound(setup, k, entered, s, o1, r);
    log := RoundLog(k, entered, s, o1, map[], r);
    hide RoundOk;
    hide Judged;
  }

  /** In any round of any setup: a model that did not enter can come out if and only if there are no stages. */
  lemma OutsidersComeOutIff(setup: Setup, k: int, entered: seq<string>, m: string)
    requires setup.schedule.Valid() && setup.schedule.HasRound(k) && m !in entered
    ensures (exists log :: RoundOk(setup, log) && log.k == k && log.entered == entered && m in log.result.candidatesOut)
            <==> setup.stages == []
  {
    if setup.stages == [] {
      var log := LoneOutsiderRound(setup, k, entered, m);
      EmptyGraphAdmitsOutsiders(setup, log, m);
    } else {
      forall log | RoundOk(setup, log) && log.k == k && m in log.result.candidatesOut ensures m in log.entered {
        OutputsEntered(setup, log, m);
      }
    }
  }

  // ---- a whole cascade ----

  /** Round 0 gets the caller's candidates, every other round the survivors of the one before. */
  ghost predicate Entered(candidates: seq<string>, logs: seq<RoundLog>, i: nat)
    requires i < |logs|
  {
    logs[i].entered == if i == 0 then candidates else logs[i - 1].result.candidatesOut
  }

  ghost predicate IsCascade(setup: Setup, candidates: seq<string>, logs: seq<RoundLog>)
    requires setup.schedule.Valid()
  {
    && (forall i :: 0 <= i < |logs| ==> RoundOk(setup, logs[i]))
    && (forall i :: 0 <= i < |logs| ==> Entered(candidates, logs, i))
    && (forall i :: 0 < i < |logs| ==> Extends(logs[i].history, logs[i - 1].history))
  }

  /** What the entry and exit lists of the rounds alone say. */
  ghost predicate Shrinking(candidates: seq<string>, logs: seq<RoundLog>) {
    && (forall i :: 0 <= i < |logs| ==> Entered(candidates, logs, i))
    && (forall i, m :: 0 <= i < |logs| && m in logs[i].result.candidatesOut ==> m in logs[i].entered)
  }

  lemma CascadeShrinks(setup: Setup, candidates: seq<string>, logs: seq<RoundLog>)
    requires setup.schedule.Valid() && setup.stages != [] && IsCascade(setup, candidates, logs)
    ensures Shrinking(candidates, logs)
  {
    forall i, m | 0 <= i < |logs| && m in logs[i].result.candidatesOut ensures m in logs[i].entered {
      OutputsEntered(setup, logs[i], m);
    }
  }

  lemma {:induction false} StillIn(candidates: seq<string>, logs: seq<RoundLog>, i: nat, j: nat, m: string)
    requires Shrinking(candidates, logs)
    requires i <= j < |logs| && m in logs[j].result.candidatesOut
    ensures m in logs[i].result.candidatesOut && m in logs[i].entered && m in candidates
    decreases j
  {
    assert Entered(candidates, logs, j);
    if i < j {
      StillIn(candidates, logs, i, j - 1, m);
    } else if j > 0 {
      StillIn(candidates, logs, j - 1, j - 1, m);
    }
  }

  /** Survivors only ever shrink: what comes out of round j entered, and came out of, every earlier round. */
  lemma SurvivorsShrink(setup: Setup, candidates: seq<string>, logs: seq<RoundLog>, i: nat, j: nat, m: string)
    requires setup.schedule.Valid() && setup.stages != [] && IsCascade(setup, candidates, logs)
    requires i <= j < |logs| && m in logs[j].result.candidatesOut
    ensures m in logs[i].result.candidatesOut && m in logs[i].entered && m in candidates
  {
    CascadeShrinks(setup, candidates, logs);
    StillIn(candidates, logs, i, j, m);
  }

  /** Main theorem: an eliminated model never comes back in any later round. */
  lemma EliminatedNeverReturns(setup: Setup, candidates: seq<string>, logs: seq<RoundLog>, i: nat, j: nat, m: string)
    requires setup.schedule.Valid() && setup.stages != [] && IsCascade(setup, candidates, logs)
    requires i <= j < |logs| && m in logs[i].result.eliminated
    ensures m !in logs[j].result.candidatesOut
  {
    assert RoundOk(setup, logs[i]);
    var log := logs[i];
    if log.standing.scores != map[] {
      PromotePartitions(log.result, log.standing, log.o1, setup.schedule.NextRoundSize(log.k).value,
                        setup.schedule.IsFinal(log.k), log.history);
    }
    assert m in Elements(log.result.eliminated);
    assert m !in log.result.candidatesOut by {
      assert m !in Elements(log.result.candidatesOut);
    }
    if m in logs[j].result.candidatesOut {
      SurvivorsShrink(setup, candidates, logs, i, j, m);
    }
  }

  lemma {:induction false} HistoriesGrow(setup: Setup, candidates: seq<string>, logs: seq<RoundLog>, i: nat, j: nat)
    requires setup.schedule.Valid() && IsCascade(setup, candidates, logs) && i <= j < |logs|
    ensures Extends(logs[j].history, logs[i].history)
    decreases j
  {
    if i < j {
      HistoriesGrow(setup, candidates, logs, i, j - 1);
      ExtendsTrans(logs[j].history, logs[j - 1].history, logs[i].history);
    }
  }

  /** A model found dead at the end of round i is never output from then on. */
  lemma DeadStaysOut(setup: Setup, candidates: seq<string>, logs: seq<RoundLog>, i: nat, j: nat, m: string)
    requires setup.schedule.Valid() && setup.stages != [] && IsCascade(setup, candidates, logs)
    requires i <= j < |logs| && !Alive(m, logs[i].history)
    ensures m !in logs[j].result.candidatesOut
  {
    HistoriesGrow(setup, candidates, logs, i, j);
    DeathIsFinal(m, logs[i].history, logs[j].history);
    if m in logs[j].result.candidatesOut {
      OutputsEntered(setup, logs[j], m);
    }
  }

  /** Sizes over the run, told by the plan table: the next size plus stage winners, and one after the last round. */
  lemma RoundSizes(setup: Setup, candidates: seq<string>, logs: seq<RoundLog>, i: nat)
    requires setup.schedule.Valid() && IsCascade(setup, candidates, logs) && i < |logs|
    ensures var log := logs[i];
            && 1 <= log.k <= |setup.schedule.roundSizes|
            && |log.result.candidatesOut| <=
               if log.k < |setup.schedule.roundSizes|
               then setup.schedule.roundSizes[log.k] + |log.standing.winners.Values|
               else 1
  {
    assert RoundOk(setup, logs[i]);
    var log := logs[i];
    TargetIs(setup.schedule, log.k);
    if log.standing.scores != map[] {
      OutputBounded(log.result, log.standing, log.o1, setup.schedule.NextRoundSize(log.k).value,
                    setup.schedule.IsFinal(log.k), log.history);
    }
  }

  // ---- coverage of complete rounds ----

  lemma MulLe(x: real, y: real, z: real)
    requires x <= y && z >= 0.0
    ensures x * z <= y * z
  {
  }

  lemma MulLt(x: real, y: real, z: real)
    requires x < y && z > 0.0
    ensures x * z < y * z
  {
  }

  lemma ScaledQuotient(q: real, x: real, y: real, c: real)
    requires y > 0.0 && q * y == x
    ensures q >= c <==> x >= c * y
  {
    if q >= c {
      MulLe(c, q, y);
    } else {
      MulLt(q, c, y);
    }
  }

  lemma QuotientBound(x: real, y: real, c: real)
    requires y > 0.0
    ensures x / y >= c <==> x >= c * y
  {
    ScaledQuotient(x / y, x, y, c);
  }

  /** 70% in whole numbers. */
  lemma RatioAtLeast(a: nat, total: nat)
    requires total > 0
    ensures a as real / total as real >= COVERAGE_MIN <==> 10 * a >= 7 * total
  {
    QuotientBound(a as real, total as real, COVERAGE_MIN);
    assert (10 * a) as real == 10.0 * a as real && (7 * total) as real == 7.0 * total as real;
  }

  lemma MulMono(a: nat, b: nat, c: nat)
    requires b <= c
    ensures a * b <= a * c
  {
    assert a * c == a * b + a * (c - b);
  }

  /** No model ever has more attempts than the gate's denominator for each time it is listed. */
  lemma AttemptsBounded(setup: Setup, log: RoundLog, m: string)
    requires setup.schedule.Valid() && RoundOk(setup, log)
    ensures log.standing.coverage.Some?
    ensures log.standing.Attempted(m) <=
            |setup.stages| * (multiset(log.entered)[m] * setup.schedule.unitsPerArm[log.k - 1])
  {
    var before, turns :| RanOn(setup, log, before, turns);
    var slice := setup.schedule.Slice(log.k, setup.units).value;
    var c, perArm := multiset(log.entered)[m], setup.schedule.unitsPerArm[log.k - 1];
    RoundRunner.CoverageIsExact(ConfigOf(setup, log.entered, slice), before, turns, m);
    MulMono(c, |slice|, perArm);
    MulMono(|setup.stages|, c * |slice|, c * perArm);
  }

  /** So with distinct candidates no ratio exceeds 1. */
  lemma RatioNeverExceedsOne(setup: Setup, log: RoundLog, m: string)
    requires setup.schedule.Valid() && NoDuplicates(log.entered) && RoundOk(setup, log)
    ensures log.standing.coverage.Some? && log.standing.Attempted(m) <= log.standing.coverage.value.total
  {
    AttemptsBounded(setup, log, m);
    RoundRunner.ListedOnce(log.entered, m);
  }

  lemma MulCancel(a: nat, b: nat, c: nat)
    requires a > 0
    ensures 10 * (a * b) >= 7 * (a * c) <==> 10 * b >= 7 * c
  {
    if 10 * b >= 7 * c {
      MulMono(a, 7 * c, 10 * b);
      assert a * (7 * c) == 7 * (a * c) && a * (10 * b) == 10 * (a * b);
    } else {
      MulMono(a, 10 * b + 1, 7 * c);
      assert a * (7 * c) == 7 * (a * c) && a * (10 * b + 1) == 10 * (a * b) + a;
    }
  }

  /**
   * A fully cached round excludes nobody exactly when the unit pool covers 70% of units_per_arm;
   * with a smaller pool it excludes everybody.
   */
  lemma CachedRoundExcludesNobodyIff(setup: Setup, log: RoundLog, before: History,
                                     turns: seq<(nat, RoundRunner.Outcome)>, m: string)
    requires setup.schedule.Valid() && setup.stages != [] && NoDuplicates(log.entered)
    requires setup.schedule.HasRound(log.k) && RanOn(setup, log, before, turns)
    requires var cfg := ConfigOf(setup, log.entered, setup.schedule.Slice(log.k, setup.units).value);
             RoundRunner.AllCached(turns)
               && RoundRunner.AllFinished(cfg, RoundRunner.AdvanceAll(cfg, RoundRunner.Start(cfg, before), turns))
    requires m in log.entered
    ensures log.standing.Covered(m) <==> 10 * |setup.units| >= 7 * setup.schedule.unitsPerArm[log.k - 1]
  {
    var slice := setup.schedule.Slice(log.k, setup.units).value;
    var n, perArm := |setup.stages|, setup.schedule.unitsPerArm[log.k - 1];
    RoundRunner.CachedRoundAttemptsAll(ConfigOf(setup, log.entered, slice), before, turns, m);
    RoundRunner.ListedOnce(log.entered, m);
    MulPositive(n, perArm);
    RatioAtLeast(n * |slice|, n * perArm);
    MulCancel(n, |slice|, perArm);
  }

  // ---- the round and the phase ----

  function StandingEmpty(x: RoundInput): Standing {
    Standing([], map[], map[], map[], None, map[], map[], x.chance)
  }

  /** The round ran these turns on top of that history and ranked what this input and bonus say. */
  ghost predicate FedBy(setup: Setup, log: RoundLog, x: RoundInput, history: History, bonus: map<string, real>)
    requires setup.schedule.Valid()
  {
    && setup.schedule.HasRound(log.k)
    && RanOn(setup, log, history, x.turns)
    && log.standing.coverage.Some?
    && log.standing == StandingOf(setup, log.k, x, bonus, log.standing.coverage.value.attempted)
  }

  /** The bonus a round leaves behind: a round in which nobody passed the gate leaves the old one. */
  function NextBonus(s: Standing, bonus: map<string, real>): map<string, real> {
    if s.Kept() == map[] then bonus else BonusOf(s)
  }

  method RunRound(setup: Setup, h: Halving, k: int, candidates: seq<string>, x: RoundInput)
    returns (r: Result<RoundResult, ScheduleError>, ghost log: RoundLog)
    requires setup.schedule.Valid() && h.schedule == setup.schedule
    requires ValidInput(x)
    modifies h
    ensures r.Ok? <==> setup.schedule.HasRound(k)
    ensures r.Ok? ==> log.k == k && log.entered == candidates && log.result == r.value && log.history == h.errorHistory
    ensures r.Ok? ==> RoundOk(setup, log)
    ensures r.Ok? ==> FedBy(setup, log, x, old(h.errorHistory), old(h.lastScoreBonus))
    ensures h.lastScoreBonus == if r.Ok? then NextBonus(log.standing, old(h.lastScoreBonus)) else old(h.lastScoreBonus)
    ensures r.Err? ==> h.errorHistory == old(h.errorHistory)
    ensures Extends(h.errorHistory, old(h.errorHistory))
  {
    hide Judged;
    hide RoundRunner.AdvanceAll;
    hide RoundRunner.Start;
    log := RoundLog(k, candidates, StandingEmpty(x), {}, map[], RoundResult(k, [], [], [], map[], map[], map[], map[]));
    var slice := setup.schedule.Slice(k, setup.units);
    if slice.Err? {
      return Err(slice.error), log;
    }
    var cfg := ConfigOf(setup, candidates, slice.value);
    ghost var before := h.errorHistory;
    var round := new RoundRunner.Round(cfg, h.errorHistory);
    round.RunPipelines(cfg, x.turns);
    RoundRunner.HistoryGrows(cfg, before, x.turns);
    h.errorHistory := round.history;
    var standing := StandingOf(setup, k, x, h.lastScoreBonus, round.attempted);
    assert standing.Valid();
    ghost var o1;
    r, o1 := h.Promote(k, standing);
    log := RoundLog(k, candidates, standing, o1, h.errorHistory, if r.Ok? then r.value else log.result);
    assert RanOn(setup, log, before, x.turns);
  }

  /** What a report says to a reader who sees nothing else: the way out of the cascade is final. */
  ghost predicate OneWay(candidates: seq<string>, rounds: seq<RoundResult>) {
    && (forall i, m :: 0 <= i < |rounds| && m in rounds[i].candidatesOut ==> m in candidates)
    && (forall i, j, m :: 0 <= i <= j < |rounds| && m in rounds[i].eliminated ==> m !in rounds[j].candidatesOut)
  }

  lemma PhaseIsOneWay(setup: Setup, candidates: seq<string>, logs: seq<RoundLog>, rounds: seq<RoundResult>)
    requires setup.schedule.Valid() && IsCascade(setup, candidates, logs)
    requires |rounds| == |logs| && forall i :: 0 <= i < |logs| ==> rounds[i] == logs[i].result
    ensures setup.stages != [] ==> OneWay(candidates, rounds)
  {
    hide IsCascade;
    if setup.stages != [] {
      forall i, m | 0 <= i < |rounds| && m in rounds[i].candidatesOut ensures m in candidates {
        SurvivorsShrink(setup, candidates, logs, i, i, m);
      }
      forall i, j, m | 0 <= i <= j < |rounds| && m in rounds[i].eliminated ensures m !in rounds[j].candidatesOut {
        EliminatedNeverReturns(setup, candidates, logs, i, j, m);
      }
    }
  }

  lemma CascadeGrows(setup: Setup, candidates: seq<string>, logs: seq<RoundLog>, log: RoundLog)
    requires setup.schedule.Valid() && IsCascade(setup, candidates, logs) && RoundOk(setup, log)
    requires log.entered == if logs == [] then candidates else logs[|logs| - 1].result.candidatesOut
    requires logs != [] ==> Extends(log.history, logs[|logs| - 1].history)
    ensures IsCascade(setup, candidates, logs + [log])
  {
    hide RoundOk;
    hide Extends;
    var more := logs + [log];
    forall i | 0 <= i < |more| ensures Entered(candidates, more, i) {
      if i < |logs| {
        assert Entered(candidates, logs, i);
      }
    }
  }

  /** What round i finds: the error history and the bonus that the rounds before it left. */
  function HistoryBefore(logs: seq<RoundLog>, i: nat): History
    requires i <= |logs|
  {
    if i == 0 then map[] else logs[i - 1].history
  }

  function BonusBefore(logs: seq<RoundLog>, i: nat): map<string, real>
    requires i <= |logs|
  {
    if i == 0 then map[] else NextBonus(logs[i - 1].standing, BonusBefore(logs, i - 1))
  }

  lemma {:induction false} BonusOfLonger(logs: seq<RoundLog>, log: RoundLog, i: nat)
    requires i <= |logs|
    ensures BonusBefore(logs + [log], i) == BonusBefore(logs, i)
  {
    if i > 0 {
      BonusOfLonger(logs, log, i - 1);
    }
  }

  lemma BeforeGrows(logs: seq<RoundLog>, log: RoundLog)
    ensures forall i :: 0 <= i <= |logs| ==> HistoryBefore(logs + [log], i) == HistoryBefore(logs, i)
    ensures forall i :: 0 <= i <= |logs| ==> BonusBefore(logs + [log], i) == BonusBefore(logs, i)
    ensures HistoryBefore(logs + [log], |logs| + 1) == log.history
    ensures BonusBefore(logs + [log], |logs| + 1) == NextBonus(log.standing, BonusBefore(logs, |logs|))
  {
    forall i | 0 <= i <= |logs| ensures BonusBefore(logs + [log], i) == BonusBefore(logs, i) {
      BonusOfLonger(logs, log, i);
    }
  }

  /** Every round ran its own input on top of what the rounds before it left. */
  ghost predicate AllFed(setup: Setup, logs: seq<RoundLog>, inputs: seq<RoundInput>)
    requires setup.schedule.Valid()
  {
    && |logs| <= |inputs|
    && forall i :: 0 <= i < |logs| ==> FedBy(setup, logs[i], inputs[i], HistoryBefore(logs, i), BonusBefore(logs, i))
  }

  lemma NothingFed(setup: Setup, inputs: seq<RoundInput>)
    requires setup.schedule.Valid()
    ensures AllFed(setup, [], inputs) && HistoryBefore([], 0) == map[] && BonusBefore([], 0) == map[]
  {
  }

  lemma FedGrows(setup: Setup, logs: seq<RoundLog>, log: RoundLog, inputs: seq<RoundInput>)
    requires setup.schedule.Valid() && AllFed(setup, logs, inputs) && |logs| < |inputs|
    requires FedBy(setup, log, inputs[|logs|], HistoryBefore(logs, |logs|), BonusBefore(logs, |logs|))
    ensures AllFed(setup, logs + [log], inputs)
    ensures HistoryBefore(logs + [log], |logs| + 1) == log.history
    ensures BonusBefore(logs + [log], |logs| + 1) == NextBonus(log.standing, BonusBefore(logs, |logs|))
  {
    BeforeGrows(logs, log);
    hide FedBy;
    hide HistoryBefore;
    hide BonusBefore;
    hide NextBonus;
  }

  /**
   * The bonus reaches the next round: there a model that won two stages in a round is ranked 0.05 above its own
   * score, at most 1, and everybody else by the score itself.
   */
  lemma BonusReachesNextRound(setup: Setup, log: RoundLog, next: RoundLog, x: RoundInput, history: History,
                              bonus: map<string, real>, m: string)
    requires setup.schedule.Valid() && FedBy(setup, next, x, history, NextBonus(log.standing, bonus))
    requires exists c :: c in log.standing.scores && log.standing.Covered(c)
    ensures m in next.standing.scores <==> m in x.scores
    ensures m in x.scores ==>
              next.standing.scores[m] ==
              if WonTwice(log.standing, m) && x.scores[m] + 0.05 > 1.0 then 1.0
              else if WonTwice(log.standing, m) then x.scores[m] + 0.05
              else x.scores[m]
  {
    var c :| c in log.standing.scores && log.standing.Covered(c);
    assert c in log.standing.Kept();
    BonusIffWonTwice(log.standing, m);
    hide BonusOf;
    hide WonTwice;
    hide RanOn;
    hide Standing.Covered;
  }

  /** Runs the listed rounds until one is unknown, the inputs end or no candidate is left. */
  method RunPhase(setup: Setup, candidates: seq<string>, rounds: seq<int>, inputs: seq<RoundInput>)
    returns (report: Result<seq<RoundResult>, ScheduleError>, final: seq<string>, ghost logs: seq<RoundLog>)
    requires setup.schedule.Valid()
    requires |inputs| == |rounds| && forall i :: 0 <= i < |inputs| ==> ValidInput(inputs[i])
    ensures IsCascade(setup, candidates, logs)
    ensures |logs| <= |rounds| && forall i :: 0 <= i < |logs| ==> logs[i].k == rounds[i]
    ensures report.Ok? ==> |report.value| == |logs| && forall i :: 0 <= i < |logs| ==> report.value[i] == logs[i].result
    ensures report.Err? ==> |logs| < |rounds| && !setup.schedule.HasRound(rounds[|logs|])
    ensures final == if logs == [] then candidates else logs[|logs| - 1].result.candidatesOut
    ensures report.Ok? && |logs| < |rounds| ==> final == []
    ensures report.Ok? && setup.stages != [] ==> OneWay(candidates, report.value)
    ensures AllFed(setup, logs, inputs)
  {
    hide Judged;
    hide RanOn;
    hide OneWay;
    hide FedBy;
    hide AllFed;
    hide NextBonus;
    hide HistoryBefore;
    hide BonusBefore;
    var halving := new Halving(setup.schedule);
    var done: seq<RoundResult> := [];
    logs := [];
    final := candidates;
    NothingFed(setup, inputs);
    for i := 0 to |rounds|
      invariant halving.schedule == setup.schedule && fresh(halving)
      invariant |logs| == |done| == i
      invariant IsCascade(setup, candidates, logs)
      invariant logs != [] ==> halving.errorHistory == logs[|logs| - 1].history
      invariant forall j :: 0 <= j < i ==> logs[j].k == rounds[j] && done[j] == logs[j].result
      invariant final == if logs == [] then candidates else logs[|logs| - 1].result.candidatesOut
      invariant halving.errorHistory == HistoryBefore(logs, i) && halving.lastScoreBonus == BonusBefore(logs, i)
      invariant AllFed(setup, logs, inputs)
    {
      if final == [] {
        PhaseIsOneWay(setup, candidates, logs, done);
        return Ok(done), final, logs;
      }
      var r, log := RunRound(setup, halving, rounds[i], final, inputs[i]);
      if r.Err? {
        return Err(r.error), final, logs;
      }
      CascadeGrows(setup, candidates, logs, log);
      FedGrows(setup, logs, log, inputs);
      done := done + [r.value];
      final := r.value.candidatesOut;
      logs := logs + [log];
    }
    report := Ok(done);
    PhaseIsOneWay(setup, candidates, logs, done);
  }

  // ---- what a round is run with ----

  /** The limits, the stages and the slice are the setup's: quarantine and pipelines told by it. */
  lemma RoundRunsTheSetup(setup: Setup, candidates: seq<string>, slice: seq<string>, history: History,
                          c: QuarantineLaws.Made, p: RoundRunner.Pipe)
    ensures var cfg := ConfigOf(setup, candidates, slice);
            && (QuarantineLaws.Abnormal(cfg, c) <==>
                  || c.durationSec > setup.quarantineDurationSec
                  || (c.stage.budgetPerCall > 0.0
                      && c.costUsd > c.stage.budgetPerCall * setup.quarantineCostMultiplier))
            && (p in RoundRunner.Start(cfg, history).pipes ==> p.model in candidates && p.unit in slice)
            && (forall m, u :: m in candidates && u in slice ==>
                  RoundRunner.Pipe(m, u, 0, false, 0, false, 0, 0) in RoundRunner.Start(cfg, history).pipes)
            && cfg.order == setup.stages
  {
    RoundRunner.PairsAre(candidates, slice, p);
    forall m, u | m in candidates && u in slice
      ensures RoundRunner.Pipe(m, u, 0, false, 0, false, 0, 0) in RoundRunner.Pairs(candidates, slice)
    {
      RoundRunner.PairsAre(candidates, slice, RoundRunner.Pipe(m, u, 0, false, 0, false, 0, 0));
    }
  }

  /** Before the last round, a model the ranking names best of a stage goes on if it passed the gate and lives. */
  lemma NamedWinnersGoOn(setup: Setup, log: RoundLog, x: RoundInput, history: History, bonus: map<string, real>,
                         stage: string)
    requires setup.schedule.Valid() && RoundOk(setup, log) && FedBy(setup, log, x, history, bonus)
    requires log.k < |setup.schedule.roundSizes| && stage in x.winners && x.winners[stage] != ""
    requires x.winners[stage] in x.scores && log.standing.Covered(x.winners[stage])
    requires Alive(x.winners[stage], log.history)
    ensures x.winners[stage] in log.result.candidatesOut
  {
    var s, m := log.standing, x.winners[stage];
    assert m in s.scores && m in s.Kept();
    SpecialistsAreKept(log.result, s, log.o1, setup.schedule.NextRoundSize(log.k).value, log.history, stage);
  }

  /** A round is decided on the prices, latencies, unit scores and draws it was given. */
  lemma FedFigures(setup: Setup, log: RoundLog, x: RoundInput, history: History, bonus: map<string, real>, m: string)
    requires setup.schedule.Valid() && FedBy(setup, log, x, history, bonus)
    requires m in x.scores && log.standing.Covered(m)
    ensures var f := log.standing.PrunerField();
            && m in f.scores && (m in f.effCost <==> m in x.effCost) && (m in f.units <==> m in x.unitScores)
            && (m in f.effCost ==> f.effCost[m] == x.effCost[m])
            && (m in f.units ==> f.units[m] == x.unitScores[m]) && f.chance == x.chance
    ensures forall a, b :: a in log.standing.scores && b in log.standing.scores ==>
              (Undercuts(log.standing.effCost, log.standing.latency, a, b) <==> Undercuts(x.effCost, x.latency, a, b))
  {
    PrunerSeesCovered(log.standing, m);
    hide RanOn;
    hide Standing.Covered;
    hide Standing.PrunerField;
  }
}
