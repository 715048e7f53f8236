// The pipelines of one round. Each (model, unit) pair walks the stages in order; all pairs
// share the attempt counters and the error history, and run interleaved in any way.
module RoundRunner {
  import opened Common
  import opened AliveFilter
  import opened Sorting
  import opened StageGraph

  /** What happens to a pipeline at one stage, other than the validator rule, is up to the outside world. */
  datatype Outcome =
    | BuildFailed
    | CacheHit
    | OverBudget
    | Called(errorClass: Option<string>, durationSec: real, costUsd: real)

  datatype Config = Config(
    candidates: seq<string>,
    units: seq<string>,
    order: seq<Stage>,
    quarantineDurationSec: real,
    quarantineCostMultiplier: real)

  datatype Pipe = Pipe(model: string, unit: string, pos: nat, quarantined: bool, strikes: nat, stopped: bool,
                       attempted: nat, skipped: nat)

  /** Counters, history and pipelines of a round in progress. */
  datatype Board = Board(attempted: map<string, nat>, history: History, pipes: seq<Pipe>)

  /** An abnormally long or costly call stops the rest of its own pipeline. */
  predicate Storms(cfg: Config, stage: Stage, durationSec: real, costUsd: real) {
    || durationSec > cfg.quarantineDurationSec
    || (stage.budgetPerCall > 0.0 && costUsd > stage.budgetPerCall * cfg.quarantineCostMultiplier)
  }

  /** Nobody is independent enough to validate: fewer than three candidates, or no candidate but the producer. */
  predicate NoValidator(cfg: Config, stage: Stage, producer: string) {
    stage.isValidator && (|cfg.candidates| < 3 || forall c :: c in cfg.candidates ==> c == producer)
  }

  predicate Finished(cfg: Config, p: Pipe) {
    p.stopped || p.pos >= |cfg.order|
  }

  function Bump(m: map<string, nat>, k: string): map<string, nat> {
    m[k := At(m, k, 0) + 1]
  }

  /** One turn of the pipeline loop: the new pipe, whether it counts as an attempt, and the error to note. */
  function Turn(cfg: Config, p: Pipe, o: Outcome): (Pipe, bool, Option<string>)
    requires !Finished(cfg, p)
  {
    var stage := cfg.order[p.pos];
    var done := p.(pos := p.pos + 1);
    if p.quarantined then (p.(stopped := true), false, None)
    else if o.BuildFailed? || NoValidator(cfg, stage, p.model) || o.CacheHit?
      then (done.(attempted := p.attempted + 1), true, None)
    else if o.OverBudget? then (done.(skipped := p.skipped + 1), false, None)
    else
      var called := done.(attempted := p.attempted + 1, quarantined := Storms(cfg, stage, o.durationSec, o.costUsd));
      if !Truthy(o.errorClass) then (called, true, None)
      else if o.errorClass.value !in DEAD_ERROR_CLASSES then (called, true, o.errorClass)
      else (called.(strikes := p.strikes + 1, stopped := p.strikes + 1 >= 3), true, o.errorClass)
  }

  /** Pipeline i takes its next turn; a finished one does nothing. */
  function Advance(cfg: Config, b: Board, i: nat, o: Outcome): Board {
    if i >= |b.pipes| || Finished(cfg, b.pipes[i]) then b
    else
      var (p, counts, error) := Turn(cfg, b.pipes[i], o);
      Board(if counts then Bump(b.attempted, p.model) else b.attempted,
            if error.Some? then Noted(b.history, p.model, error.value) else b.history,
            b.pipes[i := p])
  }

  /** Any interleaving is a list of turns. */
  function AdvanceAll(cfg: Config, b: Board, turns: seq<(nat, Outcome)>): Board {
    if turns == [] then b
    else
      var n := |turns| - 1;
      Advance(cfg, AdvanceAll(cfg, b, turns[..n]), turns[n].0, turns[n].1)
  }

  function PipesOfModel(model: string, units: seq<string>): seq<Pipe> {
    if units == [] then []
    else PipesOfModel(model, units[..|units| - 1]) + [Pipe(model, units[|units| - 1], 0, false, 0, false, 0, 0)]
  }

  /** pairs = [(model, unit) for model in candidates for unit in the round's slice] */
  function Pairs(candidates: seq<string>, units: seq<string>): seq<Pipe> {
    if candidates == [] then []
    else Pairs(candidates[..|candidates| - 1], units) + PipesOfModel(candidates[|candidates| - 1], units)
  }

  function Start(cfg: Config, history: History): Board {
    Board(map[], history, Pairs(cfg.candidates, cfg.units))
  }

  ghost predicate AllFinished(cfg: Config, b: Board) {
    forall i :: 0 <= i < |b.pipes| ==> Finished(cfg, b.pipes[i])
  }

  class Round {
    var attempted: map<string, nat>
    var history: History
    var pipes: seq<Pipe>

    function Contents(): Board
      reads this
    {
      Board(attempted, history, pipes)
    }

    constructor (cfg: Config, history: History)
      ensures Contents() == Start(cfg, history)
    {
      this.attempted := map[];
      this.history := history;
      this.pipes := Pairs(cfg.candidates, cfg.units);
    }

    /** One stage of one pipeline. */
    method RunStage(cfg: Config, i: nat, o: Outcome)
      requires i < |pipes| && !Finished(cfg, pipes[i])
      modifies this
      ensures Contents() == Advance(cfg, old(Contents()), i, o)
    {
      var p := pipes[i];
      if p.quarantined {
        pipes := pipes[i := p.(stopped := true)];
        return;
      }
      var stage := cfg.order[p.pos];
      p := p.(pos := p.pos + 1);
      if o.BuildFailed? {
        attempted := Bump(attempted, p.model);
        pipes := pipes[i := p.(attempted := p.attempted + 1)];
        return;
      }
      if stage.isValidator && (|cfg.candidates| < 3 || forall c :: c in cfg.candidates ==> c == p.model) {
        attempted := Bump(attempted, p.model);
        pipes := pipes[i := p.(attempted := p.attempted + 1)];
        return;
      }
      match o
      case CacheHit =>
        attempted := Bump(attempted, p.model);
        pipes := pipes[i := p.(attempted := p.attempted + 1)];
      case OverBudget =>
        pipes := pipes[i := p.(skipped := p.skipped + 1)];
      case Called(errorClass, durationSec, costUsd) =>
        p := p.(quarantined := Storms(cfg, stage, durationSec, costUsd));
        attempted := Bump(attempted, p.model);
        p := p.(attempted := p.attempted + 1);
        if Truthy(errorClass) {
          history := Noted(history, p.model, errorClass.value);
          if errorClass.value in DEAD_ERROR_CLASSES {
            p := p.(strikes := p.strikes + 1, stopped := p.strikes + 1 >= 3);
          }
        }
        pipes := pipes[i := p];
    }

    /** The event loop: whichever pipeline is ready takes its next turn. */
    method RunPipelines(cfg: Config, turns: seq<(nat, Outcome)>)
      modifies this
      ensures Contents() == AdvanceAll(cfg, old(Contents()), turns)
    {
      ghost var start := Contents();
      for t := 0 to |turns|
        invariant Contents() == AdvanceAll(cfg, start, turns[..t])
      {
        assert turns[..t + 1][..t] == turns[..t];
        var (i, o) := turns[t];
        if i < |pipes| && !Finished(cfg, pipes[i]) {
          RunStage(cfg, i, o);
        }
      }
      assert turns[..|turns|] == turns;
    }
  }

  // ---- per-model accounting ----

  /** Attempts, budget skips and stages not yet done, over the pipelines of one model. */
  datatype Tally = Tally(pipes: nat, attempted: nat, skipped: nat, left: int)

  function TallyOf(cfg: Config, pipes: seq<Pipe>, m: string): Tally {
    if pipes == [] then Tally(0, 0, 0, 0)
    else
      var t, p := TallyOf(cfg, pipes[..|pipes| - 1], m), pipes[|pipes| - 1];
      if p.model != m then t
      else Tally(t.pipes + 1, t.attempted + p.attempted, t.skipped + p.skipped, t.left + (|cfg.order| - p.pos))
  }

  lemma {:induction false} TallyAppend(cfg: Config, a: seq<Pipe>, b: seq<Pipe>, m: string)
    ensures var ta, tb := TallyOf(cfg, a, m), TallyOf(cfg, b, m);
            TallyOf(cfg, a + b, m) ==
            Tally(ta.pipes + tb.pipes, ta.attempted + tb.attempted, ta.skipped + tb.skipped, ta.left + tb.left)
  {
    if b == [] {
      assert a + b == a;
    } else {
      var n := |b| - 1;
      TallyAppend(cfg, a, b[..n], m);
      assert (a + b)[..|a + b| - 1] == a + b[..n];
      assert (a + b)[|a + b| - 1] == b[n];
    }
  }

  lemma TallyOne(cfg: Config, p: Pipe, m: string)
    ensures TallyOf(cfg, [p], m) == if p.model != m then Tally(0, 0, 0, 0)
            else Tally(1, p.attempted, p.skipped, |cfg.order| - p.pos)
  {
    assert [p][..0] == [];
  }

  lemma TallyUpdate(cfg: Config, pipes: seq<Pipe>, i: nat, p: Pipe, m: string)
    requires i < |pipes| && p.model == pipes[i].model
    ensures var before, after := TallyOf(cfg, pipes, m), TallyOf(cfg, pipes[i := p], m);
            if p.model != m then after == before
            else && after.pipes == before.pipes
                 && after.attempted == before.attempted + p.attempted - pipes[i].attempted
                 && after.skipped == before.skipped + p.skipped - pipes[i].skipped
                 && after.left == before.left + pipes[i].pos - p.pos
  {
    var front, back := pipes[..i], pipes[i + 1..];
    assert pipes == front + ([pipes[i]] + back);
    assert pipes[i := p] == front + ([p] + back);
    TallyAppend(cfg, front, [pipes[i]] + back, m);
    TallyAppend(cfg, front, [p] + back, m);
    TallyAppend(cfg, [pipes[i]], back, m);
    TallyAppend(cfg, [p], back, m);
    TallyOne(cfg, p, m);
    TallyOne(cfg, pipes[i], m);
  }

  /** Every stage of every pipeline is attempted, skipped or still to come, and the shared counter agrees. */
  ghost predicate Accounted(cfg: Config, b: Board, pairs: map<string, nat>, m: string) {
    var t := TallyOf(cfg, b.pipes, m);
    && t.pipes == At(pairs, m, 0)
    && At(b.attempted, m, 0) == t.attempted
    && t.attempted + t.skipped + t.left == |cfg.order| * t.pipes
  }

  ghost predicate Inv(cfg: Config, b: Board, pairs: map<string, nat>) {
    && (forall m :: Accounted(cfg, b, pairs, m))
    && (forall i :: 0 <= i < |b.pipes| ==> b.pipes[i].pos <= |cfg.order|)
  }

  lemma AdvanceKeepsInv(cfg: Config, b: Board, pairs: map<string, nat>, i: nat, o: Outcome)
    requires Inv(cfg, b, pairs)
    ensures Inv(cfg, Advance(cfg, b, i, o), pairs)
  {
    var b' := Advance(cfg, b, i, o);
    if i < |b.pipes| && !Finished(cfg, b.pipes[i]) {
      var (p, counts, error) := Turn(cfg, b.pipes[i], o);
      forall m ensures Accounted(cfg, b', pairs, m) {
        assert Accounted(cfg, b, pairs, m);
        TallyUpdate(cfg, b.pipes, i, p, m);
      }
    }
  }

  lemma {:induction false} AdvanceAllKeepsInv(cfg: Config, b: Board, pairs: map<string, nat>,
                                              turns: seq<(nat, Outcome)>)
    requires Inv(cfg, b, pairs)
    ensures Inv(cfg, AdvanceAll(cfg, b, turns), pairs)
  {
    if turns != [] {
      var n := |turns| - 1;
      AdvanceAllKeepsInv(cfg, b, pairs, turns[..n]);
      AdvanceKeepsInv(cfg, AdvanceAll(cfg, b, turns[..n]), pairs, turns[n].0, turns[n].1);
    }
  }

  // ---- what any list of candidates keeps, repeated ids included ----

  /** No pipeline of m and no attempt by m. */
  ghost predicate Absent(b: Board, m: string) {
    m !in b.attempted && forall i :: 0 <= i < |b.pipes| ==> b.pipes[i].model != m
  }

  lemma {:induction false} PipesAreOfModel(model: string, units: seq<string>)
    ensures forall p :: p in PipesOfModel(model, units) ==> p.model == model
  {
    if units != [] {
      PipesAreOfModel(model, units[..|units| - 1]);
    }
  }

  lemma {:induction false} AbsentAtStart(candidates: seq<string>, units: seq<string>, m: string)
    requires m !in candidates
    ensures forall p :: p in Pairs(candidates, units) ==> p.model != m
  {
    if candidates != [] {
      AbsentAtStart(candidates[..|candidates| - 1], units, m);
      PipesAreOfModel(candidates[|candidates| - 1], units);
    }
  }

  lemma {:induction false} AbsentStays(cfg: Config, b: Board, turns: seq<(nat, Outcome)>, m: string)
    requires Absent(b, m)
    ensures Absent(AdvanceAll(cfg, b, turns), m)
  {
    if turns != [] {
      AbsentStays(cfg, b, turns[..|turns| - 1], m);
    }
  }

  /** A model that is not a candidate of the round never gets an attempt in it. */
  lemma OutsidersAreNotAttempted(cfg: Config, history: History, turns: seq<(nat, Outcome)>, m: string)
    requires m !in cfg.candidates
    ensures m !in AdvanceAll(cfg, Start(cfg, history), turns).attempted
  {
    AbsentAtStart(cfg.candidates, cfg.units, m);
    AbsentStays(cfg, Start(cfg, history), turns, m);
  }

  lemma AdvanceExtends(cfg: Config, b: Board, i: nat, o: Outcome)
    ensures Extends(Advance(cfg, b, i, o).history, b.history)
  {
    if i < |b.pipes| && !Finished(cfg, b.pipes[i]) {
      var (p, counts, error) := Turn(cfg, b.pipes[i], o);
      if error.Some? {
        NotedExtends(b.history, p.model, error.value);
      }
    }
  }

  lemma {:induction false} AdvanceAllExtends(cfg: Config, b: Board, turns: seq<(nat, Outcome)>)
    ensures Extends(AdvanceAll(cfg, b, turns).history, b.history)
  {
    if turns != [] {
      var n := |turns| - 1;
      var mid := AdvanceAll(cfg, b, turns[..n]);
      AdvanceAllExtends(cfg, b, turns[..n]);
      AdvanceExtends(cfg, mid, turns[n].0, turns[n].1);
      ExtendsTrans(AdvanceAll(cfg, b, turns).history, mid.history, b.history);
    }
  }

  /** Histories only grow during a round. */
  lemma HistoryGrows(cfg: Config, history: History, turns: seq<(nat, Outcome)>)
    ensures Extends(AdvanceAll(cfg, Start(cfg, history), turns).history, history)
  {
    AdvanceAllExtends(cfg, Start(cfg, history), turns);
  }

  // ---- the start of a round ----

  /** A candidate listed c times has c pipelines per unit. */
  function PairsPerModel(cfg: Config): map<string, nat> {
    map m | m in cfg.candidates :: multiset(cfg.candidates)[m] * |cfg.units|
  }

  lemma {:induction false} FreshPipes(cfg: Config, model: string, units: seq<string>, m: string)
    ensures TallyOf(cfg, PipesOfModel(model, units), m) ==
            if m == model then Tally(|units|, 0, 0, |cfg.order| * |units|) else Tally(0, 0, 0, 0)
    ensures forall i :: 0 <= i < |PipesOfModel(model, units)| ==> PipesOfModel(model, units)[i].pos == 0
  {
    if units != [] {
      var n := |units| - 1;
      FreshPipes(cfg, model, units[..n], m);
      var all := PipesOfModel(model, units);
      assert all[..|all| - 1] == PipesOfModel(model, units[..n]);
      assert |cfg.order| * |units| == |cfg.order| * n + |cfg.order|;
    }
  }

  /** The tally of c untouched rows of pipelines. */
  function FreshTally(cfg: Config, c: nat): Tally {
    Tally(c * |cfg.units|, 0, 0, |cfg.order| * (c * |cfg.units|))
  }

  lemma OneMore(cfg: Config, c: nat)
    ensures var t, t' := FreshTally(cfg, c), FreshTally(cfg, c + 1);
            t' == Tally(t.pipes + |cfg.units|, 0, 0, t.left + |cfg.order| * |cfg.units|)
  {
    var a, u := |cfg.order|, |cfg.units|;
    assert (c + 1) * u == c * u + u;
    assert a * (c * u + u) == a * (c * u) + a * u;
  }

  lemma OccursOnceMore(candidates: seq<string>, m: string)
    requires candidates != []
    ensures var n := |candidates| - 1;
            multiset(candidates)[m] == multiset(candidates[..n])[m] + if candidates[n] == m then 1 else 0
  {
    var n := |candidates| - 1;
    assert candidates == candidates[..n] + [candidates[n]];
  }

  lemma FreshIsUntouched(cfg: Config, c: nat)
    ensures FreshTally(cfg, c).attempted == 0 && FreshTally(cfg, c).skipped == 0
  {
  }

  lemma {:induction false} FreshPairs(cfg: Config, candidates: seq<string>, m: string)
    ensures TallyOf(cfg, Pairs(candidates, cfg.units), m) == FreshTally(cfg, multiset(candidates)[m])
  {
    if candidates == [] {
      assert TallyOf(cfg, [], m) == Tally(0, 0, 0, 0);
    } else {
      hide TallyOf;
      hide FreshTally;
      hide PipesOfModel;
      var n := |candidates| - 1;
      var front, last := candidates[..n], candidates[n];
      OccursOnceMore(candidates, m);
      FreshPairs(cfg, front, m);
      FreshPipes(cfg, last, cfg.units, m);
      OneMore(cfg, multiset(front)[m]);
      TallyAppend(cfg, Pairs(front, cfg.units), PipesOfModel(last, cfg.units), m);
      FreshIsUntouched(cfg, multiset(front)[m]);
    }
  }

  lemma {:induction false} FreshStarts(cfg: Config, candidates: seq<string>)
    ensures forall i :: 0 <= i < |Pairs(candidates, cfg.units)| ==> Pairs(candidates, cfg.units)[i].pos == 0
  {
    if candidates != [] {
      var n := |candidates| - 1;
      FreshStarts(cfg, candidates[..n]);
      FreshPipes(cfg, candidates[n], cfg.units, "");
    }
  }

  lemma StartInv(cfg: Config, history: History)
    ensures Inv(cfg, Start(cfg, history), PairsPerModel(cfg))
  {
    forall m ensures Accounted(cfg, Start(cfg, history), PairsPerModel(cfg), m) {
      FreshPairs(cfg, cfg.candidates, m);
      assert m in cfg.candidates <==> m in multiset(cfg.candidates);
    }
    FreshStarts(cfg, cfg.candidates);
  }

  // ---- main results ----

  lemma {:induction false} LeftNonNegative(cfg: Config, pipes: seq<Pipe>, m: string)
    requires forall i :: 0 <= i < |pipes| ==> pipes[i].pos <= |cfg.order|
    ensures TallyOf(cfg, pipes, m).left >= 0
  {
    if pipes != [] {
      LeftNonNegative(cfg, pipes[..|pipes| - 1], m);
    }
  }

  /**
   * Exact coverage accounting, at any point of any interleaving: attempts, budget skips and stages not
   * reached add up to stages * units for every time a model is listed, and nobody else has an attempt.
   */
  lemma CoverageIsExact(cfg: Config, history: History, turns: seq<(nat, Outcome)>, m: string)
    ensures var b := AdvanceAll(cfg, Start(cfg, history), turns);
            var t := TallyOf(cfg, b.pipes, m);
            && At(b.attempted, m, 0) == t.attempted
            && At(b.attempted, m, 0) + t.skipped + t.left == |cfg.order| * (multiset(cfg.candidates)[m] * |cfg.units|)
            && t.left >= 0
  {
    StartInv(cfg, history);
    AdvanceAllKeepsInv(cfg, Start(cfg, history), PairsPerModel(cfg), turns);
    var b := AdvanceAll(cfg, Start(cfg, history), turns);
    assert Accounted(cfg, b, PairsPerModel(cfg), m);
    LeftNonNegative(cfg, b.pipes, m);
    assert m in cfg.candidates <==> m in multiset(cfg.candidates);
  }

  /** Listed once is how a duplicate-free list lists its members. */
  lemma ListedOnce(candidates: seq<string>, m: string)
    requires NoDuplicates(candidates)
    ensures multiset(candidates)[m] == if m in candidates then 1 else 0
  {
    DistinctCount(candidates);
    assert m in candidates <==> m in multiset(candidates);
  }

  // ---- rounds in which nothing is skipped or stopped ----

  /** Every stage was served from the cache (or had no possible validator). */
  ghost predicate AllCached(turns: seq<(nat, Outcome)>) {
    forall t :: 0 <= t < |turns| ==> turns[t].1.CacheHit?
  }

  ghost predicate Smooth(pipes: seq<Pipe>) {
    forall i :: 0 <= i < |pipes| ==> pipes[i].skipped == 0 && !pipes[i].stopped && !pipes[i].quarantined
  }

  lemma {:induction false} CachedStaysSmooth(cfg: Config, b: Board, turns: seq<(nat, Outcome)>)
    requires AllCached(turns) && Smooth(b.pipes)
    ensures Smooth(AdvanceAll(cfg, b, turns).pipes)
  {
    if turns != [] {
      CachedStaysSmooth(cfg, b, turns[..|turns| - 1]);
    }
  }

  lemma {:induction false} SmoothTally(cfg: Config, pipes: seq<Pipe>, m: string)
    requires Smooth(pipes) && forall i :: 0 <= i < |pipes| ==> pipes[i].pos == |cfg.order|
    ensures TallyOf(cfg, pipes, m).skipped == 0 && TallyOf(cfg, pipes, m).left == 0
  {
    if pipes != [] {
      SmoothTally(cfg, pipes[..|pipes| - 1], m);
    }
  }

  lemma {:induction false} FreshAreSmooth(model: string, units: seq<string>)
    ensures Smooth(PipesOfModel(model, units))
  {
    if units != [] {
      FreshAreSmooth(model, units[..|units| - 1]);
    }
  }

  lemma {:induction false} PairsAreSmooth(candidates: seq<string>, units: seq<string>)
    ensures Smooth(Pairs(candidates, units))
  {
    if candidates != [] {
      PairsAreSmooth(candidates[..|candidates| - 1], units);
      FreshAreSmooth(candidates[|candidates| - 1], units);
    }
  }

  /** A finished, fully cached round attempts everything: stages * units for every time a model is listed. */
  lemma CachedRoundAttemptsAll(cfg: Config, history: History, turns: seq<(nat, Outcome)>, m: string)
    requires AllCached(turns) && AllFinished(cfg, AdvanceAll(cfg, Start(cfg, history), turns))
    ensures At(AdvanceAll(cfg, Start(cfg, history), turns).attempted, m, 0) ==
            |cfg.order| * (multiset(cfg.candidates)[m] * |cfg.units|)
  {
    var b := AdvanceAll(cfg, Start(cfg, history), turns);
    CoverageIsExact(cfg, history, turns, m);
    PairsAreSmooth(cfg.candidates, cfg.units);
    CachedStaysSmooth(cfg, Start(cfg, history), turns);
    StartInv(cfg, history);
    AdvanceAllKeepsInv(cfg, Start(cfg, history), PairsPerModel(cfg), turns);
    forall i | 0 <= i < |b.pipes| ensures b.pipes[i].pos == |cfg.order| {
      assert Finished(cfg, b.pipes[i]);
    }
    SmoothTally(cfg, b.pipes, m);
  }

  // ---- which pipelines a round starts ----

  lemma {:induction false} PipesOfModelAre(model: string, units: seq<string>, p: Pipe)
    ensures p in PipesOfModel(model, units) <==> p.unit in units && p == Pipe(model, p.unit, 0, false, 0, false, 0, 0)
  {
    if units != [] {
      var n := |units| - 1;
      PipesOfModelAre(model, units[..n], p);
      assert units == units[..n] + [units[n]];
    }
  }

  /** One for every candidate and every unit of the slice, before its first stage, and no other. */
  lemma {:induction false} PairsAre(candidates: seq<string>, units: seq<string>, p: Pipe)
    ensures p in Pairs(candidates, units) <==>
            p.model in candidates && p.unit in units && p == Pipe(p.model, p.unit, 0, false, 0, false, 0, 0)
  {
    if candidates != [] {
      var n := |candidates| - 1;
      PairsAre(candidates[..n], units, p);
      PipesOfModelAre(candidates[n], units, p);
      assert candidates == candidates[..n] + [candidates[n]];
    }
  }
}
