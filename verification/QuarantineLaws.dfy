// When a pipeline stops before its last stage, told by the calls it made.
module QuarantineLaws {
  import opened Common
  import opened AliveFilter
  import opened StageGraph
  import opened RoundRunner

  /** One provider call of a pipeline. */
  datatype Made = Made(stage: Stage, errorClass: Option<string>, durationSec: real, costUsd: real)

  /** This outcome is a call by pipeline i: it is still running, and the stage is not skipped. */
  predicate Calls(cfg: Config, b: Board, i: nat, o: Outcome) {
    && i < |b.pipes| && o.Called?
    && !b.pipes[i].stopped && !b.pipes[i].quarantined && b.pipes[i].pos < |cfg.order|
    && !(cfg.order[b.pipes[i].pos].isValidator
         && (|cfg.candidates| < 3 || forall c :: c in cfg.candidates ==> c == b.pipes[i].model))
  }

  /** The calls of pipeline i, in order. */
  function CallsOf(cfg: Config, history: History, turns: seq<(nat, Outcome)>, i: nat): seq<Made> {
    if turns == [] then []
    else
      var n := |turns| - 1;
      var before, b := CallsOf(cfg, history, turns[..n], i), AdvanceAll(cfg, Start(cfg, history), turns[..n]);
      var (j, o) := turns[n];
      if j == i && Calls(cfg, b, i, o)
      then before + [Made(cfg.order[b.pipes[i].pos], o.errorClass, o.durationSec, o.costUsd)] else before
  }

  /** Too long, or too dear for a stage that has a figure per call. */
  predicate Abnormal(cfg: Config, c: Made) {
    || c.durationSec > cfg.quarantineDurationSec
    || (c.stage.budgetPerCall > 0.0 && c.costUsd > c.stage.budgetPerCall * cfg.quarantineCostMultiplier)
  }

  /** The call failed with an error class that counts towards giving up on the pipeline. */
  predicate Fatal(c: Made) {
    c.errorClass.Some? && c.errorClass.value != "" && c.errorClass.value in DEAD_ERROR_CLASSES
  }

  function FatalCount(calls: seq<Made>): nat {
    if calls == [] then 0 else FatalCount(calls[..|calls| - 1]) + if Fatal(calls[|calls| - 1]) then 1 else 0
  }

  /** What a pipeline remembers is what its calls were. */
  ghost predicate Remembers(cfg: Config, p: Pipe, calls: seq<Made>) {
    && (p.quarantined <==> exists c :: c in calls && Abnormal(cfg, c))
    && p.strikes == FatalCount(calls)
    && (p.strikes >= 3 ==> p.stopped)
    && (p.stopped ==> p.quarantined || p.strikes >= 3)
  }

  lemma {:induction false} FreshOfModelAreIdle(model: string, units: seq<string>)
    ensures forall p :: p in PipesOfModel(model, units) ==> !p.quarantined && !p.stopped && p.strikes == 0
  {
    if units != [] {
      FreshOfModelAreIdle(model, units[..|units| - 1]);
    }
  }

  lemma {:induction false} FreshAreIdle(candidates: seq<string>, units: seq<string>)
    ensures forall p :: p in Pairs(candidates, units) ==> !p.quarantined && !p.stopped && p.strikes == 0
  {
    if candidates != [] {
      FreshAreIdle(candidates[..|candidates| - 1], units);
      FreshOfModelAreIdle(candidates[|candidates| - 1], units);
    }
  }

  lemma FreshRemembers(cfg: Config, candidates: seq<string>, i: nat)
    requires i < |Pairs(candidates, cfg.units)|
    ensures Remembers(cfg, Pairs(candidates, cfg.units)[i], [])
  {
    FreshAreIdle(candidates, cfg.units);
  }

  lemma CallRemembers(cfg: Config, b: Board, i: nat, o: Outcome, calls: seq<Made>)
    requires Calls(cfg, b, i, o) && Remembers(cfg, b.pipes[i], calls)
    ensures var c := Made(cfg.order[b.pipes[i].pos], o.errorClass, o.durationSec, o.costUsd);
            Remembers(cfg, Advance(cfg, b, i, o).pipes[i], calls + [c])
  {
    var c := Made(cfg.order[b.pipes[i].pos], o.errorClass, o.durationSec, o.costUsd);
    assert forall x :: x in calls ==> !Abnormal(cfg, x);
    assert forall x :: x in calls + [c] <==> x in calls || x == c;
    assert (exists x :: x in calls + [c] && Abnormal(cfg, x)) <==> Abnormal(cfg, c) by {
      assert c in calls + [c];
    }
    assert (calls + [c])[..|calls|] == calls;
  }

  lemma OtherTurnRemembers(cfg: Config, b: Board, i: nat, j: nat, o: Outcome, calls: seq<Made>)
    requires i < |b.pipes| && Remembers(cfg, b.pipes[i], calls) && !(j == i && Calls(cfg, b, i, o))
    ensures Remembers(cfg, Advance(cfg, b, j, o).pipes[i], calls)
  {
  }

  lemma {:induction false} SamePipes(cfg: Config, b: Board, turns: seq<(nat, Outcome)>)
    ensures |AdvanceAll(cfg, b, turns).pipes| == |b.pipes|
  {
    if turns != [] {
      SamePipes(cfg, b, turns[..|turns| - 1]);
    }
  }

  /**
   * At any point of any interleaving: a pipeline is quarantined exactly when one of its calls was abnormal, has
   * as many strikes as fatal calls, and has stopped only for one of the two, and surely after three strikes.
   */
  lemma {:induction false} StopsForItsCalls(cfg: Config, history: History, turns: seq<(nat, Outcome)>, i: nat)
    requires i < |Start(cfg, history).pipes|
    ensures var b := AdvanceAll(cfg, Start(cfg, history), turns);
            i < |b.pipes| && Remembers(cfg, b.pipes[i], CallsOf(cfg, history, turns, i))
  {
    SamePipes(cfg, Start(cfg, history), turns);
    if turns == [] {
      FreshRemembers(cfg, cfg.candidates, i);
    } else {
      var n := |turns| - 1;
      StopsForItsCalls(cfg, history, turns[..n], i);
      var b, calls := AdvanceAll(cfg, Start(cfg, history), turns[..n]), CallsOf(cfg, history, turns[..n], i);
      var (j, o) := turns[n];
      if j == i && Calls(cfg, b, i, o) {
        CallRemembers(cfg, b, i, o, calls);
      } else {
        OtherTurnRemembers(cfg, b, i, j, o, calls);
      }
    }
  }

  /** A pipeline stopped before its last stage had an abnormal call or three fatal ones. */
  lemma StoppedForAReason(cfg: Config, history: History, turns: seq<(nat, Outcome)>, i: nat)
    requires i < |Start(cfg, history).pipes|
    ensures var b, calls := AdvanceAll(cfg, Start(cfg, history), turns), CallsOf(cfg, history, turns, i);
            && i < |b.pipes|
            && (b.pipes[i].stopped ==> (exists c :: c in calls && Abnormal(cfg, c)) || FatalCount(calls) >= 3)
  {
    StopsForItsCalls(cfg, history, turns, i);
  }

  /** Once it is done, nothing it is dealt counts as an attempt. */
  lemma {:induction false} DoneStaysDone(cfg: Config, b: Board, turns: seq<(nat, Outcome)>, i: nat)
    requires i < |b.pipes| && (b.pipes[i].quarantined || b.pipes[i].stopped)
    ensures var b' := AdvanceAll(cfg, b, turns);
            && i < |b'.pipes| && b'.pipes[i].attempted == b.pipes[i].attempted
            && (b'.pipes[i].quarantined || b'.pipes[i].stopped)
  {
    if turns != [] {
      DoneStaysDone(cfg, b, turns[..|turns| - 1], i);
    }
  }

  lemma {:induction false} AdvanceInTwo(cfg: Config, b: Board, first: seq<(nat, Outcome)>, rest: seq<(nat, Outcome)>)
    ensures AdvanceAll(cfg, b, first + rest) == AdvanceAll(cfg, AdvanceAll(cfg, b, first), rest)
  {
    if rest == [] {
      assert first + rest == first;
    } else {
      var n := |rest| - 1;
      AdvanceInTwo(cfg, b, first, rest[..n]);
      assert (first + rest)[..|first + rest| - 1] == first + rest[..n];
    }
  }

  /** After an abnormal call, or three fatal ones, a pipeline makes no attempt in any continuation. */
  lemma NothingAfterAbnormal(cfg: Config, history: History, first: seq<(nat, Outcome)>, rest: seq<(nat, Outcome)>,
                             i: nat)
    requires i < |Start(cfg, history).pipes|
    requires var calls := CallsOf(cfg, history, first, i);
             (exists c :: c in calls && Abnormal(cfg, c)) || FatalCount(calls) >= 3
    ensures var start := Start(cfg, history);
            var b, b' := AdvanceAll(cfg, start, first), AdvanceAll(cfg, start, first + rest);
            i < |b.pipes| && i < |b'.pipes| && b'.pipes[i].attempted == b.pipes[i].attempted
  {
    StopsForItsCalls(cfg, history, first, i);
    AdvanceInTwo(cfg, Start(cfg, history), first, rest);
    DoneStaysDone(cfg, AdvanceAll(cfg, Start(cfg, history), first), rest, i);
  }

  /** Concretely: a quick call far over the stage's figure is abnormal; without a figure it is not. */
  lemma DearCallIsAbnormal(cfg: Config, stage: Stage)
    requires cfg.quarantineDurationSec == 300.0 && cfg.quarantineCostMultiplier == 10.0
    ensures stage.budgetPerCall == 0.05 ==> Abnormal(cfg, Made(stage, None, 5.0, 2.0))
    ensures stage.budgetPerCall == 0.0 ==> !Abnormal(cfg, Made(stage, None, 5.0, 2.0))
  {
  }

  // ---- the error history ----

  /** A failed call adds its error class to its own model's history and to no other. */
  lemma CallIsNoted(cfg: Config, b: Board, i: nat, o: Outcome, m: string)
    requires i < |b.pipes|
    ensures var b' := Advance(cfg, b, i, o);
            At(b'.history, m, []) == At(b.history, m, []) +
            if Calls(cfg, b, i, o) && o.errorClass.Some? && o.errorClass.value != "" && b.pipes[i].model == m
            then [o.errorClass.value] else []
  {
  }
}
