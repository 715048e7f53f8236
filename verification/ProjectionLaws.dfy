// What the gate projects and when it admits, told by the costs recorded so far instead of
// by the projection itself.
module ProjectionLaws {
  import opened Common
  import opened BudgetGate

  datatype Step =
    | Check(tag: string, op: string, spendByOp: map<string, real>, stageBudgetPerCall: Option<real>)
    | Record(tag: string, op: string, costUsd: real, effectiveCostUsd: Option<real>, reservation: real)

  function Do(g: Gate, e: Step): Gate {
    match e
    case Check(tag, op, spendByOp, stage) =>
      if op in g.budgets then g.Checked(GateKey(tag, op), spendByOp, g.Projected(op, stage)) else g
    case Record(tag, op, cost, eff, reservation) => g.Recorded(GateKey(tag, op), cost, eff, reservation)
  }

  function Run(budgets: map<string, StageBudget>, steps: seq<Step>): Gate {
    if steps == [] then Gate(budgets, map[], map[], map[], {})
    else Do(Run(budgets, steps[..|steps| - 1]), steps[|steps| - 1])
  }

  /** The cost of the op's latest recorded call under any tag; nothing before the first. */
  function Latest(steps: seq<Step>, op: string): real {
    if steps == [] then 0.0
    else
      var last := steps[|steps| - 1];
      if last.Record? && last.op == op then last.costUsd else Latest(steps[..|steps| - 1], op)
  }

  lemma {:induction false} GateKnowsLatest(budgets: map<string, StageBudget>, steps: seq<Step>, op: string)
    ensures Run(budgets, steps).budgets == budgets
    ensures At(Run(budgets, steps).lastCost, op, 0.0) == Latest(steps, op)
  {
    if steps != [] {
      GateKnowsLatest(budgets, steps[..|steps| - 1], op);
    }
  }

  /** What the next check adds to: the recorded spend, or storage's figure on the first check, plus reservations. */
  function Current(g: Gate, key: GateKey, spendByOp: map<string, real>): real {
    (if key in g.seeded then At(g.spent, key, 0.0) else At(spendByOp, key.op, 0.0)) + At(g.reserved, key, 0.0)
  }

  /** The next check of the key is admitted. */
  predicate Admitted(g: Gate, key: GateKey, spendByOp: map<string, real>, stageBudgetPerCall: Option<real>)
    requires key.op in g.budgets
  {
    g.Seeded(key, spendByOp).Fits(key, g.Projected(key.op, stageBudgetPerCall))
  }

  lemma AdmittedWhen(g: Gate, key: GateKey, spendByOp: map<string, real>, stageBudgetPerCall: Option<real>)
    requires key.op in g.budgets
    ensures Admitted(g, key, spendByOp, stageBudgetPerCall) <==>
            Covers(g.budgets[key.op].capUsd - Current(g, key, spendByOp), At(g.lastCost, key.op, 0.0),
                   g.budgets[key.op].headroomFactor, stageBudgetPerCall)
  {
    hide Projection;
    hide Covers;
    FitsIffCovers(Current(g, key, spendByOp), g.budgets[key.op].capUsd, At(g.lastCost, key.op, 0.0),
                  g.budgets[key.op], stageBudgetPerCall);
  }

  /**
   * After every run of checks and records: a check is admitted if and only if the latest cost of the op times
   * the headroom fits, one cent fits, and before any cost is known the stage's own figure fits.
   */
  lemma AdmittedIff(budgets: map<string, StageBudget>, steps: seq<Step>, key: GateKey, spendByOp: map<string, real>,
                    stageBudgetPerCall: Option<real>)
    requires key.op in budgets
    ensures Run(budgets, steps).budgets == budgets
    ensures var g, b, latest := Run(budgets, steps), budgets[key.op], Latest(steps, key.op);
            var current := Current(g, key, spendByOp);
            Admitted(g, key, spendByOp, stageBudgetPerCall) <==>
              && current + latest * b.headroomFactor <= b.capUsd
              && (latest == 0.0 && stageBudgetPerCall.Some? ==> current + stageBudgetPerCall.value <= b.capUsd)
              && current + 0.01 <= b.capUsd
  {
    GateKnowsLatest(budgets, steps, key.op);
    hide Run;
    hide Latest;
    AdmittedWhen(Run(budgets, steps), key, spendByOp, stageBudgetPerCall);
    hide Admitted;
    hide Current;
  }
}
