// BudgetGate: per-op spend caps with reservations. Money is a real number of dollars.
module BudgetGate {
  import opened Common

  datatype StageBudget = StageBudget(capUsd: real, headroomFactor: real)

  datatype GateKey = GateKey(tag: string, op: string)

  /** `cap` is None for an op without a budget (infinite). */
  datatype Decision = Decision(canProceed: bool, current: real, cap: Option<real>, reservation: real)

  const MIN_PROJECTION := 0.01

  function Max(x: real, y: real): real {
    if x >= y then x else y
  }

  /** The amount covers the scaled latest cost, the stage's figure while there is no such cost, and one cent. */
  predicate Covers(amount: real, latest: real, headroom: real, stageBudgetPerCall: Option<real>) {
    && amount >= latest * headroom
    && (latest == 0.0 && stageBudgetPerCall.Some? ==> amount >= stageBudgetPerCall.value)
    && amount >= MIN_PROJECTION
  }

  /** What the next call is expected to cost: the least amount that covers all three. */
  function Projection(last: real, budget: StageBudget, stageBudgetPerCall: Option<real>): (r: real)
    ensures Covers(r, last, budget.headroomFactor, stageBudgetPerCall)
    ensures forall amount :: Covers(amount, last, budget.headroomFactor, stageBudgetPerCall) ==> r <= amount
  {
    var floor := if last == 0.0 && stageBudgetPerCall.Some? then stageBudgetPerCall.value else 0.0;
    Max(Max(last * budget.headroomFactor, floor), MIN_PROJECTION)
  }

  /** The projection fits exactly when each of the three amounts does. */
  lemma FitsIffCovers(current: real, cap: real, last: real, budget: StageBudget, stageBudgetPerCall: Option<real>)
    ensures current + Projection(last, budget, stageBudgetPerCall) <= cap <==>
            Covers(cap - current, last, budget.headroomFactor, stageBudgetPerCall)
  {
    var r := Projection(last, budget, stageBudgetPerCall);
    var scaled := last * budget.headroomFactor;
    assert Covers(r, last, budget.headroomFactor, stageBudgetPerCall);
    hide Projection;
  }

  // ---- the gate as a value ----

  datatype Gate = Gate(
    budgets: map<string, StageBudget>,
    lastCost: map<string, real>,
    spent: map<GateKey, real>,
    reserved: map<GateKey, real>,
    seeded: set<GateKey>)
  {
    function Projected(op: string, stageBudgetPerCall: Option<real>): (r: real)
      requires op in budgets
      ensures r >= MIN_PROJECTION
    {
      Projection(At(lastCost, op, 0.0), budgets[op], stageBudgetPerCall)
    }

    function Seeded(key: GateKey, spendByOp: map<string, real>): Gate {
      if key in seeded then this
      else this.(spent := spent[key := At(spendByOp, key.op, 0.0)], seeded := seeded + {key})
    }

    /** The reservation fits: projected is what the call is expected to cost. */
    predicate Fits(key: GateKey, projected: real)
      requires key.op in budgets
    {
      At(spent, key, 0.0) + At(reserved, key, 0.0) + projected <= budgets[key.op].capUsd
    }

    function Reserve(key: GateKey, projected: real): Gate {
      this.(reserved := reserved[key := At(reserved, key, 0.0) + projected])
    }

    /** check() on a budgeted op, given its projection. */
    function Checked(key: GateKey, spendByOp: map<string, real>, projected: real): Gate
      requires key.op in budgets
    {
      var g := Seeded(key, spendByOp);
      if g.Fits(key, projected) then g.Reserve(key, projected) else g
    }

    function Recorded(key: GateKey, costUsd: real, effectiveCostUsd: Option<real>, reservation: real): Gate {
      this.(lastCost := lastCost[key.op := costUsd],
            spent := spent[key := At(spent, key, 0.0) + effectiveCostUsd.GetOr(costUsd)],
            reserved := reserved[key := Max(0.0, At(reserved, key, 0.0) - reservation)])
    }
  }

  class BudgetGate {
    const budgetsByOp: map<string, StageBudget>
    var lastCallCostByOp: map<string, real>
    var spentByKey: map<GateKey, real>
    var reservedByKey: map<GateKey, real>
    var seededKeys: set<GateKey>

    function Contents(): Gate
      reads this
    {
      Gate(budgetsByOp, lastCallCostByOp, spentByKey, reservedByKey, seededKeys)
    }

    constructor (budgets: map<string, StageBudget>)
      ensures Contents() == Gate(budgets, map[], map[], map[], {})
    {
      budgetsByOp := budgets;
      lastCallCostByOp, spentByKey, reservedByKey, seededKeys := map[], map[], map[], {};
    }

    /** `spendByOp` is storage's answer, consulted only the first time a key is checked. */
    method Check(tag: string, op: string, spendByOp: map<string, real>, stageBudgetPerCall: Option<real>)
      returns (d: Decision)
      modifies this
      ensures op !in budgetsByOp ==> d == Decision(true, 0.0, None, 0.0) && Contents() == old(Contents())
      ensures op in budgetsByOp ==>
                var key, before := GateKey(tag, op), old(Contents());
                var g, projected := before.Seeded(key, spendByOp), before.Projected(op, stageBudgetPerCall);
                && Contents() == before.Checked(key, spendByOp, projected)
                && d.canProceed == g.Fits(key, projected)
                && d.current == At(g.spent, key, 0.0) + At(g.reserved, key, 0.0)
                && d.cap == Some(budgetsByOp[op].capUsd)
                && d.reservation == if d.canProceed then projected else 0.0
      ensures op in budgetsByOp ==>
                var latest, b := old(At(lastCallCostByOp, op, 0.0)), budgetsByOp[op];
                && (d.canProceed <==> Covers(b.capUsd - d.current, latest, b.headroomFactor, stageBudgetPerCall))
                && (d.canProceed ==> Covers(d.reservation, latest, b.headroomFactor, stageBudgetPerCall))
    {
      if op !in budgetsByOp {
        return Decision(true, 0.0, None, 0.0);
      }
      var budget, key := budgetsByOp[op], GateKey(tag, op);
      if key !in seededKeys {
        spentByKey := spentByKey[key := At(spendByOp, op, 0.0)];
        seededKeys := seededKeys + {key};
      }
      var spent, reserved, last := At(spentByKey, key, 0.0), At(reservedByKey, key, 0.0), At(lastCallCostByOp, op, 0.0);
      var projected := Projection(last, budget, stageBudgetPerCall);
      FitsIffCovers(spent + reserved, budget.capUsd, last, budget, stageBudgetPerCall);
      hide Covers;
      if spent + reserved + projected > budget.capUsd {
        return Decision(false, spent + reserved, Some(budget.capUsd), 0.0);
      }
      reservedByKey := reservedByKey[key := reserved + projected];
      return Decision(true, spent + reserved, Some(budget.capUsd), projected);
    }

    method RecordCost(tag: string, op: string, costUsd: real, effectiveCostUsd: Option<real>, reservation: real)
      modifies this
      ensures Contents() == old(Contents()).Recorded(GateKey(tag, op), costUsd, effectiveCostUsd, reservation)
    {
      var key := GateKey(tag, op);
      var eff := if effectiveCostUsd.Some? then effectiveCostUsd.value else costUsd;
      lastCallCostByOp := lastCallCostByOp[op := costUsd];
      spentByKey := spentByKey[key := At(spentByKey, key, 0.0) + eff];
      reservedByKey := reservedByKey[key := Max(0.0, At(reservedByKey, key, 0.0) - reservation)];
    }
  }
}
