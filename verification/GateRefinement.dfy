// The gate's running total against the slow re-aggregation of storage it replaced.
// Pipelines reserve, record the row in storage, and only then account for it at the gate.
module GateRefinement {
  import opened Common
  import opened Sums
  import opened Rows
  import opened MemoryStorage
  import opened BudgetGate

  datatype Pid = Pid(id: nat)

  datatype Phase =
    | Reserved(key: GateKey, reservation: real)
    | Logged(key: GateKey, reservation: real, row: RunRow)  // after record_call, before record_cost

  /** `lost` is the cost of attempts storage dropped or overwrote since the key was seeded. */
  datatype State = State(rows: map<Key, RunRow>, gate: Gate, busy: map<Pid, Phase>, lost: map<GateKey, real>)

  datatype Step =
    | Check(p: Pid, key: GateKey, spendByOp: map<string, real>, projected: real)
    | Log(p: Pid, row: RunRow)
    | Account(p: Pid, costUsd: real)
    | Side(row: RunRow)  // a row written outside the gate, e.g. for a failed prompt build

  function OwnerOf(row: RunRow): GateKey {
    GateKey(row.tag, StageToOp(row.stage))
  }

  /** Each key belongs to one (tag, op). */
  predicate SameOwner(rows: map<Key, RunRow>, row: RunRow) {
    row.key in rows ==> OwnerOf(rows[row.key]) == OwnerOf(row)
  }

  /** What a write makes disappear from the aggregate: itself if dropped, else the row it replaces. */
  function Wasted(rows: map<Key, RunRow>, row: RunRow): real {
    if row.key !in rows then 0.0
    else if Usable(rows[row.key]) then Spend(row)
    else Spend(rows[row.key])
  }

  ghost predicate Enabled(s: State, e: Step) {
    match e
    case Check(p, key, spendByOp, projected) =>
      p !in s.busy && key.op in s.gate.budgets && (key !in s.gate.seeded ==> IsSpendByOp(spendByOp, s.rows, key.tag))
    case Log(p, row) =>
      p in s.busy && s.busy[p].Reserved? && OwnerOf(row) == s.busy[p].key && SameOwner(s.rows, row)
    case Account(p, _) => p in s.busy && s.busy[p].Logged?
    case Side(row) => Spend(row) == 0.0 && SameOwner(s.rows, row)
  }

  function Lost(s: State, row: RunRow): map<GateKey, real> {
    s.lost[OwnerOf(row) := At(s.lost, OwnerOf(row), 0.0) + Wasted(s.rows, row)]
  }

  ghost function Do(s: State, e: Step): State
    requires Enabled(s, e)
  {
    match e
    case Check(p, key, spendByOp, projected) =>
      s.(gate := s.gate.Checked(key, spendByOp, projected),
         lost := if key in s.gate.seeded then s.lost else s.lost[key := 0.0],
         busy := if s.gate.Seeded(key, spendByOp).Fits(key, projected) then s.busy[p := Reserved(key, projected)]
           else s.busy)
    case Log(p, row) =>
      s.(rows := Upsert(s.rows, row), lost := Lost(s, row),
         busy := s.busy[p := Logged(s.busy[p].key, s.busy[p].reservation, row)])
    case Account(p, cost) =>
      var b := s.busy[p];
      s.(gate := s.gate.Recorded(b.key, cost, Some(Spend(b.row)), b.reservation), busy := s.busy - {p})
    case Side(row) => s.(rows := Upsert(s.rows, row), lost := Lost(s, row))
  }

  /** A fresh gate over whatever storage already holds. */
  ghost predicate Init(s: State) {
    && s.gate.spent == map[] && s.gate.reserved == map[] && s.gate.seeded == {} && s.gate.lastCost == map[]
    && s.busy == map[] && s.lost == map[]
  }

  ghost predicate StepAt(states: seq<State>, steps: seq<Step>, i: nat)
    requires i < |steps| == |states| - 1
  {
    Enabled(states[i], steps[i]) && states[i + 1] == Do(states[i], steps[i])
  }

  ghost predicate IsRun(states: seq<State>, steps: seq<Step>) {
    && |states| == |steps| + 1
    && Init(states[0])
    && forall i :: 0 <= i < |steps| ==> StepAt(states, steps, i)
  }

  // ---- recorded but not yet accounted ----

  ghost function Pending(busy: map<Pid, Phase>, key: GateKey): map<Pid, real> {
    map p | p in busy && busy[p].Logged? && busy[p].key == key :: Spend(busy[p].row)
  }

  ghost function Recount(rows: map<Key, RunRow>, key: GateKey): real {
    SpendOf(rows, key.tag, key.op)
  }

  /** The refinement: what the gate says, plus what is on its way, is what storage says, plus what storage lost. */
  ghost predicate Agrees(s: State, key: GateKey) {
    key in s.gate.seeded ==>
      At(s.gate.spent, key, 0.0) + Total(Pending(s.busy, key)) == Recount(s.rows, key) + At(s.lost, key, 0.0)
  }

  ghost predicate Inv(s: State) {
    && (forall p :: p in s.busy ==> s.busy[p].key in s.gate.seeded)
    && (forall p :: p in s.busy && s.busy[p].Logged? ==> OwnerOf(s.busy[p].row) == s.busy[p].key)
    && (forall key :: Agrees(s, key))
  }

  lemma RecountAfterWrite(rows: map<Key, RunRow>, row: RunRow, key: GateKey)
    requires SameOwner(rows, row)
    ensures Recount(Upsert(rows, row), key) ==
            Recount(rows, key) + if OwnerOf(row) == key then Spend(row) - Wasted(rows, row) else 0.0
  {
    SpendOfUpdate(rows, row, key.tag, key.op);
  }

  lemma PendingAdd(busy: map<Pid, Phase>, p: Pid, b: Phase, key: GateKey)
    requires b.Logged? && (p in busy ==> busy[p].Reserved?)
    ensures Total(Pending(busy[p := b], key)) == Total(Pending(busy, key)) + if b.key == key then Spend(b.row) else 0.0
  {
    var before, after := Pending(busy, key), Pending(busy[p := b], key);
    if b.key == key {
      assert after == before[p := Spend(b.row)];
      TotalUpdate(before, p, Spend(b.row));
    } else {
      assert after == before;
    }
  }

  lemma PendingRemove(busy: map<Pid, Phase>, p: Pid, key: GateKey)
    requires p in busy && busy[p].Logged?
    ensures Total(Pending(busy - {p}, key)) ==
            Total(Pending(busy, key)) - if busy[p].key == key then Spend(busy[p].row) else 0.0
  {
    var before, after := Pending(busy, key), Pending(busy - {p}, key);
    if busy[p].key == key {
      assert after == before - {p};
      TotalRemove(before, p);
    } else {
      assert after == before;
    }
  }

  lemma PendingReserved(busy: map<Pid, Phase>, p: Pid, b: Phase, key: GateKey)
    requires b.Reserved? && p !in busy
    ensures Pending(busy[p := b], key) == Pending(busy, key)
  {
  }

  lemma CheckAgrees(s: State, e: Step, key: GateKey)
    requires Inv(s) && e.Check? && Enabled(s, e)
    ensures Agrees(Do(s, e), key)
  {
    hide Total;
    hide SpendOf;
    var s' := Do(s, e);
    assert Agrees(s, key);
    if s.gate.Seeded(e.key, e.spendByOp).Fits(e.key, e.projected) {
      PendingReserved(s.busy, e.p, Reserved(e.key, e.projected), key);
    }
    assert Pending(s'.busy, key) == Pending(s.busy, key);
    if key == e.key && key !in s.gate.seeded {
      assert Pending(s.busy, key) == map[];
      EmptyTotal(Pending(s.busy, key));
      if key.op !in e.spendByOp {
        NoRowsNoSpend(s.rows, key.tag, key.op);
      }
      assert At(s'.gate.spent, key, 0.0) == Recount(s.rows, key);
    } else {
      assert At(s'.gate.spent, key, 0.0) == At(s.gate.spent, key, 0.0);
    }
  }

  lemma LogAgrees(s: State, e: Step, key: GateKey)
    requires Inv(s) && e.Log? && Enabled(s, e)
    ensures Agrees(Do(s, e), key)
  {
    var b := s.busy[e.p];
    var s' := Do(s, e);
    assert Agrees(s, key);
    RecountAfterWrite(s.rows, e.row, key);
    PendingAdd(s.busy, e.p, Logged(b.key, b.reservation, e.row), key);
    assert At(s'.lost, key, 0.0) == At(s.lost, key, 0.0) + if OwnerOf(e.row) == key then Wasted(s.rows, e.row) else 0.0;
  }

  lemma AccountAgrees(s: State, e: Step, key: GateKey)
    requires Inv(s) && e.Account? && Enabled(s, e)
    ensures Agrees(Do(s, e), key)
  {
    var b := s.busy[e.p];
    var s' := Do(s, e);
    assert Agrees(s, key);
    PendingRemove(s.busy, e.p, key);
    assert At(s'.gate.spent, key, 0.0) == At(s.gate.spent, key, 0.0) + if b.key == key then Spend(b.row) else 0.0;
  }

  lemma SideAgrees(s: State, e: Step, key: GateKey)
    requires Inv(s) && e.Side? && Enabled(s, e)
    ensures Agrees(Do(s, e), key)
  {
    assert Agrees(s, key);
    RecountAfterWrite(s.rows, e.row, key);
    assert At(Do(s, e).lost, key, 0.0) ==
           At(s.lost, key, 0.0) + if OwnerOf(e.row) == key then Wasted(s.rows, e.row) else 0.0;
  }

  lemma StepKeepsInv(s: State, e: Step)
    requires Inv(s) && Enabled(s, e)
    ensures Inv(Do(s, e))
  {
    forall key ensures Agrees(Do(s, e), key) {
      match e
      case Check(_, _, _, _) => CheckAgrees(s, e, key);
      case Log(_, _) => LogAgrees(s, e, key);
      case Account(_, _) => AccountAgrees(s, e, key);
      case Side(_) => SideAgrees(s, e, key);
    }
  }

  /** Main theorem: the equation holds for every key at every point of every run. */
  lemma {:induction false} RunningTotalRefinesRecount(states: seq<State>, steps: seq<Step>, i: nat, key: GateKey)
    requires IsRun(states, steps) && i < |states|
    ensures Inv(states[i]) && Agrees(states[i], key)
  {
    if i > 0 {
      RunningTotalRefinesRecount(states, steps, i - 1, key);
      assert StepAt(states, steps, i - 1);
      StepKeepsInv(states[i - 1], steps[i - 1]);
    }
  }

  ghost predicate NonNegative(states: seq<State>, steps: seq<Step>) {
    && |states| > 0
    && (forall k :: k in states[0].rows ==> Spend(states[0].rows[k]) >= 0.0)
    && (forall j :: 0 <= j < |steps| && (steps[j].Log? || steps[j].Side?) ==> Spend(steps[j].row) >= 0.0)
  }

  lemma StepLosesNothingBack(s: State, e: Step)
    requires Enabled(s, e)
    requires forall k :: k in s.rows ==> Spend(s.rows[k]) >= 0.0
    requires forall key :: At(s.lost, key, 0.0) >= 0.0
    requires e.Log? || e.Side? ==> Spend(e.row) >= 0.0
    ensures forall k :: k in Do(s, e).rows ==> Spend(Do(s, e).rows[k]) >= 0.0
    ensures forall key :: At(Do(s, e).lost, key, 0.0) >= 0.0
  {
    var s' := Do(s, e);
    forall key ensures At(s'.lost, key, 0.0) >= 0.0 {
      assert At(s.lost, key, 0.0) >= 0.0;
      if e.Log? || e.Side? {
        assert Wasted(s.rows, e.row) >= 0.0;
        assert At(s.lost, OwnerOf(e.row), 0.0) >= 0.0;
        assert s'.lost == Lost(s, e.row);
      }
    }
  }

  lemma {:induction false} LossesNonNegative(states: seq<State>, steps: seq<Step>, i: nat)
    requires IsRun(states, steps) && NonNegative(states, steps) && i < |states|
    ensures forall k :: k in states[i].rows ==> Spend(states[i].rows[k]) >= 0.0
    ensures forall key :: At(states[i].lost, key, 0.0) >= 0.0
  {
    if i > 0 {
      LossesNonNegative(states, steps, i - 1);
      assert StepAt(states, steps, i - 1);
      StepLosesNothingBack(states[i - 1], steps[i - 1]);
    }
  }

  lemma NothingPending(s: State, key: GateKey)
    requires forall p :: p in s.busy ==> !s.busy[p].Logged?
    ensures Total(Pending(s.busy, key)) == 0.0
  {
    assert Pending(s.busy, key) == map[];
  }

  /** At rest the gate never under-counts what storage would report. */
  lemma NeverUndercountsAtRest(states: seq<State>, steps: seq<Step>, i: nat, key: GateKey)
    requires IsRun(states, steps) && NonNegative(states, steps) && i < |states|
    requires key in states[i].gate.seeded
    requires forall p :: p in states[i].busy ==> !states[i].busy[p].Logged?
    ensures At(states[i].gate.spent, key, 0.0) >= Recount(states[i].rows, key)
  {
    RunningTotalRefinesRecount(states, steps, i, key);
    LossesNonNegative(states, steps, i);
    NothingPending(states[i], key);
  }

  /** Every write so far was the first attempt at its key. */
  ghost predicate AllNew(states: seq<State>, steps: seq<Step>, i: nat)
    requires |states| == |steps| + 1 && i <= |steps|
  {
    forall j :: 0 <= j < i && (steps[j].Log? || steps[j].Side?) ==> steps[j].row.key !in states[j].rows
  }

  lemma {:induction false} NothingLost(states: seq<State>, steps: seq<Step>, i: nat, key: GateKey)
    requires IsRun(states, steps) && i < |states| && AllNew(states, steps, i)
    ensures At(states[i].lost, key, 0.0) == 0.0
  {
    if i > 0 {
      NothingLost(states, steps, i - 1, key);
      assert StepAt(states, steps, i - 1);
    }
  }

  /** When every recorded key is new, the running total at rest is exactly the re-aggregation. */
  lemma ExactWhenKeysAreNew(states: seq<State>, steps: seq<Step>, i: nat, key: GateKey)
    requires IsRun(states, steps) && i < |states| && AllNew(states, steps, i)
    requires key in states[i].gate.seeded
    requires forall p :: p in states[i].busy ==> !states[i].busy[p].Logged?
    ensures At(states[i].gate.spent, key, 0.0) == Recount(states[i].rows, key)
  {
    RunningTotalRefinesRecount(states, steps, i, key);
    NothingLost(states, steps, i, key);
    NothingPending(states[i], key);
  }

  /** A write for this key after its seeding that cost storage nothing. */
  ghost predicate Harmless(states: seq<State>, steps: seq<Step>, j: nat, key: GateKey)
    requires j < |steps| == |states| - 1
  {
    (steps[j].Log? || steps[j].Side?) && OwnerOf(steps[j].row) == key && key in states[j].gate.seeded
    ==> Wasted(states[j].rows, steps[j].row) == 0.0
  }

  /** What one step adds to the losses of a seeded key. */
  lemma StepLoss(s: State, e: Step, key: GateKey)
    requires Enabled(s, e) && key in Do(s, e).gate.seeded
    ensures key !in s.gate.seeded ==> At(Do(s, e).lost, key, 0.0) == 0.0
    ensures key in s.gate.seeded ==>
              At(Do(s, e).lost, key, 0.0) ==
              At(s.lost, key, 0.0) + if (e.Log? || e.Side?) && OwnerOf(e.row) == key then Wasted(s.rows, e.row) else 0.0
  {
  }

  /** A key never leaves the seeded ones. */
  lemma {:induction false} NotYetSeeded(states: seq<State>, steps: seq<Step>, i: nat, key: GateKey)
    requires IsRun(states, steps) && i < |states| && key !in states[i].gate.seeded
    ensures forall j :: 0 <= j <= i ==> key !in states[j].gate.seeded
  {
    if i > 0 {
      assert StepAt(states, steps, i - 1);
      NotYetSeeded(states, steps, i - 1, key);
    }
  }

  lemma {:induction false} LostIffWasted(states: seq<State>, steps: seq<Step>, i: nat, key: GateKey)
    requires IsRun(states, steps) && NonNegative(states, steps) && i < |states|
    requires key in states[i].gate.seeded
    ensures At(states[i].lost, key, 0.0) == 0.0 <==> forall j :: 0 <= j < i ==> Harmless(states, steps, j, key)
  {
    if i > 0 {
      var s, e := states[i - 1], steps[i - 1];
      assert StepAt(states, steps, i - 1);
      StepLoss(s, e, key);
      LossesNonNegative(states, steps, i - 1);
      if key in s.gate.seeded {
        LostIffWasted(states, steps, i - 1, key);
        assert At(s.lost, key, 0.0) >= 0.0;
        assert e.Log? || e.Side? ==> Wasted(s.rows, e.row) >= 0.0;
        assert At(states[i].lost, key, 0.0) == 0.0 <==>
               At(s.lost, key, 0.0) == 0.0 && Harmless(states, steps, i - 1, key);
      } else {
        NotYetSeeded(states, steps, i - 1, key);
        assert forall j :: 0 <= j < i ==> Harmless(states, steps, j, key);
      }
    }
  }

  /**
   * The exact condition, told by the run: at rest the two agree if and only if no write for the key since
   * its seeding was dropped with a price on it or replaced a row that had one.
   */
  lemma ExactIffNothingLost(states: seq<State>, steps: seq<Step>, i: nat, key: GateKey)
    requires IsRun(states, steps) && NonNegative(states, steps) && i < |states| && key in states[i].gate.seeded
    requires forall p :: p in states[i].busy ==> !states[i].busy[p].Logged?
    ensures At(states[i].gate.spent, key, 0.0) == Recount(states[i].rows, key) <==>
            forall j :: 0 <= j < i ==> Harmless(states, steps, j, key)
  {
    RunningTotalRefinesRecount(states, steps, i, key);
    NothingPending(states[i], key);
    LostIffWasted(states, steps, i, key);
  }
}
