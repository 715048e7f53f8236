// The budget gate under concurrency: any number of pipelines, each with at most one
// reservation, interleave check and record_cost. A storage write may raise in between,
// which loses the call's cost for the gate and leaves its reservation stuck.
module BudgetProtocol {
  import opened Common
  import opened Sums
  import opened BudgetGate

  datatype Pid = Pid(id: nat)

  datatype Hold = Hold(key: GateKey, reservation: real)

  /** `truth` is the money really spent per key, `stuck` what raising writes left reserved, `leaks` how many did. */
  datatype State = State(
    gate: Gate,
    live: map<Pid, Hold>,
    seeds: map<GateKey, real>,
    truth: map<GateKey, real>,
    stuck: map<GateKey, real>,
    leaks: map<GateKey, nat>)

  /** A check may bring any projection the gate comes up with; all of them are at least 0.01. */
  datatype Step =
    | Check(p: Pid, key: GateKey, spendByOp: map<string, real>, projected: real)
    | Settle(p: Pid, costUsd: real, effective: real)
    | Leak(p: Pid, effective: real)

  function LeaksAt(s: State, key: GateKey): nat {
    At(s.leaks, key, 0)
  }

  predicate Enabled(s: State, e: Step) {
    match e
    case Check(p, key, _, projected) => p !in s.live && key.op in s.gate.budgets && projected >= MIN_PROJECTION
    case Settle(p, _, _) => p in s.live
    case Leak(p, _) => p in s.live
  }

  predicate Admits(s: State, e: Step)
    requires e.Check? && Enabled(s, e)
  {
    s.gate.Seeded(e.key, e.spendByOp).Fits(e.key, e.projected)
  }

  function Do(s: State, e: Step): State
    requires Enabled(s, e)
  {
    match e
    case Check(p, key, spendByOp, projected) =>
      var s1 := if key in s.gate.seeded then s
                else s.(seeds := s.seeds[key := At(spendByOp, key.op, 0.0)],
                        truth := s.truth[key := At(spendByOp, key.op, 0.0)]);
      s1.(gate := s.gate.Checked(key, spendByOp, projected),
          live := if Admits(s, e) then s.live[p := Hold(key, projected)] else s.live)
    case Settle(p, cost, eff) =>
      var h := s.live[p];
      s.(gate := s.gate.Recorded(h.key, cost, Some(eff), h.reservation), live := s.live - {p},
         truth := s.truth[h.key := At(s.truth, h.key, 0.0) + eff])
    case Leak(p, eff) =>
      var h := s.live[p];
      s.(live := s.live - {p},
         truth := s.truth[h.key := At(s.truth, h.key, 0.0) + eff],
         stuck := s.stuck[h.key := At(s.stuck, h.key, 0.0) + h.reservation],
         leaks := s.leaks[h.key := LeaksAt(s, h.key) + 1])
  }

  ghost predicate Init(s: State) {
    && s.gate.spent == map[] && s.gate.reserved == map[] && s.gate.seeded == {} && s.gate.lastCost == map[]
    && s.live == map[] && s.seeds == map[] && s.truth == map[] && s.stuck == map[] && s.leaks == map[]
  }

  ghost predicate StepAt(states: seq<State>, steps: seq<Step>, pool: set<Pid>, i: nat)
    requires i < |steps| == |states| - 1
  {
    steps[i].p in pool && Enabled(states[i], steps[i]) && states[i + 1] == Do(states[i], steps[i])
  }

  /** Pipelines come from a fixed pool. */
  ghost predicate IsRun(states: seq<State>, steps: seq<Step>, pool: set<Pid>) {
    && |states| == |steps| + 1
    && Init(states[0])
    && forall i :: 0 <= i < |steps| ==> StepAt(states, steps, pool, i)
  }

  /** Every finished call cost at most c. */
  ghost predicate CostsAtMost(steps: seq<Step>, c: real) {
    forall i :: 0 <= i < |steps| && !steps[i].Check? ==> steps[i].effective <= c
  }

  /** Every finished call cost at most its reservation plus slack. */
  ghost predicate CostsWithin(states: seq<State>, steps: seq<Step>, slack: real)
    requires |states| == |steps| + 1
  {
    forall i :: 0 <= i < |steps| && !steps[i].Check? && steps[i].p in states[i].live ==>
      steps[i].effective <= states[i].live[steps[i].p].reservation + slack
  }

  // ---- outstanding reservations of one key ----

  ghost function Held(live: map<Pid, Hold>, key: GateKey): map<Pid, real> {
    map p | p in live && live[p].key == key :: live[p].reservation
  }

  lemma HeldAdd(live: map<Pid, Hold>, p: Pid, h: Hold, key: GateKey)
    requires p !in live
    ensures var after := Held(live[p := h], key);
            if h.key == key then Total(after) == Total(Held(live, key)) + h.reservation
              && |after| == |Held(live, key)| + 1
            else after == Held(live, key)
  {
    hide Total;
    var before, after := Held(live, key), Held(live[p := h], key);
    if h.key == key {
      assert after == before[p := h.reservation];
      TotalUpdate(before, p, h.reservation);
    } else {
      assert after == before;
    }
  }

  lemma HeldRemove(live: map<Pid, Hold>, p: Pid, key: GateKey)
    requires p in live
    ensures var after := Held(live - {p}, key);
            if live[p].key == key
            then && Total(after) == Total(Held(live, key)) - live[p].reservation
                 && |Held(live, key)| > 0 && |after| == |Held(live, key)| - 1
            else after == Held(live, key)
  {
    hide Total;
    var before, after := Held(live, key), Held(live - {p}, key);
    if live[p].key == key {
      assert after == before - {p};
      TotalRemove(before, p);
      assert before == after[p := live[p].reservation];
    } else {
      assert after == before;
    }
  }

  lemma HeldFitsPool(live: map<Pid, Hold>, key: GateKey, pool: set<Pid>)
    requires live.Keys <= pool
    ensures |Held(live, key)| <= |pool|
  {
    SubsetSize(Held(live, key).Keys, pool);
  }

  // ---- the books of one key, as numbers ----

  /** n * d by repeated addition, to keep the arithmetic linear. */
  ghost function Times(n: nat, d: real): real {
    if n == 0 then 0.0 else Times(n - 1, d) + d
  }

  datatype Account = Account(
    seeded: bool, seed: real, cap: real,
    spent: real, reserved: real,   // the gate's own figures
    truth: real,                   // money really spent
    held: real, calls: nat,        // outstanding reservations and how many
    stuck: real, leaks: nat)       // reservations lost to raising writes and how many
  {
    function Opened(amount: real): Account {
      this.(seeded := true, seed := amount, spent := amount, truth := amount)
    }

    function Admitted(projected: real): Account {
      this.(reserved := reserved + projected, held := held + projected, calls := calls + 1)
    }

    function Settled(reservation: real, effective: real): Account
      requires calls > 0
    {
      this.(spent := spent + effective, truth := truth + effective, reserved := Max(0.0, reserved - reservation),
            held := held - reservation, calls := calls - 1)
    }

    function Leaked(reservation: real, effective: real): Account
      requires calls > 0
    {
      this.(truth := truth + effective, stuck := stuck + reservation, leaks := leaks + 1,
            held := held - reservation, calls := calls - 1)
    }

    /** Reserved is exactly what is outstanding or stuck. */
    ghost predicate Balanced() {
      && reserved == held + stuck
      && held >= 0.0 && stuck >= 0.0
      && (!seeded ==> calls == 0 && held == 0.0 && stuck == 0.0 && leaks == 0)
    }

    /**
     * True spend plus outstanding reservations plus `slack` per call in flight stays below the larger
     * of the seed and the cap plus `slack` for each of n pipelines and each raising write. The second
     * half bounds what the gate does not know of.
     */
    ghost predicate Bounded(n: nat, slack: real) {
      seeded ==>
        && truth + held + Times(calls, slack) <= Max(seed, cap + Times(n + leaks, slack))
        && truth <= spent + stuck + Times(leaks, slack)
    }
  }

  lemma {:induction false} TimesIsProduct(n: nat, d: real)
    ensures Times(n, d) == n as real * d
  {
    if n > 0 {
      TimesIsProduct(n - 1, d);
      assert n as real * d == (n - 1) as real * d + d;
    }
  }

  lemma {:induction false} TimesMonotone(m: nat, n: nat, d: real)
    requires m <= n && d >= 0.0
    ensures Times(m, d) <= Times(n, d)
  {
    if m < n {
      TimesMonotone(m, n - 1, d);
    }
  }

  lemma {:induction false} TimesSum(m: nat, n: nat, d: real)
    ensures Times(m + n, d) == Times(m, d) + Times(n, d)
  {
    if n > 0 {
      TimesSum(m, n - 1, d);
    }
  }

  lemma OpenedBounded(a: Account, amount: real, n: nat, slack: real)
    requires a.Balanced() && !a.seeded && slack >= 0.0
    ensures a.Opened(amount).Balanced() && a.Opened(amount).Bounded(n, slack)
  {
  }

  lemma AdmittedBounded(a: Account, projected: real, n: nat, slack: real)
    requires a.Balanced() && a.seeded && a.Bounded(n, slack) && slack >= 0.0 && projected >= 0.0
    requires a.spent + a.reserved + projected <= a.cap && a.calls < n
    ensures a.Admitted(projected).Balanced() && a.Admitted(projected).Bounded(n, slack)
  {
    TimesMonotone(a.calls + 1, n, slack);
    TimesSum(n, a.leaks, slack);
  }

  lemma SettledBounded(a: Account, reservation: real, effective: real, n: nat, slack: real)
    requires a.Balanced() && a.calls > 0 && a.Bounded(n, slack) && slack >= 0.0
    requires a.held >= reservation
    ensures a.Settled(reservation, effective).Balanced()
    ensures effective <= reservation + slack ==> a.Settled(reservation, effective).Bounded(n, slack)
  {
  }

  lemma LeakedBounded(a: Account, reservation: real, effective: real, n: nat, slack: real)
    requires a.Balanced() && a.calls > 0 && a.Bounded(n, slack) && slack >= 0.0
    requires a.held >= reservation >= 0.0
    ensures a.Leaked(reservation, effective).Balanced()
    ensures effective <= reservation + slack ==> a.Leaked(reservation, effective).Bounded(n, slack)
  {
    TimesMonotone(n + a.leaks, n + a.leaks + 1, slack);
  }

  // ---- the state's accounts ----

  ghost function WithHeld(a: Account, held: map<Pid, real>): Account {
    a.(held := Total(held), calls := |held|)
  }

  ghost function Cap(s: State, key: GateKey): real {
    if key.op in s.gate.budgets then s.gate.budgets[key.op].capUsd else 0.0
  }

  /** The part of an account that is not a sum over outstanding calls. */
  ghost function Figures(s: State, key: GateKey): Account {
    Account(key in s.gate.seeded, At(s.seeds, key, 0.0), Cap(s, key),
            At(s.gate.spent, key, 0.0), At(s.gate.reserved, key, 0.0),
            At(s.truth, key, 0.0), 0.0, 0, At(s.stuck, key, 0.0), LeaksAt(s, key))
  }

  ghost function AccountOf(s: State, key: GateKey): Account {
    WithHeld(Figures(s, key), Held(s.live, key))
  }

  ghost function CheckedAccount(s: State, e: Step): Account
    requires e.Check? && Enabled(s, e)
  {
    var a := AccountOf(s, e.key);
    var b := if a.seeded then a else a.Opened(At(e.spendByOp, e.key.op, 0.0));
    if Admits(s, e) then b.Admitted(e.projected) else b
  }

  lemma CheckOtherFigures(s: State, e: Step, key: GateKey)
    requires e.Check? && Enabled(s, e) && key != e.key
    ensures Figures(Do(s, e), key) == Figures(s, key)
  {
  }

  lemma CheckOwnFigures(s: State, e: Step)
    requires e.Check? && Enabled(s, e)
    ensures var a := Figures(s, e.key);
            var b := if a.seeded then a else a.Opened(At(e.spendByOp, e.key.op, 0.0));
            Figures(Do(s, e), e.key) == if Admits(s, e) then b.(reserved := b.reserved + e.projected) else b
  {
  }

  lemma CheckMovesHeld(s: State, e: Step, key: GateKey)
    requires e.Check? && Enabled(s, e)
    ensures var held, held' := Held(s.live, key), Held(Do(s, e).live, key);
            if key == e.key && Admits(s, e) then Total(held') == Total(held) + e.projected && |held'| == |held| + 1
            else held' == held
  {
    if Admits(s, e) {
      HeldAdd(s.live, e.p, Hold(e.key, e.projected), key);
      assert Do(s, e).live == s.live[e.p := Hold(e.key, e.projected)];
    } else {
      assert Do(s, e).live == s.live;
    }
  }

  lemma CheckMovesAccount(s: State, e: Step, key: GateKey)
    requires e.Check? && Enabled(s, e)
    ensures AccountOf(Do(s, e), key) == if key == e.key then CheckedAccount(s, e) else AccountOf(s, key)
  {
    hide Figures;
    hide Held;
    hide Do;
    hide Admits;
    if key == e.key {
      CheckOwnFigures(s, e);
    } else {
      CheckOtherFigures(s, e, key);
    }
    CheckMovesHeld(s, e, key);
  }

  lemma FinishFigures(s: State, e: Step, key: GateKey)
    requires !e.Check? && Enabled(s, e)
    ensures var h, a := s.live[e.p], Figures(s, key);
            Figures(Do(s, e), key) ==
            if key != h.key then a
            else if e.Settle?
            then a.(spent := a.spent + e.effective, truth := a.truth + e.effective,
                     reserved := Max(0.0, a.reserved - h.reservation))
            else a.(truth := a.truth + e.effective, stuck := a.stuck + h.reservation, leaks := a.leaks + 1)
  {
  }

  lemma FinishMovesHeld(s: State, e: Step, key: GateKey)
    requires !e.Check? && Enabled(s, e)
    ensures var h, held, held' := s.live[e.p], Held(s.live, key), Held(Do(s, e).live, key);
            if key == h.key then Total(held') == Total(held) - h.reservation && |held| > 0 && |held'| == |held| - 1
            else held' == held
  {
    HeldRemove(s.live, e.p, key);
    assert Do(s, e).live == s.live - {e.p};
  }

  lemma FinishMovesAccount(s: State, e: Step, key: GateKey)
    requires !e.Check? && Enabled(s, e)
    ensures s.live[e.p].key == key ==> AccountOf(s, key).calls > 0
    ensures var h := s.live[e.p];
            AccountOf(Do(s, e), key) ==
            if key != h.key then AccountOf(s, key)
            else if e.Settle? then AccountOf(s, key).Settled(h.reservation, e.effective)
            else AccountOf(s, key).Leaked(h.reservation, e.effective)
  {
    FinishFigures(s, e, key);
    FinishMovesHeld(s, e, key);
    var h := s.live[e.p];
    var before, after := Held(s.live, key), Held(Do(s, e).live, key);
    assert AccountOf(Do(s, e), key) == WithHeld(Figures(Do(s, e), key), after);
    hide Figures;
    hide Held;
    hide Do;
    hide Total;
    if key == h.key {
      assert WithHeld(Figures(s, key), before).calls == |after| + 1;
    }
  }

  ghost predicate Holders(s: State, pool: set<Pid>) {
    && s.live.Keys <= pool
    && (forall p :: p in s.live ==> s.live[p].reservation >= MIN_PROJECTION)
    && (forall p :: p in s.live ==> s.live[p].key in s.gate.seeded)
  }

  ghost predicate Inv(s: State, pool: set<Pid>, slack: real) {
    && Holders(s, pool)
    && forall key :: AccountOf(s, key).Balanced() && AccountOf(s, key).Bounded(|pool|, slack)
  }

  lemma HoldingFits(s: State, p: Pid, pool: set<Pid>)
    requires Holders(s, pool) && p in s.live
    ensures AccountOf(s, s.live[p].key).held >= s.live[p].reservation
  {
    var key := s.live[p].key;
    HeldRemove(s.live, p, key);
    TotalNonNegative(Held(s.live - {p}, key));
  }

  lemma AdmitsWithinCap(s: State, e: Step)
    requires e.Check? && Enabled(s, e) && Admits(s, e)
    ensures var a := Figures(s, e.key);
            var b := if a.seeded then a else a.Opened(At(e.spendByOp, e.key.op, 0.0));
            b.spent + b.reserved + e.projected <= b.cap
  {
  }

  lemma CheckedIsBounded(s: State, e: Step, pool: set<Pid>, slack: real)
    requires Inv(s, pool, slack) && e.Check? && Enabled(s, e) && e.p in pool && slack >= 0.0
    ensures CheckedAccount(s, e).Balanced() && CheckedAccount(s, e).Bounded(|pool|, slack)
  {
    var a := AccountOf(s, e.key);
    assert a.Balanced() && a.Bounded(|pool|, slack);
    var b := if a.seeded then a else a.Opened(At(e.spendByOp, e.key.op, 0.0));
    hide Account.Balanced;
    hide Account.Bounded;
    hide Admits;
    hide Figures;
    hide Held;
    if !a.seeded {
      OpenedBounded(a, At(e.spendByOp, e.key.op, 0.0), |pool|, slack);
    }
    if Admits(s, e) {
      AdmitsWithinCap(s, e);
      HeldFitsPool(s.live, e.key, pool - {e.p});
      AdmittedBounded(b, e.projected, |pool|, slack);
    }
  }

  lemma CheckKeepsInv(s: State, e: Step, pool: set<Pid>, slack: real)
    requires Inv(s, pool, slack) && e.Check? && Enabled(s, e) && e.p in pool && slack >= 0.0
    ensures Inv(Do(s, e), pool, slack)
  {
    forall key ensures AccountOf(Do(s, e), key).Balanced() && AccountOf(Do(s, e), key).Bounded(|pool|, slack) {
      CheckMovesAccount(s, e, key);
      if key == e.key {
        CheckedIsBounded(s, e, pool, slack);
      }
    }
  }

  lemma FinishKeepsInv(s: State, e: Step, pool: set<Pid>, slack: real)
    requires Inv(s, pool, slack) && !e.Check? && Enabled(s, e) && slack >= 0.0
    requires e.effective <= s.live[e.p].reservation + slack
    ensures Inv(Do(s, e), pool, slack)
  {
    var h := s.live[e.p];
    HoldingFits(s, e.p, pool);
    forall key ensures AccountOf(Do(s, e), key).Balanced() && AccountOf(Do(s, e), key).Bounded(|pool|, slack) {
      FinishMovesAccount(s, e, key);
      var a := AccountOf(s, key);
      assert a.Balanced() && a.Bounded(|pool|, slack);
      if key == h.key && e.Settle? {
        SettledBounded(a, h.reservation, e.effective, |pool|, slack);
      } else if key == h.key {
        LeakedBounded(a, h.reservation, e.effective, |pool|, slack);
      }
    }
  }

  lemma {:induction false} RunKeepsInv(states: seq<State>, steps: seq<Step>, pool: set<Pid>, slack: real, i: nat)
    requires IsRun(states, steps, pool) && CostsWithin(states, steps, slack) && slack >= 0.0 && i < |states|
    ensures Inv(states[i], pool, slack)
  {
    if i == 0 {
      forall key ensures AccountOf(states[0], key).Balanced() && AccountOf(states[0], key).Bounded(|pool|, slack) {
        assert Held(states[0].live, key) == map[];
      }
    } else {
      RunKeepsInv(states, steps, pool, slack, i - 1);
      assert StepAt(states, steps, pool, i - 1);
      if steps[i - 1].Check? {
        CheckKeepsInv(states[i - 1], steps[i - 1], pool, slack);
      } else {
        FinishKeepsInv(states[i - 1], steps[i - 1], pool, slack);
      }
    }
  }

  // ---- main results ----

  /** Costs are finite, so every run stays within some slack. */
  lemma {:induction false} SomeSlack(steps: seq<Step>) returns (slack: real)
    ensures slack >= 0.0
    ensures forall j :: 0 <= j < |steps| && !steps[j].Check? ==> steps[j].effective <= slack
  {
    if steps == [] {
      slack := 0.0;
    } else {
      var n := |steps| - 1;
      slack := SomeSlack(steps[..n]);
      if !steps[n].Check? {
        slack := Max(slack, steps[n].effective);
      }
      forall j | 0 <= j < |steps| && !steps[j].Check? ensures steps[j].effective <= slack {
        if j < n {
          assert steps[..n][j] == steps[j];
        }
      }
    }
  }

  lemma {:induction false} HoldersInRun(states: seq<State>, steps: seq<Step>, pool: set<Pid>, i: nat)
    requires IsRun(states, steps, pool) && i < |states|
    ensures Holders(states[i], pool)
  {
    if i > 0 {
      HoldersInRun(states, steps, pool, i - 1);
      assert StepAt(states, steps, pool, i - 1);
    }
  }

  /** Reserved is outstanding plus stranded, in every run: nothing is asked of the costs. */
  lemma AlwaysBalanced(states: seq<State>, steps: seq<Step>, pool: set<Pid>, i: nat, key: GateKey)
    requires IsRun(states, steps, pool) && i < |states|
    ensures AccountOf(states[i], key).Balanced()
  {
    var slack := SomeSlack(steps);
    forall j | 0 <= j < |steps| && !steps[j].Check? && steps[j].p in states[j].live
      ensures steps[j].effective <= states[j].live[steps[j].p].reservation + slack
    {
      HoldersInRun(states, steps, pool, j);
    }
    RunKeepsInv(states, steps, pool, slack, i);
  }

  /** The clamp in record_cost never fires: what is released was reserved. */
  lemma ClampNeverFires(states: seq<State>, steps: seq<Step>, pool: set<Pid>, i: nat, p: Pid)
    requires IsRun(states, steps, pool) && i < |states|
    requires p in states[i].live
    ensures At(states[i].gate.reserved, states[i].live[p].key, 0.0) >= states[i].live[p].reservation
  {
    AlwaysBalanced(states, steps, pool, i, states[i].live[p].key);
    HoldersInRun(states, steps, pool, i);
    HoldingFits(states[i], p, pool);
  }

  lemma OvershootByTimes(states: seq<State>, steps: seq<Step>, pool: set<Pid>, c: real, i: nat, key: GateKey)
    requires c >= MIN_PROJECTION
    requires IsRun(states, steps, pool) && CostsAtMost(steps, c) && i < |states|
    requires key in states[i].gate.seeded
    ensures At(states[i].truth, key, 0.0)
            <= Max(At(states[i].seeds, key, 0.0),
                   Cap(states[i], key) + Times(|pool| + LeaksAt(states[i], key), c - MIN_PROJECTION))
  {
    forall j | 0 <= j < |steps| && !steps[j].Check? && steps[j].p in states[j].live
      ensures steps[j].effective <= states[j].live[steps[j].p].reservation + (c - MIN_PROJECTION)
    {
      HoldersInRun(states, steps, pool, j);
    }
    RunKeepsInv(states, steps, pool, c - MIN_PROJECTION, i);
    var a := AccountOf(states[i], key);
    assert a.Balanced() && a.Bounded(|pool|, c - MIN_PROJECTION);
    TimesMonotone(0, a.calls, c - MIN_PROJECTION);
  }

  /**
   * With call costs at most c (c >= 0.01), the money really spent on a key never exceeds the seeded
   * spend or cap + (pipelines + raising writes) * (c - 0.01), however long the run.
   */
  lemma OvershootBound(states: seq<State>, steps: seq<Step>, pool: set<Pid>, c: real, i: nat, key: GateKey)
    requires c >= MIN_PROJECTION
    requires IsRun(states, steps, pool) && CostsAtMost(steps, c) && i < |states|
    requires key in states[i].gate.seeded
    ensures var s := states[i];
            At(s.truth, key, 0.0) <= Max(At(s.seeds, key, 0.0),
                                    Cap(s, key) + (|pool| + LeaksAt(s, key)) as real * (c - MIN_PROJECTION))
  {
    TimesIsProduct(|pool| + LeaksAt(states[i], key), c - MIN_PROJECTION);
    OvershootByTimes(states, steps, pool, c, i, key);
  }

  lemma {:induction false} TimesZero(n: nat)
    ensures Times(n, 0.0) == 0.0
  {
    if n > 0 {
      TimesZero(n - 1);
    }
  }

  /** If every call costs at most its reservation, spend plus reservations never passes the seed or the cap. */
  lemma NoOvershootWithinReservations(states: seq<State>, steps: seq<Step>, pool: set<Pid>, i: nat, key: GateKey)
    requires IsRun(states, steps, pool) && CostsWithin(states, steps, 0.0) && i < |states|
    requires key in states[i].gate.seeded
    ensures At(states[i].truth, key, 0.0) + Total(Held(states[i].live, key)) <=
            Max(At(states[i].seeds, key, 0.0), Cap(states[i], key))
  {
    RunKeepsInv(states, steps, pool, 0.0, i);
    var a := AccountOf(states[i], key);
    assert a.Bounded(|pool|, 0.0);
    TimesZero(a.calls);
    TimesZero(|pool| + a.leaks);
  }

  /** Without raising writes the gate's own total is the true one. */
  lemma {:induction false} GateKnowsTheTruth(states: seq<State>, steps: seq<Step>, pool: set<Pid>, i: nat, key: GateKey)
    requires IsRun(states, steps, pool) && i < |states|
    requires forall j :: 0 <= j < |steps| ==> !steps[j].Leak?
    ensures key in states[i].gate.seeded ==> At(states[i].truth, key, 0.0) == At(states[i].gate.spent, key, 0.0)
  {
    if i > 0 {
      GateKnowsTheTruth(states, steps, pool, i - 1, key);
      HoldersInRun(states, steps, pool, i - 1);
      assert StepAt(states, steps, pool, i - 1);
      var s, e := states[i - 1], steps[i - 1];
      if !e.Check? {
        FinishFigures(s, e, key);
      } else if key == e.key {
        CheckOwnFigures(s, e);
      } else {
        CheckOtherFigures(s, e, key);
      }
    }
  }
}
