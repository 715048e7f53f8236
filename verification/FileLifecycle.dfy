// FileStorage.initialize / close: connections are opened outside the lock and only
// published under it, so several callers may each hold one for a while.
module FileLifecycle {
  import opened Common

  datatype Caller = Caller(id: nat)
  datatype Conn = Conn(id: nat)

  /** Where an initialize call is between its two critical sections. */
  datatype Phase =
    | Connecting            // saw "not initialized", has no connection yet
    | Prepared(conn: Conn)  // connection opened, not yet offered
    | Spare(conn: Conn)     // another caller published first; about to close its own

  datatype State = State(
    initialized: bool,
    db: Option<Conn>,
    open: set<Conn>,
    inFlight: map<Caller, Phase>,
    used: set<Conn>)

  ghost predicate Init(s: State) {
    s == State(false, None, {}, map[], {})
  }

  datatype Step =
    | Begin(p: Caller)
    | Connect(p: Caller, conn: Conn)
    | Publish(p: Caller)
    | DropSpare(p: Caller)
    | Close

  predicate Enabled(s: State, e: Step) {
    match e
    case Begin(p) => p !in s.inFlight
    case Connect(p, c) => p in s.inFlight && s.inFlight[p].Connecting? && c !in s.used
    case Publish(p) => p in s.inFlight && s.inFlight[p].Prepared?
    case DropSpare(p) => p in s.inFlight && s.inFlight[p].Spare?
    case Close => true
  }

  function Do(s: State, e: Step): State
    requires Enabled(s, e)
  {
    match e
    case Begin(p) =>
      if s.initialized then s else s.(inFlight := s.inFlight[p := Connecting])
    case Connect(p, c) =>
      s.(open := s.open + {c}, used := s.used + {c}, inFlight := s.inFlight[p := Prepared(c)])
    case Publish(p) =>
      var c := s.inFlight[p].conn;
      if s.initialized then s.(inFlight := s.inFlight[p := Spare(c)])
      else s.(db := Some(c), initialized := true, inFlight := s.inFlight - {p})
    case DropSpare(p) =>
      s.(open := s.open - {s.inFlight[p].conn}, inFlight := s.inFlight - {p})
    case Close =>
      if s.db.Some? then s.(open := s.open - {s.db.value}, db := None, initialized := false)
      else s.(initialized := false)
  }

  ghost predicate IsRun(states: seq<State>, steps: seq<Step>) {
    && |states| == |steps| + 1
    && Init(states[0])
    && forall i :: 0 <= i < |steps| ==> Enabled(states[i], steps[i]) && states[i + 1] == Do(states[i], steps[i])
  }

  predicate Holds(s: State, p: Caller, c: Conn) {
    p in s.inFlight && !s.inFlight[p].Connecting? && s.inFlight[p].conn == c
  }

  /** Every open connection has exactly one owner: the published field or one call still in flight. */
  ghost predicate Inv(s: State) {
    && (s.initialized <==> s.db.Some?)
    && s.open <= s.used
    && (forall c :: c in s.open <==> (s.db == Some(c) || exists p :: Holds(s, p, c)))
    && (forall p, c :: Holds(s, p, c) ==> s.db != Some(c))
    && (forall p, q, c :: Holds(s, p, c) && Holds(s, q, c) ==> p == q)
  }

  lemma StepKeepsInv(s: State, e: Step)
    requires Inv(s) && Enabled(s, e)
    ensures Inv(Do(s, e))
  {
    var s' := Do(s, e);
    match e {
      case Begin(p) =>
        assert forall q, c :: Holds(s', q, c) <==> Holds(s, q, c);
      case Connect(p, conn) =>
        assert forall q, c :: Holds(s', q, c) <==> (Holds(s, q, c) || (q == p && c == conn));
        assert Holds(s', p, conn);
      case Publish(p) =>
        var conn := s.inFlight[p].conn;
        assert Holds(s, p, conn);
        if s.initialized {
          assert forall q, c :: Holds(s', q, c) <==> Holds(s, q, c);
        } else {
          assert forall q, c :: Holds(s', q, c) <==> (Holds(s, q, c) && q != p);
        }
      case DropSpare(p) =>
        assert Holds(s, p, s.inFlight[p].conn);
        assert forall q, c :: Holds(s', q, c) <==> (Holds(s, q, c) && q != p);
      case Close =>
        assert forall q, c :: Holds(s', q, c) <==> Holds(s, q, c);
    }
  }

  lemma {:induction false} OneOwnerPerConnection(states: seq<State>, steps: seq<Step>, i: nat)
    requires IsRun(states, steps) && i < |states|
    ensures Inv(states[i])
  {
    if i > 0 {
      OneOwnerPerConnection(states, steps, i - 1);
      StepKeepsInv(states[i - 1], steps[i - 1]);
    }
  }

  /** Main theorem: once every call has returned, the only open connection is the published one. */
  lemma NothingLeaksAtRest(states: seq<State>, steps: seq<Step>)
    requires IsRun(states, steps)
    requires states[|steps|].inFlight == map[]
    ensures var s := states[|steps|];
            && s.open == (if s.db.Some? then {s.db.value} else {})
            && (s.initialized <==> s.db.Some?)
  {
    OneOwnerPerConnection(states, steps, |steps|);
    var s := states[|steps|];
    forall c ensures c in s.open <==> s.db == Some(c) {
      assert forall p :: !Holds(s, p, c);
    }
  }

  lemma {:induction false} HeldByCallers(s: State, held: set<Conn>, callers: set<Caller>)
    requires Inv(s)
    requires forall c :: c in held ==> exists p :: p in callers && Holds(s, p, c)
    ensures |held| <= |callers|
  {
    if held != {} {
      var c :| c in held;
      var p :| p in callers && Holds(s, p, c);
      forall d | d in held - {c} ensures exists q :: q in callers - {p} && Holds(s, q, d) {
        var q :| q in callers && Holds(s, q, d);
        assert q != p;
      }
      HeldByCallers(s, held - {c}, callers - {p});
    }
  }

  /** While calls are in flight there is at most one connection per call besides the published one. */
  lemma OpenConnectionsBounded(states: seq<State>, steps: seq<Step>, i: nat)
    requires IsRun(states, steps) && i < |states|
    ensures |states[i].open| <= |states[i].inFlight| + 1
  {
    OneOwnerPerConnection(states, steps, i);
    var s := states[i];
    var held := s.open - (if s.db.Some? then {s.db.value} else {});
    HeldByCallers(s, held, s.inFlight.Keys);
    assert s.open <= held + (if s.db.Some? then {s.db.value} else {});
    SubsetSize(s.open, held + (if s.db.Some? then {s.db.value} else {}));
  }
}
