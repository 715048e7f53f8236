// Which candidates have failed too often: two thresholds over a growing error history.
module AliveFilter {
  import opened Common

  const DEAD_ERROR_CLASSES: set<string> := {
    "LLMCallTimeout", "LLMProviderError", "ReadTimeout", "ConnectTimeout", "PoolTimeout", "WriteTimeout",
    "TimeoutError",
    "RateLimitError", "APITimeoutError", "APIConnectionError", "APIError", "OpenAIError", "InternalServerError",
    "ServiceUnavailableError", "HTTPStatusError", "EmptyChoices", "ProviderError", "JsonModeUnsupported",
    "ParametersUnsupported", "EmptyContent", "TruncatedDegenerate", "ContextOverflow", "ModelNotFound"
  }

  const TRANSIENT_ERROR_CLASSES: set<string> := {
    "RateLimited", "LLMCallTimeout", "ReadTimeout", "ConnectTimeout", "PoolTimeout", "WriteTimeout", "TimeoutError",
    "APITimeoutError", "APIConnectionError", "RateLimitError", "StreamInterrupted"
  }

  type History = map<string, seq<string>>

  predicate Permanent(e: string) {
    e in DEAD_ERROR_CLASSES && e !in TRANSIENT_ERROR_CLASSES
  }

  predicate Transient(e: string) {
    e in TRANSIENT_ERROR_CLASSES
  }

  function Count(errs: seq<string>, p: string -> bool): nat {
    if errs == [] then 0 else Count(errs[..|errs| - 1], p) + if p(errs[|errs| - 1]) then 1 else 0
  }

  datatype Death = PermanentErrors(count: nat) | TransientErrors(count: nat)

  const TIMEOUT_THRESHOLD := 3

  function CauseOfDeath(model: string, history: History): Option<Death> {
    if model !in history then None
    else
      var permanent, transient := Count(history[model], Permanent), Count(history[model], Transient);
      if permanent >= TIMEOUT_THRESHOLD then Some(PermanentErrors(permanent))
      else if transient >= 2 * TIMEOUT_THRESHOLD then Some(TransientErrors(transient))
      else None
  }

  predicate Alive(model: string, history: History) {
    CauseOfDeath(model, history).None?
  }

  /** Histories only ever get longer. */
  ghost predicate Extends(later: History, earlier: History) {
    forall m :: m in earlier ==> m in later && earlier[m] <= later[m]
  }

  lemma {:induction false} CountMonotone(a: seq<string>, b: seq<string>, p: string -> bool)
    requires a <= b
    ensures Count(a, p) <= Count(b, p)
  {
    if |a| < |b| {
      CountMonotone(a, b[..|b| - 1], p);
    } else {
      assert a == b;
    }
  }

  /** Once dead, dead in every longer history. */
  lemma DeathIsFinal(model: string, earlier: History, later: History)
    requires Extends(later, earlier) && !Alive(model, earlier)
    ensures !Alive(model, later)
  {
    CountMonotone(earlier[model], later[model], Permanent);
    CountMonotone(earlier[model], later[model], Transient);
  }

  lemma {:induction false} AllRateLimited(n: nat)
    ensures Count(seq(n, _ => "RateLimited"), Permanent) == 0
    ensures Count(seq(n, _ => "RateLimited"), Transient) == n
  {
    if n > 0 {
      var s := seq(n, _ => "RateLimited");
      assert s[..n - 1] == seq(n - 1, _ => "RateLimited");
      AllRateLimited(n - 1);
    }
  }

  /** A throttled model takes six strikes where a broken one takes three. */
  lemma RateLimitedIsNotPermanent(n: nat, model: string)
    ensures Alive(model, map[model := seq(n, _ => "RateLimited")]) <==> n < 6
  {
    AllRateLimited(n);
  }

  /** Appends one error class to a model's history. */
  function Noted(history: History, model: string, e: string): History {
    history[model := (if model in history then history[model] else []) + [e]]
  }

  lemma ExtendsTrans(c: History, b: History, a: History)
    requires Extends(c, b) && Extends(b, a)
    ensures Extends(c, a)
  {
    forall m | m in a ensures m in c && a[m] <= c[m] {
      assert a[m] <= b[m] <= c[m];
    }
  }

  lemma NotedExtends(history: History, model: string, e: string)
    ensures Extends(Noted(history, model, e), history)
  {
  }

  // ---- death told by the history itself ----

  lemma {:induction false} CountIsSize(errs: seq<string>, p: string -> bool, all: set<nat>)
    requires forall i :: i in all <==> 0 <= i < |errs| && p(errs[i])
    ensures Count(errs, p) == |all|
  {
    if errs == [] {
      assert all == {};
    } else {
      var n := |errs| - 1;
      CountIsSize(errs[..n], p, all - {n});
    }
  }

  /** Positions of entries that are fatal and not transient. */
  function Lasting(errs: seq<string>): set<nat> {
    set i: nat | 0 <= i < |errs| && errs[i] in DEAD_ERROR_CLASSES && errs[i] !in TRANSIENT_ERROR_CLASSES
  }

  function Passing(errs: seq<string>): set<nat> {
    set i: nat | 0 <= i < |errs| && errs[i] in TRANSIENT_ERROR_CLASSES
  }

  /** Dead exactly with three lasting entries or six passing ones; the first is named when both hold. */
  lemma DeadIff(model: string, history: History)
    ensures var errs := At(history, model, []);
            CauseOfDeath(model, history) ==
            if |Lasting(errs)| >= 3 then Some(PermanentErrors(|Lasting(errs)|))
            else if |Passing(errs)| >= 6 then Some(TransientErrors(|Passing(errs)|))
            else None
  {
    var errs := At(history, model, []);
    CountIsSize(errs, Permanent, Lasting(errs));
    CountIsSize(errs, Transient, Passing(errs));
  }
}
