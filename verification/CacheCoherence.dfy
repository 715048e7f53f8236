// Any number of pipelines look up, call, record and put concurrently. The resume cache
// and storage are two separate maps updated at two separate moments; this is what ties them.
module CacheCoherence {
  import opened Common
  import opened Rows
  import opened MemoryStorage
  import opened Calls

  datatype Pid = Pid(id: nat)

  /** A pipeline between a cache miss and the end of its bookkeeping. */
  datatype Busy =
    | Calling(site: CallSite)
    | Recorded(site: CallSite, outcome: CallOutcome)  // after record_call, before put

  datatype State = State(rows: map<Key, RunRow>, cache: map<Key, CachedResponse>, busy: map<Pid, Busy>)

  datatype Step =
    | Miss(p: Pid, site: CallSite)
    | Answer(p: Pid, outcome: CallOutcome)
    | Settle(p: Pid)
    | BuildFailure(row: RunRow)  // a prompt builder raised: an error row with its own key
    | Reload                     // populate_from_storage

  predicate Enabled(s: State, e: Step) {
    match e
    case Miss(p, site) => p !in s.busy && site.key !in s.cache
    case Answer(p, _) => p in s.busy && s.busy[p].Calling?
    case Settle(p) => p in s.busy && s.busy[p].Recorded?
    case BuildFailure(row) => Truthy(row.errorClass)
    case Reload => true
  }

  function Do(s: State, e: Step): State
    requires Enabled(s, e)
  {
    match e
    case Miss(p, site) => s.(busy := s.busy[p := Calling(site)])
    case Answer(p, o) =>
      s.(rows := Upsert(s.rows, RowFor(s.busy[p].site, o)), busy := s.busy[p := Recorded(s.busy[p].site, o)])
    case Settle(p) =>
      var b := s.busy[p];
      s.(cache := if VerdictOf(b.outcome).cacheable
                  then s.cache[b.site.key := CachedFor(b.site, b.outcome)] else s.cache,
         busy := s.busy - {p})
    case BuildFailure(row) => s.(rows := Upsert(s.rows, row))
    case Reload => s.(cache := PrefetchView(s.rows, true, MIN_USABLE_RESPONSE_LEN))
  }

  /** Benchmark.initialize: the cache starts as what storage serves. */
  ghost predicate Init(s: State) {
    && WellKeyed(s.rows)
    && s.cache == PrefetchView(s.rows, true, MIN_USABLE_RESPONSE_LEN)
    && s.busy == map[]
  }

  ghost predicate IsRun(states: seq<State>, steps: seq<Step>) {
    && |states| == |steps| + 1
    && Init(states[0])
    && forall i :: 0 <= i < |steps| ==> Enabled(states[i], steps[i]) && states[i + 1] == Do(states[i], steps[i])
  }

  predicate UsableKey(s: State, k: Key) {
    k in s.rows && Usable(s.rows[k])
  }

  /** p has recorded a cacheable answer for k and not yet put it. */
  predicate HoldsFor(s: State, p: Pid, k: Key) {
    p in s.busy && s.busy[p].Recorded? && s.busy[p].site.key == k && VerdictOf(s.busy[p].outcome).cacheable
  }

  ghost predicate Coherent(s: State) {
    && (forall k :: UsableKey(s, k) ==> k in s.cache || exists p :: HoldsFor(s, p, k))
    && (forall k :: k in s.cache && |s.cache[k].response| >= MIN_USABLE_RESPONSE_LEN ==> UsableKey(s, k))
  }

  ghost predicate Inv(s: State) {
    && Coherent(s)
    && forall p, k :: HoldsFor(s, p, k) && |s.busy[p].outcome.response.value| >= MIN_USABLE_RESPONSE_LEN ==>
      UsableKey(s, k)
  }

  /** A usable row is final: no step changes it. */
  lemma UsableRowsAreFinal(s: State, e: Step, k: Key)
    requires Enabled(s, e) && UsableKey(s, k)
    ensures UsableKey(Do(s, e), k) && Do(s, e).rows[k] == s.rows[k]
  {
  }

  lemma AnswerKeepsInv(s: State, p: Pid, o: CallOutcome)
    requires Inv(s) && Enabled(s, Answer(p, o))
    ensures Inv(Do(s, Answer(p, o)))
  {
    var s' := Do(s, Answer(p, o));
    var site := s.busy[p].site;
    UsableIffCacheableAndLong(site, o);
    forall k | UsableKey(s', k) ensures k in s'.cache || exists q :: HoldsFor(s', q, k) {
      if UsableKey(s, k) {
        if k !in s.cache {
          var q :| HoldsFor(s, q, k);
          assert HoldsFor(s', q, k);
        }
      } else {
        assert HoldsFor(s', p, k);
      }
    }
    forall k | UsableKey(s, k) ensures UsableKey(s', k) {
      UsableRowsAreFinal(s, Answer(p, o), k);
    }
    forall q, k | HoldsFor(s', q, k) && |s'.busy[q].outcome.response.value| >= MIN_USABLE_RESPONSE_LEN
      ensures UsableKey(s', k)
    {
      if q != p {
        assert HoldsFor(s, q, k);
      }
    }
  }

  lemma SettleKeepsInv(s: State, p: Pid)
    requires Inv(s) && Enabled(s, Settle(p))
    ensures Inv(Do(s, Settle(p)))
  {
    var s' := Do(s, Settle(p));
    forall k | UsableKey(s', k) ensures k in s'.cache || exists q :: HoldsFor(s', q, k) {
      assert UsableKey(s, k);
      if k !in s'.cache {
        var q :| HoldsFor(s, q, k);
        assert q != p;
        assert HoldsFor(s', q, k);
      }
    }
    forall k | k in s'.cache && |s'.cache[k].response| >= MIN_USABLE_RESPONSE_LEN ensures UsableKey(s', k) {
      if VerdictOf(s.busy[p].outcome).cacheable && k == s.busy[p].site.key {
        assert HoldsFor(s, p, k);
      }
    }
    forall q, k | HoldsFor(s', q, k) ensures HoldsFor(s, q, k) {
    }
  }

  lemma StepKeepsInv(s: State, e: Step)
    requires Inv(s) && Enabled(s, e)
    ensures Inv(Do(s, e))
  {
    var s' := Do(s, e);
    match e {
      case Miss(p, site) =>
        assert forall q, k :: HoldsFor(s', q, k) <==> HoldsFor(s, q, k);
      case Answer(p, o) => AnswerKeepsInv(s, p, o);
      case Settle(p) => SettleKeepsInv(s, p);
      case BuildFailure(row) =>
        assert forall q, k :: HoldsFor(s', q, k) <==> HoldsFor(s, q, k);
        assert forall k :: UsableKey(s', k) <==> UsableKey(s, k);
      case Reload =>
        assert forall q, k :: HoldsFor(s', q, k) <==> HoldsFor(s, q, k);
    }
  }

  /** Main theorem: cache and storage are coherent in every reachable state. */
  lemma {:induction false} AlwaysCoherent(states: seq<State>, steps: seq<Step>, i: nat)
    requires IsRun(states, steps) && i < |states|
    ensures Inv(states[i]) && Coherent(states[i])
  {
    if i > 0 {
      AlwaysCoherent(states, steps, i - 1);
      StepKeepsInv(states[i - 1], steps[i - 1]);
    }
  }

  /** A long cached entry is backed by a usable row now and at every later point of the run. */
  lemma {:induction false} CachedEntriesStayBacked(states: seq<State>, steps: seq<Step>, i: nat, j: nat, k: Key)
    requires IsRun(states, steps) && i <= j < |states|
    requires k in states[i].cache && |states[i].cache[k].response| >= MIN_USABLE_RESPONSE_LEN
    ensures UsableKey(states[i], k)
    ensures UsableKey(states[j], k) && states[j].rows[k] == states[i].rows[k]
    decreases j
  {
    AlwaysCoherent(states, steps, i);
    if i < j {
      CachedEntriesStayBacked(states, steps, i, j - 1, k);
      UsableRowsAreFinal(states[j - 1], steps[j - 1], k);
    }
  }

  /** A pipeline's own three steps, from a cache miss to the end of its bookkeeping. */
  function AfterAnswer(s: State, p: Pid, site: CallSite, o: CallOutcome): State
    requires p !in s.busy && site.key !in s.cache
  {
    Do(Do(Do(s, Miss(p, site)), Answer(p, o)), Settle(p))
  }

  /**
   * A cacheable answer is served for the rest of the run, and survives a reload if and only if it is long
   * enough: the verdict of the pipeline does not look at the length, storage does.
   */
  lemma SurvivesReloadIff(s: State, p: Pid, site: CallSite, o: CallOutcome)
    requires Inv(s) && p !in s.busy && site.key !in s.cache
    requires forall q :: !HoldsFor(s, q, site.key)
    requires VerdictOf(o).cacheable
    ensures var s' := AfterAnswer(s, p, site, o);
            && site.key in s'.cache
            && (site.key in Do(s', Reload).cache <==> |o.response.value| >= 20)
  {
    UsableIffCacheableAndLong(site, o);
    assert !UsableKey(s, site.key);
  }

  /** In every reachable state: a reload keeps exactly the entries whose key has a usable row. */
  lemma ReloadKeepsIff(states: seq<State>, steps: seq<Step>, i: nat, k: Key)
    requires IsRun(states, steps) && i < |states| && k in states[i].cache
    ensures k in Do(states[i], Reload).cache <==> UsableKey(states[i], k)
    ensures |states[i].cache[k].response| >= MIN_USABLE_RESPONSE_LEN ==> k in Do(states[i], Reload).cache
  {
    AlwaysCoherent(states, steps, i);
  }

  /** The short case: served for the rest of the run and then forgotten. */
  lemma ShortAnswersAreForgotten(s: State, p: Pid, site: CallSite, o: CallOutcome)
    requires Init(s) && site.key !in s.cache
    requires VerdictOf(o).cacheable && |o.response.value| < MIN_USABLE_RESPONSE_LEN
    ensures var s' := AfterAnswer(s, p, site, o);
            site.key in s'.cache && site.key !in Do(s', Reload).cache
  {
    SurvivesReloadIff(s, p, site, o);
  }
}
