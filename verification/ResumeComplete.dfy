// Resume is complete: after a run in which every call was usable, running the same
// pipelines again finds every prompt in the cache and rebuilds the same context.
module ResumeComplete {
  import opened Common
  import opened Rows
  import opened MemoryStorage
  import opened Calls
  import opened StageGraph

  /** What a pipeline accumulates for its later stages. */
  datatype Context = Context(
    outputs: map<string, Option<string>>,
    parentHashes: map<string, string>,
    texts: map<string, string>)

  const EMPTY := Context(map[], map[], map[])

  /** Everything two runs share: plug-ins, stage order, winner substrates and row identity. */
  datatype World = World(
    order: seq<Stage>,
    build: (Stage, string, Context) -> (string, string),
    parse: (Stage, string, string, int, int) -> Option<string>,
    hash: (string, string) -> string,
    substrates: map<(string, string), RunRow>,
    provider: string,
    thinking: string,
    tag: string)

  /** The previous round's winner replaces this candidate's own parent output, where there is one. */
  function ApplySubstrate(w: World, stage: Stage, unit: string, ctx: Context): Context {
    if stage.parent.None? || (stage.parent.value, unit) !in w.substrates || stage.parent.value !in Ids(w.order) then ctx
    else
      var p, row := stage.parent.value, w.substrates[(stage.parent.value, unit)];
      var parsed := if row.response.None? then None
                    else w.parse(ById(w.order, p), unit, row.response.value, row.inputTokens.GetOr(0),
                      row.outputTokens.GetOr(0));
      Context(ctx.outputs[p := parsed], ctx.parentHashes[p := row.key.compositeHash],
        ctx.texts[p := row.response.GetOr("")])
  }

  function PromptKey(w: World, model: string, unit: string, stage: Stage, ctx: Context): Key {
    var (sys, usr) := w.build(stage, unit, ApplySubstrate(w, stage, unit, ctx));
    Key(w.hash(sys, usr), w.provider, model, w.thinking)
  }

  /** The context after a cache hit. */
  function AfterHit(w: World, unit: string, stage: Stage, ctx: Context, hash: string, c: CachedResponse): Context {
    var before := ApplySubstrate(w, stage, unit, ctx);
    Context(before.outputs[stage.id := w.parse(stage, unit, c.response, c.inputTokens, c.outputTokens)],
            before.parentHashes[stage.id := hash], before.texts[stage.id := c.response])
  }

  /** The context after a live call. */
  function AfterCall(w: World, unit: string, stage: Stage, ctx: Context, hash: string, o: CallOutcome): Context {
    var before := ApplySubstrate(w, stage, unit, ctx);
    Context(before.outputs[stage.id := o.parsed],
            before.parentHashes[stage.id := hash], before.texts[stage.id := o.response.GetOr("")])
  }

  /** A usable call, parsed by the stage's own (deterministic) parser. */
  predicate GoodCall(w: World, unit: string, stage: Stage, o: CallOutcome) {
    && !Truthy(o.errorClass)
    && o.response.Some? && |o.response.value| >= MIN_USABLE_RESPONSE_LEN
    && o.parsed.Some?
    && o.parsed == w.parse(stage, unit, o.response.value, o.inputTokens, o.outputTokens)
  }

  /** One finished stage of a pipeline. */
  datatype Done = Done(key: Key, cached: CachedResponse, after: Context)

  function CtxAfter(log: seq<Done>): Context {
    if log == [] then EMPTY else log[|log| - 1].after
  }

  datatype Phase = Ready | Calling(key: Key) | Recorded(key: Key, cached: CachedResponse, after: Context)

  datatype Pipe = Pipe(model: string, unit: string, log: seq<Done>, phase: Phase) {
    function Ctx(): Context {
      CtxAfter(log)
    }

    /** Every key this pipeline has looked up so far. */
    function Keys(): set<Key> {
      (set d | d in log :: d.key) + (if phase.Ready? then {} else {phase.key})
    }
  }

  datatype Pid = Pid(id: nat)

  datatype State = State(rows: map<Key, RunRow>, cache: map<Key, CachedResponse>, pipes: map<Pid, Pipe>)

  datatype Step = Lookup(p: Pid) | Answer(p: Pid, outcome: CallOutcome) | Put(p: Pid)

  function NextStage(w: World, pipe: Pipe): Stage
    requires |pipe.log| < |w.order|
  {
    w.order[|pipe.log|]
  }

  function NextKey(w: World, pipe: Pipe): Key
    requires |pipe.log| < |w.order|
  {
    PromptKey(w, pipe.model, pipe.unit, NextStage(w, pipe), pipe.Ctx())
  }

  function SiteOf(w: World, pipe: Pipe, key: Key): CallSite
    requires |pipe.log| < |w.order|
  {
    CallSite(key, NextStage(w, pipe).id, pipe.unit, w.tag)
  }

  /** The entry a hit leaves in the log of the stage it served. */
  function HitOf(w: World, pipe: Pipe, key: Key, c: CachedResponse): Done
    requires |pipe.log| < |w.order|
  {
    Done(key, c, AfterHit(w, pipe.unit, NextStage(w, pipe), pipe.Ctx(), key.compositeHash, c))
  }

  /** Guards of a clean run: usable calls, and no two pipelines on one prompt of one model. */
  ghost predicate Enabled(w: World, s: State, e: Step) {
    && e.p in s.pipes
    && var pipe := s.pipes[e.p];
       && |pipe.log| < |w.order|
       && match e
          case Lookup(p) =>
            && pipe.phase.Ready?
            && forall q :: q in s.pipes && q != p ==> NextKey(w, pipe) !in s.pipes[q].Keys()
          case Answer(p, o) =>
            pipe.phase.Calling? && GoodCall(w, pipe.unit, NextStage(w, pipe), o)
          case Put(p) => pipe.phase.Recorded?
  }

  ghost function Do(w: World, s: State, e: Step): State
    requires Enabled(w, s, e)
  {
    var pipe := s.pipes[e.p];
    var stage := NextStage(w, pipe);
    match e
    case Lookup(p) =>
      var key := NextKey(w, pipe);
      var pipe' := if key in s.cache
                   then pipe.(log := pipe.log + [HitOf(w, pipe, key, s.cache[key])])
                   else pipe.(phase := Calling(key));
      s.(pipes := s.pipes[p := pipe'])
    case Answer(p, o) =>
      var site := SiteOf(w, pipe, pipe.phase.key);
      s.(rows := Upsert(s.rows, RowFor(site, o)),
         pipes := s.pipes[p := pipe.(phase := Recorded(pipe.phase.key, CachedFor(site, o),
                                    AfterCall(w, pipe.unit, stage, pipe.Ctx(), pipe.phase.key.compositeHash, o)))])
    case Put(p) =>
      s.(cache := s.cache[pipe.phase.key := pipe.phase.cached],
         pipes := s.pipes[p := pipe.(log := pipe.log + [Done(pipe.phase.key, pipe.phase.cached, pipe.phase.after)],
                                    phase := Ready)])
  }

  /** A run starts with the cache loaded from storage and every pipeline before its first stage. */
  ghost predicate Init(s: State) {
    && WellKeyed(s.rows)
    && s.cache == PrefetchView(s.rows, true, MIN_USABLE_RESPONSE_LEN)
    && forall p :: p in s.pipes ==> s.pipes[p].log == [] && s.pipes[p].phase.Ready?
  }

  ghost predicate IsRun(w: World, states: seq<State>, steps: seq<Step>) {
    && |states| == |steps| + 1
    && Init(states[0])
    && forall i :: 0 <= i < |steps| ==> Enabled(w, states[i], steps[i]) && states[i + 1] == Do(w, states[i], steps[i])
  }

  // ---- the second run ----

  /** A pipeline against a fixed cache: its log, or None at the first prompt that would need a call. */
  function Replay(w: World, model: string, unit: string, cache: map<Key, CachedResponse>, n: nat): Option<seq<Done>>
    requires n <= |w.order|
  {
    if n == 0 then Some([])
    else
      var prior := Replay(w, model, unit, cache, n - 1);
      if prior.None? then None
      else
        var ctx := Pipe(model, unit, prior.value, Ready).Ctx();
        var key := PromptKey(w, model, unit, w.order[n - 1], ctx);
        if key !in cache then None
        else Some(prior.value + [Done(key, cache[key],
          AfterHit(w, unit, w.order[n - 1], ctx, key.compositeHash, cache[key]))])
  }

  // ---- what every state of the first run keeps ----

  /** The stored row under k is usable and is what was served. */
  predicate Backed(rows: map<Key, RunRow>, k: Key, c: CachedResponse) {
    k in rows && Usable(rows[k]) && ToCached(rows[k]) == c
  }

  /** Entry i is what the stage does on a hit, from the context the entries before it leave. */
  ghost predicate LogSound(w: World, model: string, unit: string, log: seq<Done>, i: nat)
    requires i < |log| <= |w.order|
  {
    var ctx, d := CtxAfter(log[..i]), log[i];
    && d.key == PromptKey(w, model, unit, w.order[i], ctx)
    && d.after == AfterHit(w, unit, w.order[i], ctx, d.key.compositeHash, d.cached)
  }

  ghost predicate AllSound(w: World, model: string, unit: string, log: seq<Done>) {
    && |log| <= |w.order|
    && forall i :: 0 <= i < |log| ==> LogSound(w, model, unit, log, i)
  }

  ghost predicate AllBacked(rows: map<Key, RunRow>, log: seq<Done>) {
    forall i :: 0 <= i < |log| ==> Backed(rows, log[i].key, log[i].cached)
  }

  ghost predicate PipeInv(w: World, rows: map<Key, RunRow>, pipe: Pipe) {
    && AllSound(w, pipe.model, pipe.unit, pipe.log)
    && AllBacked(rows, pipe.log)
    && (!pipe.phase.Ready? ==> |pipe.log| < |w.order| && pipe.phase.key == NextKey(w, pipe))
    && (pipe.phase.Calling? ==> !(pipe.phase.key in rows && Usable(rows[pipe.phase.key])))
    && (pipe.phase.Recorded? ==>
          && Backed(rows, pipe.phase.key, pipe.phase.cached)
          && pipe.phase.after == AfterHit(w, pipe.unit, NextStage(w, pipe), pipe.Ctx(), pipe.phase.key.compositeHash,
            pipe.phase.cached))
  }

  predicate Holding(s: State, p: Pid, k: Key) {
    p in s.pipes && s.pipes[p].phase.Recorded? && s.pipes[p].phase.key == k
  }

  ghost predicate Covered(s: State) {
    forall k :: k in s.rows && Usable(s.rows[k]) ==> k in s.cache || exists p :: Holding(s, p, k)
  }

  ghost predicate Separate(s: State) {
    forall p, q :: p in s.pipes && q in s.pipes && p != q ==> s.pipes[p].Keys() !! s.pipes[q].Keys()
  }

  ghost predicate CacheBacked(s: State) {
    forall k :: k in s.cache ==> Backed(s.rows, k, s.cache[k])
  }

  ghost predicate PipesSound(w: World, s: State) {
    forall p :: p in s.pipes ==> PipeInv(w, s.rows, s.pipes[p])
  }

  ghost predicate Inv(w: World, s: State) {
    PipesSound(w, s) && CacheBacked(s) && Covered(s) && Separate(s)
  }

  lemma LogGrows(w: World, rows: map<Key, RunRow>, pipe: Pipe, d: Done)
    requires PipeInv(w, rows, pipe) && |pipe.log| < |w.order|
    requires d.key == NextKey(w, pipe) && Backed(rows, d.key, d.cached)
    requires d.after == AfterHit(w, pipe.unit, NextStage(w, pipe), pipe.Ctx(), d.key.compositeHash, d.cached)
    ensures var pipe' := pipe.(log := pipe.log + [d], phase := Ready);
            PipeInv(w, rows, pipe') && pipe'.Keys() == (set e | e in pipe.log :: e.key) + {d.key}
  {
    var log' := pipe.log + [d];
    forall i | 0 <= i < |log'| ensures LogSound(w, pipe.model, pipe.unit, log', i) {
      if i < |pipe.log| {
        assert log'[..i] == pipe.log[..i];
        assert LogSound(w, pipe.model, pipe.unit, pipe.log, i);
      } else {
        assert log'[..i] == pipe.log;
      }
    }
    assert d in log';
    forall e | e in pipe.log ensures e in log' {
    }
  }

  lemma LookupPipe(w: World, s: State, p: Pid)
    requires Inv(w, s) && Enabled(w, s, Lookup(p))
    ensures var pipe' := Do(w, s, Lookup(p)).pipes[p];
            PipeInv(w, s.rows, pipe') && pipe'.Keys() <= s.pipes[p].Keys() + {NextKey(w, s.pipes[p])}
  {
    var pipe, key := s.pipes[p], NextKey(w, s.pipes[p]);
    assert PipeInv(w, s.rows, pipe);
    if key in s.cache {
      var c := s.cache[key];
      assert Backed(s.rows, key, c);
      LogGrows(w, s.rows, pipe, Done(key, c,
        AfterHit(w, pipe.unit, NextStage(w, pipe), pipe.Ctx(), key.compositeHash, c)));
    } else {
      forall q ensures !Holding(s, q, key) {
        assert q in s.pipes && q != p ==> key !in s.pipes[q].Keys();
      }
    }
  }

  /** One pipeline moves and no other: soundness of all and disjointness of their keys carry over. */
  lemma OthersStay(w: World, s: State, s': State, p: Pid, pipe': Pipe, extra: set<Key>)
    requires PipesSound(w, s) && Separate(s) && p in s.pipes
    requires s'.rows == s.rows && s'.pipes == s.pipes[p := pipe']
    requires PipeInv(w, s.rows, pipe') && pipe'.Keys() <= s.pipes[p].Keys() + extra
    requires forall q :: q in s.pipes && q != p ==> extra !! s.pipes[q].Keys()
    ensures PipesSound(w, s') && Separate(s')
  {
    hide PipeInv;
    hide Pipe.Keys;
    forall q | q in s'.pipes ensures PipeInv(w, s'.rows, s'.pipes[q]) {
      assert q != p ==> PipeInv(w, s.rows, s.pipes[q]);
    }
    forall q | q in s.pipes && q != p ensures pipe'.Keys() !! s.pipes[q].Keys() {
      assert s.pipes[p].Keys() !! s.pipes[q].Keys();
    }
  }

  /** What was held stays held, as long as its holder is not the one that moves. */
  lemma StillHeld(s: State, s': State, p: Pid, pipe': Pipe)
    requires Covered(s) && s'.rows == s.rows && p in s.pipes && s'.pipes == s.pipes[p := pipe']
    requires s.cache.Keys <= s'.cache.Keys
    requires s.pipes[p].phase.Recorded? ==> s.pipes[p].phase.key in s'.cache
    ensures Covered(s')
  {
    hide Usable;
    forall k, q | Holding(s, q, k) && k !in s'.cache ensures Holding(s', q, k) {
      assert q != p;
    }
  }

  lemma LookupKeepsInv(w: World, s: State, p: Pid)
    requires Inv(w, s) && Enabled(w, s, Lookup(p))
    ensures Inv(w, Do(w, s, Lookup(p)))
  {
    var s', key := Do(w, s, Lookup(p)), NextKey(w, s.pipes[p]);
    LookupPipe(w, s, p);
    OthersStay(w, s, s', p, s'.pipes[p], {key});
    StillHeld(s, s', p, s'.pipes[p]);
  }

  lemma BackedStays(rows: map<Key, RunRow>, row: RunRow, k: Key, c: CachedResponse)
    requires Backed(rows, k, c)
    ensures Backed(Upsert(rows, row), k, c)
  {
  }

  lemma OthersUntouched(w: World, rows: map<Key, RunRow>, row: RunRow, pipe: Pipe)
    requires PipeInv(w, rows, pipe)
    requires pipe.phase.Calling? ==> pipe.phase.key != row.key
    ensures PipeInv(w, Upsert(rows, row), pipe)
  {
    forall i | 0 <= i < |pipe.log| ensures Backed(Upsert(rows, row), pipe.log[i].key, pipe.log[i].cached) {
      BackedStays(rows, row, pipe.log[i].key, pipe.log[i].cached);
    }
  }

  /** Nothing usable was stored under the key, so the good answer is what storage now holds. */
  lemma AnswerIsStored(rows: map<Key, RunRow>, w: World, unit: string, stage: Stage, site: CallSite, o: CallOutcome)
    requires !(site.key in rows && Usable(rows[site.key])) && GoodCall(w, unit, stage, o)
    ensures Backed(Upsert(rows, RowFor(site, o)), site.key, CachedFor(site, o))
    ensures RowFor(site, o).key == site.key
  {
    UsableIffCacheableAndLong(site, o);
  }

  /** A good call leaves the context a hit on its own cache entry would leave. */
  lemma CallLeavesHit(w: World, unit: string, stage: Stage, ctx: Context, site: CallSite, o: CallOutcome)
    requires GoodCall(w, unit, stage, o)
    ensures AfterCall(w, unit, stage, ctx, site.key.compositeHash, o) ==
            AfterHit(w, unit, stage, ctx, site.key.compositeHash, CachedFor(site, o))
  {
    hide ApplySubstrate;
  }

  lemma AnswerPipe(w: World, s: State, p: Pid, o: CallOutcome)
    requires Inv(w, s) && Enabled(w, s, Answer(p, o))
    ensures var s' := Do(w, s, Answer(p, o));
            && Backed(s'.rows, s'.pipes[p].phase.key, s'.pipes[p].phase.cached)
            && PipeInv(w, s'.rows, s'.pipes[p])
            && s'.pipes[p].Keys() == s.pipes[p].Keys()
  {
    var pipe := s.pipes[p];
    var site := SiteOf(w, pipe, pipe.phase.key);
    assert PipeInv(w, s.rows, pipe);
    AnswerIsStored(s.rows, w, pipe.unit, NextStage(w, pipe), site, o);
    CallLeavesHit(w, pipe.unit, NextStage(w, pipe), pipe.Ctx(), site, o);
    OthersUntouched(w, s.rows, RowFor(site, o), pipe.(phase := Ready));
    hide Backed;
    hide AfterHit;
    hide AfterCall;
    hide GoodCall;
    hide Upsert;
    hide RowFor;
    hide CachedFor;
    hide AllSound;
  }

  /** A row is written under a key of p: the other pipelines, which have other keys, do not notice. */
  lemma OthersStayAfterWrite(w: World, s: State, s': State, p: Pid, pipe': Pipe, row: RunRow)
    requires PipesSound(w, s) && Separate(s) && p in s.pipes && row.key in s.pipes[p].Keys()
    requires s'.rows == Upsert(s.rows, row) && s'.pipes == s.pipes[p := pipe']
    requires PipeInv(w, s'.rows, pipe') && pipe'.Keys() == s.pipes[p].Keys()
    ensures PipesSound(w, s') && Separate(s')
  {
    forall q | q in s.pipes && q != p ensures PipeInv(w, s'.rows, s.pipes[q]) {
      assert s.pipes[p].Keys() !! s.pipes[q].Keys();
      OthersUntouched(w, s.rows, row, s.pipes[q]);
    }
    hide PipeInv;
    hide Pipe.Keys;
    hide Upsert;
  }

  lemma CacheStaysBacked(s: State, s': State, row: RunRow)
    requires CacheBacked(s) && s'.rows == Upsert(s.rows, row) && s'.cache == s.cache
    ensures CacheBacked(s')
  {
    forall k | k in s'.cache ensures Backed(s'.rows, k, s'.cache[k]) {
      BackedStays(s.rows, row, k, s.cache[k]);
    }
  }

  lemma StillCovered(s: State, s': State, p: Pid, pipe': Pipe, row: RunRow)
    requires Covered(s) && p in s.pipes && !s.pipes[p].phase.Recorded?
    requires s'.rows == Upsert(s.rows, row) && s'.cache == s.cache && s'.pipes == s.pipes[p := pipe']
    requires Holding(s', p, row.key)
    ensures Covered(s')
  {
    hide Usable;
    forall k, q | Holding(s, q, k) ensures Holding(s', q, k) {
      assert q != p;
    }
  }

  lemma AnswerKeepsInv(w: World, s: State, p: Pid, o: CallOutcome)
    requires Inv(w, s) && Enabled(w, s, Answer(p, o))
    ensures Inv(w, Do(w, s, Answer(p, o)))
  {
    var s' := Do(w, s, Answer(p, o));
    var row := RowFor(SiteOf(w, s.pipes[p], s.pipes[p].phase.key), o);
    AnswerPipe(w, s, p, o);
    hide PipeInv;
    hide Upsert;
    OthersStayAfterWrite(w, s, s', p, s'.pipes[p], row);
    StillCovered(s, s', p, s'.pipes[p], row);
    CacheStaysBacked(s, s', row);
  }

  lemma PutPipe(w: World, s: State, p: Pid)
    requires Inv(w, s) && Enabled(w, s, Put(p))
    ensures var pipe' := Do(w, s, Put(p)).pipes[p];
            PipeInv(w, s.rows, pipe') && pipe'.Keys() == s.pipes[p].Keys() && pipe'.phase.Ready?
    ensures Backed(s.rows, s.pipes[p].phase.key, s.pipes[p].phase.cached)
  {
    var pipe := s.pipes[p];
    assert PipeInv(w, s.rows, pipe);
    LogGrows(w, s.rows, pipe, Done(pipe.phase.key, pipe.phase.cached, pipe.phase.after));
  }

  lemma PutKeepsInv(w: World, s: State, p: Pid)
    requires Inv(w, s) && Enabled(w, s, Put(p))
    ensures Inv(w, Do(w, s, Put(p)))
  {
    var s' := Do(w, s, Put(p));
    PutPipe(w, s, p);
    OthersStay(w, s, s', p, s'.pipes[p], {});
    StillHeld(s, s', p, s'.pipes[p]);
  }

  lemma {:induction false} RunKeepsInv(w: World, states: seq<State>, steps: seq<Step>, i: nat)
    requires IsRun(w, states, steps) && i < |states|
    ensures Inv(w, states[i])
  {
    if i > 0 {
      RunKeepsInv(w, states, steps, i - 1);
      match steps[i - 1]
      case Lookup(p) => LookupKeepsInv(w, states[i - 1], p);
      case Answer(p, o) => AnswerKeepsInv(w, states[i - 1], p, o);
      case Put(p) => PutKeepsInv(w, states[i - 1], p);
    }
  }

  lemma {:induction false} ReplaysItsLog(w: World, rows: map<Key, RunRow>, pipe: Pipe,
                                         cache: map<Key, CachedResponse>, n: nat)
    requires PipeInv(w, rows, pipe) && n <= |pipe.log|
    requires forall k, c :: Backed(rows, k, c) ==> k in cache && cache[k] == c
    ensures Replay(w, pipe.model, pipe.unit, cache, n) == Some(pipe.log[..n])
  {
    if n > 0 {
      ReplaysItsLog(w, rows, pipe, cache, n - 1);
      assert LogSound(w, pipe.model, pipe.unit, pipe.log, n - 1);
      assert Backed(rows, pipe.log[n - 1].key, pipe.log[n - 1].cached);
      assert pipe.log[..n] == pipe.log[..n - 1] + [pipe.log[n - 1]];
    } else {
      assert pipe.log[..0] == [];
    }
  }

  /**
   * Main theorem. After any interleaving of a clean run, a new process that loads its cache from
   * storage replays every pipeline without one provider call: same keys, same responses, and the
   * same outputs, parent hashes and response texts after each stage.
   */
  lemma RerunNeedsNoCalls(w: World, states: seq<State>, steps: seq<Step>, p: Pid)
    requires IsRun(w, states, steps) && p in states[|steps|].pipes
    ensures var s, pipe := states[|steps|], states[|steps|].pipes[p];
            && |pipe.log| <= |w.order|
            && Replay(w, pipe.model, pipe.unit, PrefetchView(s.rows, true, MIN_USABLE_RESPONSE_LEN), |pipe.log|) ==
              Some(pipe.log)
  {
    RunKeepsInv(w, states, steps, |steps|);
    var s := states[|steps|];
    var pipe := s.pipes[p];
    assert PipeInv(w, s.rows, pipe);
    ReplaysItsLog(w, s.rows, pipe, PrefetchView(s.rows, true, MIN_USABLE_RESPONSE_LEN), |pipe.log|);
    assert pipe.log[..|pipe.log|] == pipe.log;
  }

  /** The same holds within the process, against the cache the run left behind. */
  lemma RerunInProcessNeedsNoCalls(w: World, states: seq<State>, steps: seq<Step>, p: Pid)
    requires IsRun(w, states, steps) && p in states[|steps|].pipes
    requires forall q :: q in states[|steps|].pipes ==> states[|steps|].pipes[q].phase.Ready?
    ensures var s, pipe := states[|steps|], states[|steps|].pipes[p];
            && |pipe.log| <= |w.order|
            && Replay(w, pipe.model, pipe.unit, s.cache, |pipe.log|) == Some(pipe.log)
  {
    RunKeepsInv(w, states, steps, |steps|);
    var s := states[|steps|];
    var pipe := s.pipes[p];
    assert PipeInv(w, s.rows, pipe);
    forall k, c | Backed(s.rows, k, c) ensures k in s.cache && s.cache[k] == c {
      assert k in s.cache;
      assert Backed(s.rows, k, s.cache[k]);
    }
    ReplaysItsLog(w, s.rows, pipe, s.cache, |pipe.log|);
    assert pipe.log[..|pipe.log|] == pipe.log;
  }

  // ---- the second run as a run of the same machine ----

  /** `pipe` is partway through `done`, without having called a provider. */
  ghost predicate Follows(pipe: Pipe, done: Pipe) {
    && pipe.model == done.model && pipe.unit == done.unit && pipe.phase.Ready?
    && |pipe.log| <= |done.log| && pipe.log == done.log[..|pipe.log|]
  }

  /** Every pipeline of the second run has a finished counterpart in the first. */
  ghost predicate Repeats(w: World, s: State, done: map<Pid, Pipe>) {
    forall p :: p in s.pipes ==>
      exists q :: q in done && |done[q].log| == |w.order| && Follows(s.pipes[p], done[q])
  }

  /** Storage and cache hold everything the finished pipelines were served. */
  ghost predicate Remembers(w: World, s: State, rows: map<Key, RunRow>, done: map<Pid, Pipe>) {
    && s.rows == rows
    && (forall q :: q in done ==> PipeInv(w, rows, done[q]))
    && (forall k, c :: Backed(rows, k, c) ==> k in s.cache && s.cache[k] == c)
  }

  lemma HitFollows(w: World, s: State, rows: map<Key, RunRow>, done: map<Pid, Pipe>, p: Pid, q: Pid)
    requires Remembers(w, s, rows, done) && Enabled(w, s, Lookup(p))
    requires q in done && |done[q].log| == |w.order| && Follows(s.pipes[p], done[q])
    ensures NextKey(w, s.pipes[p]) in s.cache
    ensures Follows(Do(w, s, Lookup(p)).pipes[p], done[q])
  {
    var pipe, d := s.pipes[p], done[q];
    var n := |pipe.log|;
    assert PipeInv(w, rows, d);
    assert LogSound(w, d.model, d.unit, d.log, n) && Backed(rows, d.log[n].key, d.log[n].cached);
    assert Do(w, s, Lookup(p)).pipes[p].log == pipe.log + [d.log[n]];
    assert d.log[..n + 1] == d.log[..n] + [d.log[n]];
  }

  lemma StepRepeats(w: World, s: State, e: Step, rows: map<Key, RunRow>, done: map<Pid, Pipe>)
    requires Remembers(w, s, rows, done) && Repeats(w, s, done) && Enabled(w, s, e)
    ensures e.Lookup? && NextKey(w, s.pipes[e.p]) in s.cache
    ensures Remembers(w, Do(w, s, e), rows, done) && Repeats(w, Do(w, s, e), done)
  {
    var q :| q in done && |done[q].log| == |w.order| && Follows(s.pipes[e.p], done[q]);
    HitFollows(w, s, rows, done, e.p, q);
    var s' := Do(w, s, e);
    forall p | p in s'.pipes
      ensures exists q :: q in done && |done[q].log| == |w.order| && Follows(s'.pipes[p], done[q])
    {
      if p != e.p {
        assert s'.pipes[p] == s.pipes[p];
      }
    }
  }

  lemma {:induction false} RepeatKeeps(w: World, states: seq<State>, steps: seq<Step>, rows: map<Key, RunRow>,
                                       done: map<Pid, Pipe>, i: nat)
    requires IsRun(w, states, steps) && i < |states|
    requires Remembers(w, states[0], rows, done) && Repeats(w, states[0], done)
    ensures Remembers(w, states[i], rows, done) && Repeats(w, states[i], done)
  {
    if i > 0 {
      RepeatKeeps(w, states, steps, rows, done, i - 1);
      StepRepeats(w, states[i - 1], steps[i - 1], rows, done);
    }
  }

  /**
   * The same as runs of the machine: let a clean run finish, then let a second run start from its
   * storage with pipelines the first one finished. In every interleaving of the second run each
   * step is a cache hit, storage is untouched, and every log retraces the first run's.
   */
  lemma SecondRunMakesNoCalls(w: World, first: seq<State>, steps1: seq<Step>, second: seq<State>, steps2: seq<Step>,
                              i: nat)
    requires IsRun(w, first, steps1) && IsRun(w, second, steps2) && i < |steps2|
    requires second[0].rows == first[|steps1|].rows && Repeats(w, second[0], first[|steps1|].pipes)
    ensures steps2[i].Lookup? && NextKey(w, second[i].pipes[steps2[i].p]) in second[i].cache
    ensures second[i + 1].rows == first[|steps1|].rows && Repeats(w, second[i + 1], first[|steps1|].pipes)
  {
    var end := first[|steps1|];
    RunKeepsInv(w, first, steps1, |steps1|);
    assert Remembers(w, second[0], end.rows, end.pipes);
    RepeatKeeps(w, second, steps2, end.rows, end.pipes, i);
    StepRepeats(w, second[i], steps2[i], end.rows, end.pipes);
  }

  // ---- the winner's output in place of the candidate's own ----

  ghost predicate HasSubstrate(w: World, stage: Stage, unit: string) {
    stage.parent.Some? && (stage.parent.value, unit) in w.substrates && stage.parent.value in Ids(w.order)
  }

  /** Where the previous round has a winner's row for the parent, the prompt is built on that row. */
  lemma SubstrateIsTheWinners(w: World, stage: Stage, unit: string, ctx: Context)
    requires HasSubstrate(w, stage, unit)
    ensures var p, after := stage.parent.value, ApplySubstrate(w, stage, unit, ctx);
            var row := w.substrates[(p, unit)];
            && p in after.texts && after.texts[p] == row.response.GetOr("")
            && p in after.parentHashes && after.parentHashes[p] == row.key.compositeHash
            && p in after.outputs
            && (row.response.None? ==> after.outputs[p] == None)
            && (row.response.Some? ==>
                  exists parent :: parent in w.order && parent.id == p && after.outputs[p] ==
                    w.parse(parent, unit, row.response.value, row.inputTokens.GetOr(0), row.outputTokens.GetOr(0)))
            && forall q :: q != p ==>
                 && At(after.outputs, q, None) == At(ctx.outputs, q, None)
                 && At(after.parentHashes, q, "") == At(ctx.parentHashes, q, "")
                 && At(after.texts, q, "") == At(ctx.texts, q, "")
  {
    var parent := ById(w.order, stage.parent.value);
    assert parent in w.order && parent.id == stage.parent.value;
  }

  /** Two contexts that differ at most in the parent's entries. */
  ghost predicate SameElsewhere(p: string, a: Context, b: Context) {
    a.outputs - {p} == b.outputs - {p} && a.parentHashes - {p} == b.parentHashes - {p} && a.texts - {p} == b.texts - {p}
  }

  /** So what the candidate itself made of the parent does not reach the prompt; without a winner nothing changes. */
  lemma SubstrateDecouples(w: World, model: string, unit: string, stage: Stage, a: Context, b: Context)
    ensures HasSubstrate(w, stage, unit) && SameElsewhere(stage.parent.value, a, b) ==>
            PromptKey(w, model, unit, stage, a) == PromptKey(w, model, unit, stage, b)
    ensures !HasSubstrate(w, stage, unit) ==> ApplySubstrate(w, stage, unit, a) == a
  {
    if HasSubstrate(w, stage, unit) && SameElsewhere(stage.parent.value, a, b) {
      var p := stage.parent.value;
      var x, y := ApplySubstrate(w, stage, unit, a), ApplySubstrate(w, stage, unit, b);
      assert x.outputs == (a.outputs - {p})[p := x.outputs[p]] && y.outputs == (b.outputs - {p})[p := y.outputs[p]];
      assert x.texts == (a.texts - {p})[p := x.texts[p]] && y.texts == (b.texts - {p})[p := y.texts[p]];
      assert x.parentHashes == (a.parentHashes - {p})[p := x.parentHashes[p]];
      assert y.parentHashes == (b.parentHashes - {p})[p := y.parentHashes[p]];
      assert x == y;
    }
  }

  /** With a hash that tells prompts apart, two lookups share a key exactly for the same model and the same prompt. */
  lemma KeysAreEqualIff(w: World, m1: string, u1: string, s1: Stage, c1: Context, m2: string, u2: string, s2: Stage,
                        c2: Context)
    requires forall a, b, c, d :: w.hash(a, b) == w.hash(c, d) ==> a == c && b == d
    ensures PromptKey(w, m1, u1, s1, c1) == PromptKey(w, m2, u2, s2, c2) <==>
            && m1 == m2
            && w.build(s1, u1, ApplySubstrate(w, s1, u1, c1)) == w.build(s2, u2, ApplySubstrate(w, s2, u2, c2))
  {
  }
}
