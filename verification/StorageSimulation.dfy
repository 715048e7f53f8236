// The file backend against the in-memory one, over arbitrary traces of writes and deletes
// under any tags: what always agrees, and exactly when the rest does.
module StorageSimulation {
  import opened Common
  import opened Rows
  import opened MemoryStorage
  import opened FileStorage

  datatype Op = Record(row: RunRow) | Delete(tag: string)

  function MemStep(m: map<Key, RunRow>, op: Op): map<Key, RunRow> {
    match op
    case Record(row) => Upsert(m, row)
    case Delete(tag) => Without(m, tag)
  }

  function FileStep(f: Files, op: Op): Files {
    match op
    case Record(row) => f.Recorded(row)
    case Delete(tag) => f.Deleted(tag)
  }

  function MemRun(ops: seq<Op>): map<Key, RunRow> {
    if ops == [] then map[] else MemStep(MemRun(ops[..|ops| - 1]), ops[|ops| - 1])
  }

  function FileRun(ops: seq<Op>): Files {
    if ops == [] then Files(map[], map[]) else FileStep(FileRun(ops[..|ops| - 1]), ops[|ops| - 1])
  }

  // ---- the simulation relation ----

  function UsableIndex(m: map<Key, RunRow>): map<Key, IndexRow> {
    map k | k in m && Usable(m[k]) :: ToIndexRow(m[k])
  }

  /** The last line for k in the log of the row's own tag is the row. */
  ghost predicate LoggedLast(f: Files, k: Key, row: RunRow) {
    k in f.View(row.tag, None) && f.View(row.tag, None)[k] == row
  }

  ghost predicate IndexMatches(m: map<Key, RunRow>, f: Files) {
    WellKeyed(m) && f.index == UsableIndex(m)
  }

  ghost predicate Simulates(m: map<Key, RunRow>, f: Files) {
    IndexMatches(m, f) && forall k :: k in m ==> LoggedLast(f, k, m[k])
  }

  lemma ViewAppended(f: Files, row: RunRow, tag: string, stage: Option<string>)
    ensures f.Appended(row).View(tag, stage) ==
            if tag == row.tag && StageMatches(row, stage)
            then f.View(tag, stage)[row.key := row] else f.View(tag, stage)
  {
    assert (f.Log(row.tag) + [row])[..|f.Log(row.tag)|] == f.Log(row.tag);
  }

  lemma ViewRecorded(f: Files, row: RunRow, tag: string, stage: Option<string>)
    requires row.key !in f.index
    ensures f.Recorded(row).View(tag, stage) ==
            if tag == row.tag && StageMatches(row, stage)
            then f.View(tag, stage)[row.key := row] else f.View(tag, stage)
  {
    assert f.Recorded(row).logs == f.Appended(row).logs;
    ViewAppended(f, row, tag, stage);
  }

  lemma IndexRecorded(m: map<Key, RunRow>, f: Files, row: RunRow)
    requires f.index == UsableIndex(m) && row.key !in f.index
    ensures Upsert(m, row) == m[row.key := row]
    ensures f.Recorded(row).index == UsableIndex(m[row.key := row])
  {
    var m' := m[row.key := row];
    assert f.Appended(row).index == f.index;
    if Usable(row) {
      assert UsableIndex(m') == UsableIndex(m)[row.key := ToIndexRow(row)];
    } else {
      assert UsableIndex(m') == UsableIndex(m);
    }
  }

  lemma RecordSimulates(m: map<Key, RunRow>, f: Files, row: RunRow)
    requires Simulates(m, f)
    ensures Simulates(Upsert(m, row), f.Recorded(row))
  {
    if row.key in f.index {
      assert row.key in UsableIndex(m);
    } else {
      IndexRecorded(m, f, row);
      var m', f' := m[row.key := row], f.Recorded(row);
      forall k | k in m' ensures LoggedLast(f', k, m'[k]) {
        ViewRecorded(f, row, m'[k].tag, None);
        assert k != row.key ==> LoggedLast(f, k, m[k]);
      }
    }
  }

  /** A delete of the root while rows of other tags are stored: the guard a caller can test beforehand. */
  predicate Wipes(m: map<Key, RunRow>, tag: string) {
    tag == ROOT_TAG && Without(m, tag) != map[]
  }

  lemma DeleteIndexMatches(m: map<Key, RunRow>, f: Files, tag: string)
    requires IndexMatches(m, f)
    ensures IndexMatches(Without(m, tag), f.Deleted(tag))
  {
    assert f.Deleted(tag).index == UsableIndex(Without(m, tag));
  }

  /** One delete keeps the simulation exactly when it does not remove other tags' logs with its own. */
  lemma DeleteSimulatesIff(m: map<Key, RunRow>, f: Files, tag: string)
    requires Simulates(m, f)
    ensures Simulates(Without(m, tag), f.Deleted(tag)) <==> !Wipes(m, tag)
  {
    DeleteIndexMatches(m, f, tag);
    hide IndexMatches;
    var m', f' := Without(m, tag), f.Deleted(tag);
    if Wipes(m, tag) {
      var k :| k in m';
      assert f'.View(m'[k].tag, None) == map[];
      assert !LoggedLast(f', k, m'[k]);
    } else {
      hide LastWins;
      forall k | k in m' ensures LoggedLast(f', k, m'[k]) {
        assert LoggedLast(f, k, m[k]);
        assert f'.Log(m[k].tag) == f.Log(m[k].tag);
      }
    }
  }

  /** The index is exactly the usable part of the dict, after every trace under any tags. */
  lemma {:induction false} IndexIsUsablePart(ops: seq<Op>)
    ensures IndexMatches(MemRun(ops), FileRun(ops))
  {
    if ops != [] {
      var front := ops[..|ops| - 1];
      var m, f := MemRun(front), FileRun(front);
      IndexIsUsablePart(front);
      match ops[|ops| - 1]
      case Record(row) =>
        if row.key in f.index {
          assert row.key in UsableIndex(m);
        } else {
          IndexRecorded(m, f, row);
        }
      case Delete(tag) =>
        DeleteIndexMatches(m, f, tag);
    }
  }

  ghost predicate SimulatesThroughout(ops: seq<Op>) {
    && Simulates(MemRun(ops), FileRun(ops))
    && (ops == [] || SimulatesThroughout(ops[..|ops| - 1]))
  }

  predicate NeverWipes(ops: seq<Op>) {
    ops == [] ||
    var front, last := ops[..|ops| - 1], ops[|ops| - 1];
    NeverWipes(front) && (last.Delete? ==> !Wipes(MemRun(front), last.tag))
  }

  /** Main theorem: over whole traces, the simulation holds at every point exactly when no delete wipes other tags. */
  lemma {:induction false} FileSimulatesMemory(ops: seq<Op>)
    ensures SimulatesThroughout(ops) <==> NeverWipes(ops)
  {
    if ops != [] {
      var front := ops[..|ops| - 1];
      FileSimulatesMemory(front);
      if SimulatesThroughout(front) {
        match ops[|ops| - 1]
        case Record(row) => RecordSimulates(MemRun(front), FileRun(front), row);
        case Delete(tag) => DeleteSimulatesIff(MemRun(front), FileRun(front), tag);
      }
    }
  }

  // ---- resume lookups ----

  lemma LookupsAgree(ops: seq<Op>, key: Key)
    ensures FileRun(ops).Found(key) == Lookup(MemRun(ops), key)
  {
    IndexIsUsablePart(ops);
    var m := MemRun(ops);
    if key in m && Usable(m[key]) {
      assert UsableIndex(m)[key] == ToIndexRow(m[key]);
    }
  }

  /** What the index serves, read off the dict. */
  lemma IndexServesUsable(m: map<Key, RunRow>, f: Files, onlySuccessful: bool, minLen: int)
    requires IndexMatches(m, f)
    ensures f.Prefetched(onlySuccessful, minLen) ==
            map k | k in m && Usable(m[k]) && Served(m[k], onlySuccessful, minLen) :: ToCached(m[k])
  {
    forall k | k in f.index
      ensures k in m && Usable(m[k]) && CachedOf(k, f.index[k]) == ToCached(m[k])
      ensures IndexServes(f.index[k], onlySuccessful, minLen) <==> Served(m[k], onlySuccessful, minLen)
    {
      assert UsableIndex(m)[k] == ToIndexRow(m[k]);
    }
    assert forall k :: k in m && Usable(m[k]) ==> k in UsableIndex(m);
  }

  lemma PrefetchCompare(m: map<Key, RunRow>, onlySuccessful: bool, minLen: int)
    ensures (map k | k in m && Usable(m[k]) && Served(m[k], onlySuccessful, minLen) :: ToCached(m[k])) ==
            PrefetchView(m, onlySuccessful, minLen)
            <==> forall k :: k in m && Served(m[k], onlySuccessful, minLen) ==> Usable(m[k])
  {
    hide Served;
    hide Usable;
    hide ToCached;
    var mine, theirs := PrefetchView(m, onlySuccessful, minLen),
                        map k | k in m && Usable(m[k]) && Served(m[k], onlySuccessful, minLen) :: ToCached(m[k]);
    if mine == theirs {
      forall k | k in m && Served(m[k], onlySuccessful, minLen) ensures Usable(m[k]) {
        assert k in mine;
      }
    }
  }

  /** Bulk loads agree exactly when nothing is served that the index would not hold. */
  lemma PrefetchAgreesIff(ops: seq<Op>, onlySuccessful: bool, minLen: int)
    ensures FileRun(ops).Prefetched(onlySuccessful, minLen) == PrefetchView(MemRun(ops), onlySuccessful, minLen)
            <==> forall k :: k in MemRun(ops) && Served(MemRun(ops)[k], onlySuccessful, minLen) ==>
              Usable(MemRun(ops)[k])
  {
    IndexIsUsablePart(ops);
    IndexServesUsable(MemRun(ops), FileRun(ops), onlySuccessful, minLen);
    PrefetchCompare(MemRun(ops), onlySuccessful, minLen);
  }

  lemma PrefetchAgreesAtDefaultLength(ops: seq<Op>, minLen: int)
    requires minLen >= MIN_USABLE_RESPONSE_LEN
    ensures FileRun(ops).Prefetched(true, minLen) == PrefetchView(MemRun(ops), true, minLen)
  {
    PrefetchAgreesIff(ops, true, minLen);
  }

  // ---- row queries ----

  lemma {:induction false} LastWinsOfStage(log: seq<RunRow>, stage: Option<string>, k: Key)
    requires k in LastWins(log, None) && StageMatches(LastWins(log, None)[k], stage)
    ensures k in LastWins(log, stage) && LastWins(log, stage)[k] == LastWins(log, None)[k]
  {
    var front, last := log[..|log| - 1], log[|log| - 1];
    if last.key != k {
      LastWinsOfStage(front, stage, k);
    }
  }

  /** A memory query never shows a row the file query lacks. */
  lemma QueryContained(ops: seq<Op>, tag: string, stage: Option<string>, k: Key)
    requires NeverWipes(ops) && k in QueryView(MemRun(ops), tag, stage)
    ensures k in FileRun(ops).View(tag, stage)
            && FileRun(ops).View(tag, stage)[k] == QueryView(MemRun(ops), tag, stage)[k]
  {
    FileSimulatesMemory(ops);
    assert LoggedLast(FileRun(ops), k, MemRun(ops)[k]);
    LastWinsOfStage(FileRun(ops).Log(tag), stage, k);
  }

  ghost predicate ViewsAgree(m: map<Key, RunRow>, f: Files) {
    forall tag :: f.View(tag, None) == QueryView(m, tag, None)
  }

  /** A retry that moves a failed row to another tag: the guard a caller can test beforehand. */
  predicate Migrates(m: map<Key, RunRow>, row: RunRow) {
    row.key in m && !Usable(m[row.key]) && m[row.key].tag != row.tag
  }

  lemma QueryRecorded(m: map<Key, RunRow>, row: RunRow, tag: string)
    requires row.key in m ==> m[row.key].tag == row.tag
    ensures QueryView(m[row.key := row], tag, None) ==
            if tag == row.tag then QueryView(m, tag, None)[row.key := row] else QueryView(m, tag, None)
  {
  }

  /** From agreeing views, one write keeps all queries equal exactly when it does not migrate a row. */
  lemma RecordKeepsViewsIff(m: map<Key, RunRow>, f: Files, row: RunRow)
    requires Simulates(m, f) && ViewsAgree(m, f)
    ensures ViewsAgree(Upsert(m, row), f.Recorded(row)) <==> !Migrates(m, row)
  {
    if row.key in f.index {
      assert row.key in UsableIndex(m);
    } else {
      IndexRecorded(m, f, row);
      var m', f' := m[row.key := row], f.Recorded(row);
      if Migrates(m, row) {
        var home := m[row.key].tag;
        ViewRecorded(f, row, home, None);
        assert row.key in QueryView(m, home, None);
        assert row.key in f'.View(home, None);
        assert row.key !in QueryView(m', home, None);
      } else {
        forall tag ensures f'.View(tag, None) == QueryView(m', tag, None) {
          ViewRecorded(f, row, tag, None);
          QueryRecorded(m, row, tag);
        }
      }
    }
  }

  /** From agreeing views, one delete keeps all queries equal exactly when it does not wipe other tags. */
  lemma DeleteKeepsViewsIff(m: map<Key, RunRow>, f: Files, tag: string)
    requires ViewsAgree(m, f)
    ensures ViewsAgree(Without(m, tag), f.Deleted(tag)) <==> !Wipes(m, tag)
  {
    var m', f' := Without(m, tag), f.Deleted(tag);
    if Wipes(m, tag) {
      var k :| k in m';
      assert k in QueryView(m', m'[k].tag, None);
      assert f'.View(m'[k].tag, None) == map[];
    } else {
      forall t ensures f'.View(t, None) == QueryView(m', t, None) {
        if t == tag {
          assert QueryView(m', t, None) == map[];
        } else if tag == ROOT_TAG {
          assert QueryView(m', t, None) == map[];
        } else {
          assert f'.Log(t) == f.Log(t);
          assert QueryView(m', t, None) == QueryView(m, t, None);
        }
      }
    }
  }

  /** Agreeing queries and a matching index are all of the simulation. */
  lemma ViewsSimulate(m: map<Key, RunRow>, f: Files)
    requires IndexMatches(m, f) && ViewsAgree(m, f)
    ensures Simulates(m, f)
  {
    forall k | k in m ensures LoggedLast(f, k, m[k]) {
      assert k in QueryView(m, m[k].tag, None);
    }
  }

  ghost predicate AgreeThroughout(ops: seq<Op>) {
    && ViewsAgree(MemRun(ops), FileRun(ops))
    && (ops == [] || AgreeThroughout(ops[..|ops| - 1]))
  }

  predicate NeverMigrates(ops: seq<Op>) {
    ops == [] ||
    var front, last := ops[..|ops| - 1], ops[|ops| - 1];
    NeverMigrates(front) && (last.Record? ==> !Migrates(MemRun(front), last.row))
  }

  /**
   * Over whole traces: queries agree at every point exactly when no write migrates a failed row and no
   * delete wipes other tags.
   */
  lemma {:induction false} QueriesAgreeIff(ops: seq<Op>)
    ensures AgreeThroughout(ops) <==> NeverMigrates(ops) && NeverWipes(ops)
  {
    if ops == [] {
      assert ViewsAgree(map[], Files(map[], map[]));
    } else {
      var front := ops[..|ops| - 1];
      QueriesAgreeIff(front);
      IndexIsUsablePart(front);
      if AgreeThroughout(front) {
        ViewsSimulate(MemRun(front), FileRun(front));
        match ops[|ops| - 1]
        case Record(row) => RecordKeepsViewsIff(MemRun(front), FileRun(front), row);
        case Delete(tag) => DeleteKeepsViewsIff(MemRun(front), FileRun(front), tag);
      }
    }
  }

  /** Each key is only ever used under one tag and one stage. */
  ghost predicate SingleHome(ops: seq<Op>, home: Key -> (string, string)) {
    forall i :: 0 <= i < |ops| && ops[i].Record? ==> home(ops[i].row.key) == (ops[i].row.tag, ops[i].row.stage)
  }

  lemma {:induction false} HomesInState(ops: seq<Op>, home: Key -> (string, string))
    requires SingleHome(ops, home)
    ensures forall k :: k in MemRun(ops) ==>
            MemRun(ops)[k].key == k && home(k) == (MemRun(ops)[k].tag, MemRun(ops)[k].stage)
    ensures forall t, i :: 0 <= i < |FileRun(ops).Log(t)| ==>
              home(FileRun(ops).Log(t)[i].key) == (t, FileRun(ops).Log(t)[i].stage)
    ensures NeverMigrates(ops)
  {
    if ops != [] {
      var front, last := ops[..|ops| - 1], ops[|ops| - 1];
      HomesInState(front, home);
      var f, f' := FileRun(front), FileRun(ops);
      forall t, i | 0 <= i < |f'.Log(t)| ensures home(f'.Log(t)[i].key) == (t, f'.Log(t)[i].stage) {
        if i < |f.Log(t)| {
          assert f'.Log(t)[i] == f.Log(t)[i];
        } else {
          assert f'.Log(t)[i] == last.row;
        }
      }
    }
  }

  lemma {:induction false} LastWinsFrom(log: seq<RunRow>, stage: Option<string>, k: Key)
    requires k in LastWins(log, stage)
    ensures exists i ::
              0 <= i < |log| && log[i] == LastWins(log, stage)[k] && log[i].key == k && StageMatches(log[i], stage)
    ensures k in LastWins(log, None)
  {
    var front, last := log[..|log| - 1], log[|log| - 1];
    if last.key != k || !StageMatches(last, stage) {
      LastWinsFrom(front, stage, k);
      var i :| 0 <= i < |front| && front[i] == LastWins(log, stage)[k] && front[i].key == k
        && StageMatches(front[i], stage);
      assert log[i] == front[i];
    }
  }

  /** With one tag and stage per key, every query agrees after every trace that wipes nothing, filtered or not. */
  lemma QueriesAgreeForSingleHome(ops: seq<Op>, home: Key -> (string, string), tag: string, stage: Option<string>)
    requires SingleHome(ops, home) && NeverWipes(ops)
    ensures FileRun(ops).View(tag, stage) == QueryView(MemRun(ops), tag, stage)
  {
    HomesInState(ops, home);
    QueriesAgreeIff(ops);
    var m, f := MemRun(ops), FileRun(ops);
    var log := f.Log(tag);
    assert f.View(tag, None) == QueryView(m, tag, None);
    forall k | k in f.View(tag, stage) ensures k in QueryView(m, tag, stage) {
      LastWinsFrom(log, stage, k);
      var i :| 0 <= i < |log| && log[i] == LastWins(log, stage)[k] && log[i].key == k && StageMatches(log[i], stage);
      assert home(k) == (tag, log[i].stage);
      assert k in QueryView(m, tag, None);
    }
    forall k | k in QueryView(m, tag, stage) ensures k in f.View(tag, stage)
      && f.View(tag, stage)[k] == QueryView(m, tag, stage)[k] {
      QueryContained(ops, tag, stage, k);
    }
    assert f.View(tag, stage).Keys == QueryView(m, tag, stage).Keys;
  }

  /** Agreeing views give the same spend per op from the log as from the dict. */
  lemma SpendAgreesForSingleHome(ops: seq<Op>, home: Key -> (string, string), tag: string, op: string)
    requires SingleHome(ops, home) && NeverWipes(ops)
    ensures SpendOf(FileRun(ops).View(tag, None), tag, op) == SpendOf(MemRun(ops), tag, op)
  {
    QueriesAgreeForSingleHome(ops, home, tag, None);
    assert SpendMap(QueryView(MemRun(ops), tag, None), tag, op) == SpendMap(MemRun(ops), tag, op);
  }

  /** Concretely: a failed row retried under a second tag stays visible in the first tag's log. */
  lemma MigratedRowLingers(failed: RunRow, retry: RunRow)
    requires failed.key == retry.key && !Usable(failed) && failed.tag != retry.tag
    ensures var ops := [Record(failed), Record(retry)];
            && QueryView(MemRun(ops), failed.tag, None) == map[]
            && FileRun(ops).View(failed.tag, None) == map[failed.key := failed]
  {
    var ops := [Record(failed), Record(retry)];
    assert ops[..1] == [Record(failed)] && ops[..1][..0] == [];
    assert MemRun(ops[..1]) == map[failed.key := failed];
    var f0: Files := Files(map[], map[]);
    assert FileRun(ops[..1]) == f0.Recorded(failed);
    ViewAppended(f0, failed, failed.tag, None);
    var f1 := FileRun(ops[..1]);
    assert f1.View(failed.tag, None) == map[failed.key := failed];
    assert FileRun(ops) == f1.Recorded(retry);
    ViewAppended(f1, retry, failed.tag, None);
    assert FileRun(ops).View(failed.tag, None) == f1.View(failed.tag, None);
    assert MemRun(ops) == map[failed.key := retry];
  }

  /** Concretely: deleting the root forgets a row of another tag that memory keeps; lookups still agree. */
  lemma RootDeleteForgetsOthers(row: RunRow)
    requires row.tag != ROOT_TAG
    ensures var ops := [Record(row), Delete(ROOT_TAG)];
            && QueryView(MemRun(ops), row.tag, None) == map[row.key := row]
            && FileRun(ops).View(row.tag, None) == map[]
            && FileRun(ops).Found(row.key) == Lookup(MemRun(ops), row.key)
  {
    var ops := [Record(row), Delete(ROOT_TAG)];
    assert ops[..1] == [Record(row)] && ops[..1][..0] == [];
    assert MemRun(ops[..1]) == map[row.key := row];
    LookupsAgree(ops, row.key);
  }
}
