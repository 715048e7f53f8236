// PostgresStorage: the conditional upsert, and spend per op computed in two
// steps (SQL groups by stage, Python regroups stages into ops).
module PostgresStorage {
  import opened Common
  import opened Rows
  import opened Sums
  import opened MemoryStorage
  import opened UpsertLaw

  ghost function StageMap(rows: map<Key, RunRow>, tag: string, stage: string): map<Key, real> {
    map k | k in rows && rows[k].tag == tag && rows[k].stage == stage :: Spend(rows[k])
  }

  ghost function StagesOf(rows: map<Key, RunRow>, tag: string): set<string> {
    set k | k in rows && rows[k].tag == tag :: rows[k].stage
  }

  /** SELECT stage, SUM(effective_cost_usd) ... GROUP BY stage. */
  ghost function SpendByStage(rows: map<Key, RunRow>, tag: string): map<string, real> {
    map s | s in StagesOf(rows, tag) :: Total(StageMap(rows, tag, s))
  }

  ghost function OfOp(byStage: map<string, real>, op: string): map<string, real> {
    map s | s in byStage && StageToOp(s) == op :: byStage[s]
  }

  lemma StagesGrow(rows: map<Key, RunRow>, r: RunRow, tag: string)
    requires r.key !in rows
    ensures StagesOf(rows[r.key := r], tag) == StagesOf(rows, tag) + if r.tag == tag then {r.stage} else {}
  {
    var rows' := rows[r.key := r];
    assert rows'[r.key] == r;
    forall s | s in StagesOf(rows, tag) ensures s in StagesOf(rows', tag) {
      var w :| w in rows && rows[w].tag == tag && rows[w].stage == s;
      assert rows'[w] == rows[w];
    }
  }

  lemma StageTotalGrows(rows: map<Key, RunRow>, r: RunRow, tag: string, s: string)
    requires r.key !in rows
    ensures Total(StageMap(rows[r.key := r], tag, s)) ==
            Total(StageMap(rows, tag, s)) + if r.tag == tag && r.stage == s then Spend(r) else 0.0
  {
    if r.tag == tag && r.stage == s {
      assert StageMap(rows[r.key := r], tag, s) == StageMap(rows, tag, s)[r.key := Spend(r)];
      TotalUpdate(StageMap(rows, tag, s), r.key, Spend(r));
    } else {
      assert StageMap(rows[r.key := r], tag, s) == StageMap(rows, tag, s);
    }
  }

  lemma StageAbsent(rows: map<Key, RunRow>, tag: string, s: string)
    requires s !in StagesOf(rows, tag)
    ensures Total(StageMap(rows, tag, s)) == 0.0
  {
    assert StageMap(rows, tag, s) == map[];
  }

  lemma StageRowAdded(rows: map<Key, RunRow>, r: RunRow, tag: string)
    requires r.key !in rows
    ensures var before, after := SpendByStage(rows, tag), SpendByStage(rows[r.key := r], tag);
            after == if r.tag == tag then before[r.stage := At(before, r.stage, 0.0) + Spend(r)] else before
  {
    hide Total;
    var before, after := SpendByStage(rows, tag), SpendByStage(rows[r.key := r], tag);
    StagesGrow(rows, r, tag);
    forall s ensures s in after ==>
      after[s] == At(before, s, 0.0) + if r.tag == tag && r.stage == s then Spend(r) else 0.0 {
      StageTotalGrows(rows, r, tag, s);
      if s !in before {
        StageAbsent(rows, tag, s);
      }
    }
  }

  lemma OfOpUpdate(byStage: map<string, real>, s: string, v: real, op: string)
    ensures OfOp(byStage[s := v], op) == if StageToOp(s) == op then OfOp(byStage, op)[s := v] else OfOp(byStage, op)
  {
  }

  lemma OpTotalGrows(before: map<string, real>, after: map<string, real>, s: string, spent: real, op: string)
    requires after == before[s := At(before, s, 0.0) + spent]
    ensures Total(OfOp(after, op)) == Total(OfOp(before, op)) + if StageToOp(s) == op then spent else 0.0
  {
    OfOpUpdate(before, s, At(before, s, 0.0) + spent, op);
    if StageToOp(s) == op {
      TotalUpdate(OfOp(before, op), s, At(before, s, 0.0) + spent);
    }
  }

  lemma RegroupedGrows(rest: map<Key, RunRow>, r: RunRow, tag: string, op: string)
    requires r.key !in rest
    ensures Total(OfOp(SpendByStage(rest[r.key := r], tag), op)) ==
            Total(OfOp(SpendByStage(rest, tag), op))
            + if r.tag == tag && StageToOp(r.stage) == op then Spend(r) else 0.0
  {
    var before, after := SpendByStage(rest, tag), SpendByStage(rest[r.key := r], tag);
    StageRowAdded(rest, r, tag);
    hide SpendByStage;
    hide StageToOp;
    hide Total;
    if r.tag == tag {
      OpTotalGrows(before, after, r.stage, Spend(r), op);
    }
  }

  lemma RegroupedRow(rest: map<Key, RunRow>, r: RunRow, tag: string, op: string)
    requires r.key !in rest
    requires Total(OfOp(SpendByStage(rest, tag), op)) == SpendOf(rest, tag, op)
    ensures Total(OfOp(SpendByStage(rest[r.key := r], tag), op)) == SpendOf(rest[r.key := r], tag, op)
  {
    var d := if r.tag == tag && StageToOp(r.stage) == op then Spend(r) else 0.0;
    assert SpendOf(rest[r.key := r], tag, op) == SpendOf(rest, tag, op) + d by {
      SpendOfUpdate(rest, r, tag, op);
    }
    RegroupedGrows(rest, r, tag, op);
  }

  /** Grouping by stage and then by op loses nothing and counts nothing twice. */
  lemma {:induction false} RegroupedSpend(rows: map<Key, RunRow>, tag: string, op: string)
    requires WellKeyed(rows)
    ensures Total(OfOp(SpendByStage(rows, tag), op)) == SpendOf(rows, tag, op)
    decreases |rows|
  {
    if rows == map[] {
      assert OfOp(SpendByStage(rows, tag), op) == map[];
      assert SpendMap(rows, tag, op) == map[];
    } else {
      var k :| k in rows;
      var rest, r := rows - {k}, rows[k];
      assert rest[k := r] == rows;
      RegroupedSpend(rest, tag, op);
      RegroupedRow(rest, r, tag, op);
    }
  }

  lemma OpsOfStages(rows: map<Key, RunRow>, tag: string, op: string)
    ensures op in OpsOf(rows, tag) <==> OfOp(SpendByStage(rows, tag), op) != map[]
  {
    var m := OfOp(SpendByStage(rows, tag), op);
    if op in OpsOf(rows, tag) {
      var k :| k in rows && rows[k].tag == tag && StageToOp(rows[k].stage) == op;
      assert rows[k].stage in StagesOf(rows, tag);
      assert rows[k].stage in m;
    }
    if m != map[] {
      var s :| s in m;
      var k :| k in rows && rows[k].tag == tag && rows[k].stage == s;
    }
  }

  /** The regrouping loop: `out` covers the stages seen so far. */
  ghost predicate Regrouped(out: map<string, real>, seen: map<string, real>) {
    && (forall op :: op in out ==> out[op] == Total(OfOp(seen, op)))
    && (forall op :: op in out <==> OfOp(seen, op) != map[])
  }

  lemma RegroupStep(out: map<string, real>, seen: map<string, real>, s: string, spent: real)
    requires Regrouped(out, seen) && s !in seen
    ensures Regrouped(out[StageToOp(s) := At(out, StageToOp(s), 0.0) + spent], seen[s := spent])
  {
    var seen' := seen[s := spent];
    var out' := out[StageToOp(s) := At(out, StageToOp(s), 0.0) + spent];
    forall op ensures op in out' <==> OfOp(seen', op) != map[]
              ensures op in out' ==> out'[op] == Total(OfOp(seen', op)) {
      OfOpUpdate(seen, s, spent, op);
      if op == StageToOp(s) {
        TotalUpdate(OfOp(seen, op), s, spent);
        assert s in OfOp(seen', op);
        assert op !in out ==> OfOp(seen, op) == map[];
      }
    }
  }

  /**
   * WHERE response IS NOT NULL AND length(response) >= n, and for successful rows AND no error and no
   * parse failure.
   */
  predicate Where(row: RunRow, onlySuccessful: bool, minLen: int) {
    && row.response.Some? && |row.response.value| >= minLen
    && (onlySuccessful ==>
          && (row.errorClass.None? || row.errorClass.value == "")
          && (row.parseFailurePrefix.None? || row.parseFailurePrefix.value == ""))
  }

  function Selected(rows: map<Key, RunRow>, onlySuccessful: bool, minLen: int): map<Key, RunRow> {
    map k | k in rows && Where(rows[k], onlySuccessful, minLen) :: rows[k]
  }

  function CachedRows(rows: map<Key, RunRow>): map<Key, CachedResponse> {
    map k | k in rows :: ToCached(rows[k])
  }

  lemma CachedRow(rows: map<Key, RunRow>, k: Key, r: RunRow)
    ensures CachedRows(rows[k := r]) == CachedRows(rows)[k := ToCached(r)]
  {
  }

  lemma SelectedAreServed(rows: map<Key, RunRow>, onlySuccessful: bool, minLen: int)
    ensures CachedRows(Selected(rows, onlySuccessful, minLen)) == PrefetchView(rows, onlySuccessful, minLen)
  {
    forall row: RunRow ensures Where(row, onlySuccessful, minLen) <==> Served(row, onlySuccessful, minLen) {
    }
  }

  class PostgresStorage {
    var rows: map<Key, RunRow>

    ghost predicate Valid()
      reads this
    {
      WellKeyed(rows)
    }

    constructor ()
      ensures Valid() && rows == map[]
    {
      rows := map[];
    }

    method RecordCall(row: RunRow) returns (hash: string)
      requires Valid()
      modifies this
      ensures Valid()
      ensures hash == row.key.compositeHash
      ensures rows == PgUpsert(old(rows), row)
    {
      if row.key !in rows {
        rows := rows[row.key := row];
      } else {
        var stored := rows[row.key];
        if (stored.errorClass.Some? && stored.errorClass.value != "")
           || (stored.parseFailurePrefix.Some? && stored.parseFailurePrefix.value != "") {
          rows := rows[row.key := row];
        }
      }
      hash := row.key.compositeHash;
    }

    /** One pass over the rows the WHERE clause lets through. */
    method PrefetchResumeCache(onlySuccessful: bool, minLen: int) returns (out: map<Key, CachedResponse>)
      requires Valid()
      ensures out == PrefetchView(rows, onlySuccessful, minLen)
    {
      hide ToCached;
      hide Where;
      out := map[];
      var table := Selected(rows, onlySuccessful, minLen);
      var keys := Enumerate(table.Keys);
      ghost var seen: map<Key, RunRow> := map[];
      for i := 0 to |keys|
        invariant Walked(table, keys, i, seen)
        invariant out == CachedRows(seen)
      {
        WalkOn(table, keys, i, seen);
        CachedRow(seen, keys[i], table[keys[i]]);
        seen := seen[keys[i] := table[keys[i]]];
        out := out[keys[i] := ToCached(table[keys[i]])];
      }
      WalkDone(table, keys, seen);
      SelectedAreServed(rows, onlySuccessful, minLen);
    }

    method GetCached(key: Key) returns (cached: Option<CachedResponse>)
      requires Valid()
      ensures cached == Lookup(rows, key)
    {
      if key !in rows {
        return None;
      }
      var row := rows[key];
      if !IsRowUsable(row.response, row.errorClass, row.parseFailurePrefix, MIN_USABLE_RESPONSE_LEN) {
        return None;
      }
      return Some(ToCached(row));
    }

    /** Regroups the per-stage sums the database returned into per-op sums. */
    method QuerySpendByOp(tag: string, byStage: map<string, real>) returns (out: map<string, real>)
      requires Valid()
      requires byStage == SpendByStage(rows, tag)
      ensures IsSpendByOp(out, rows, tag)
    {
      out := map[];
      var stages := Enumerate(byStage.Keys);
      ghost var seen: map<string, real> := map[];
      for i := 0 to |stages|
        invariant Walked(byStage, stages, i, seen)
        invariant Regrouped(out, seen)
      {
        WalkOn(byStage, stages, i, seen);
        var s, spent := stages[i], byStage[stages[i]];
        RegroupStep(out, seen, s, spent);
        seen := seen[s := spent];
        out := out[StageToOp(s) := At(out, StageToOp(s), 0.0) + spent];
      }
      WalkDone(byStage, stages, seen);
      forall op: string
        ensures op in out <==> op in OpsOf(rows, tag)
        ensures op in out ==> out[op] == SpendOf(rows, tag, op)
      {
        OpsOfStages(rows, tag, op);
        RegroupedSpend(rows, tag, op);
      }
    }

    method DeleteExperiment(tag: string) returns (n: nat)
      requires Valid()
      modifies this
      ensures Valid()
      ensures rows == Without(old(rows), tag)
      ensures n == |QueryView(old(rows), tag, None)|
    {
      var doomed := set k | k in rows && rows[k].tag == tag;
      assert doomed == QueryView(rows, tag, None).Keys;
      n := |doomed|;
      rows := rows - doomed;
    }
  }
}
