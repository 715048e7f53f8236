// InMemoryStorage: one dict of rows. Also the simple machine the other backends are compared with.
module MemoryStorage {
  import opened Common
  import opened Rows
  import opened Sums

  // ---- what each operation means, on the dict as a value ----

  /** A usable row is final; anything else is overwritten by the next attempt. */
  function Upsert(rows: map<Key, RunRow>, row: RunRow): map<Key, RunRow> {
    if row.key in rows && Usable(rows[row.key]) then rows else rows[row.key := row]
  }

  function Without(rows: map<Key, RunRow>, tag: string): map<Key, RunRow> {
    map k | k in rows && rows[k].tag != tag :: rows[k]
  }

  predicate Served(row: RunRow, onlySuccessful: bool, minLen: int) {
    if onlySuccessful then UsableAt(row, minLen)
    else row.response.Some? && |row.response.value| >= minLen
  }

  function PrefetchView(rows: map<Key, RunRow>, onlySuccessful: bool, minLen: int): map<Key, CachedResponse> {
    map k | k in rows && Served(rows[k], onlySuccessful, minLen) :: ToCached(rows[k])
  }

  function Lookup(rows: map<Key, RunRow>, key: Key): Option<CachedResponse> {
    if key in rows && Usable(rows[key]) then Some(ToCached(rows[key])) else None
  }

  predicate StageMatches(row: RunRow, stage: Option<string>) {
    stage.None? || row.stage == stage.value
  }

  function QueryView(rows: map<Key, RunRow>, tag: string, stage: Option<string>): map<Key, RunRow> {
    map k | k in rows && rows[k].tag == tag && StageMatches(rows[k], stage) :: rows[k]
  }

  /** The list holds exactly the rows of the view, each once. */
  ghost predicate Lists(snap: seq<RunRow>, view: map<Key, RunRow>) {
    && NoDuplicates(snap)
    && |snap| == |view|
    && (forall r :: r in snap ==> r.key in view && view[r.key] == r)
    && (forall k :: k in view ==> view[k] in snap)
  }

  ghost function SpendMap(rows: map<Key, RunRow>, tag: string, op: string): map<Key, real> {
    map k | k in rows && rows[k].tag == tag && StageToOp(rows[k].stage) == op :: Spend(rows[k])
  }

  /** Total effective cost of one op under one tag. */
  ghost function SpendOf(rows: map<Key, RunRow>, tag: string, op: string): real {
    Total(SpendMap(rows, tag, op))
  }

  ghost function OpsOf(rows: map<Key, RunRow>, tag: string): set<string> {
    set k | k in rows && rows[k].tag == tag :: StageToOp(rows[k].stage)
  }

  ghost predicate IsSpendByOp(out: map<string, real>, rows: map<Key, RunRow>, tag: string) {
    && out.Keys == OpsOf(rows, tag)
    && forall op :: op in out ==> out[op] == SpendOf(rows, tag, op)
  }

  lemma SpendMapUpdate(rows: map<Key, RunRow>, row: RunRow, tag: string, op: string)
    requires row.key in rows ==> rows[row.key].tag == row.tag && StageToOp(rows[row.key].stage) == StageToOp(row.stage)
    ensures SpendMap(rows[row.key := row], tag, op) ==
            if row.tag == tag && StageToOp(row.stage) == op then SpendMap(rows, tag, op)[row.key := Spend(row)]
            else SpendMap(rows, tag, op)
  {
    hide StageToOp;
  }

  lemma SpendOfUpdate(rows: map<Key, RunRow>, row: RunRow, tag: string, op: string)
    requires row.key in rows ==> rows[row.key].tag == row.tag && StageToOp(rows[row.key].stage) == StageToOp(row.stage)
    ensures SpendOf(rows[row.key := row], tag, op) ==
            if row.tag == tag && StageToOp(row.stage) == op
            then SpendOf(rows, tag, op) + Spend(row) - (if row.key in rows then Spend(rows[row.key]) else 0.0)
            else SpendOf(rows, tag, op)
  {
    SpendMapUpdate(rows, row, tag, op);
    TotalUpdate(SpendMap(rows, tag, op), row.key, Spend(row));
  }

  // ---- one step of a walk over the dict ----

  lemma PrefetchStep(seen: map<Key, RunRow>, k: Key, r: RunRow, onlySuccessful: bool, minLen: int)
    requires k !in seen
    ensures PrefetchView(seen[k := r], onlySuccessful, minLen) ==
            if Served(r, onlySuccessful, minLen) then PrefetchView(seen, onlySuccessful, minLen)[k := ToCached(r)]
            else PrefetchView(seen, onlySuccessful, minLen)
  {
  }

  lemma ListsAppend(snap: seq<RunRow>, view: map<Key, RunRow>, r: RunRow)
    requires Lists(snap, view) && r.key !in view
    ensures Lists(snap + [r], view[r.key := r])
  {
    AppendDistinct(snap, r);
    MapGrows(view, r.key, r);
    hide NoDuplicates;
    var snap', view' := snap + [r], view[r.key := r];
    forall x | x in snap' ensures x.key in view' && view'[x.key] == x {
      if x in snap {
        assert x.key in view && view[x.key] == x;
      }
    }
    forall k | k in view' ensures view'[k] in snap' {
      if k == r.key {
        assert snap'[|snap|] == r;
      } else {
        assert view[k] in snap;
      }
    }
  }

  lemma QueryStep(seen: map<Key, RunRow>, snap: seq<RunRow>, r: RunRow, tag: string, stage: Option<string>)
    requires r.key !in seen
    requires Lists(snap, QueryView(seen, tag, stage))
    ensures Lists(if r.tag == tag && StageMatches(r, stage) then snap + [r] else snap,
                  QueryView(seen[r.key := r], tag, stage))
  {
    var before, after := QueryView(seen, tag, stage), QueryView(seen[r.key := r], tag, stage);
    if r.tag == tag && StageMatches(r, stage) {
      assert after == before[r.key := r];
      ListsAppend(snap, before, r);
    } else {
      assert after == before;
    }
  }

  lemma NoRowsNoSpend(rows: map<Key, RunRow>, tag: string, op: string)
    requires op !in OpsOf(rows, tag)
    ensures SpendOf(rows, tag, op) == 0.0
  {
    assert SpendMap(rows, tag, op) == map[];
  }

  lemma SpendStep(out: map<string, real>, seen: map<Key, RunRow>, r: RunRow, tag: string)
    requires r.key !in seen
    requires IsSpendByOp(out, seen, tag)
    ensures var op := StageToOp(r.stage);
            IsSpendByOp(if r.tag == tag then out[op := At(out, op, 0.0) + Spend(r)] else out, seen[r.key := r], tag)
  {
    hide Total;
    hide StageToOp;
    var op := StageToOp(r.stage);
    var seen' := seen[r.key := r];
    forall o: string ensures SpendOf(seen', tag, o) ==
      SpendOf(seen, tag, o) + if r.tag == tag && o == op then Spend(r) else 0.0 {
      SpendOfUpdate(seen, r, tag, o);
    }
    assert OpsOf(seen', tag) == OpsOf(seen, tag) + if r.tag == tag then {op} else {} by {
      assert seen'[r.key] == r;
      forall x | x in OpsOf(seen, tag) ensures x in OpsOf(seen', tag) {
        var w :| w in seen && seen[w].tag == tag && StageToOp(seen[w].stage) == x;
        assert seen'[w] == seen[w];
      }
    }
    if op !in out {
      NoRowsNoSpend(seen, tag, op);
    }
  }

  class InMemoryStorage {
    var rows: map<Key, RunRow>

    ghost predicate Valid()
      reads this
    {
      WellKeyed(rows)
    }

    constructor ()
      ensures Valid() && rows == map[]
    {
      rows := map[];
    }

    method RecordCall(row: RunRow) returns (hash: string)
      requires Valid()
      modifies this
      ensures Valid()
      ensures hash == row.key.compositeHash
      ensures rows == Upsert(old(rows), row)
    {
      hash := row.key.compositeHash;
      if row.key in rows {
        var existing := rows[row.key];
        if IsRowUsable(existing.response, existing.errorClass, existing.parseFailurePrefix, MIN_USABLE_RESPONSE_LEN) {
          return;
        }
      }
      rows := rows[row.key := row];
    }

    method PrefetchResumeCache(onlySuccessful: bool, minLen: int) returns (out: map<Key, CachedResponse>)
      requires Valid()
      ensures out == PrefetchView(rows, onlySuccessful, minLen)
    {
      out := map[];
      var keys := Enumerate(rows.Keys);
      ghost var seen: map<Key, RunRow> := map[];
      for i := 0 to |keys|
        invariant Walked(rows, keys, i, seen)
        invariant out == PrefetchView(seen, onlySuccessful, minLen)
      {
        WalkOn(rows, keys, i, seen);
        var row := rows[keys[i]];
        PrefetchStep(seen, keys[i], row, onlySuccessful, minLen);
        seen := seen[keys[i] := row];
        if onlySuccessful {
          if !IsRowUsable(row.response, row.errorClass, row.parseFailurePrefix, minLen) {
            continue;
          }
        } else if row.response.None? || |row.response.value| < minLen {
          continue;
        }
        out := out[keys[i] := ToCached(row)];
      }
      WalkDone(rows, keys, seen);
    }

    method GetCached(key: Key) returns (cached: Option<CachedResponse>)
      requires Valid()
      ensures cached == Lookup(rows, key)
    {
      if key !in rows {
        return None;
      }
      var row := rows[key];
      if !IsRowUsable(row.response, row.errorClass, row.parseFailurePrefix, MIN_USABLE_RESPONSE_LEN) {
        return None;
      }
      return Some(ToCached(row));
    }

    method QueryRows(tag: string, stage: Option<string>) returns (snap: seq<RunRow>)
      requires Valid()
      ensures Lists(snap, QueryView(rows, tag, stage))
    {
      snap := [];
      var keys := Enumerate(rows.Keys);
      ghost var seen: map<Key, RunRow> := map[];
      for i := 0 to |keys|
        invariant Walked(rows, keys, i, seen)
        invariant Lists(snap, QueryView(seen, tag, stage))
      {
        WalkOn(rows, keys, i, seen);
        var r := rows[keys[i]];
        QueryStep(seen, snap, r, tag, stage);
        seen := seen[r.key := r];
        if r.tag == tag && (stage.None? || r.stage == stage.value) {
          snap := snap + [r];
        }
      }
      WalkDone(rows, keys, seen);
    }

    method QuerySpendByOp(tag: string) returns (out: map<string, real>)
      requires Valid()
      ensures IsSpendByOp(out, rows, tag)
    {
      out := map[];
      var keys := Enumerate(rows.Keys);
      ghost var seen: map<Key, RunRow> := map[];
      for i := 0 to |keys|
        invariant Walked(rows, keys, i, seen)
        invariant IsSpendByOp(out, seen, tag)
      {
        WalkOn(rows, keys, i, seen);
        var r := rows[keys[i]];
        SpendStep(out, seen, r, tag);
        seen := seen[r.key := r];
        if r.tag == tag {
          var op := StageToOp(r.stage);
          out := out[op := At(out, op, 0.0) + Spend(r)];
        }
      }
      WalkDone(rows, keys, seen);
    }

    method DeleteExperiment(tag: string) returns (n: nat)
      requires Valid()
      modifies this
      ensures Valid()
      ensures rows == Without(old(rows), tag)
      ensures n == |QueryView(old(rows), tag, None)|
    {
      var doomed := set k | k in rows && rows[k].tag == tag;
      assert doomed == QueryView(rows, tag, None).Keys;
      n := |doomed|;
      rows := rows - doomed;
    }
  }
}
