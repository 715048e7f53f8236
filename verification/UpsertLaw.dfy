// What survives repeated attempts on one key: the same law for the dict, the log and,
// up to an exact condition, the conditional upsert of the Postgres backend.
module UpsertLaw {
  import opened Common
  import opened Rows
  import opened MemoryStorage
  import opened FileStorage
  import opened StorageSimulation

  /** The first attempt that is final, or the last one when none is. */
  function FirstOrLast(h: seq<RunRow>, final: RunRow -> bool): (r: RunRow)
    requires h != []
    ensures r in h
    ensures final(r) || (r == h[|h| - 1] && forall i :: 0 <= i < |h| ==> !final(h[i]))
  {
    if final(h[0]) || |h| == 1 then h[0] else FirstOrLast(h[1..], final)
  }

  lemma {:induction false} FirstOrLastGrows(h: seq<RunRow>, row: RunRow, final: RunRow -> bool)
    requires h != []
    ensures FirstOrLast(h + [row], final) == if final(FirstOrLast(h, final)) then FirstOrLast(h, final) else row
  {
    if |h| == 1 {
      assert (h + [row])[1..] == [row];
    } else if !final(h[0]) {
      FirstOrLastGrows(h[1..], row, final);
      assert (h + [row])[1..] == h[1..] + [row];
    }
  }

  // ---- any upsert that never overwrites a final row, over traces of writes and deletes ----

  function UpsertUnless(final: RunRow -> bool, m: map<Key, RunRow>, row: RunRow): map<Key, RunRow> {
    if row.key in m && final(m[row.key]) then m else m[row.key := row]
  }

  function TraceRun(final: RunRow -> bool, ops: seq<Op>): map<Key, RunRow> {
    if ops == [] then map[]
    else
      var m := TraceRun(final, ops[..|ops| - 1]);
      match ops[|ops| - 1]
      case Record(row) => UpsertUnless(final, m, row)
      case Delete(tag) => Without(m, tag)
  }

  /** The attempts at k since a delete last removed it, oldest first. */
  function Attempts(final: RunRow -> bool, ops: seq<Op>, k: Key): seq<RunRow> {
    if ops == [] then []
    else
      var h := Attempts(final, ops[..|ops| - 1], k);
      match ops[|ops| - 1]
      case Record(row) => if row.key == k then h + [row] else h
      case Delete(tag) => if h != [] && FirstOrLast(h, final).tag == tag then [] else h
  }

  lemma {:induction false} KeepsFirstFinalElseLast(final: RunRow -> bool, ops: seq<Op>, k: Key)
    ensures k in TraceRun(final, ops) <==> Attempts(final, ops, k) != []
    ensures k in TraceRun(final, ops) ==> TraceRun(final, ops)[k] == FirstOrLast(Attempts(final, ops, k), final)
  {
    if ops != [] {
      var front, last := ops[..|ops| - 1], ops[|ops| - 1];
      KeepsFirstFinalElseLast(final, front, k);
      if last.Record? && last.row.key == k && Attempts(final, front, k) != [] {
        FirstOrLastGrows(Attempts(final, front, k), last.row, final);
      }
    }
  }

  lemma {:induction false} AttemptsAreRecorded(final: RunRow -> bool, ops: seq<Op>, k: Key)
    ensures forall r :: r in Attempts(final, ops, k) ==> Record(r) in ops && r.key == k
  {
    if ops != [] {
      AttemptsAreRecorded(final, ops[..|ops| - 1], k);
    }
  }

  /** Without deletes every attempt at k counts, whatever is final. */
  lemma {:induction false} AttemptsWithoutDeletes(f: RunRow -> bool, g: RunRow -> bool, ops: seq<Op>, k: Key)
    requires forall i :: 0 <= i < |ops| ==> ops[i].Record?
    ensures Attempts(f, ops, k) == Attempts(g, ops, k)
  {
    if ops != [] {
      AttemptsWithoutDeletes(f, g, ops[..|ops| - 1], k);
    }
  }

  // ---- the dict and the log ----

  lemma {:induction false} MemoryIsTraceRun(ops: seq<Op>)
    ensures MemRun(ops) == TraceRun(Usable, ops)
  {
    if ops != [] {
      MemoryIsTraceRun(ops[..|ops| - 1]);
    }
  }

  /** Dict: first usable attempt if there is one, otherwise the last attempt. */
  lemma MemoryKeepsFirstUsableElseLast(ops: seq<Op>, k: Key)
    ensures k in MemRun(ops) <==> Attempts(Usable, ops, k) != []
    ensures k in MemRun(ops) ==> MemRun(ops)[k] == FirstOrLast(Attempts(Usable, ops, k), Usable)
  {
    MemoryIsTraceRun(ops);
    KeepsFirstFinalElseLast(Usable, ops, k);
  }

  /** The key is only ever recorded under this tag. */
  ghost predicate UnderTag(ops: seq<Op>, k: Key, tag: string) {
    forall i :: 0 <= i < |ops| && ops[i].Record? && ops[i].row.key == k ==> ops[i].row.tag == tag
  }

  /** The log's view of the tag and the dict hold the same row of k, or neither holds one. */
  ghost predicate SameHeld(ops: seq<Op>, k: Key, tag: string) {
    var view, m := FileRun(ops).View(tag, None), MemRun(ops);
    && (k in view <==> k in m)
    && (k in view ==> view[k] == m[k] && m[k].tag == tag)
  }

  ghost predicate SameThroughout(ops: seq<Op>, k: Key, tag: string) {
    SameHeld(ops, k, tag) && (ops == [] || SameThroughout(ops[..|ops| - 1], k, tag))
  }

  /** No delete of the root comes while k is stored under another tag. */
  predicate KeyNeverWiped(ops: seq<Op>, k: Key) {
    ops == [] ||
    var front, last := ops[..|ops| - 1], ops[|ops| - 1];
    && KeyNeverWiped(front, k)
    && (last == Delete(ROOT_TAG) && k in MemRun(front) ==> MemRun(front)[k].tag == ROOT_TAG)
  }

  lemma SameHeldRecord(front: seq<Op>, row: RunRow, k: Key, tag: string)
    requires SameHeld(front, k, tag) && (row.key == k ==> row.tag == tag)
    ensures var view, m := FileRun(front).Recorded(row).View(tag, None), Upsert(MemRun(front), row);
            && (k in view <==> k in m)
            && (k in view ==> view[k] == m[k] && m[k].tag == tag)
  {
    var m, f := MemRun(front), FileRun(front);
    IndexIsUsablePart(front);
    hide LastWins;
    if row.key in f.index {
      assert row.key in UsableIndex(m);
    } else {
      ViewRecorded(f, row, tag, None);
      IndexRecorded(m, f, row);
    }
  }

  lemma SameHeldDelete(front: seq<Op>, t: string, k: Key, tag: string)
    requires SameHeld(front, k, tag)
    ensures var view, m := FileRun(front).Deleted(t).View(tag, None), Without(MemRun(front), t);
            && (k in view <==> k in m) && (k in view ==> view[k] == m[k] && m[k].tag == tag)
            <==> (t == ROOT_TAG && k in MemRun(front) ==> MemRun(front)[k].tag == ROOT_TAG)
  {
    var f := FileRun(front);
    if t == ROOT_TAG || t == tag {
      assert f.Deleted(t).View(tag, None) == map[];
    } else {
      assert f.Deleted(t).Log(tag) == f.Log(tag);
    }
  }

  lemma SameHeldStep(front: seq<Op>, ops: seq<Op>, k: Key, tag: string)
    requires ops != [] && front == ops[..|ops| - 1]
    requires UnderTag(ops, k, tag) && SameHeld(front, k, tag)
    ensures SameHeld(ops, k, tag) <==>
            (ops[|ops| - 1] == Delete(ROOT_TAG) && k in MemRun(front) ==> MemRun(front)[k].tag == ROOT_TAG)
  {
    match ops[|ops| - 1]
    case Record(row) => SameHeldRecord(front, row, k, tag);
    case Delete(t) => SameHeldDelete(front, t, k, tag);
  }

  /** With one tag per key: log and dict hold the same row at every point exactly when the key is never wiped. */
  lemma {:induction false} LogHoldsSameKeyIff(ops: seq<Op>, k: Key, tag: string)
    requires UnderTag(ops, k, tag)
    ensures SameThroughout(ops, k, tag) <==> KeyNeverWiped(ops, k)
  {
    if ops != [] {
      var front := ops[..|ops| - 1];
      LogHoldsSameKeyIff(front, k, tag);
      if SameThroughout(front, k, tag) {
        SameHeldStep(front, ops, k, tag);
      }
    }
  }

  /** Log: the last-wins read gives the same row, when the key stays under one tag and is never wiped. */
  lemma FileKeepsFirstUsableElseLast(ops: seq<Op>, k: Key, tag: string)
    requires UnderTag(ops, k, tag) && KeyNeverWiped(ops, k)
    ensures var view := FileRun(ops).View(tag, None);
            && (k in view <==> Attempts(Usable, ops, k) != [])
            && (k in view ==> view[k] == FirstOrLast(Attempts(Usable, ops, k), Usable))
  {
    MemoryKeepsFirstUsableElseLast(ops, k);
    LogHoldsSameKeyIff(ops, k, tag);
  }

  // ---- Postgres: ON CONFLICT DO UPDATE ... WHERE the stored row failed ----

  /** Neither an error class nor a parse-failure prefix; the response length is not looked at. */
  predicate PgClean(row: RunRow) {
    !Truthy(row.errorClass) && !Truthy(row.parseFailurePrefix)
  }

  /** A clean row too short to be served: final for Postgres, retried by the other backends. */
  predicate PgStuck(row: RunRow) {
    PgClean(row) && !Usable(row)
  }

  function PgUpsert(m: map<Key, RunRow>, row: RunRow): map<Key, RunRow> {
    UpsertUnless(PgClean, m, row)
  }

  function PgRun(ops: seq<Op>): map<Key, RunRow> {
    TraceRun(PgClean, ops)
  }

  /** A different attempt after a stuck row: the guard a caller can test beforehand. */
  predicate Sticks(m: map<Key, RunRow>, row: RunRow) {
    row.key in m && PgStuck(m[row.key]) && m[row.key] != row
  }

  /** One write: the two upserts differ exactly when it sticks. */
  lemma PgStepAgreesIff(m: map<Key, RunRow>, row: RunRow)
    ensures PgUpsert(m, row) == Upsert(m, row) <==> !Sticks(m, row)
  {
    if row.key in m && PgStuck(m[row.key]) {
      assert m[row.key := row][row.key] == row;
      assert m[row.key] == row ==> m[row.key := row] == m;
    }
  }

  ghost predicate PgAgreesThroughout(ops: seq<Op>) {
    && PgRun(ops) == MemRun(ops)
    && (ops == [] || PgAgreesThroughout(ops[..|ops| - 1]))
  }

  predicate NeverSticks(ops: seq<Op>) {
    ops == [] ||
    var front, last := ops[..|ops| - 1], ops[|ops| - 1];
    NeverSticks(front) && (last.Record? ==> !Sticks(MemRun(front), last.row))
  }

  /** Over whole traces with deletes: Postgres holds what memory holds at every point exactly when no write sticks. */
  lemma {:induction false} PgAgreesThroughoutIff(ops: seq<Op>)
    ensures PgAgreesThroughout(ops) <==> NeverSticks(ops)
  {
    if ops != [] {
      var front, last := ops[..|ops| - 1], ops[|ops| - 1];
      PgAgreesThroughoutIff(front);
      if last.Record? {
        PgStepAgreesIff(MemRun(front), last.row);
      }
    }
  }

  // ---- Postgres, told by the history of a key ----

  /** Attempt i is the first clean one and too short. */
  predicate StuckAt(h: seq<RunRow>, i: nat)
    requires i < |h|
  {
    PgStuck(h[i]) && forall j :: 0 <= j < i ==> !PgClean(h[j])
  }

  /** A later attempt that memory would hold instead: a usable one, or a different one that is the last. */
  predicate Supersedes(h: seq<RunRow>, i: nat, j: nat)
    requires i < |h| && j < |h|
  {
    i < j && h[j] != h[i] && (Usable(h[j]) || j == |h| - 1)
  }

  lemma {:induction false} FirstOrLastIs(h: seq<RunRow>, final: RunRow -> bool) returns (i: nat)
    requires h != []
    ensures i < |h| && h[i] == FirstOrLast(h, final)
    ensures forall j :: 0 <= j < i ==> !final(h[j])
    ensures final(h[i]) || i == |h| - 1
  {
    if final(h[0]) || |h| == 1 {
      i := 0;
    } else {
      var i' := FirstOrLastIs(h[1..], final);
      i := i' + 1;
      forall j | 0 <= j < i ensures !final(h[j]) {
        if j > 0 {
          assert h[j] == h[1..][j - 1];
        }
      }
    }
  }

  lemma UsableIsClean(row: RunRow)
    ensures Usable(row) ==> PgClean(row)
  {
  }

  /** Postgres holds attempt p, memory attempt u; if the rows differ, p got stuck and u supersedes it. */
  lemma HeldAttempts(h: seq<RunRow>) returns (p: nat, u: nat)
    requires h != []
    ensures p <= u < |h| && h[p] == FirstOrLast(h, PgClean) && h[u] == FirstOrLast(h, Usable)
    ensures h[p] != h[u] ==> StuckAt(h, p) && Supersedes(h, p, u)
    ensures forall i :: 0 <= i < |h| && StuckAt(h, i) ==> i == p
    ensures Usable(h[u]) || (u == |h| - 1 && forall i :: 0 <= i < |h| ==> !Usable(h[i]))
  {
    p := FirstOrLastIs(h, PgClean);
    u := FirstOrLastIs(h, Usable);
    UsableIsClean(h[u]);
    UsableIsClean(h[p]);
    hide Usable;
    hide PgClean;
  }

  /** Postgres ends with another row than memory exactly when a superseded attempt got stuck. */
  lemma PgHistoryAgreesIff(h: seq<RunRow>)
    requires h != []
    ensures FirstOrLast(h, PgClean) == FirstOrLast(h, Usable) <==>
            !exists i, j :: 0 <= i < |h| && 0 <= j < |h| && StuckAt(h, i) && Supersedes(h, i, j)
  {
    var p, u := HeldAttempts(h);
    hide Usable;
    hide PgClean;
    if exists i, j :: 0 <= i < |h| && 0 <= j < |h| && StuckAt(h, i) && Supersedes(h, i, j) {
      var i, j :| 0 <= i < |h| && 0 <= j < |h| && StuckAt(h, i) && Supersedes(h, i, j);
      assert i == p;
      if !Usable(h[u]) {
        assert j == u;
      }
    }
  }

  /** What get_cached makes of a stored row. */
  function Answer(row: RunRow): Option<CachedResponse> {
    if Usable(row) then Some(ToCached(row)) else None
  }

  /** A reader gets another answer exactly when a usable attempt follows one that got stuck. */
  lemma PgServesSameIff(h: seq<RunRow>)
    requires h != []
    ensures Answer(FirstOrLast(h, PgClean)) == Answer(FirstOrLast(h, Usable)) <==>
            !exists i, j :: 0 <= i < j < |h| && StuckAt(h, i) && Usable(h[j])
  {
    var p, u := HeldAttempts(h);
    hide Usable;
    hide PgClean;
    if exists i, j :: 0 <= i < j < |h| && StuckAt(h, i) && Usable(h[j]) {
      var i, j :| 0 <= i < j < |h| && StuckAt(h, i) && Usable(h[j]);
      assert i == p && Usable(h[u]);
    }
  }

  /** The two tables, key by key, after any writes without a delete. */
  lemma PgTablesAgreeIff(ops: seq<Op>, k: Key)
    requires forall i :: 0 <= i < |ops| ==> ops[i].Record?
    ensures k in PgRun(ops) <==> k in MemRun(ops)
    ensures var h := Attempts(Usable, ops, k);
            k in PgRun(ops) ==>
              && (PgRun(ops)[k] == MemRun(ops)[k] <==>
                  !exists i, j :: 0 <= i < |h| && 0 <= j < |h| && StuckAt(h, i) && Supersedes(h, i, j))
              && (Lookup(PgRun(ops), k) == Lookup(MemRun(ops), k) <==>
                  !exists i, j :: 0 <= i < j < |h| && StuckAt(h, i) && Usable(h[j]))
  {
    var h := Attempts(Usable, ops, k);
    AttemptsWithoutDeletes(PgClean, Usable, ops, k);
    KeepsFirstFinalElseLast(PgClean, ops, k);
    MemoryKeepsFirstUsableElseLast(ops, k);
    if h != [] {
      PgHistoryAgreesIff(h);
      PgServesSameIff(h);
    }
  }

  /** Whatever the responses, Postgres holds only rows that were recorded, under their own key. */
  lemma PgHoldsRecordedRows(ops: seq<Op>, k: Key)
    requires k in PgRun(ops)
    ensures Record(PgRun(ops)[k]) in ops && PgRun(ops)[k].key == k
  {
    KeepsFirstFinalElseLast(PgClean, ops, k);
    AttemptsAreRecorded(PgClean, ops, k);
  }

  /** When clean responses are always long enough, Postgres holds what memory holds, deletes included. */
  lemma {:induction false} PgAgreesWithoutShortResponses(ops: seq<Op>)
    requires forall i :: 0 <= i < |ops| && ops[i].Record? && PgClean(ops[i].row) ==> Usable(ops[i].row)
    ensures PgRun(ops) == MemRun(ops)
    ensures forall k :: k in PgRun(ops) ==> Record(PgRun(ops)[k]) in ops
  {
    forall k | k in PgRun(ops) ensures Record(PgRun(ops)[k]) in ops {
      PgHoldsRecordedRows(ops, k);
    }
    if ops != [] {
      var front, last := ops[..|ops| - 1], ops[|ops| - 1];
      PgAgreesWithoutShortResponses(front);
      if last.Record? && last.row.key in PgRun(front) {
        PgHoldsRecordedRows(front, last.row.key);
      }
    }
  }

  /** Concretely: after a short clean answer, a usable retry is kept by memory and dropped by Postgres. */
  lemma PgDropsUsableRetry(short: RunRow, retry: RunRow)
    requires short.key == retry.key && PgStuck(short) && Usable(retry)
    ensures Lookup(MemRun([Record(short), Record(retry)]), short.key) == Some(ToCached(retry))
    ensures Lookup(PgRun([Record(short), Record(retry)]), short.key) == None
  {
    var ops := [Record(short), Record(retry)];
    var first := ops[..1];
    assert first == [Record(short)] && first[..0] == [];
    assert TraceRun(PgClean, first) == map[short.key := short];
    assert MemRun(first) == map[short.key := short];
  }
}
