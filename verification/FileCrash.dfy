// Crash safety of FileStorage: record_call is an append and then an index commit,
// delete_experiment an index commit and then the removal of the tag's directory.
// The process may die between any two steps; files and index survive, the lock does not.
module FileCrash {
  import opened Common
  import opened Rows
  import opened FileStorage
  import opened StorageSimulation

  /** What the lock holder has left to do. */
  datatype Pending = Idle | Appended(row: RunRow) | Unindexed(tag: string)

  /**
   * `unlinked`: the index's directory was removed. The open connection still sees the index, a process
   * that starts afterwards finds an empty one.
   */
  datatype State = State(files: Files, pending: Pending, unlinked: bool)

  const NEW := State(Files(map[], map[]), Idle, false)

  datatype Step =
    | Append(row: RunRow)    // record_call up to the log line; returns early when the key is indexed
    | CommitIndex            // the rest of record_call
    | DropIndex(tag: string) // delete_experiment up to the index commit
    | RemoveTree             // the rest of delete_experiment
    | Crash

  predicate Enabled(s: State, e: Step) {
    match e
    case Append(_) => s.pending.Idle?
    case CommitIndex => s.pending.Appended?
    case DropIndex(_) => s.pending.Idle?
    case RemoveTree => s.pending.Unindexed?
    case Crash => true
  }

  function Do(s: State, e: Step): State
    requires Enabled(s, e)
  {
    match e
    case Append(row) =>
      if row.key in s.files.index then s else s.(files := s.files.Appended(row), pending := Appended(row))
    case CommitIndex => s.(files := s.files.Indexed(s.pending.row), pending := Idle)
    case DropIndex(tag) => s.(files := s.files.Unindexed(tag), pending := Unindexed(tag))
    case RemoveTree =>
      State(s.files.TreeRemoved(s.pending.tag), Idle, s.unlinked || s.pending.tag in {ROOT_TAG, INDEX_TAG})
    case Crash => State(if s.unlinked then s.files.(index := map[]) else s.files, Idle, false)
  }

  ghost predicate IsRun(states: seq<State>, steps: seq<Step>) {
    && |states| == |steps| + 1
    && states[0] == NEW
    && forall i :: 0 <= i < |steps| ==> Enabled(states[i], steps[i]) && states[i + 1] == Do(states[i], steps[i])
  }

  /** The index entry for k is exactly what the last-wins read of its source log returns. */
  ghost predicate EntryBacked(f: Files, k: Key) {
    k in f.index ==>
      var view := f.View(f.index[k].sourceTag, None);
      k in view && view[k].key == k && Usable(view[k]) && view[k].tag == f.index[k].sourceTag
        && ToIndexRow(view[k]) == f.index[k]
  }

  ghost predicate Inv(s: State) {
    && (forall k :: EntryBacked(s.files, k))
    && (s.pending.Appended? ==>
          && s.pending.row.key !in s.files.index
          && LoggedLast(s.files, s.pending.row.key, s.pending.row))
    && (s.pending.Unindexed? ==> forall k :: k in s.files.index ==> s.files.index[k].sourceTag != s.pending.tag)
  }

  /** The root goes, with every log below it, while the index still has rows. */
  predicate Orphans(s: State, e: Step) {
    e.RemoveTree? && s.pending.Unindexed? && s.pending.tag == ROOT_TAG && s.files.index != map[]
  }

  lemma OrphanedRow(s: State, e: Step)
    requires Enabled(s, e) && Orphans(s, e)
    ensures exists k :: !EntryBacked(Do(s, e).files, k)
  {
    var k :| k in s.files.index;
    assert !EntryBacked(Do(s, e).files, k);
  }

  lemma RemovalKeepsBacked(s: State)
    requires Inv(s) && Enabled(s, RemoveTree) && !Orphans(s, RemoveTree)
    ensures Inv(Do(s, RemoveTree))
  {
    var s' := Do(s, RemoveTree);
    forall k ensures EntryBacked(s'.files, k) {
      assert EntryBacked(s.files, k);
      if k in s.files.index {
        assert s'.files.Log(s.files.index[k].sourceTag) == s.files.Log(s.files.index[k].sourceTag);
      }
    }
  }

  /** Every step keeps the index backed, exactly unless it orphans. */
  lemma StepKeepsInv(s: State, e: Step)
    requires Inv(s) && Enabled(s, e)
    ensures Inv(Do(s, e)) <==> !Orphans(s, e)
  {
    var s' := Do(s, e);
    match e {
      case Append(row) =>
        if row.key !in s.files.index {
          forall k ensures EntryBacked(s'.files, k) {
            assert EntryBacked(s.files, k);
            if k in s.files.index {
              ViewAppended(s.files, row, s.files.index[k].sourceTag, None);
            }
          }
          ViewAppended(s.files, row, row.tag, None);
        }
      case CommitIndex =>
        forall k ensures EntryBacked(s'.files, k) {
          assert EntryBacked(s.files, k);
          assert forall t :: s'.files.View(t, None) == s.files.View(t, None);
        }
      case DropIndex(tag) =>
        forall k ensures EntryBacked(s'.files, k) {
          assert EntryBacked(s.files, k);
        }
      case RemoveTree =>
        if Orphans(s, e) {
          OrphanedRow(s, e);
        } else {
          RemovalKeepsBacked(s);
        }
      case Crash =>
    }
  }

  /** At every point of every run with crashes and no orphaning, no index row points at anything else. */
  lemma {:induction false} IndexAlwaysBacked(states: seq<State>, steps: seq<Step>, i: nat)
    requires IsRun(states, steps) && i < |states|
    requires forall j :: 0 <= j < i ==> !Orphans(states[j], steps[j])
    ensures Inv(states[i])
    ensures forall k :: EntryBacked(states[i].files, k)
  {
    if i > 0 {
      IndexAlwaysBacked(states, steps, i - 1);
      StepKeepsInv(states[i - 1], steps[i - 1]);
    }
  }

  ghost predicate Backed(f: Files) {
    forall k :: EntryBacked(f, k)
  }

  /**
   * Main theorem: over whole runs with crashes anywhere, the index is backed at every point if and only
   * if the root is never removed while the index still has rows of other tags.
   */
  lemma BackedThroughoutIff(states: seq<State>, steps: seq<Step>)
    requires IsRun(states, steps)
    ensures (forall i :: 0 <= i < |states| ==> Backed(states[i].files)) <==>
            (forall i :: 0 <= i < |steps| ==> !Orphans(states[i], steps[i]))
  {
    if forall i :: 0 <= i < |steps| ==> !Orphans(states[i], steps[i]) {
      forall i | 0 <= i < |states| ensures Backed(states[i].files) {
        IndexAlwaysBacked(states, steps, i);
      }
    } else {
      var i :| 0 <= i < |steps| && Orphans(states[i], steps[i]);
      OrphanedRow(states[i], steps[i]);
      assert !Backed(states[i + 1].files);
    }
  }

  // ---- the two halves make up the whole operations ----

  lemma RecordIsItsTwoSteps(f: Files, row: RunRow)
    ensures var s := Do(State(f, Idle, false), Append(row));
            (if s.pending.Appended? then Do(s, CommitIndex) else s) == State(f.Recorded(row), Idle, false)
  {
  }

  lemma DeleteIsItsTwoSteps(f: Files, tag: string)
    ensures Do(Do(State(f, Idle, false), DropIndex(tag)), RemoveTree) ==
            State(f.Deleted(tag), Idle, tag in {ROOT_TAG, INDEX_TAG})
  {
  }

  // ---- recovery ----

  ghost predicate SameReads(f: Files, g: Files) {
    && f.index == g.index
    && forall tag, stage :: f.View(tag, stage) == g.View(tag, stage)
  }

  lemma RetryReadsAsFirst(f: Files, row: RunRow, retry: RunRow, tag: string, stage: Option<string>)
    requires row.key !in f.index
    requires retry.key == row.key && retry.tag == row.tag && retry.stage == row.stage
    ensures f.Appended(row).Recorded(retry).View(tag, stage) == f.Recorded(retry).View(tag, stage)
  {
    hide LastWins;
    ViewRecorded(f.Appended(row), retry, tag, stage);
    ViewAppended(f, row, tag, stage);
    ViewRecorded(f, retry, tag, stage);
  }

  /**
   * A crash after the append, then another attempt at the same key, tag and stage with whatever answer
   * it gets: a reader sees what there would have been without the crashed attempt.
   */
  lemma RetryAfterCrashRecovers(f: Files, row: RunRow, retry: RunRow)
    requires row.key !in f.index
    requires retry.key == row.key && retry.tag == row.tag && retry.stage == row.stage
    ensures var crashed := Do(Do(State(f, Idle, false), Append(row)), Crash).files;
            SameReads(crashed.Recorded(retry), f.Recorded(retry))
  {
    hide LastWins;
    forall tag, stage ensures f.Appended(row).Recorded(retry).View(tag, stage) == f.Recorded(retry).View(tag, stage) {
      RetryReadsAsFirst(f, row, retry, tag, stage);
    }
  }

  /** A crash inside a delete, then the same delete again: as if it had not crashed. */
  lemma RedeleteAfterCrashRecovers(f: Files, tag: string)
    ensures Do(Do(State(f, Idle, false), DropIndex(tag)), Crash).files.Deleted(tag) == f.Deleted(tag)
  {
    var once := f.Unindexed(tag);
    assert once.Unindexed(tag).index == once.index;
  }

  /** The opposite order of delete would not be safe: removing the tree first can orphan index rows. */
  lemma TreeFirstWouldOrphan(row: RunRow)
    requires Usable(row)
    ensures var f: Files := Files(map[], map[]).Recorded(row);
            !EntryBacked(f.TreeRemoved(row.tag), row.key)
  {
    var f: Files := Files(map[], map[]).Recorded(row);
    assert f.index[row.key] == ToIndexRow(row);
    assert f.TreeRemoved(row.tag).Log(row.tag) == [];
  }

  /** Concretely: one usable row under another tag, then the root is deleted. */
  lemma RootDeleteOrphans(row: RunRow)
    requires Usable(row) && row.tag != ROOT_TAG
    ensures var s := Do(Do(Do(Do(NEW, Append(row)), CommitIndex), DropIndex(ROOT_TAG)), RemoveTree);
            !EntryBacked(s.files, row.key) && EntryBacked(Do(s, Crash).files, row.key)
  {
    var s := Do(Do(NEW, Append(row)), CommitIndex);
    assert s.files.index[row.key] == ToIndexRow(row);
    var s' := Do(Do(s, DropIndex(ROOT_TAG)), RemoveTree);
    assert s'.files.View(row.tag, None) == map[];
  }
}
