// FileStorage: one append-only log per experiment tag, plus a tag-agnostic index
// of usable rows that answers resume lookups.
module FileStorage {
  import opened Common
  import opened Rows
  import MemoryStorage

  datatype IndexRow = IndexRow(
    response: string,
    inputTokens: int,
    outputTokens: int,
    reasoningTokens: int,
    costUsd: real,
    errorClass: Option<string>,
    sourceTag: string)

  datatype StorageError = InvalidTag(tag: string)

  predicate TagChar(c: char) {
    'A' <= c <= 'Z' || 'a' <= c <= 'z' || '0' <= c <= '9' || c == '_' || c == '.' || c == '-'
  }

  /** The allow-list pattern, and the containment check that then rejects "..". */
  predicate ValidTag(tag: string) {
    && 1 <= |tag| <= 200
    && (forall i :: 0 <= i < |tag| ==> TagChar(tag[i]))
    && tag != ".."
  }

  /** Two valid tags name directories the backend itself uses: the storage root and the index's own. */
  const ROOT_TAG := "."
  const INDEX_TAG := "_index"

  function ToIndexRow(row: RunRow): IndexRow {
    IndexRow(row.response.GetOr(""), row.inputTokens.GetOr(0), row.outputTokens.GetOr(0),
             row.reasoningTokens.GetOr(0), row.costUsd.GetOr(0.0), row.errorClass, row.tag)
  }

  function CachedOf(key: Key, e: IndexRow): CachedResponse {
    CachedResponse(key.compositeHash, e.response, e.inputTokens, e.outputTokens, e.reasoningTokens,
                   e.costUsd, key.thinking, e.sourceTag)
  }

  predicate IndexServes(e: IndexRow, onlySuccessful: bool, minLen: int) {
    if onlySuccessful then IsRowUsable(Some(e.response), e.errorClass, None, minLen) else |e.response| >= minLen
  }

  // ---- the files as values ----

  /** A later line for the same key replaces an earlier one; lines of other stages are skipped first. */
  function LastWins(log: seq<RunRow>, stage: Option<string>): map<Key, RunRow> {
    if log == [] then map[]
    else
      var before := LastWins(log[..|log| - 1], stage);
      var last := log[|log| - 1];
      if MemoryStorage.StageMatches(last, stage) then before[last.key := last] else before
  }

  datatype Files = Files(logs: map<string, seq<RunRow>>, index: map<Key, IndexRow>) {
    /** A missing file reads as no lines. */
    function Log(tag: string): seq<RunRow> {
      if tag in logs then logs[tag] else []
    }

    function Appended(row: RunRow): Files {
      this.(logs := logs[row.tag := Log(row.tag) + [row]])
    }

    /** INSERT OR IGNORE of a usable row. */
    function Indexed(row: RunRow): Files {
      if Usable(row) && row.key !in index then this.(index := index[row.key := ToIndexRow(row)]) else this
    }

    function Unindexed(tag: string): Files {
      this.(index := map k | k in index && index[k].sourceTag != tag :: index[k])
    }

    /** The directory of the tag and everything below it: for "." that is the storage root with every log. */
    function TreeRemoved(tag: string): Files {
      this.(logs := if tag == ROOT_TAG then map[] else logs - {tag})
    }

    function Recorded(row: RunRow): Files {
      if row.key in index then this else Appended(row).Indexed(row)
    }

    function Deleted(tag: string): Files {
      Unindexed(tag).TreeRemoved(tag)
    }

    function Found(key: Key): Option<CachedResponse> {
      if key in index && IndexServes(index[key], true, MIN_USABLE_RESPONSE_LEN)
      then Some(CachedOf(key, index[key])) else None
    }

    function Prefetched(onlySuccessful: bool, minLen: int): map<Key, CachedResponse> {
      map k | k in index && IndexServes(index[k], onlySuccessful, minLen) :: CachedOf(k, index[k])
    }

    function View(tag: string, stage: Option<string>): map<Key, RunRow> {
      LastWins(Log(tag), stage)
    }
  }

  lemma PrefetchStep(seen: map<Key, IndexRow>, k: Key, e: IndexRow, onlySuccessful: bool, minLen: int)
    requires k !in seen
    ensures var before := Files(map[], seen).Prefetched(onlySuccessful, minLen);
            Files(map[], seen[k := e]).Prefetched(onlySuccessful, minLen) ==
            if IndexServes(e, onlySuccessful, minLen) then before[k := CachedOf(k, e)] else before
  {
  }

  class FileStorage {
    var logs: map<string, seq<RunRow>>
    var index: map<Key, IndexRow>

    function Contents(): Files
      reads this
    {
      Files(logs, index)
    }

    constructor ()
      ensures Contents() == Files(map[], map[])
    {
      logs, index := map[], map[];
    }

    method RecordCall(row: RunRow) returns (hash: Result<string, StorageError>)
      modifies this
      ensures hash == if ValidTag(row.tag) then Ok(row.key.compositeHash) else Err(InvalidTag(row.tag))
      ensures Contents() == if ValidTag(row.tag) then old(Contents()).Recorded(row) else old(Contents())
    {
      if !ValidTag(row.tag) {
        return Err(InvalidTag(row.tag));
      }
      if row.key in index {
        return Ok(row.key.compositeHash);
      }
      logs := logs[row.tag := (if row.tag in logs then logs[row.tag] else []) + [row]];
      if IsRowUsable(row.response, row.errorClass, row.parseFailurePrefix, MIN_USABLE_RESPONSE_LEN) {
        if row.key !in index {
          index := index[row.key := ToIndexRow(row)];
        }
      }
      return Ok(row.key.compositeHash);
    }

    method PrefetchResumeCache(onlySuccessful: bool, minLen: int) returns (out: map<Key, CachedResponse>)
      ensures out == Contents().Prefetched(onlySuccessful, minLen)
    {
      out := map[];
      var keys := Enumerate(index.Keys);
      ghost var seen: map<Key, IndexRow> := map[];
      for i := 0 to |keys|
        invariant Walked(index, keys, i, seen)
        invariant out == Files(map[], seen).Prefetched(onlySuccessful, minLen)
      {
        WalkOn(index, keys, i, seen);
        var k, e := keys[i], index[keys[i]];
        PrefetchStep(seen, k, e, onlySuccessful, minLen);
        seen := seen[k := e];
        if IndexServes(e, onlySuccessful, minLen) {
          out := out[k := CachedOf(k, e)];
        }
      }
      WalkDone(index, keys, seen);
    }

    method GetCached(key: Key) returns (cached: Option<CachedResponse>)
      ensures cached == Contents().Found(key)
    {
      if key !in index {
        return None;
      }
      var e := index[key];
      if !IsRowUsable(Some(e.response), e.errorClass, None, MIN_USABLE_RESPONSE_LEN) {
        return None;
      }
      return Some(CachedOf(key, e));
    }

    method QueryRows(tag: string, stage: Option<string>) returns (rows: Result<map<Key, RunRow>, StorageError>)
      ensures rows == if ValidTag(tag) then Ok(Contents().View(tag, stage)) else Err(InvalidTag(tag))
    {
      if !ValidTag(tag) {
        return Err(InvalidTag(tag));
      }
      var byKey: map<Key, RunRow> := map[];
      if tag in logs {
        var log := logs[tag];
        for i := 0 to |log|
          invariant byKey == LastWins(log[..i], stage)
        {
          assert log[..i + 1][..i] == log[..i];
          if stage.Some? && log[i].stage != stage.value {
            continue;
          }
          byKey := byKey[log[i].key := log[i]];
        }
        assert log[..|log|] == log;
      }
      return Ok(byKey);
    }

    method DeleteExperiment(tag: string) returns (n: Result<nat, StorageError>)
      modifies this
      ensures n == if ValidTag(tag) then Ok(|old(Contents()).View(tag, None)|) else Err(InvalidTag(tag))
      ensures Contents() == if ValidTag(tag) then old(Contents()).Deleted(tag) else old(Contents())
    {
      var rows := QueryRows(tag, None);
      if rows.Err? {
        return Err(InvalidTag(tag));
      }
      index := map k | k in index && index[k].sourceTag != tag :: index[k];
      logs := if tag == ROOT_TAG then map[] else logs - {tag};
      return Ok(|rows.value|);
    }
  }

  /** A valid tag has 1 to 200 characters, cannot leave the root by a separator or "..", and nothing else is refused. */
  lemma ValidTagIff(tag: string)
    ensures ValidTag(tag) ==> '/' !in tag && '\\' !in tag && '\0' !in tag && tag != ".." && 0 < |tag| < 201
    ensures tag != ".." && 0 < |tag| < 201 &&
            (forall c :: c in tag ==>
               'a' <= c <= 'z' || 'A' <= c <= 'Z' || '0' <= c <= '9' || c in {'_', '.', '-'}) ==>
              ValidTag(tag)
  {
    assert forall i :: 0 <= i < |tag| ==> tag[i] in tag;
    forall c | TagChar(c) ensures c != '/' && c != '\\' && c != '\0' {
    }
  }
}
