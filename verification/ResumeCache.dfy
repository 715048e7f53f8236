// ResumeCache: an in-memory mirror of the usable rows in storage.
module ResumeCache {
  import opened Common
  import opened Rows
  import opened MemoryStorage

  class ResumeCache {
    var entries: map<Key, CachedResponse>

    constructor ()
      ensures entries == map[]
    {
      entries := map[];
    }

    /** Replaces the whole cache by what storage serves. */
    method PopulateFromStorage(storage: InMemoryStorage, onlySuccessful: bool, minLen: int) returns (n: nat)
      requires storage.Valid()
      modifies this
      ensures entries == PrefetchView(storage.rows, onlySuccessful, minLen)
      ensures n == |entries|
    {
      entries := storage.PrefetchResumeCache(onlySuccessful, minLen);
      n := |entries|;
    }

    method Get(key: Key) returns (cached: Option<CachedResponse>)
      ensures cached == if key in entries then Some(entries[key]) else None
    {
      if key in entries {
        return Some(entries[key]);
      }
      return None;
    }

    /** The entry is filed under the response's own hash and thinking, plus the caller's provider and model. */
    method Put(response: CachedResponse, provider: string, model: string)
      modifies this
      ensures entries == old(entries)[Key(response.compositeHash, provider, model, response.thinking) := response]
    {
      entries := entries[Key(response.compositeHash, provider, model, response.thinking) := response];
    }
  }
}
