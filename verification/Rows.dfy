// Result rows, their identity, and the shared "is this row usable" rule.
module Rows {
  import opened Common

  const MIN_USABLE_RESPONSE_LEN := 20

  /** Primary key of a row in every storage backend. */
  datatype Key = Key(compositeHash: string, provider: string, model: string, thinking: string)

  datatype RunRow = RunRow(
    key: Key,
    stage: string,
    taskUnitId: string,
    tag: string,
    response: Option<string>,
    errorClass: Option<string>,
    parseFailurePrefix: Option<string>,
    costUsd: Option<real>,
    effectiveCostUsd: Option<real>,
    inputTokens: Option<int>,
    outputTokens: Option<int>,
    reasoningTokens: Option<int>)

  datatype CachedResponse = CachedResponse(
    compositeHash: string,
    response: string,
    inputTokens: int,
    outputTokens: int,
    reasoningTokens: int,
    costUsd: real,
    thinking: string,
    sourceTag: string)

  predicate IsRowUsable(response: Option<string>, errorClass: Option<string>,
                        parseFailurePrefix: Option<string>, minLen: int) {
    && !Truthy(errorClass)
    && !Truthy(parseFailurePrefix)
    && response.Some?
    && |response.value| >= minLen
  }

  predicate UsableAt(row: RunRow, minLen: int) {
    IsRowUsable(row.response, row.errorClass, row.parseFailurePrefix, minLen)
  }

  /** Usable at the default minimum length: the rows a cache may serve. */
  predicate Usable(row: RunRow) {
    UsableAt(row, MIN_USABLE_RESPONSE_LEN)
  }

  /** What a cache hands out for a stored row that has a response. */
  function ToCached(row: RunRow): CachedResponse {
    CachedResponse(row.key.compositeHash, row.response.GetOr(""), row.inputTokens.GetOr(0),
                   row.outputTokens.GetOr(0), row.reasoningTokens.GetOr(0), row.costUsd.GetOr(0.0),
                   row.key.thinking, row.tag)
  }

  function Spend(row: RunRow): real {
    row.effectiveCostUsd.GetOr(0.0)
  }

  /** Every row is filed under its own key. */
  ghost predicate WellKeyed(rows: map<Key, RunRow>) {
    forall k :: k in rows ==> rows[k].key == k
  }

  // Stage label to op: a trailing "_xx" with two lower-case letters is a language suffix.

  predicate IsLower(c: char) {
    'a' <= c <= 'z'
  }

  function StageToOp(stage: string): (op: string)
    ensures op <= stage
  {
    var n := |stage|;
    if n >= 3 && stage[n - 3] == '_' && IsLower(stage[n - 2]) && IsLower(stage[n - 1])
    then stage[..n - 3]
    else stage
  }
}
