// One provider call as the pipeline sees it: an arbitrary outcome, how it is
// classified, and the row and cache entry made from it.
module Calls {
  import opened Common
  import opened Rows

  /** Where a call belongs: its cache key and the routing fields of its row. */
  datatype CallSite = CallSite(key: Key, stage: string, taskUnitId: string, tag: string)

  /** Whatever the provider did. Token counts and costs are after the `or 0` defaults. */
  datatype CallOutcome = CallOutcome(
    errorClass: Option<string>,
    response: Option<string>,
    parsed: Option<string>,
    costUsd: real,
    effectiveCostUsd: Option<real>,
    inputTokens: int,
    outputTokens: int,
    reasoningTokens: int)

  datatype Verdict = Verdict(parseFailurePrefix: Option<string>, moneyWasSpent: bool, cacheable: bool)

  function Prefix200(s: string): string {
    if |s| <= 200 then s else s[..200]
  }

  function Classify(errorClass: Option<string>, response: Option<string>, parsed: Option<string>): Verdict {
    if Truthy(errorClass) then Verdict(None, false, false)
    else if Truthy(response) && parsed.None? then Verdict(Some(Prefix200(response.value)), true, false)
    else if !Truthy(response) then Verdict(None, true, false)
    else Verdict(None, true, true)
  }

  function VerdictOf(o: CallOutcome): Verdict {
    Classify(o.errorClass, o.response, o.parsed)
  }

  function EffectiveCost(o: CallOutcome): real {
    o.effectiveCostUsd.GetOr(o.costUsd)
  }

  function RowFor(site: CallSite, o: CallOutcome): RunRow {
    RunRow(site.key, site.stage, site.taskUnitId, site.tag, o.response, o.errorClass,
           VerdictOf(o).parseFailurePrefix, Some(o.costUsd), Some(EffectiveCost(o)),
           Some(o.inputTokens), Some(o.outputTokens), Some(o.reasoningTokens))
  }

  /** What the pipeline puts into the resume cache. */
  function CachedFor(site: CallSite, o: CallOutcome): CachedResponse {
    CachedResponse(site.key.compositeHash, o.response.GetOr(""), o.inputTokens, o.outputTokens,
                   o.reasoningTokens, o.costUsd, site.key.thinking, site.tag)
  }

  /** A row is usable for storage exactly when the pipeline calls it cacheable and it is long enough. */
  lemma UsableIffCacheableAndLong(site: CallSite, o: CallOutcome)
    ensures Usable(RowFor(site, o)) <==>
            VerdictOf(o).cacheable && |o.response.value| >= 20
    ensures ToCached(RowFor(site, o)) == CachedFor(site, o)
  {
    var v := VerdictOf(o);
    if v.parseFailurePrefix.Some? {
      assert v.parseFailurePrefix.value[0] == o.response.value[0];
    }
  }

  /** What a recorded call adds to its op's spend: the effective cost if one is reported, 0 included, else the raw. */
  lemma SpendOfCall(site: CallSite, o: CallOutcome)
    ensures o.effectiveCostUsd.Some? ==> Spend(RowFor(site, o)) == o.effectiveCostUsd.value
    ensures o.effectiveCostUsd.None? ==> Spend(RowFor(site, o)) == o.costUsd
  {
  }

  /** A provider error costs nothing; otherwise money was spent, and only a parsed answer is cached. */
  lemma VerdictIs(errorClass: Option<string>, response: Option<string>, parsed: Option<string>)
    ensures var v, failed := Classify(errorClass, response, parsed), errorClass.Some? && errorClass.value != "";
            var answered := response.Some? && response.value != "";
            && (v.moneyWasSpent <==> !failed)
            && (v.cacheable <==> !failed && answered && parsed.Some?)
            && (v.parseFailurePrefix.Some? <==> !failed && answered && parsed.None?)
            && (v.parseFailurePrefix.Some? ==>
                  v.parseFailurePrefix.value <= response.value &&
                  |v.parseFailurePrefix.value| == if |response.value| < 200 then |response.value| else 200)
  {
  }
}
