// Spend per op, told by the stage labels themselves: a stage is its op, or its op with the
// code of a language behind an underscore.
module LanguageSpend {
  import opened Common
  import opened Rows
  import opened Sums
  import opened MemoryStorage

  /** The label is the op plus an underscore and two lower-case letters. */
  predicate IsLanguageOf(stage: string, op: string) {
    |stage| == |op| + 3 && stage[..|op|] == op && stage[|op|] == '_'
    && 'a' <= stage[|op| + 1] <= 'z' && 'a' <= stage[|op| + 2] <= 'z'
  }

  /** The label carries the code of a language. */
  ghost predicate HasLanguage(stage: string) {
    exists op :: op <= stage && IsLanguageOf(stage, op)
  }

  /** The op of a label: what is before the language, or the label itself where there is none. */
  ghost predicate BelongsTo(stage: string, op: string) {
    IsLanguageOf(stage, op) || (stage == op && !HasLanguage(stage))
  }

  lemma LanguageIsStripped(op: string, a: char, b: char)
    requires 'a' <= a <= 'z' && 'a' <= b <= 'z'
    ensures StageToOp(op + "_" + [a, b]) == op
  {
  }

  lemma OpIsBelongsTo(stage: string, op: string)
    ensures StageToOp(stage) == op <==> BelongsTo(stage, op)
  {
    var n := |stage|;
    if n >= 3 && stage[n - 3] == '_' && IsLower(stage[n - 2]) && IsLower(stage[n - 1]) {
      assert IsLanguageOf(stage, stage[..n - 3]);
      if IsLanguageOf(stage, op) {
        assert op == stage[..n - 3];
      }
    } else {
      assert forall o :: !IsLanguageOf(stage, o);
    }
  }

  /** What the rows of one op under one tag cost, each row counted once. */
  ghost function CostsOf(rows: map<Key, RunRow>, tag: string, op: string): map<Key, real> {
    map k | k in rows && rows[k].tag == tag && BelongsTo(rows[k].stage, op) :: rows[k].effectiveCostUsd.GetOr(0.0)
  }

  /** A spend map has an entry for an op exactly when a row belongs to it, worth what those rows cost. */
  lemma SpendMapIs(out: map<string, real>, rows: map<Key, RunRow>, tag: string, op: string)
    requires IsSpendByOp(out, rows, tag)
    ensures op in out <==> exists k :: k in rows && rows[k].tag == tag && BelongsTo(rows[k].stage, op)
    ensures op in out ==> out[op] == Total(CostsOf(rows, tag, op))
  {
    forall k | k in rows ensures StageToOp(rows[k].stage) == op <==> BelongsTo(rows[k].stage, op) {
      OpIsBelongsTo(rows[k].stage, op);
    }
    assert op in out <==> op in OpsOf(rows, tag);
    hide StageToOp;
    hide BelongsTo;
    assert SpendMap(rows, tag, op) == CostsOf(rows, tag, op);
  }

  /** Two languages of one op share its one entry. */
  lemma LanguagesShareAnEntry(out: map<string, real>, rows: map<Key, RunRow>, tag: string, op: string)
    requires IsSpendByOp(out, rows, tag) && !HasLanguage(op)
    requires exists k :: k in rows && rows[k].tag == tag
    requires forall k :: k in rows && rows[k].tag == tag ==> rows[k].stage == op || IsLanguageOf(rows[k].stage, op)
    ensures out == map[op := Total(map k | k in rows && rows[k].tag == tag :: rows[k].effectiveCostUsd.GetOr(0.0))]
  {
    forall o ensures o in out <==> o == op {
      SpendMapIs(out, rows, tag, o);
      if k :| k in rows && rows[k].tag == tag && BelongsTo(rows[k].stage, o) {
        OpIsBelongsTo(rows[k].stage, o);
        OpIsBelongsTo(rows[k].stage, op);
      }
      if o == op {
        var k :| k in rows && rows[k].tag == tag;
        assert BelongsTo(rows[k].stage, op);
      }
    }
    SpendMapIs(out, rows, tag, op);
    assert CostsOf(rows, tag, op) == map k | k in rows && rows[k].tag == tag :: rows[k].effectiveCostUsd.GetOr(0.0);
  }
}
