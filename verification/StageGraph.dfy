// The stage graph of a pipeline: validation at construction and the depth-first
// topological order every pipeline runs its stages in.
module StageGraph {
  import opened Common
  import opened Sorting

  datatype Stage = Stage(id: string, op: string, parent: Option<string>, isValidator: bool, budgetPerCall: real)

  datatype GraphError = DuplicateIds | MissingParent(id: string) | CycleThrough(id: string)

  function IdList(stages: seq<Stage>): seq<string> {
    seq(|stages|, i requires 0 <= i < |stages| => stages[i].id)
  }

  function Ids(stages: seq<Stage>): set<string> {
    set s | s in stages :: s.id
  }

  predicate DistinctIds(stages: seq<Stage>) {
    forall i, j :: 0 <= i < j < |stages| ==> stages[i].id != stages[j].id
  }

  predicate ParentsPresent(stages: seq<Stage>) {
    forall s :: s in stages && s.parent.Some? ==> s.parent.value in Ids(stages)
  }

  function IndexOf(stages: seq<Stage>, id: string): (i: nat)
    requires id in Ids(stages)
    ensures i < |stages| && stages[i].id == id
  {
    if stages[0].id == id then 0
    else
      assert id in Ids(stages[1..]) by {
        var s :| s in stages && s.id == id;
        assert s in stages[1..];
      }
      1 + IndexOf(stages[1..], id)
  }

  function ById(stages: seq<Stage>, id: string): (s: Stage)
    requires id in Ids(stages)
    ensures s in stages && s.id == id
  {
    stages[IndexOf(stages, id)]
  }

  function ParentOf(stages: seq<Stage>, id: string): Option<string> {
    if id in Ids(stages) then ById(stages, id).parent else None
  }

  /** The stage n parent links above id, if the chain is that long. */
  function Ancestor(stages: seq<Stage>, id: string, n: nat): Option<string>
    decreases n
  {
    if n == 0 then Some(id)
    else if ParentOf(stages, id).None? then None
    else Ancestor(stages, ParentOf(stages, id).value, n - 1)
  }

  /** Some parent chain returns to where it started. */
  ghost predicate Cyclic(stages: seq<Stage>) {
    exists id, n: nat :: n >= 1 && Ancestor(stages, id, n) == Some(id)
  }

  ghost predicate ParentBefore(order: seq<Stage>, i: nat)
    requires i < |order|
  {
    order[i].parent.Some? ==> exists j :: 0 <= j < i && order[j].id == order[i].parent.value
  }

  ghost predicate ParentsFirst(order: seq<Stage>) {
    forall i :: 0 <= i < |order| ==> ParentBefore(order, i)
  }

  lemma DistinctStage(stages: seq<Stage>, s: Stage)
    requires DistinctIds(stages) && s in stages
    ensures ById(stages, s.id) == s
  {
    var i :| 0 <= i < |stages| && stages[i] == s;
    var j := IndexOf(stages, s.id);
    assert i == j;
  }

  // ---- an order with parents first rules out cycles ----

  ghost predicate IsOrderOf(order: seq<Stage>, stages: seq<Stage>) {
    multiset(order) == multiset(stages) && ParentsFirst(order)
  }

  lemma {:induction false} AncestorsComeEarlier(order: seq<Stage>, stages: seq<Stage>, i: nat, n: nat)
    requires DistinctIds(stages) && IsOrderOf(order, stages)
    requires i < |order| && n >= 1 && Ancestor(stages, order[i].id, n).Some?
    ensures exists j :: 0 <= j < i && order[j].id == Ancestor(stages, order[i].id, n).value
    decreases n
  {
    PermutationMembers(order, stages);
    assert order[i] in stages;
    DistinctStage(stages, order[i]);
    assert ParentBefore(order, i);
    var j :| 0 <= j < i && order[j].id == order[i].parent.value;
    if n > 1 {
      AncestorsComeEarlier(order, stages, j, n - 1);
    }
  }

  lemma OrderedMeansAcyclic(order: seq<Stage>, stages: seq<Stage>)
    requires DistinctIds(stages) && IsOrderOf(order, stages)
    ensures !Cyclic(stages)
  {
    PermutationMembers(order, stages);
    forall id, n: nat | n >= 1 ensures Ancestor(stages, id, n) != Some(id) {
      if Ancestor(stages, id, n) == Some(id) && id in Ids(stages) {
        var s := ById(stages, id);
        assert s in order;
        var i :| 0 <= i < |order| && order[i] == s;
        AncestorsComeEarlier(order, stages, i, n);
        var j :| 0 <= j < i && order[j].id == id;
        assert order[j] in stages && order[i] in stages;
        DistinctStage(stages, order[j]);
        DistinctStage(stages, order[i]);
        PermutationDistinct(stages, order);
        assert false;
      }
    }
  }

  // ---- the depth-first search ----

  /** The parent link above the i-th entry of the stack; the topmost entry leads to sid. */
  ghost predicate Linked(stages: seq<Stage>, stack: seq<string>, sid: string, i: nat)
    requires i < |stack|
  {
    ParentOf(stages, stack[i]) == Some(if i + 1 < |stack| then stack[i + 1] else sid)
  }

  ghost predicate ChainTo(stages: seq<Stage>, stack: seq<string>, sid: string) {
    forall i :: 0 <= i < |stack| ==> Linked(stages, stack, sid, i)
  }

  lemma {:induction false} ChainIsAncestry(stages: seq<Stage>, stack: seq<string>, sid: string, i: nat)
    requires ChainTo(stages, stack, sid) && i < |stack|
    ensures Ancestor(stages, stack[i], |stack| - i) == Some(sid)
    decreases |stack| - i
  {
    assert Linked(stages, stack, sid, i);
    if i + 1 < |stack| {
      ChainIsAncestry(stages, stack, sid, i + 1);
    } else {
      assert Ancestor(stages, sid, 0) == Some(sid);
    }
  }

  lemma ExtendChain(stages: seq<Stage>, stack: seq<string>, sid: string, parent: string)
    requires ChainTo(stages, stack, sid) && ParentOf(stages, sid) == Some(parent)
    ensures ChainTo(stages, stack + [sid], parent)
  {
    forall i | 0 <= i < |stack + [sid]| ensures Linked(stages, stack + [sid], parent, i) {
      if i < |stack| {
        assert Linked(stages, stack, sid, i);
      }
    }
  }

  lemma AppendKeepsOrder(out: seq<Stage>, s: Stage)
    requires ParentsFirst(out)
    requires s.parent.Some? ==> exists j :: 0 <= j < |out| && out[j].id == s.parent.value
    ensures ParentsFirst(out + [s])
  {
    var out' := out + [s];
    forall i | 0 <= i < |out'| ensures ParentBefore(out', i) {
      if i < |out| {
        assert ParentBefore(out, i);
        if out[i].parent.Some? {
          var j :| 0 <= j < i && out[j].id == out[i].parent.value;
          assert out'[j].id == out'[i].parent.value;
        }
      } else if s.parent.Some? {
        var j :| 0 <= j < |out| && out[j].id == s.parent.value;
        assert out'[j].id == s.parent.value;
      }
    }
  }

  class TopoSort {
    const stages: seq<Stage>
    var out: seq<Stage>
    var seen: set<string>

    ghost predicate Valid()
      reads this
    {
      && DistinctIds(stages) && ParentsPresent(stages)
      && seen == Ids(out)
      && DistinctIds(out)
      && (forall s :: s in out ==> s in stages)
      && ParentsFirst(out)
    }

    constructor (stages: seq<Stage>)
      requires DistinctIds(stages) && ParentsPresent(stages)
      ensures Valid() && this.stages == stages && out == []
    {
      this.stages := stages;
      out, seen := [], {};
    }

    /** Emits sid after its ancestors; `cycle` is the ValueError of the source. */
    method Visit(sid: string, stack: seq<string>) returns (cycle: bool)
      requires Valid()
      requires sid in Ids(stages)
      requires NoDuplicates(stack) && Elements(stack) <= Ids(stages) && Elements(stack) !! seen
      requires ChainTo(stages, stack, sid)
      modifies this
      ensures cycle ==> Cyclic(stages)
      ensures !cycle ==> Valid() && sid in seen && old(out) <= out && Elements(stack) !! seen
      decreases Ids(stages) - Elements(stack)
    {
      if sid in seen {
        return false;
      }
      if sid in stack {
        var i :| 0 <= i < |stack| && stack[i] == sid;
        ChainIsAncestry(stages, stack, sid, i);
        return true;
      }
      var s := ById(stages, sid);
      if s.parent.Some? {
        ElementsAppend(stack, [sid]);
        assert sid in Elements(stack + [sid]);
        ExtendChain(stages, stack, sid, s.parent.value);
        cycle := Visit(s.parent.value, stack + [sid]);
        if cycle {
          return true;
        }
        assert sid !in seen;
        var j := IndexOf(out, s.parent.value);
        assert out[j].id == s.parent.value;
      }
      AppendKeepsOrder(out, s);
      seen := seen + {sid};
      out := out + [s];
      return false;
    }
  }

  lemma SameIdsSameStages(out: seq<Stage>, stages: seq<Stage>)
    requires DistinctIds(out) && DistinctIds(stages)
    requires forall s :: s in out ==> s in stages
    requires Ids(out) == Ids(stages)
    ensures multiset(out) == multiset(stages)
  {
    forall s | s in stages ensures s in out {
      var t := ById(out, s.id);
      DistinctStage(stages, s);
      DistinctStage(stages, t);
    }
    DistinctCount(out);
    DistinctCount(stages);
    forall s ensures multiset(out)[s] == multiset(stages)[s] {
      assert s in multiset(out) <==> s in out;
      assert s in multiset(stages) <==> s in stages;
    }
  }

  /** Raises exactly on a cyclic graph; otherwise a permutation with every parent before its children. */
  method TopoOrder(stages: seq<Stage>) returns (r: Result<seq<Stage>, GraphError>)
    requires DistinctIds(stages) && ParentsPresent(stages)
    ensures r.Err? <==> Cyclic(stages)
    ensures r.Err? ==> r.error.CycleThrough?
    ensures r.Ok? ==> IsOrderOf(r.value, stages)
  {
    var t := new TopoSort(stages);
    for k := 0 to |stages|
      invariant t.Valid() && t.stages == stages
      invariant forall i :: 0 <= i < k ==> stages[i].id in t.seen
    {
      assert stages[k].id in Ids(stages);
      ghost var before := t.out;
      var cycle := t.Visit(stages[k].id, []);
      if cycle {
        return Err(CycleThrough(stages[k].id));
      }
      assert forall s :: s in before ==> s in t.out;
    }
    SameIdsSameStages(t.out, stages);
    OrderedMeansAcyclic(t.out, stages);
    return Ok(t.out);
  }

  lemma {:induction false} FullSizeMeansDistinct(xs: seq<string>)
    ensures |Elements(xs)| <= |xs|
    ensures |Elements(xs)| == |xs| <==> NoDuplicates(xs)
  {
    if xs != [] {
      var front, last := xs[..|xs| - 1], xs[|xs| - 1];
      FullSizeMeansDistinct(front);
      assert Elements(xs) == Elements(front) + {last};
      if last in front {
        assert Elements(xs) == Elements(front);
        var i :| 0 <= i < |front| && front[i] == last;
        assert xs[i] == xs[|xs| - 1];
      } else {
        assert |Elements(xs)| == |Elements(front)| + 1;
        if NoDuplicates(front) {
          assert NoDuplicates(xs);
        } else {
          var i, j :| 0 <= i < j < |front| && front[i] == front[j];
          assert xs[i] == xs[j];
        }
      }
    }
  }

  lemma IdCountMeansDistinct(stages: seq<Stage>)
    ensures |Ids(stages)| == |stages| <==> DistinctIds(stages)
  {
    var list := IdList(stages);
    FullSizeMeansDistinct(list);
    forall x | x in Ids(stages) ensures x in list {
      var s :| s in stages && s.id == x;
      var i :| 0 <= i < |stages| && stages[i] == s;
      assert list[i] == x;
    }
    assert Ids(stages) == Elements(list);
    if DistinctIds(stages) {
      assert NoDuplicates(list);
    } else {
      var i, j :| 0 <= i < j < |stages| && stages[i].id == stages[j].id;
      assert list[i] == list[j];
    }
  }

  ghost predicate WellFormed(stages: seq<Stage>) {
    DistinctIds(stages) && ParentsPresent(stages) && !Cyclic(stages)
  }

  predicate Orphan(stages: seq<Stage>, i: nat)
    requires i < |stages|
  {
    stages[i].parent.Some? && stages[i].parent.value !in Ids(stages)
  }

  /** The first stage in the list whose parent is missing has this id. */
  ghost predicate FirstOrphan(stages: seq<Stage>, id: string) {
    exists i :: 0 <= i < |stages| && stages[i].id == id && Orphan(stages, i) && forall j :: 0 <= j < i ==>
      !Orphan(stages, j)
  }

  /** Construction succeeds exactly on well-formed graphs; the final length comparison can never fail. */
  method CheckGraph(stages: seq<Stage>) returns (r: Result<seq<Stage>, GraphError>)
    ensures r.Ok? <==> WellFormed(stages)
    ensures r.Ok? ==> IsOrderOf(r.value, stages) && |r.value| == |stages|
    ensures r.Err? && r.error.DuplicateIds? <==> !DistinctIds(stages)
    ensures r.Err? && r.error.MissingParent? <==> DistinctIds(stages) && !ParentsPresent(stages)
    ensures r.Err? && r.error.MissingParent? ==> FirstOrphan(stages, r.error.id)
    ensures r.Err? && r.error.CycleThrough? <==> DistinctIds(stages) && ParentsPresent(stages) && Cyclic(stages)
  {
    var ids := set s | s in stages :: s.id;
    IdCountMeansDistinct(stages);
    if |ids| != |stages| {
      return Err(DuplicateIds);
    }
    for k := 0 to |stages|
      invariant forall i :: 0 <= i < k && stages[i].parent.Some? ==> stages[i].parent.value in ids
    {
      if stages[k].parent.Some? && stages[k].parent.value !in ids {
        assert stages[k] in stages && Orphan(stages, k);
        return Err(MissingParent(stages[k].id));
      }
    }
    r := TopoOrder(stages);
    if r.Ok? {
      PermutationMembers(r.value, stages);
    }
  }

  /** Two stages naming each other pass the parent check; only the search rejects them. */
  lemma TwoStageCycle(a: Stage, b: Stage)
    requires a.id != b.id && a.parent == Some(b.id) && b.parent == Some(a.id)
    ensures DistinctIds([a, b]) && ParentsPresent([a, b]) && Cyclic([a, b])
  {
    var g := [a, b];
    assert a in g && b in g;
    DistinctStage(g, a);
    DistinctStage(g, b);
    assert Ancestor(g, b.id, 1) == Some(a.id) by {
      assert Ancestor(g, a.id, 0) == Some(a.id);
    }
    assert Ancestor(g, a.id, 2) == Some(a.id);
  }
}
