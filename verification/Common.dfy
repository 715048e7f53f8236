// Small shared vocabulary: optional values, results, duplicate-free lists and
// the key/value view of a list of rows.
module Common {

  datatype Option<+T> = None | Some(value: T) {
    function GetOr(default: T): T {
      match this
      case Some(v) => v
      case None => default
    }
  }

  datatype Result<+T, +E> = Ok(value: T) | Err(error: E)

  /** `m.get(k, default)`. */
  function At<K, V>(m: map<K, V>, k: K, default: V): V {
    if k in m then m[k] else default
  }

  predicate NoDuplicates<T(==)>(xs: seq<T>) {
    forall i, j :: 0 <= i < j < |xs| ==> xs[i] != xs[j]
  }

  function Elements<T>(xs: seq<T>): set<T> {
    set x | x in xs
  }

  /** A string that Python's `if s:` treats as true. */
  predicate Truthy(s: Option<string>) {
    s.Some? && s.value != ""
  }

  lemma {:induction false} DistinctSize<T>(xs: seq<T>)
    requires NoDuplicates(xs)
    ensures |Elements(xs)| == |xs|
  {
    if xs != [] {
      var front, last := xs[..|xs| - 1], xs[|xs| - 1];
      DistinctSize(front);
      assert last !in front;
      assert Elements(xs) == Elements(front) + {last};
    }
  }

  lemma MapGrows<K, V>(m: map<K, V>, k: K, v: V)
    requires k !in m
    ensures |m[k := v]| == |m| + 1
  {
    assert m[k := v].Keys == m.Keys + {k};
    assert |m[k := v]| == |m[k := v].Keys| && |m| == |m.Keys|;
  }

  lemma ElementsAppend<T>(xs: seq<T>, ys: seq<T>)
    ensures Elements(xs + ys) == Elements(xs) + Elements(ys)
  {
  }

  lemma AppendDistinct<T>(xs: seq<T>, x: T)
    requires NoDuplicates(xs) && x !in xs
    ensures NoDuplicates(xs + [x])
  {
  }

  lemma SubsetSize<T>(a: set<T>, b: set<T>)
    requires a <= b
    ensures |a| <= |b|
  {
    if a != {} {
      var x :| x in a;
      SubsetSize(a - {x}, b - {x});
    }
  }

  lemma {:induction false} IndexBound(n: nat, s: set<nat>)
    requires forall x :: x in s ==> x < n
    ensures |s| <= n
  {
    if n == 0 {
      assert s == {};
    } else {
      IndexBound(n - 1, s - {n - 1});
    }
  }

  /** The elements of a finite set in some order: how a dict or a set is iterated. */
  method Enumerate<T(==)>(s: set<T>) returns (xs: seq<T>)
    ensures NoDuplicates(xs) && Elements(xs) == s && |xs| == |s|
  {
    xs := [];
    var rest := s;
    while rest != {}
      invariant NoDuplicates(xs)
      invariant Elements(xs) + rest == s && Elements(xs) !! rest
      invariant |xs| + |rest| == |s|
    {
      var x :| x in rest;
      assert x !in Elements(xs);
      ElementsAppend(xs, [x]);
      xs := xs + [x];
      rest := rest - {x};
    }
  }

  /** Some list of a finite set's elements. */
  ghost function ListOf<T(!new)>(s: set<T>): (xs: seq<T>)
    ensures NoDuplicates(xs) && Elements(xs) == s
    ensures forall x :: x in xs <==> x in s
  {
    if s == {} then []
    else
      var x :| x in s;
      var rest := ListOf(s - {x});
      assert x !in Elements(rest);
      ElementsAppend(rest, [x]);
      rest + [x]
  }

  // ---- walking a dict ----

  /** `seen` is the part of the dict visited by the first i of its keys. */
  ghost predicate Walked<K, V>(dict: map<K, V>, keys: seq<K>, i: nat, seen: map<K, V>) {
    && i <= |keys|
    && NoDuplicates(keys) && Elements(keys) == dict.Keys
    && seen.Keys == Elements(keys[..i])
    && forall k :: k in seen ==> k in dict && seen[k] == dict[k]
  }

  lemma WalkOn<K, V>(dict: map<K, V>, keys: seq<K>, i: nat, seen: map<K, V>)
    requires Walked(dict, keys, i, seen) && i < |keys|
    ensures keys[i] in dict && keys[i] !in seen
    ensures Walked(dict, keys, i + 1, seen[keys[i] := dict[keys[i]]])
  {
    assert keys[i] in Elements(keys);
    assert keys[..i + 1] == keys[..i] + [keys[i]];
    ElementsAppend(keys[..i], [keys[i]]);
  }

  lemma WalkDone<K, V>(dict: map<K, V>, keys: seq<K>, seen: map<K, V>)
    requires Walked(dict, keys, |keys|, seen)
    ensures seen == dict
  {
    assert keys[..|keys|] == keys;
  }
}
