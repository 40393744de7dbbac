/**
  The deep merge of configuration dictionaries, in place and with a stack of pairs still to be merged.
  Dictionaries refer to each other, so parts of the source end up shared with the target.
 */
module DictMerge {
  // ----- the meaning of a merge, on values -----

  datatype Value = Scalar(value: string) | Mapping(entries: map<string, Value>)

  function DeepMerge(a: Value, b: Value): Value
    requires a.Mapping? && b.Mapping?
    decreases b
  {
    Mapping(map k | k in a.entries.Keys + b.entries.Keys ::
      if k !in b.entries then a.entries[k]
      else if k in a.entries && a.entries[k].Mapping? && b.entries[k].Mapping? then
        DeepMerge(a.entries[k], b.entries[k])
      else b.entries[k])
  }

  lemma {:induction false} MergedWithItself(b: Value)
    requires b.Mapping?
    ensures DeepMerge(b, b) == b
  {
    forall k | k in b.entries && b.entries[k].Mapping? ensures DeepMerge(b.entries[k], b.entries[k]) == b.entries[k] {
      MergedWithItself(b.entries[k]);
    }
    assert DeepMerge(b, b).entries == b.entries;
  }

  lemma {:induction false} MergedTwice(a: Value, b: Value)
    requires a.Mapping? && b.Mapping?
    ensures DeepMerge(DeepMerge(a, b), b) == DeepMerge(a, b)
    decreases b
  {
    var m := DeepMerge(a, b);
    forall k | k in m.entries ensures DeepMerge(m, b).entries[k] == m.entries[k] {
      if k in b.entries && b.entries[k].Mapping? {
        if k in a.entries && a.entries[k].Mapping? {
          MergedTwice(a.entries[k], b.entries[k]);
        } else {
          MergedWithItself(b.entries[k]);
        }
      }
    }
    assert DeepMerge(m, b).entries == m.entries;
  }

  // ----- dictionaries -----

  class Dict {
    var entries: map<string, Item>
  }

  datatype Item = Leaf(value: string) | Sub(dict: Dict)

  type Items = map<string, Item>

  predicate Both(a: Items, b: Items, k: string) {
    k in a && k in b && a[k].Sub? && b[k].Sub?
  }

  /** One dictionary after the merge: where both have dictionaries the target keeps its own. */
  function Merged(a: Items, b: Items): Items {
    map k | k in a.Keys + b.Keys :: if k in b && !Both(a, b, k) then b[k] else a[k]
  }

  // ----- the pairs that are merged -----

  type Path = seq<string>

  function Child(p: Path, k: string): Path {
    p + [k]
  }

  type Pairs = map<Path, (Dict, Dict)>

  /** The pairs of dictionaries found at the same path of target and source. */
  ghost predicate Visits(target: Dict, source: Dict, w: Pairs)
    reads set p | p in w :: w[p].0, set p | p in w :: w[p].1
  {
    && [] in w && w[[]] == (target, source)
    && (forall p, k :: Child(p, k) in w ==> p in w && Both(w[p].0.entries, w[p].1.entries, k))
    && (forall p, k :: p in w && Both(w[p].0.entries, w[p].1.entries, k) ==>
          Child(p, k) in w && w[Child(p, k)] == (w[p].0.entries[k].dict, w[p].1.entries[k].dict))
  }

  /** Where a merge changes something, that dictionary is part of no other pair, nor a source itself. */
  ghost predicate Isolated(w: Pairs)
    reads set p | p in w :: w[p].0, set p | p in w :: w[p].1
  {
    forall p :: p in w && Merged(w[p].0.entries, w[p].1.entries) != w[p].0.entries ==>
      forall q :: q in w ==> w[q].1 != w[p].0 && (q != p ==> w[q].0 != w[p].0)
  }

  // ----- bookkeeping of paths -----

  ghost predicate Below(pending: seq<Path>, q: Path) {
    exists i: nat :: i < |pending| && pending[i] <= q
  }

  /** Every path is done, or below exactly one that is pending. */
  ghost predicate Split(paths: set<Path>, done: set<Path>, pending: seq<Path>) {
    && done <= paths
    && (forall i: nat :: i < |pending| ==> pending[i] in paths)
    && (forall i: nat, j: nat :: i < |pending| && j < |pending| && i != j ==> !(pending[i] <= pending[j]))
    && (forall q :: q in paths ==> (q in done <==> !Below(pending, q)))
  }

  ghost predicate PrefixClosed(paths: set<Path>) {
    forall p, k :: Child(p, k) in paths ==> p in paths
  }

  lemma {:induction false} PrefixesToo(paths: set<Path>, q: Path, n: nat)
    requires PrefixClosed(paths) && q in paths && n <= |q|
    ensures q[..n] in paths
    decreases |q| - n
  {
    if n == |q| {
      assert q[..n] == q;
    } else {
      PrefixesToo(paths, q, n + 1);
      assert q[..n + 1] == Child(q[..n], q[n]);
    }
  }

  lemma PrefixIsIn(paths: set<Path>, p: Path, q: Path)
    requires PrefixClosed(paths) && q in paths && p <= q
    ensures p in paths
  {
    PrefixesToo(paths, q, |p|);
    assert q[..|p|] == p;
  }

  /** The children of `p` in the set of paths, for the given keys. */
  ghost predicate AreChildren(paths: set<Path>, p: Path, keys: seq<string>) {
    && (forall i: nat, j: nat :: i < j < |keys| ==> keys[i] != keys[j])
    && (forall k :: Child(p, k) in paths <==> k in keys)
  }

  function Children(p: Path, keys: seq<string>): (r: seq<Path>)
    ensures |r| == |keys| && forall i: nat :: i < |keys| ==> r[i] == Child(p, keys[i])
  {
    seq(|keys|, i requires 0 <= i < |keys| => Child(p, keys[i]))
  }

  ghost predicate Unrelated(pending: seq<Path>, p: Path) {
    forall i: nat :: i < |pending| ==> !(p <= pending[i]) && !(pending[i] <= p)
  }

  lemma PrefixOfChild(q: Path, p: Path, k: string)
    requires q <= Child(p, k)
    ensures q <= p || p <= q
  {
    assert if |q| <= |p| then q <= p else q == Child(p, k);
  }

  lemma ChildrenStayApart(pending: seq<Path>, p: Path, keys: seq<string>, i: nat, j: nat)
    requires Unrelated(pending, p)
    requires forall i: nat, j: nat :: i < |pending| && j < |pending| && i != j ==> !(pending[i] <= pending[j])
    requires forall i: nat, j: nat :: i < j < |keys| ==> keys[i] != keys[j]
    requires i < |pending| + |keys| && j < |pending| + |keys| && i != j
    ensures !((pending + Children(p, keys))[i] <= (pending + Children(p, keys))[j])
  {
    var after, n := pending + Children(p, keys), |pending|;
    if i < n <= j {
      if pending[i] <= Child(p, keys[j - n]) {
        PrefixOfChild(pending[i], p, keys[j - n]);
      }
    } else if j < n <= i {
      var c := Child(p, keys[i - n]);
      assert p <= c;
    } else if n <= i && n <= j {
      assert Child(p, keys[i - n])[|p|] == keys[i - n] && Child(p, keys[j - n])[|p|] == keys[j - n];
    }
  }

  lemma BelowChildren(paths: set<Path>, pending: seq<Path>, p: Path, keys: seq<string>, q: Path)
    requires PrefixClosed(paths) && q in paths && AreChildren(paths, p, keys)
    ensures Below(pending + Children(p, keys), q) <==> Below(pending, q) || (p <= q && p != q)
  {
    var after := pending + Children(p, keys);
    if Below(after, q) {
      var i: nat :| i < |after| && after[i] <= q;
      if i < |pending| {
        assert pending[i] <= q;
      } else {
        assert p <= Child(p, keys[i - |pending|]) <= q;
      }
    }
    if Below(pending, q) {
      var i: nat :| i < |pending| && pending[i] <= q;
      assert after[i] == pending[i];
    }
    if p <= q && p != q {
      PrefixesToo(paths, q, |p| + 1);
      assert q[..|p| + 1] == Child(p, q[|p|]);
      var i: nat :| i < |keys| && keys[i] == q[|p|];
      assert after[|pending| + i] == Child(p, q[|p|]);
    }
  }

  /** Taking the last pending path and adding its children keeps the split. */
  lemma SplitStep(paths: set<Path>, done: set<Path>, pending: seq<Path>, p: Path, keys: seq<string>)
    requires PrefixClosed(paths) && Split(paths, done, pending + [p]) && AreChildren(paths, p, keys)
    ensures Split(paths, done + {p}, pending + Children(p, keys)) && p in paths - done
  {
    var before, after := pending + [p], pending + Children(p, keys);
    assert before[|pending|] == p;
    forall i: nat | i < |pending| ensures !(p <= pending[i]) && !(pending[i] <= p) && pending[i] in paths {
      assert before[i] == pending[i];
    }
    forall i: nat, j: nat | i < |pending| && j < |pending| && i != j ensures !(pending[i] <= pending[j]) {
      assert before[i] == pending[i] && before[j] == pending[j];
    }
    forall i: nat, j: nat | i < |after| && j < |after| && i != j ensures !(after[i] <= after[j]) {
      ChildrenStayApart(pending, p, keys, i, j);
    }
    forall q | q in paths ensures q in done + {p} <==> !Below(after, q) {
      BelowChildren(paths, pending, p, keys, q);
      BelowLast(pending, p, q);
    }
  }

  /** The same for a worklist given as a whole. */
  lemma SplitPop(paths: set<Path>, done: set<Path>, pending: seq<Path>, keys: seq<string>)
    requires pending != [] && PrefixClosed(paths) && Split(paths, done, pending)
    requires AreChildren(paths, pending[|pending| - 1], keys)
    ensures var n, p := |pending| - 1, pending[|pending| - 1];
            Split(paths, done + {p}, pending[..n] + Children(p, keys)) && p in paths - done
  {
    var n, p := |pending| - 1, pending[|pending| - 1];
    assert pending == pending[..n] + [p];
    SplitStep(paths, done, pending[..n], p, keys);
  }

  lemma LastIsPending(paths: set<Path>, done: set<Path>, pending: seq<Path>)
    requires pending != [] && Split(paths, done, pending)
    ensures pending[|pending| - 1] in paths - done
  {
    assert pending[|pending| - 1] <= pending[|pending| - 1];
  }

  lemma BelowLast(pending: seq<Path>, p: Path, q: Path)
    ensures Below(pending + [p], q) <==> Below(pending, q) || p <= q
  {
    var before := pending + [p];
    if Below(pending, q) {
      var i: nat :| i < |pending| && pending[i] <= q;
      assert before[i] == pending[i];
    }
    assert before[|pending|] == p;
  }

  lemma SplitStart(paths: set<Path>)
    requires [] in paths
    ensures Split(paths, {}, [[]])
  {
    var start: seq<Path> := [[]];
    forall q: Path ensures Below(start, q) {
      assert start[0] <= q;
    }
  }

  lemma SplitEnd(paths: set<Path>, done: set<Path>)
    requires Split(paths, done, [])
    ensures done == paths
  {
    assert forall q :: !Below([], q);
  }

  // ----- the operation -----

  /** Merges one pair; returns the pairs still to be merged, and the keys they are found at. */
  method MergeOne(left: Dict, right: Dict) returns (more: seq<(Dict, Dict)>, ghost keys: seq<string>)
    modifies left
    ensures left.entries == Merged(old(left.entries), old(right.entries))
    ensures forall i: nat, j: nat :: i < j < |keys| ==> keys[i] != keys[j]
    ensures forall k :: k in keys <==> Both(old(left.entries), old(right.entries), k)
    ensures |more| == |keys| && forall i: nat :: i < |keys| ==>
      Both(old(left.entries), old(right.entries), keys[i])
      && more[i] == (old(left.entries[keys[i]]).dict, old(right.entries[keys[i]]).dict)
  {
    more, keys := [], [];
    var a, b := left.entries, right.entries;
    var overrides: Items := map[];
    var todo := a.Keys + b.Keys;
    while todo != {}
      invariant todo <= a.Keys + b.Keys
      invariant forall k :: k in overrides <==> k in b && k !in todo && !Both(a, b, k)
      invariant forall k :: k in overrides ==> overrides[k] == b[k]
      invariant forall i: nat, j: nat :: i < j < |keys| ==> keys[i] != keys[j]
      invariant forall k :: k in keys <==> Both(a, b, k) && k !in todo
      invariant |more| == |keys| && forall i: nat :: i < |keys| ==>
        Both(a, b, keys[i]) && more[i] == (a[keys[i]].dict, b[keys[i]].dict)
    {
      var k :| k in todo;
      todo := todo - {k};
      if k in b {
        if k in a && a[k].Sub? && b[k].Sub? {
          more, keys := more + [(a[k].dict, b[k].dict)], keys + [k];
        } else {
          overrides := overrides[k := b[k]];
        }
      }
    }
    left.entries := left.entries + overrides;
  }

  /** Targets and sources of the pairs, as they were. */
  type Contents = map<Path, (Items, Items)>

  ghost function Snapshot(w: Pairs): Contents
    reads set p | p in w :: w[p].0, set p | p in w :: w[p].1
  {
    map p | p in w :: (w[p].0.entries, w[p].1.entries)
  }

  ghost predicate MergedSoFar(w: Pairs, was: Contents, done: set<Path>)
    reads set p | p in w :: w[p].0, set p | p in w :: w[p].1
  {
    && was.Keys == w.Keys
    && (forall p :: p in w ==> w[p].0.entries == if p in done then Merged(was[p].0, was[p].1) else was[p].0)
    && (forall p :: p in w ==> w[p].1.entries == was[p].1)
  }

  ghost predicate WasIsolated(w: Pairs, was: Contents) {
    && was.Keys == w.Keys
    && forall p :: p in w && Merged(was[p].0, was[p].1) != was[p].0 ==>
      forall q :: q in w ==> w[q].1 != w[p].0 && (q != p ==> w[q].0 != w[p].0)
  }

  method MergeNext(left: Dict, right: Dict, ghost w: Pairs, ghost was: Contents, ghost done: set<Path>, ghost p: Path)
    returns (more: seq<(Dict, Dict)>, ghost keys: seq<string>)
    requires p in w && w[p] == (left, right) && p !in done && WasIsolated(w, was) && MergedSoFar(w, was, done)
    modifies left
    ensures MergedSoFar(w, was, done + {p}) && Found(was, p, keys, more)
  {
    more, keys := MergeOne(left, right);
  }

  /** What the children of a pair are, on the contents before the merge. */
  ghost predicate WereVisited(target: Dict, source: Dict, w: Pairs, was: Contents) {
    && was.Keys == w.Keys && [] in w && w[[]] == (target, source)
    && (forall p, k :: Child(p, k) in w ==> p in w && Both(was[p].0, was[p].1, k))
    && (forall p, k :: p in w && Both(was[p].0, was[p].1, k) ==>
          Child(p, k) in w && w[Child(p, k)] == (was[p].0[k].dict, was[p].1[k].dict))
  }

  ghost predicate Pending(w: Pairs, pending: seq<Path>, toMerge: seq<(Dict, Dict)>) {
    |toMerge| == |pending| && forall i: nat :: i < |pending| ==> pending[i] in w && toMerge[i] == w[pending[i]]
  }

  lemma VisitedBefore(target: Dict, source: Dict, w: Pairs)
    requires Visits(target, source, w) && Isolated(w)
    ensures WereVisited(target, source, w, Snapshot(w)) && WasIsolated(w, Snapshot(w)) && MergedSoFar(w, Snapshot(w), {})
    ensures PrefixClosed(w.Keys)
  {
  }

  ghost predicate Found(was: Contents, p: Path, keys: seq<string>, more: seq<(Dict, Dict)>) {
    && p in was
    && (forall i: nat, j: nat :: i < j < |keys| ==> keys[i] != keys[j])
    && (forall k :: k in keys <==> Both(was[p].0, was[p].1, k))
    && |more| == |keys|
    && (forall i: nat :: i < |keys| ==>
          Both(was[p].0, was[p].1, keys[i]) && more[i] == (was[p].0[keys[i]].dict, was[p].1[keys[i]].dict))
  }

  lemma FoundChildren(target: Dict, source: Dict, w: Pairs, was: Contents, p: Path, keys: seq<string>,
      more: seq<(Dict, Dict)>)
    requires WereVisited(target, source, w, was) && Found(was, p, keys, more)
    ensures AreChildren(w.Keys, p, keys) && Pending(w, Children(p, keys), more)
  {
  }

  lemma PendingPop(w: Pairs, pending: seq<Path>, toMerge: seq<(Dict, Dict)>, added: seq<Path>, more: seq<(Dict, Dict)>)
    requires pending != [] && Pending(w, pending, toMerge) && Pending(w, added, more)
    ensures Pending(w, pending[..|pending| - 1] + added, toMerge[..|toMerge| - 1] + more)
  {
  }

  /** The pairs `w` are those found at the same path; they are given for the proof only. */
  method DictMerge(target: Dict, source: Dict, ghost w: Pairs) returns (r: Dict)
    requires Visits(target, source, w) && Isolated(w)
    modifies set p | p in w :: w[p].0
    ensures r == target && MergedSoFar(w, old(Snapshot(w)), w.Keys)
  {
    ghost var was := Snapshot(w);
    var toMerge := [(target, source)];
    ghost var pending: seq<Path>, done: set<Path> := [[]], {};
    VisitedBefore(target, source, w);
    SplitStart(w.Keys);
    while toMerge != []
      invariant Pending(w, pending, toMerge) && Split(w.Keys, done, pending) && MergedSoFar(w, was, done)
      decreases w.Keys - done
    {
      var n := |toMerge| - 1;
      ghost var p := pending[n];
      LastIsPending(w.Keys, done, pending);
      var more; ghost var keys;
      more, keys := MergeNext(toMerge[n].0, toMerge[n].1, w, was, done, p);
      FoundChildren(target, source, w, was, p, keys, more);
      SplitPop(w.Keys, done, pending, keys);
      PendingPop(w, pending, toMerge, Children(p, keys), more);
      toMerge := toMerge[..n] + more;
      pending := pending[..n] + Children(p, keys);
      done := done + {p};
    }
    SplitEnd(w.Keys, done);
    r := target;
  }

  // ----- what the merge means -----

  /** The contents of some dictionaries at one time. */
  type Heap = map<Dict, Items>

  ghost function Now(dicts: set<Dict>): (h: Heap)
    reads dicts
    ensures h.Keys == dicts && forall d :: d in dicts ==> h[d] == d.entries
  {
    map d | d in dicts :: d.entries
  }

  /** The value that a dictionary holds. */
  ghost predicate Holds(h: Heap, d: Dict, v: Value)
    decreases v
  {
    && d in h && v.Mapping? && h[d].Keys == v.entries.Keys
    && forall k :: k in v.entries ==>
         match v.entries[k]
         case Scalar(s) => h[d][k] == Leaf(s)
         case Mapping(_) => h[d][k].Sub? && Holds(h, h[d][k].dict, v.entries[k])
  }

  /** The dictionaries found below a dictionary, by their path. */
  type Tree = map<Path, Dict>

  ghost function All(t: Tree): set<Dict> {
    set p | p in t :: t[p]
  }

  ghost predicate Unfolds(h: Heap, root: Dict, t: Tree) {
    && All(t) <= h.Keys && [] in t && t[[]] == root
    && (forall p, k :: Child(p, k) in t ==> p in t && k in h[t[p]] && h[t[p]][k].Sub?)
    && (forall p, k :: p in t && k in h[t[p]] && h[t[p]][k].Sub? ==>
          Child(p, k) in t && t[Child(p, k)] == h[t[p]][k].dict)
  }

  /** No dictionary is found at two places, of one or of both. */
  ghost predicate Unshared(t: Tree, s: Tree) {
    && (forall p, q :: p in t && q in t && t[p] == t[q] ==> p == q)
    && All(t) !! All(s)
  }

  ghost function Paired(t: Tree, s: Tree): Pairs {
    map p | p in t && p in s :: (t[p], s[p])
  }

  /** Exactly the paired targets are merged with their sources. */
  ghost predicate IsMerge(before: Heap, after: Heap, t: Tree, s: Tree) {
    && before.Keys == after.Keys && All(t) <= before.Keys && All(s) <= before.Keys
    && (forall p :: p in t && p in s ==> after[t[p]] == Merged(before[t[p]], before[s[p]]))
    && (forall p :: p in t && p !in s ==> after[t[p]] == before[t[p]])
    && (forall p :: p in s ==> after[s[p]] == before[s[p]])
  }

  /** What does not change keeps its value. */
  lemma {:induction false} KeepsValue(before: Heap, after: Heap, root: Dict, t: Tree, p: Path, v: Value)
    requires Unfolds(before, root, t) && before.Keys == after.Keys && p in t && Holds(before, t[p], v)
    requires forall q :: q in t && p <= q ==> after[t[q]] == before[t[q]]
    ensures Holds(after, t[p], v)
    decreases v
  {
    forall k | k in v.entries && v.entries[k].Mapping? ensures Holds(after, before[t[p]][k].dict, v.entries[k]) {
      KeepsValue(before, after, root, t, Child(p, k), v.entries[k]);
    }
  }

  lemma TargetKept(before: Heap, after: Heap, target: Dict, source: Dict, t: Tree, s: Tree, c: Path, v: Value)
    requires Unfolds(before, target, t) && Unfolds(before, source, s) && IsMerge(before, after, t, s)
    requires c in t && c !in s && Holds(before, t[c], v)
    ensures Holds(after, t[c], v)
  {
    forall q | q in t && c <= q ensures q !in s {
      if q in s {
        PrefixIsIn(s.Keys, c, q);
      }
    }
    KeepsValue(before, after, target, t, c, v);
  }

  lemma {:induction false} MergedHolds(before: Heap, after: Heap, target: Dict, source: Dict, t: Tree, s: Tree,
      p: Path, a: Value, b: Value)
    requires Unfolds(before, target, t) && Unfolds(before, source, s) && IsMerge(before, after, t, s)
    requires p in t && p in s && Holds(before, t[p], a) && Holds(before, s[p], b)
    ensures Holds(after, t[p], DeepMerge(a, b))
    decreases b
  {
    forall k | k in DeepMerge(a, b).entries && DeepMerge(a, b).entries[k].Mapping?
      ensures after[t[p]][k].Sub? && Holds(after, after[t[p]][k].dict, DeepMerge(a, b).entries[k])
    {
      MergedHoldsAt(before, after, target, source, t, s, p, a, b, k);
    }
    KeysOfMerge(before, after, t, s, p, a, b);
  }

  lemma KeysOfMerge(before: Heap, after: Heap, t: Tree, s: Tree, p: Path, a: Value, b: Value)
    requires IsMerge(before, after, t, s) && p in t && p in s && Holds(before, t[p], a) && Holds(before, s[p], b)
    ensures after[t[p]].Keys == DeepMerge(a, b).entries.Keys
    ensures forall k :: k in DeepMerge(a, b).entries && DeepMerge(a, b).entries[k].Scalar? ==>
      after[t[p]][k] == Leaf(DeepMerge(a, b).entries[k].value)
  {
  }

  lemma MergedHoldsAt(before: Heap, after: Heap, target: Dict, source: Dict, t: Tree, s: Tree,
      p: Path, a: Value, b: Value, k: string)
    requires Unfolds(before, target, t) && Unfolds(before, source, s) && IsMerge(before, after, t, s)
    requires p in t && p in s && Holds(before, t[p], a) && Holds(before, s[p], b)
    requires k in DeepMerge(a, b).entries && DeepMerge(a, b).entries[k].Mapping?
    ensures k in after[t[p]] && after[t[p]][k].Sub? && Holds(after, after[t[p]][k].dict, DeepMerge(a, b).entries[k])
    decreases b, 0
  {
    var c := Child(p, k);
    if k !in b.entries {
      TargetKept(before, after, target, source, t, s, c, a.entries[k]);
    } else if k in a.entries && a.entries[k].Mapping? {
      MergedHolds(before, after, target, source, t, s, c, a.entries[k], b.entries[k]);
    } else {
      KeepsValue(before, after, source, s, c, b.entries[k]);
    }
  }

  lemma PairedVisits(h: Heap, target: Dict, source: Dict, t: Tree, s: Tree)
    requires h == Now(h.Keys) && Unfolds(h, target, t) && Unfolds(h, source, s) && Unshared(t, s)
    ensures Visits(target, source, Paired(t, s)) && Isolated(Paired(t, s))
  {
    forall p, q | p in t && q in s ensures t[p] != s[q] {
      assert t[p] in All(t) && s[q] in All(s);
    }
  }

  lemma PairedIsMerge(before: Heap, after: Heap, t: Tree, s: Tree, was: Contents)
    requires after == Now(after.Keys) && before.Keys == after.Keys == All(t) + All(s) && Unshared(t, s)
    requires MergedSoFar(Paired(t, s), was, Paired(t, s).Keys)
    requires was == map p | p in t && p in s :: (before[t[p]], before[s[p]])
    requires forall d :: d in before && d !in (set p | p in Paired(t, s) :: t[p]) ==> after[d] == before[d]
    ensures IsMerge(before, after, t, s)
  {
    forall p | p in t && p in s ensures after[t[p]] == Merged(before[t[p]], before[s[p]]) {
      assert p in Paired(t, s);
    }
    forall p | p in s ensures after[s[p]] == before[s[p]] {
      assert s[p] in All(s) && s[p] !in All(t);
    }
  }

  /** On trees that share nothing, the merge in place is the deep merge of the values. */
  method MergeTrees(target: Dict, source: Dict, ghost t: Tree, ghost s: Tree, ghost a: Value, ghost b: Value)
    returns (r: Dict)
    requires Unfolds(Now(All(t) + All(s)), target, t) && Unfolds(Now(All(t) + All(s)), source, s) && Unshared(t, s)
    requires Holds(Now(All(t) + All(s)), target, a) && Holds(Now(All(t) + All(s)), source, b)
    modifies All(t)
    ensures r == target && Holds(Now(All(t) + All(s)), target, DeepMerge(a, b))
    ensures IsMerge(old(Now(All(t) + All(s))), Now(All(t) + All(s)), t, s)
  {
    ghost var before, w := Now(All(t) + All(s)), Paired(t, s);
    ghost var was := Snapshot(w);
    PairedVisits(before, target, source, t, s);
    r := DictMerge(target, source, w);
    ghost var after := Now(All(t) + All(s));
    assert was == map p | p in t && p in s :: (before[t[p]], before[s[p]]);
    PairedIsMerge(before, after, t, s, was);
    MergedHolds(before, after, target, source, t, s, [], a, b);
  }

  // ----- the same source again -----

  /** The pairs of a second merge: where the target took over a part of the source, that part and itself. */
  ghost function SecondPairs(t: Tree, s: Tree): Pairs {
    map p | p in s :: (if p in t then t[p] else s[p], s[p])
  }

  lemma MergedAgain(a: Items, b: Items)
    ensures Merged(Merged(a, b), b) == Merged(a, b) && Merged(b, b) == b
  {
  }

  lemma SecondPairsAreStable(before: Heap, after: Heap, target: Dict, source: Dict, t: Tree, s: Tree)
    requires Unfolds(before, target, t) && Unfolds(before, source, s) && IsMerge(before, after, t, s)
    requires after == Now(after.Keys)
    ensures var w := SecondPairs(t, s);
            && Visits(target, source, w)
            && forall p :: p in w ==> Merged(w[p].0.entries, w[p].1.entries) == w[p].0.entries
  {
    var w := SecondPairs(t, s);
    forall p | p in w ensures Merged(w[p].0.entries, w[p].1.entries) == w[p].0.entries {
      MergedAgain(before[w[p].0], before[s[p]]);
      MergedAgain(before[w[p].0], after[s[p]]);
    }
    forall p, k | p in w && Both(w[p].0.entries, w[p].1.entries, k)
      ensures Child(p, k) in w && w[Child(p, k)] == (w[p].0.entries[k].dict, w[p].1.entries[k].dict)
    {
      assert Child(p, k) in s;
    }
  }

  method MergeSettled(target: Dict, source: Dict, ghost w: Pairs, ghost dicts: set<Dict>) returns (r: Dict)
    requires Visits(target, source, w) && forall p :: p in w ==> Merged(w[p].0.entries, w[p].1.entries) == w[p].0.entries
    modifies set p | p in w :: w[p].0
    ensures r == target && Now(dicts) == old(Now(dicts))
  {
    ghost var was := Snapshot(w);
    r := DictMerge(target, source, w);
    forall d | d in dicts ensures d.entries == old(d.entries) {
      if p :| p in w && w[p].0 == d {
        assert w[p].0.entries == was[p].0;
      }
    }
  }

  /** Merging the same source again leaves every dictionary as it is after the first merge. */
  method MergeTwice(target: Dict, source: Dict, ghost t: Tree, ghost s: Tree, ghost a: Value, ghost b: Value)
    returns (r: Dict)
    requires Unfolds(Now(All(t) + All(s)), target, t) && Unfolds(Now(All(t) + All(s)), source, s) && Unshared(t, s)
    requires Holds(Now(All(t) + All(s)), target, a) && Holds(Now(All(t) + All(s)), source, b)
    modifies All(t) + All(s)
    ensures r == target && IsMerge(old(Now(All(t) + All(s))), Now(All(t) + All(s)), t, s)
  {
    ghost var before := Now(All(t) + All(s));
    r := MergeTrees(target, source, t, s, a, b);
    ghost var once := Now(All(t) + All(s));
    SecondPairsAreStable(before, once, target, source, t, s);
    r := MergeSettled(target, source, SecondPairs(t, s), All(t) + All(s));
  }
}
