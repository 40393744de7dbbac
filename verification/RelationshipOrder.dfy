/**
  Deployment update, last phase: the relationships of a node instance are put
  in the order of the plan, and those that the plan dropped disappear.
 */
module RelationshipOrder {
  import opened Options
  import opened Occurrences

  type Key = (string, string)

  datatype InstanceRelationship = InstanceRelationship(rtype: string, targetName: string, targetId: string)

  function KeyOf(r: InstanceRelationship): Key {
    (r.rtype, r.targetName)
  }

  function Keys(rels: seq<InstanceRelationship>): (r: seq<Key>)
    ensures |r| == |rels|
    ensures forall i :: 0 <= i < |rels| ==> r[i] == KeyOf(rels[i])
  {
    seq(|rels|, i requires 0 <= i < |rels| => KeyOf(rels[i]))
  }

  /** Instance indices taken for the first `n` entries of the plan, in plan order. */
  function Picked(plan: seq<Key>, rels: seq<InstanceRelationship>, n: nat): (r: seq<nat>)
    requires n <= |plan|
    ensures |r| <= n
    ensures forall t :: 0 <= t < |r| ==> r[t] < |rels|
  {
    if n == 0 then []
    else
      match Match(plan, n - 1, Keys(rels))
      case None => Picked(plan, rels, n - 1)
      case Some(i) => Picked(plan, rels, n - 1) + [i]
  }

  function Select(rels: seq<InstanceRelationship>, picked: seq<nat>): (r: seq<InstanceRelationship>)
    requires forall t :: 0 <= t < |picked| ==> picked[t] < |rels|
    ensures |r| == |picked|
    ensures forall t :: 0 <= t < |r| ==> r[t] == rels[picked[t]]
  {
    seq(|picked|, t requires 0 <= t < |picked| => rels[picked[t]])
  }

  function ReorderedUpTo(plan: seq<Key>, rels: seq<InstanceRelationship>, n: nat): seq<InstanceRelationship>
    requires n <= |plan|
  {
    Select(rels, Picked(plan, rels, n))
  }

  function Reordered(plan: seq<Key>, rels: seq<InstanceRelationship>): seq<InstanceRelationship> {
    ReorderedUpTo(plan, rels, |plan|)
  }

  /** The occurrence number of every key, from a running counter. */
  method IndexedBy(keys: seq<Key>) returns (counts: seq<nat>)
    ensures |counts| == |keys|
    ensures forall i: nat :: i < |keys| ==> counts[i] == Before(keys, i, keys[i])
  {
    counts := [];
    var seen: map<Key, nat> := map[];
    for i := 0 to |keys|
      invariant |counts| == i
      invariant forall j: nat :: j < i ==> counts[j] == Before(keys, j, keys[j])
      invariant forall k :: (if k in seen then seen[k] else 0) == Before(keys, i, k)
    {
      var count := if keys[i] in seen then seen[keys[i]] else 0;
      counts := counts + [count];
      seen := seen[keys[i] := count + 1];
    }
  }

  /** The instance relationships by key and occurrence number. */
  method IndexInstances(keys: seq<Key>, rels: seq<InstanceRelationship>)
    returns (keyed: map<(Key, nat), InstanceRelationship>)
    requires |keys| == |rels|
    ensures forall k, c: nat :: (k, c) in keyed <==> c < Total(keys, k)
    ensures forall i: nat :: i < |rels| ==> IsStored(keyed, keys, rels, i)
  {
    var counts := IndexedBy(keys);
    keyed := map[];
    for i := 0 to |rels|
      invariant forall k, c: nat :: (k, c) in keyed <==> c < Before(keys, i, k)
      invariant forall j: nat :: j < i ==> IsStored(keyed, keys, rels, j)
    {
      ghost var shorter := keyed;
      keyed := keyed[(keys[i], counts[i]) := rels[i]];
      forall j: nat | j < i ensures IsStored(keyed, keys, rels, j) {
        assert IsStored(shorter, keys, rels, j);
        BeforeMonotone(keys, keys[i], j, i);
      }
      assert IsStored(keyed, keys, rels, i);
    }
  }

  predicate IsStored(keyed: map<(Key, nat), InstanceRelationship>, keys: seq<Key>, rels: seq<InstanceRelationship>, i: nat)
    requires i < |rels| == |keys|
  {
    var index := (keys[i], Before(keys, i, keys[i]));
    index in keyed && keyed[index] == rels[i]
  }

  method ReorderInstanceRelationships(plan: seq<Key>, rels: seq<InstanceRelationship>)
    returns (r: seq<InstanceRelationship>)
    ensures r == Reordered(plan, rels)
  {
    var keyed := IndexInstances(Keys(rels), rels);
    var counts := IndexedBy(plan);
    r := [];
    for j := 0 to |plan|
      invariant r == ReorderedUpTo(plan, rels, j)
    {
      if (plan[j], counts[j]) in keyed {
        r := r + [keyed[(plan[j], counts[j])]];
      }
      ghost var m := Match(plan, j, Keys(rels));
      assert m.Some? ==> IsStored(keyed, Keys(rels), rels, m.value);
    }
  }

  // ----- what is kept -----

  lemma {:induction false} PickedMembers(plan: seq<Key>, rels: seq<InstanceRelationship>, n: nat, i: nat)
    requires n <= |plan|
    ensures i in Picked(plan, rels, n) <==> exists j: nat :: j < n && Match(plan, j, Keys(rels)) == Some(i)
  {
    if n > 0 {
      PickedMembers(plan, rels, n - 1, i);
    }
  }

  /**
    An instance entry is kept exactly when it is among the first entries of its
    key, as many of them as the plan has.
   */
  lemma KeepsTheFirstOfEachKey(plan: seq<Key>, rels: seq<InstanceRelationship>, i: nat)
    requires i < |rels|
    ensures i in Picked(plan, rels, |plan|) <==> Before(Keys(rels), i, KeyOf(rels[i])) < Total(plan, KeyOf(rels[i]))
  {
    var keys := Keys(rels);
    PickedMembers(plan, rels, |plan|, i);
    if Match(keys, i, plan).Some? {
      MatchIsSymmetric(keys, plan, i, Match(keys, i, plan).value);
    }
    forall j: nat | j < |plan| && Match(plan, j, keys) == Some(i) ensures Match(keys, i, plan).Some? {
      MatchIsSymmetric(keys, plan, i, j);
    }
  }

  /** The taken entries have plan positions below `n`, in increasing order; so none is taken twice. */
  ghost predicate InPlanOrder(plan: seq<Key>, keys: seq<Key>, picked: seq<nat>, n: nat) {
    && (forall t :: 0 <= t < |picked| ==> picked[t] < |keys|)
    && (forall t :: 0 <= t < |picked| ==>
          Match(keys, picked[t], plan).Some? && Match(keys, picked[t], plan).value < n)
    && (forall s, t :: 0 <= s < t < |picked| ==>
          picked[s] != picked[t] && Match(keys, picked[s], plan).value < Match(keys, picked[t], plan).value)
  }

  lemma OneMoreInPlanOrder(plan: seq<Key>, keys: seq<Key>, picked: seq<nat>, n: nat, more: nat, next: nat)
    requires InPlanOrder(plan, keys, picked, n) && more == n + 1
    requires next < |keys| && Match(keys, next, plan) == Some(n)
    ensures InPlanOrder(plan, keys, picked + [next], more)
  {
  }

  lemma SameInPlanOrder(plan: seq<Key>, keys: seq<Key>, picked: seq<nat>, n: nat, more: nat)
    requires InPlanOrder(plan, keys, picked, n) && n <= more
    ensures InPlanOrder(plan, keys, picked, more)
  {
  }

  lemma PickedOneMore(plan: seq<Key>, rels: seq<InstanceRelationship>, n: nat, more: nat)
    requires more == n + 1 <= |plan| && InPlanOrder(plan, Keys(rels), Picked(plan, rels, n), n)
    ensures InPlanOrder(plan, Keys(rels), Picked(plan, rels, more), more)
  {
    var m := Match(plan, n, Keys(rels));
    if m.Some? {
      MatchIsSymmetric(plan, Keys(rels), n, m.value);
      OneMoreInPlanOrder(plan, Keys(rels), Picked(plan, rels, n), n, more, m.value);
    } else {
      SameInPlanOrder(plan, Keys(rels), Picked(plan, rels, n), n, more);
    }
  }

  lemma {:induction false} PickedInPlanOrder(plan: seq<Key>, rels: seq<InstanceRelationship>, n: nat)
    requires n <= |plan|
    ensures InPlanOrder(plan, Keys(rels), Picked(plan, rels, n), n)
  {
    if n > 0 {
      PickedInPlanOrder(plan, rels, n - 1);
      PickedOneMore(plan, rels, n - 1, n);
    }
  }

  function Min(a: nat, b: nat): nat {
    if a < b then a else b
  }

  lemma TotalOfAppend(keys: seq<Key>, last: Key, k: Key)
    ensures Total(keys + [last], k) == Total(keys, k) + (if last == k then 1 else 0)
  {
    assert (keys + [last])[..|keys|] == keys[..|keys|];
    BeforeExtensional(keys + [last], keys, |keys|, k);
  }

  lemma {:induction false} CountOfKept(plan: seq<Key>, rels: seq<InstanceRelationship>, n: nat, k: Key)
    requires n <= |plan|
    ensures Total(Keys(ReorderedUpTo(plan, rels, n)), k) == Min(Before(plan, n, k), Total(Keys(rels), k))
  {
    if n > 0 {
      CountOfKept(plan, rels, n - 1, k);
      var m := Match(plan, n - 1, Keys(rels));
      if m.Some? {
        var shorter := ReorderedUpTo(plan, rels, n - 1);
        assert ReorderedUpTo(plan, rels, n) == shorter + [rels[m.value]];
        assert Keys(shorter + [rels[m.value]]) == Keys(shorter) + [plan[n - 1]];
        TotalOfAppend(Keys(shorter), plan[n - 1], k);
      }
    }
  }

  /** Per key, the result has the smaller of the two counts. */
  lemma ReorderedCounts(plan: seq<Key>, rels: seq<InstanceRelationship>, k: Key)
    ensures Total(Keys(Reordered(plan, rels)), k) == Min(Total(plan, k), Total(Keys(rels), k))
  {
    CountOfKept(plan, rels, |plan|, k);
  }

  // ----- applying it again -----

  lemma {:induction false} PrefixOfReordered(plan: seq<Key>, rels: seq<InstanceRelationship>, n: nat, m: nat)
    requires n <= m <= |plan|
    ensures ReorderedUpTo(plan, rels, n) <= ReorderedUpTo(plan, rels, m)
    decreases m - n
  {
    if n < m {
      PrefixOfReordered(plan, rels, n, m - 1);
    }
  }

  /** A plan entry that found a partner finds the same one in the result, at the place it was put. */
  lemma MatchInResult(plan: seq<Key>, rels: seq<InstanceRelationship>, j: nat)
    requires j < |plan| && Match(plan, j, Keys(rels)).Some?
    ensures var t := |ReorderedUpTo(plan, rels, j)|;
            && Match(plan, j, Keys(Reordered(plan, rels))) == Some(t)
            && ReorderedUpTo(plan, rels, j + 1) == ReorderedUpTo(plan, rels, j) + [Reordered(plan, rels)[t]]
  {
    var once, before, k := Reordered(plan, rels), ReorderedUpTo(plan, rels, j), plan[j];
    var m := Match(plan, j, Keys(rels)).value;
    PrefixOfReordered(plan, rels, j + 1, |plan|);
    OneMoreReordered(plan, rels, j, j + 1);
    assert once[|before|] == rels[m] && once[..|before|] == before;
    assert Keys(once)[..|before|] == Keys(before)[..|before|];
    BeforeExtensional(Keys(once), Keys(before), |before|, k);
    CountOfKept(plan, rels, j, k);
    KthIsFound(Keys(once), k, Before(plan, j, k), |before|);
  }

  lemma OneMoreReordered(plan: seq<Key>, rels: seq<InstanceRelationship>, n: nat, more: nat)
    requires more == n + 1 <= |plan|
    ensures ReorderedUpTo(plan, rels, more) == ReorderedUpTo(plan, rels, n) +
              match Match(plan, n, Keys(rels)) case None => [] case Some(i) => [rels[i]]
  {
  }

  lemma ReorderAgainOneMore(plan: seq<Key>, rels: seq<InstanceRelationship>, n: nat, more: nat)
    requires more == n + 1 <= |plan|
    requires ReorderedUpTo(plan, Reordered(plan, rels), n) == ReorderedUpTo(plan, rels, n)
    ensures ReorderedUpTo(plan, Reordered(plan, rels), more) == ReorderedUpTo(plan, rels, more)
  {
    OneMoreReordered(plan, Reordered(plan, rels), n, more);
    OneMoreReordered(plan, rels, n, more);
    if Match(plan, n, Keys(rels)).Some? {
      MatchInResult(plan, rels, n);
    } else {
      ReorderedCounts(plan, rels, plan[n]);
    }
  }

  lemma {:induction false} ReorderAgainUpTo(plan: seq<Key>, rels: seq<InstanceRelationship>, n: nat)
    requires n <= |plan|
    ensures ReorderedUpTo(plan, Reordered(plan, rels), n) == ReorderedUpTo(plan, rels, n)
  {
    if n > 0 {
      ReorderAgainUpTo(plan, rels, n - 1);
      ReorderAgainOneMore(plan, rels, n - 1, n);
    }
  }

  lemma ReorderIsIdempotent(plan: seq<Key>, rels: seq<InstanceRelationship>)
    ensures Reordered(plan, Reordered(plan, rels)) == Reordered(plan, rels)
  {
    ReorderAgainUpTo(plan, rels, |plan|);
  }

  // ----- nothing dropped when the counts agree -----

  /** Leaving out the place where the last entry was taken leaves a selection from the others. */
  lemma SelectWithoutLast(rels: seq<InstanceRelationship>, picked: seq<nat>, p: nat)
    requires |rels| > 0 && p < |picked| && picked[p] == |rels| - 1
    requires forall t :: 0 <= t < |picked| ==> picked[t] < |rels|
    requires forall t :: 0 <= t < |picked| && t != p ==> picked[t] != |rels| - 1
    ensures var others := picked[..p] + picked[p + 1..];
            && (forall t :: 0 <= t < |others| ==> others[t] < |rels| - 1)
            && multiset(Select(rels, picked)) == multiset(Select(rels[..|rels| - 1], others) + [rels[|rels| - 1]])
  {
    var others, chosen := picked[..p] + picked[p + 1..], Select(rels, picked);
    assert chosen == chosen[..p] + [rels[|rels| - 1]] + chosen[p + 1..];
    assert Select(rels[..|rels| - 1], others) == chosen[..p] + chosen[p + 1..];
  }

  lemma {:induction false} SelectAllIsPermutation(rels: seq<InstanceRelationship>, picked: seq<nat>)
    requires forall t :: 0 <= t < |picked| ==> picked[t] < |rels|
    requires forall s, t :: 0 <= s < t < |picked| ==> picked[s] != picked[t]
    requires forall i: nat :: i < |rels| ==> i in picked
    ensures multiset(Select(rels, picked)) == multiset(rels)
    decreases |rels|
  {
    if |rels| > 0 {
      var last := |rels| - 1;
      assert last in picked;
      var p: nat :| p < |picked| && picked[p] == last;
      SelectWithoutLast(rels, picked, p);
      DistinctWithoutLast(picked, |rels|, p);
      SelectAllIsPermutation(rels[..last], picked[..p] + picked[p + 1..]);
      assert rels == rels[..last] + [rels[last]];
    }
  }

  lemma DistinctWithoutLast(picked: seq<nat>, n: nat, p: nat)
    requires n > 0 && p < |picked| && picked[p] == n - 1
    requires forall s, t :: 0 <= s < t < |picked| ==> picked[s] != picked[t]
    requires forall i: nat :: i < n ==> i in picked
    ensures var others := picked[..p] + picked[p + 1..];
            && (forall s, t :: 0 <= s < t < |others| ==> others[s] != others[t])
            && (forall i: nat :: i < n - 1 ==> i in others)
  {
    var others := picked[..p] + picked[p + 1..];
    forall i: nat | i < n - 1 ensures i in others {
      assert i in picked;
      var t :| 0 <= t < |picked| && picked[t] == i;
      assert i == others[if t < p then t else t - 1];
    }
  }

  lemma ReorderIsPermutation(plan: seq<Key>, rels: seq<InstanceRelationship>)
    requires forall k :: Total(plan, k) == Total(Keys(rels), k)
    ensures multiset(Reordered(plan, rels)) == multiset(rels)
  {
    var picked := Picked(plan, rels, |plan|);
    PickedInPlanOrder(plan, rels, |plan|);
    forall i: nat | i < |rels| ensures i in picked {
      KeepsTheFirstOfEachKey(plan, rels, i);
      BeforeMonotone(Keys(rels), KeyOf(rels[i]), i, |rels|);
    }
    SelectAllIsPermutation(rels, picked);
  }
}
