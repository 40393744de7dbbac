/**
  Merging the relationships of a node instance when a deployment modification
  starts, and dropping some when it finishes.
 */
module InstanceRelationships {

  datatype Relationship = Relationship(targetName: string, targetId: string, rtype: string)

  /** The last stretch of consecutive entries with the given target name. */
  function LastRun(rels: seq<Relationship>, x: string): seq<Relationship> {
    if rels == [] then []
    else
      var last, front := rels[|rels| - 1], rels[..|rels| - 1];
      if last.targetName != x then LastRun(front, x)
      else if front != [] && front[|front| - 1].targetName == x then LastRun(front, x) + [last]
      else [last]
  }

  /** All entries with the given target name. */
  function Of(rels: seq<Relationship>, x: string): seq<Relationship> {
    if rels == [] then []
    else Of(rels[..|rels| - 1], x) + (if rels[|rels| - 1].targetName == x then [rels[|rels| - 1]] else [])
  }

  /** Groups of consecutive entries by target name; a later group of the same name replaces an earlier one. */
  method GroupByTarget(rels: seq<Relationship>) returns (groups: map<string, seq<Relationship>>)
    ensures forall x :: Group(groups, x) == LastRun(rels, x)
  {
    groups := map[];
    for i := 0 to |rels|
      invariant forall x :: Group(groups, x) == LastRun(rels[..i], x)
    {
      var x := rels[i].targetName;
      assert rels[..i + 1][..i] == rels[..i];
      if i > 0 && rels[i - 1].targetName == x {
        assert rels[..i][i - 1] == rels[i - 1];
        groups := groups[x := Group(groups, x) + [rels[i]]];
      } else {
        groups := groups[x := [rels[i]]];
      }
    }
    assert rels[..|rels|] == rels;
  }

  function Group(groups: map<string, seq<Relationship>>, x: string): seq<Relationship> {
    if x in groups then groups[x] else []
  }

  function Merged(targets: seq<string>, current: seq<Relationship>, added: seq<Relationship>): seq<Relationship> {
    if targets == [] then []
    else
      var x := targets[|targets| - 1];
      Merged(targets[..|targets| - 1], current, added) + LastRun(current, x) + LastRun(added, x)
  }

  method Merge(targets: seq<string>, current: seq<Relationship>, added: seq<Relationship>) returns (r: seq<Relationship>)
    ensures r == Merged(targets, current, added)
  {
    var currentGroups := GroupByTarget(current);
    var addedGroups := GroupByTarget(added);
    r := [];
    for i := 0 to |targets|
      invariant r == Merged(targets[..i], current, added)
    {
      assert targets[..i + 1][..i] == targets[..i];
      r := r + Group(currentGroups, targets[i]);
      r := r + Group(addedGroups, targets[i]);
    }
    assert targets[..|targets|] == targets;
  }

  /** Keeps the relationships whose target instance was not removed. */
  function Without(rels: seq<Relationship>, removed: set<string>): seq<Relationship> {
    if rels == [] then []
    else
      var last := rels[|rels| - 1];
      Without(rels[..|rels| - 1], removed) + (if last.targetId in removed then [] else [last])
  }

  // ----- nothing lost or duplicated -----

  ghost predicate Distinct(targets: seq<string>) {
    forall i, j :: 0 <= i < j < |targets| ==> targets[i] != targets[j]
  }

  /** Entries with the same target name are consecutive. */
  ghost predicate Grouped(rels: seq<Relationship>) {
    forall i, j, k :: 0 <= i < j < k < |rels| && rels[i].targetName == rels[k].targetName ==>
      rels[j].targetName == rels[i].targetName
  }

  ghost predicate NamesOnly(rels: seq<Relationship>, targets: seq<string>) {
    forall i :: 0 <= i < |rels| ==> rels[i].targetName in targets
  }

  lemma {:induction false} OfNone(rels: seq<Relationship>, x: string)
    ensures Of(rels, x) == [] <==> forall i :: 0 <= i < |rels| ==> rels[i].targetName != x
  {
    if rels != [] {
      var front, last := rels[..|rels| - 1], rels[|rels| - 1];
      OfNone(front, x);
      assert Of(rels, x) == Of(front, x) + if last.targetName == x then [last] else [];
      assert rels == front + [last];
    }
  }

  lemma {:induction false} LastRunWithinOf(rels: seq<Relationship>, x: string)
    ensures multiset(LastRun(rels, x)) <= multiset(Of(rels, x))
    ensures |LastRun(rels, x)| <= |Of(rels, x)|
    ensures LastRun(rels, x) == [] <==> Of(rels, x) == []
    ensures forall r :: r in LastRun(rels, x) ==> r.targetName == x
    ensures forall r :: r in Of(rels, x) ==> r.targetName == x
  {
    if rels != [] {
      LastRunWithinOf(rels[..|rels| - 1], x);
    }
  }

  lemma LastStartsGroup(rels: seq<Relationship>)
    requires Grouped(rels) && rels != []
    requires |rels| > 1 ==> rels[|rels| - 2].targetName != rels[|rels| - 1].targetName
    ensures forall i :: 0 <= i < |rels| - 1 ==> rels[i].targetName != rels[|rels| - 1].targetName
  {
  }

  lemma {:induction false} GroupedIsOneRun(rels: seq<Relationship>, x: string)
    requires Grouped(rels)
    ensures LastRun(rels, x) == Of(rels, x)
  {
    if rels != [] {
      var front := rels[..|rels| - 1];
      GroupedIsOneRun(front, x);
      if rels[|rels| - 1].targetName == x && (front == [] || front[|front| - 1].targetName != x) {
        LastStartsGroup(rels);
        OfNone(front, x);
      }
    }
  }

  /** A gap between equal names loses the entries before it. */
  lemma {:induction false} OneRunIsGrouped(rels: seq<Relationship>, i: nat, j: nat, k: nat)
    requires i < j < k < |rels| && rels[i].targetName == rels[k].targetName != rels[j].targetName
    ensures |LastRun(rels, rels[i].targetName)| < |Of(rels, rels[i].targetName)|
    decreases |rels|
  {
    var x, front := rels[i].targetName, rels[..|rels| - 1];
    if k < |front| {
      OneRunIsGrouped(front, i, j, k);
    } else if front[|front| - 1].targetName == x {
      assert front[j].targetName != x;
      OneRunIsGrouped(front, i, j, |front| - 1);
    } else {
      OfNone(front, x);
      assert front[i].targetName == x;
    }
  }

  lemma OfRuns(before: seq<Relationship>, current: seq<Relationship>, added: seq<Relationship>, y: string, x: string)
    ensures |Of(before + LastRun(current, y) + LastRun(added, y), x)|
         == |Of(before, x)| + (if x == y then |LastRun(current, y)| + |LastRun(added, y)| else 0)
  {
    LastRunWithinOf(current, y);
    LastRunWithinOf(added, y);
    OfAppend(before + LastRun(current, y), LastRun(added, y), x);
    OfAppend(before, LastRun(current, y), x);
    OfUniform(LastRun(current, y), y, x);
    OfUniform(LastRun(added, y), y, x);
  }

  lemma {:induction false} MergedOf(targets: seq<string>, current: seq<Relationship>, added: seq<Relationship>, x: string)
    requires Distinct(targets)
    ensures |Of(Merged(targets, current, added), x)|
         == if x in targets then |LastRun(current, x)| + |LastRun(added, x)| else 0
  {
    if targets != [] {
      var y, front := targets[|targets| - 1], targets[..|targets| - 1];
      MergedOf(front, current, added, x);
      OfRuns(Merged(front, current, added), current, added, y, x);
      assert targets == front + [y];
    }
  }

  lemma {:induction false} OfAppend(a: seq<Relationship>, b: seq<Relationship>, x: string)
    ensures Of(a + b, x) == Of(a, x) + Of(b, x)
  {
    if b == [] {
      assert a + b == a;
    } else {
      assert (a + b)[..|a + b| - 1] == a + b[..|b| - 1];
      OfAppend(a, b[..|b| - 1], x);
    }
  }

  lemma {:induction false} OfUniform(rels: seq<Relationship>, y: string, x: string)
    requires forall r :: r in rels ==> r.targetName == y
    ensures Of(rels, x) == if x == y then rels else []
  {
    if rels != [] {
      assert rels[|rels| - 1] in rels;
      OfUniform(rels[..|rels| - 1], y, x);
    }
  }

  lemma {:induction false} OfKeepsCount(rels: seq<Relationship>, r: Relationship)
    ensures multiset(Of(rels, r.targetName))[r] == multiset(rels)[r]
  {
    if rels != [] {
      OfKeepsCount(rels[..|rels| - 1], r);
      assert rels == rels[..|rels| - 1] + [rels[|rels| - 1]];
    }
  }

  lemma {:induction false} OfSize(a: seq<Relationship>, b: seq<Relationship>, x: string)
    requires multiset(a) == multiset(b)
    ensures |Of(a, x)| == |Of(b, x)|
  {
    forall r ensures multiset(Of(a, x))[r] == multiset(Of(b, x))[r] {
      if r.targetName == x {
        OfKeepsCount(a, r);
        OfKeepsCount(b, r);
      } else {
        LastRunWithinOf(a, x);
        LastRunWithinOf(b, x);
      }
    }
    assert multiset(Of(a, x)) == multiset(Of(b, x));
    assert |multiset(Of(a, x))| == |Of(a, x)|;
  }

  lemma {:induction false} MergedCounts(targets: seq<string>, current: seq<Relationship>, added: seq<Relationship>, r: Relationship)
    requires Distinct(targets) && Grouped(current) && Grouped(added)
    ensures multiset(Merged(targets, current, added))[r]
         == if r.targetName in targets then multiset(current)[r] + multiset(added)[r] else 0
  {
    if targets != [] {
      var y, front := targets[|targets| - 1], targets[..|targets| - 1];
      MergedCounts(front, current, added, r);
      GroupedIsOneRun(current, y);
      GroupedIsOneRun(added, y);
      assert targets == front + [y];
      if r.targetName == y {
        OfKeepsCount(current, r);
        OfKeepsCount(added, r);
      } else {
        LastRunWithinOf(current, y);
        LastRunWithinOf(added, y);
      }
    }
  }

  ghost predicate MergeIsPermutation(targets: seq<string>, current: seq<Relationship>, added: seq<Relationship>) {
    multiset(Merged(targets, current, added)) == multiset(current) + multiset(added)
  }

  lemma GroupedMergeIsPermutation(targets: seq<string>, current: seq<Relationship>, added: seq<Relationship>)
    requires Distinct(targets) && Grouped(current) && Grouped(added)
    requires NamesOnly(current, targets) && NamesOnly(added, targets)
    ensures MergeIsPermutation(targets, current, added)
  {
    forall r ensures multiset(Merged(targets, current, added))[r] == (multiset(current) + multiset(added))[r] {
      MergedCounts(targets, current, added, r);
    }
  }

  lemma PermutationNeedsGroups(targets: seq<string>, current: seq<Relationship>, added: seq<Relationship>, x: string)
    requires Distinct(targets) && MergeIsPermutation(targets, current, added)
    ensures |LastRun(current, x)| == |Of(current, x)| && |LastRun(added, x)| == |Of(added, x)|
    ensures x !in targets ==> Of(current, x) == [] && Of(added, x) == []
  {
    assert multiset(current + added) == multiset(current) + multiset(added);
    OfSize(Merged(targets, current, added), current + added, x);
    OfAppend(current, added, x);
    MergedOf(targets, current, added, x);
    LastRunWithinOf(current, x);
    LastRunWithinOf(added, x);
  }

  lemma MustBeGrouped(rels: seq<Relationship>)
    requires forall x :: |LastRun(rels, x)| == |Of(rels, x)|
    ensures Grouped(rels)
  {
    forall i, j, k | 0 <= i < j < k < |rels| && rels[i].targetName == rels[k].targetName
      ensures rels[j].targetName == rels[i].targetName
    {
      if rels[j].targetName != rels[i].targetName {
        OneRunIsGrouped(rels, i, j, k);
      }
    }
  }

  /**
    With distinct targets, the merge loses and duplicates nothing if and only
    if both lists are grouped by target name and name only targets of the node.
   */
  lemma MergeIsPermutationIff(targets: seq<string>, current: seq<Relationship>, added: seq<Relationship>)
    requires Distinct(targets)
    ensures MergeIsPermutation(targets, current, added)
       <==> Grouped(current) && Grouped(added) && NamesOnly(current, targets) && NamesOnly(added, targets)
  {
    if MergeIsPermutation(targets, current, added) {
      forall x { PermutationNeedsGroups(targets, current, added, x); }
      MustBeGrouped(current);
      MustBeGrouped(added);
      forall i | 0 <= i < |current| ensures current[i].targetName in targets {
        OfNone(current, current[i].targetName);
      }
      forall i | 0 <= i < |added| ensures added[i].targetName in targets {
        OfNone(added, added[i].targetName);
      }
    } else if Grouped(current) && Grouped(added) && NamesOnly(current, targets) && NamesOnly(added, targets) {
      GroupedMergeIsPermutation(targets, current, added);
    }
  }

  // ----- nodes with several relationships to one target -----

  /** How often an entry occurs in the last runs of its target. */
  ghost function InRuns(current: seq<Relationship>, added: seq<Relationship>, r: Relationship): nat {
    multiset(LastRun(current, r.targetName))[r] + multiset(LastRun(added, r.targetName))[r]
  }

  lemma MergedOneMore(front: seq<string>, y: string, current: seq<Relationship>, added: seq<Relationship>, r: Relationship)
    ensures multiset(Merged(front + [y], current, added))[r]
         == multiset(Merged(front, current, added))[r] + if r.targetName == y then InRuns(current, added, r) else 0
  {
    assert (front + [y])[..|front|] == front;
    LastRunWithinOf(current, y);
    LastRunWithinOf(added, y);
  }

  /** `k` written `t` times. */
  function Times(t: nat, k: nat): nat {
    if t == 0 then 0 else Times(t - 1, k) + k
  }

  lemma {:induction false} OnlyOnce(t: nat, k: nat)
    ensures Times(t, k) == k <==> k == 0 || t == 1
    ensures Times(t, k) == 0 <==> k == 0 || t == 0
    ensures t > 0 ==> Times(t, k) >= k
  {
    if t > 0 {
      OnlyOnce(t - 1, k);
    }
  }

  /** For each relationship of the node to its target, an entry of the last run is written once. */
  lemma {:induction false} MergedTimes(targets: seq<string>, current: seq<Relationship>, added: seq<Relationship>,
      r: Relationship, k: nat)
    requires k == InRuns(current, added, r)
    ensures multiset(Merged(targets, current, added))[r] == Times(multiset(targets)[r.targetName], k)
  {
    if targets != [] {
      var y, front := targets[|targets| - 1], targets[..|targets| - 1];
      MergedTimes(front, current, added, r, k);
      MergedOneMore(front, y, current, added, r);
      OneMoreTarget(front, y, r.targetName);
      SplitLast(targets);
    }
  }

  lemma SplitLast(targets: seq<string>)
    requires targets != []
    ensures targets == targets[..|targets| - 1] + [targets[|targets| - 1]]
  {
  }

  lemma OneMoreTarget(front: seq<string>, y: string, x: string)
    ensures multiset(front + [y])[x] == multiset(front)[x] + if x == y then 1 else 0
  {
  }

  lemma GroupedInRuns(current: seq<Relationship>, added: seq<Relationship>, r: Relationship)
    requires Grouped(current) && Grouped(added)
    ensures InRuns(current, added, r) == multiset(current)[r] + multiset(added)[r]
  {
    GroupedIsOneRun(current, r.targetName);
    GroupedIsOneRun(added, r.targetName);
    OfKeepsCount(current, r);
    OfKeepsCount(added, r);
  }

  /** The target of every entry occurs exactly once among the relationships of the node. */
  ghost predicate TargetsOnce(rels: seq<Relationship>, targets: seq<string>) {
    forall r :: r in rels ==> multiset(targets)[r.targetName] == 1
  }

  /** For grouped lists: an entry for a repeated target is duplicated, and one for no target is lost. */
  lemma GroupedMergeIff(targets: seq<string>, current: seq<Relationship>, added: seq<Relationship>)
    requires Grouped(current) && Grouped(added)
    ensures MergeIsPermutation(targets, current, added) <==> TargetsOnce(current + added, targets)
  {
    var merged, both := multiset(Merged(targets, current, added)), multiset(current) + multiset(added);
    forall r ensures merged[r] == Times(multiset(targets)[r.targetName], both[r]) {
      GroupedInRuns(current, added, r);
      MergedTimes(targets, current, added, r, both[r]);
    }
    assert multiset(current + added) == both;
    forall r ensures merged[r] == both[r] <==> both[r] == 0 || multiset(targets)[r.targetName] == 1 {
      OnlyOnce(multiset(targets)[r.targetName], both[r]);
    }
    forall r ensures r in current + added <==> both[r] > 0 {
      assert r in current + added <==> r in multiset(current + added);
    }
  }

  ghost predicate NoEntryTwice(rels: seq<Relationship>) {
    forall r :: multiset(rels)[r] <= 1
  }

  lemma RunHasAll(targets: seq<string>, current: seq<Relationship>, added: seq<Relationship>, r: Relationship)
    requires NoEntryTwice(current + added) && MergeIsPermutation(targets, current, added) && r in current + added
    ensures multiset(targets)[r.targetName] == 1
    ensures multiset(LastRun(current, r.targetName))[r] == multiset(current)[r]
    ensures multiset(LastRun(added, r.targetName))[r] == multiset(added)[r]
  {
    var x := r.targetName;
    MergedTimes(targets, current, added, r, InRuns(current, added, r));
    assert multiset(current + added) == multiset(current) + multiset(added);
    assert multiset(current + added)[r] == 1;
    LastRunWithinOf(current, x);
    LastRunWithinOf(added, x);
    OfKeepsCount(current, r);
    OfKeepsCount(added, r);
    OnlyOnce(multiset(targets)[x], InRuns(current, added, r));
  }

  lemma RunHasAsMany(targets: seq<string>, current: seq<Relationship>, added: seq<Relationship>, x: string, r: Relationship)
    requires NoEntryTwice(current + added) && MergeIsPermutation(targets, current, added)
    ensures multiset(LastRun(current, x))[r] == multiset(Of(current, x))[r]
    ensures multiset(LastRun(added, x))[r] == multiset(Of(added, x))[r]
  {
    LastRunWithinOf(current, x);
    LastRunWithinOf(added, x);
    if r.targetName == x {
      OfKeepsCount(current, r);
      OfKeepsCount(added, r);
      if r in current + added {
        RunHasAll(targets, current, added, r);
      }
    }
  }

  lemma AsLong(a: seq<Relationship>, b: seq<Relationship>)
    requires multiset(a) == multiset(b)
    ensures |a| == |b|
  {
    assert |multiset(a)| == |a| && |multiset(b)| == |b|;
  }

  lemma SameRun(targets: seq<string>, current: seq<Relationship>, added: seq<Relationship>, x: string)
    requires NoEntryTwice(current + added) && MergeIsPermutation(targets, current, added)
    ensures |LastRun(current, x)| == |Of(current, x)| && |LastRun(added, x)| == |Of(added, x)|
  {
    forall r {
      RunHasAsMany(targets, current, added, x, r);
    }
    AsLong(LastRun(current, x), Of(current, x));
    AsLong(LastRun(added, x), Of(added, x));
  }

  /**
    For any node: if no entry occurs twice, the merge loses and duplicates nothing if and only if both lists are
    grouped by target name, and the target of every entry occurs exactly once among the relationships of the node.
   */
  lemma MergeIsPermutationForAnyTargetsIff(targets: seq<string>, current: seq<Relationship>, added: seq<Relationship>)
    requires NoEntryTwice(current + added)
    ensures MergeIsPermutation(targets, current, added)
       <==> Grouped(current) && Grouped(added) && TargetsOnce(current + added, targets)
  {
    if MergeIsPermutation(targets, current, added) {
      forall x { SameRun(targets, current, added, x); }
      MustBeGrouped(current);
      MustBeGrouped(added);
    }
    if Grouped(current) && Grouped(added) {
      GroupedMergeIff(targets, current, added);
    }
  }

  lemma RunsOfThree(r: Relationship, other: Relationship, s: Relationship)
    requires r.targetName == s.targetName != other.targetName
    ensures LastRun([r, other, s], r.targetName) == [s] && LastRun([r, other, s], other.targetName) == [other]
  {
    var rels := [r, other, s];
    assert rels[..2] == [r, other] && [r, other][..1] == [r];
    assert LastRun([r, other], other.targetName) == [other];
  }

  /** An entry for another target between two for the same one: the first of them is lost. */
  lemma UngroupedExample(r: Relationship, other: Relationship, s: Relationship)
    requires r.targetName == s.targetName != other.targetName
    ensures Merged([r.targetName, other.targetName], [r, other, s], []) == [s, other]
    ensures !MergeIsPermutation([r.targetName, other.targetName], [r, other, s], [])
  {
    var x, y, rels := r.targetName, other.targetName, [r, other, s];
    RunsOfThree(r, other, s);
    assert [x, y][..1] == [x] && [x][..0] == [];
    assert Merged([x], rels, []) == [s];
    assert |multiset([s, other])| == 2 && |multiset(rels) + multiset([])| == 3;
  }

  /** Two relationships to one target: its only entry is written twice. */
  lemma RepeatedTargetExample(r: Relationship)
    ensures Merged([r.targetName, r.targetName], [r], []) == [r, r]
    ensures !MergeIsPermutation([r.targetName, r.targetName], [r], [])
  {
    var x := r.targetName;
    assert [x, x][..1] == [x] && [x][..0] == [];
    assert LastRun([r], x) == [r] && LastRun([], x) == [];
    assert Merged([], [r], []) == [];
    assert Merged([x], [r], []) == [r];
    assert Merged([x, x], [r], []) == [r, r];
    assert multiset([r, r])[r] == 2 && (multiset([r]) + multiset{})[r] == 1;
  }

  // ----- order of the node -----

  function Position(targets: seq<string>, x: string): nat
    requires x in targets
  {
    if targets[|targets| - 1] == x then |targets| - 1 else Position(targets[..|targets| - 1], x)
  }

  /** The entries follow the order of the node's relationships. */
  ghost predicate InNodeOrder(targets: seq<string>, rels: seq<Relationship>) {
    && NamesOnly(rels, targets)
    && forall i, j :: 0 <= i < j < |rels| ==> Position(targets, rels[i].targetName) <= Position(targets, rels[j].targetName)
  }

  lemma {:induction false} PositionIs(targets: seq<string>, x: string)
    requires x in targets
    ensures Position(targets, x) < |targets| && targets[Position(targets, x)] == x
  {
    if targets[|targets| - 1] != x {
      PositionIs(targets[..|targets| - 1], x);
    }
  }

  /** Lists in node order are grouped. */
  lemma InOrderIsGrouped(targets: seq<string>, rels: seq<Relationship>)
    requires InNodeOrder(targets, rels)
    ensures Grouped(rels) && NamesOnly(rels, targets)
  {
    forall i, j, k | 0 <= i < j < k < |rels| && rels[i].targetName == rels[k].targetName
      ensures rels[j].targetName == rels[i].targetName
    {
      PositionIs(targets, rels[i].targetName);
      PositionIs(targets, rels[j].targetName);
    }
  }

  lemma {:induction false} MergedInOrder(targets: seq<string>, current: seq<Relationship>, added: seq<Relationship>)
    requires Distinct(targets)
    ensures InNodeOrder(targets, Merged(targets, current, added))
  {
    if targets != [] {
      var y, front := targets[|targets| - 1], targets[..|targets| - 1];
      MergedInOrder(front, current, added);
      var before, here := Merged(front, current, added), LastRun(current, y) + LastRun(added, y);
      LastRunWithinOf(current, y);
      LastRunWithinOf(added, y);
      assert Merged(targets, current, added) == before + here;
      forall i | 0 <= i < |before| ensures before[i].targetName in targets && Position(targets, before[i].targetName) < |front| {
        PositionIs(front, before[i].targetName);
        assert front[Position(front, before[i].targetName)] == before[i].targetName;
        assert targets[Position(front, before[i].targetName)] == before[i].targetName;
      }
      forall i | 0 <= i < |here| ensures here[i].targetName == y {
        assert here[i] in here;
      }
    }
  }

  lemma {:induction false} WithoutInOrder(targets: seq<string>, rels: seq<Relationship>, removed: set<string>)
    requires InNodeOrder(targets, rels)
    ensures InNodeOrder(targets, Without(rels, removed))
    ensures forall r :: r in Without(rels, removed) <==> r in rels && r.targetId !in removed
  {
    if rels != [] {
      var front := rels[..|rels| - 1];
      WithoutInOrder(targets, front, removed);
      assert rels == front + [rels[|rels| - 1]];
      var kept := Without(front, removed);
      forall i | 0 <= i < |kept|
        ensures Position(targets, kept[i].targetName) <= Position(targets, rels[|rels| - 1].targetName)
      {
        assert kept[i] in front;
      }
    }
  }
}
