/**
  The instances that a deployment modification leaves behind, read off its plan: which ones there are, and which
  relationships each of them has. The conditions under which a start or a finish goes through are exact.
 */
module Scaling {
  import opened Options
  import opened InstanceRelationships
  import opened Modification

  function TargetsOf(s: State): map<string, seq<string>> {
    map n | n in s.nodes :: s.nodes[n].targets
  }

  // ----- relationships of one instance -----

  /** The relationships of instance `id` after the changes that extend it, in their order. */
  function Extended(targets: map<string, seq<string>>, changes: seq<Change>, id: string, rels: seq<Relationship>): seq<Relationship> {
    if changes == [] then rels
    else
      var c, r := changes[|changes| - 1], Extended(targets, changes[..|changes| - 1], id, rels);
      if c.id == id && c.kind != Added && c.node in targets then Merged(targets[c.node], r, c.relationships) else r
  }

  /** The relationships of instance `id` after the changes that reduce it: those that no change takes away. */
  function Reduced(changes: seq<Change>, id: string, rels: seq<Relationship>): seq<Relationship> {
    if changes == [] then rels
    else
      var c, r := changes[|changes| - 1], Reduced(changes[..|changes| - 1], id, rels);
      if c.id == id then Without(r, TargetIds(c.relationships)) else r
  }

  ghost predicate Names(changes: seq<Change>, id: string) {
    exists k: nat :: k < |changes| && changes[k].id == id
  }

  ghost predicate Extends(changes: seq<Change>, id: string) {
    exists k: nat :: k < |changes| && changes[k].id == id && changes[k].kind != Added
  }

  ghost predicate Adds(changes: seq<Change>, id: string) {
    exists k: nat :: k < |changes| && changes[k].id == id && changes[k].kind == Added
  }

  ghost predicate Removes(changes: seq<Change>, id: string) {
    exists k: nat :: k < |changes| && changes[k].id == id && changes[k].kind == Removed
  }

  /** The only change that extends its instance. */
  ghost predicate AloneExtends(changes: seq<Change>, k: nat) {
    && k < |changes| && changes[k].kind != Added
    && forall j: nat :: j < |changes| && changes[j].kind != Added && changes[j].id == changes[k].id ==> j == k
  }

  lemma {:induction false} ExtendedByNone(targets: map<string, seq<string>>, changes: seq<Change>, id: string, rels: seq<Relationship>)
    requires !Extends(changes, id)
    ensures Extended(targets, changes, id, rels) == rels
  {
    if changes != [] {
      var front := changes[..|changes| - 1];
      forall k: nat | k < |front| ensures front[k] == changes[k] {}
      ExtendedByNone(targets, front, id, rels);
    }
  }

  /** One change: its relationships are merged into those of its instance. */
  lemma {:induction false} ExtendedByOne(targets: map<string, seq<string>>, changes: seq<Change>, k: nat, rels: seq<Relationship>)
    requires AloneExtends(changes, k) && changes[k].node in targets
    ensures Extended(targets, changes, changes[k].id, rels) == Merged(targets[changes[k].node], rels, changes[k].relationships)
  {
    var front := changes[..|changes| - 1];
    forall j: nat | j < |front| ensures front[j] == changes[j] {}
    if k == |changes| - 1 {
      ExtendedByNone(targets, front, changes[k].id, rels);
    } else {
      ExtendedByOne(targets, front, k, rels);
    }
  }

  /** Some change takes the relationship away from the instance. */
  ghost predicate TakesAway(changes: seq<Change>, id: string, r: Relationship) {
    exists k: nat :: k < |changes| && changes[k].id == id && r.targetId in TargetIds(changes[k].relationships)
  }

  lemma {:induction false} WithoutCounts(rels: seq<Relationship>, removed: set<string>, r: Relationship)
    ensures multiset(Without(rels, removed))[r] == if r.targetId in removed then 0 else multiset(rels)[r]
  {
    if rels != [] {
      WithoutCounts(rels[..|rels| - 1], removed, r);
      assert rels == rels[..|rels| - 1] + [rels[|rels| - 1]];
    }
  }

  /** What no change takes away stays as often as it was; what one does is gone. */
  lemma {:induction false} ReducedCounts(changes: seq<Change>, id: string, rels: seq<Relationship>, r: Relationship)
    ensures multiset(Reduced(changes, id, rels))[r] == if TakesAway(changes, id, r) then 0 else multiset(rels)[r]
  {
    if changes != [] {
      var front, c := changes[..|changes| - 1], changes[|changes| - 1];
      ReducedCounts(front, id, rels, r);
      forall k: nat | k < |front| ensures front[k] == changes[k] {}
      assert TakesAway(changes, id, r) <==> TakesAway(front, id, r) || (c.id == id && r.targetId in TargetIds(c.relationships));
      WithoutCounts(Reduced(front, id, rels), TargetIds(c.relationships), r);
    }
  }

  /** `some` has entries of `all`, in their order. */
  ghost predicate IsPart(some: seq<Relationship>, all: seq<Relationship>, picks: seq<nat>) {
    && |picks| == |some|
    && (forall k :: 0 <= k < |picks| ==> picks[k] < |all| && some[k] == all[picks[k]])
    && forall j, k :: 0 <= j < k < |picks| ==> picks[j] < picks[k]
  }

  lemma {:induction false} WithoutIsPart(rels: seq<Relationship>, removed: set<string>) returns (picks: seq<nat>)
    ensures IsPart(Without(rels, removed), rels, picks)
  {
    if rels == [] {
      picks := [];
    } else {
      var n := |rels| - 1;
      picks := WithoutIsPart(rels[..n], removed);
      picks := PartOneMore(Without(rels[..n], removed), rels, n, picks, rels[n].targetId !in removed);
    }
  }

  lemma PartOneMore(some: seq<Relationship>, all: seq<Relationship>, n: nat, picks: seq<nat>, kept: bool) returns (more: seq<nat>)
    requires |all| == n + 1 && IsPart(some, all[..n], picks)
    ensures IsPart(some + if kept then [all[n]] else [], all, more)
  {
    more := picks + if kept then [n] else [];
  }

  lemma PartOfPart(a: seq<Relationship>, b: seq<Relationship>, c: seq<Relationship>, ab: seq<nat>, bc: seq<nat>)
    returns (ac: seq<nat>)
    requires IsPart(a, b, ab) && IsPart(b, c, bc)
    ensures IsPart(a, c, ac)
  {
    ac := seq(|ab|, k requires 0 <= k < |ab| => bc[ab[k]]);
  }

  lemma {:induction false} ReducedIsPart(changes: seq<Change>, id: string, rels: seq<Relationship>) returns (picks: seq<nat>)
    ensures IsPart(Reduced(changes, id, rels), rels, picks)
  {
    if changes == [] {
      picks := seq(|rels|, k requires 0 <= k < |rels| => k);
    } else {
      var front, c := changes[..|changes| - 1], changes[|changes| - 1];
      picks := ReducedIsPart(front, id, rels);
      if c.id == id {
        var kept := WithoutIsPart(Reduced(front, id, rels), TargetIds(c.relationships));
        picks := PartOfPart(Reduced(changes, id, rels), Reduced(front, id, rels), rels, kept, picks);
      }
    }
  }

  // ----- the phases -----

  ghost predicate CanExtend(s: State, changes: seq<Change>) {
    forall k: nat :: k < |changes| && changes[k].kind != Added ==> changes[k].node in s.nodes && changes[k].id in s.instances
  }

  /** Every new instance has its node, and an identifier of its own. */
  ghost predicate CanCreate(s: State, changes: seq<Change>) {
    && NodesOfNew(s, changes)
    && (forall k: nat :: k < |changes| && changes[k].kind == Added ==> changes[k].id !in s.instances)
    && forall j: nat, k: nat :: j < k < |changes| && changes[j].kind == Added && changes[k].kind == Added ==>
         changes[j].id != changes[k].id
  }

  /** Every instance of the plan exists, and is not named again once it is removed. */
  ghost predicate CanReduce(s: State, changes: seq<Change>) {
    && (forall k: nat :: k < |changes| ==> changes[k].id in s.instances)
    && forall j: nat, k: nat :: j < k < |changes| && changes[j].kind == Removed ==> changes[j].id != changes[k].id
  }

  ghost predicate IsExtended(s: State, changes: seq<Change>, r: map<string, Instance>) {
    && r.Keys == s.instances.Keys
    && forall id :: id in r ==> r[id] == s.instances[id].(
         relationships := Extended(TargetsOf(s), changes, id, s.instances[id].relationships))
  }

  /** The instance of the change is stored as planned. */
  ghost predicate IsMade(c: Change, r: map<string, Instance>) {
    c.id in r && r[c.id] == Instance(c.node, c.relationships, c.attributes)
  }

  ghost predicate IsCreated(s: State, changes: seq<Change>, r: map<string, Instance>) {
    && (forall id :: id in r <==> id in s.instances || Adds(changes, id))
    && (forall id :: id in s.instances ==> id in r && r[id] == s.instances[id])
    && forall k: nat :: k < |changes| && changes[k].kind == Added ==> IsMade(changes[k], r)
  }

  ghost predicate IsReduced(s: State, changes: seq<Change>, r: map<string, Instance>) {
    && (forall id :: id in r <==> id in s.instances && !Removes(changes, id))
    && forall id :: id in r && id in s.instances ==>
         r[id] == s.instances[id].(relationships := Reduced(changes, id, s.instances[id].relationships))
  }

  lemma {:induction false} ExtendAllIff(s: State, changes: seq<Change>)
    ensures All(Extending, s, changes).Done? <==> CanExtend(s, changes)
    ensures All(Extending, s, changes).Done? ==> IsExtended(s, changes, All(Extending, s, changes).state.instances)
  {
    if changes != [] {
      var front, c := changes[..|changes| - 1], changes[|changes| - 1];
      ExtendAllIff(s, front);
      AllKeepsCounts(Extending, s, front);
      forall k: nat | k < |front| ensures front[k] == changes[k] {}
      assert CanExtend(s, changes) <==> CanExtend(s, front) && (c.kind != Added ==> c.node in s.nodes && c.id in s.instances);
    }
  }

  lemma AddsOneMore(changes: seq<Change>, front: seq<Change>, c: Change, id: string)
    requires changes == front + [c]
    ensures Adds(changes, id) <==> Adds(front, id) || (c.id == id && c.kind == Added)
  {
    if k: nat :| k < |front| && front[k].id == id && front[k].kind == Added {
      assert changes[k] == front[k];
    }
    assert changes[|front|] == c;
  }

  /** Creating one instance after the others: none of them has its identifier yet. */
  ghost predicate CreatesSoFar(s: State, changes: seq<Change>) {
    && (forall k: nat :: k < |changes| && changes[k].kind == Added ==> changes[k].node in s.nodes && changes[k].id !in s.instances)
    && forall j: nat, k: nat :: j < k < |changes| && changes[j].kind == Added && changes[k].kind == Added ==>
         changes[j].id != changes[k].id
  }

  lemma CreatesOneMore(s: State, changes: seq<Change>, front: seq<Change>, c: Change)
    requires changes == front + [c]
    ensures CreatesSoFar(s, changes) <==>
      CreatesSoFar(s, front) && (c.kind == Added ==> c.node in s.nodes && c.id !in s.instances && !Adds(front, c.id))
  {
    forall k: nat | k < |front| ensures front[k] == changes[k] {}
    assert changes[|front|] == c;
  }

  lemma {:induction false} CreateAllSoFar(s: State, changes: seq<Change>)
    ensures All(Creating, s, changes).Done? <==> CreatesSoFar(s, changes)
    ensures All(Creating, s, changes).Done? ==> IsCreated(s, changes, All(Creating, s, changes).state.instances)
  {
    if changes != [] {
      var front, c := changes[..|changes| - 1], changes[|changes| - 1];
      CreateAllSoFar(s, front);
      AllKeepsCounts(Creating, s, front);
      assert changes == front + [c];
      CreatesOneMore(s, changes, front, c);
      if All(Creating, s, changes).Done? {
        CreatedOneMore(s, changes, front, c, All(Creating, s, front).state);
      }
    }
  }

  lemma CreatedOneMore(s: State, changes: seq<Change>, front: seq<Change>, c: Change, r: State)
    requires changes == front + [c] && IsCreated(s, front, r.instances) && Create(r, c).Some?
    ensures IsCreated(s, changes, Create(r, c).value.instances)
  {
    forall id { AddsOneMore(changes, front, c, id); }
    forall k: nat | k < |front| ensures front[k] == changes[k] {}
  }

  lemma CreateAllIff(s: State, changes: seq<Change>)
    ensures CreateAll(s, changes).Done? <==> CanCreate(s, changes)
    ensures CreateAll(s, changes).Done? ==> IsCreated(s, changes, CreateAll(s, changes).state.instances)
  {
    CreateAllSoFar(s, changes);
  }

  lemma RemovesOneMore(changes: seq<Change>, front: seq<Change>, c: Change, id: string)
    requires changes == front + [c]
    ensures Removes(changes, id) <==> Removes(front, id) || (c.id == id && c.kind == Removed)
  {
    if k: nat :| k < |front| && front[k].id == id && front[k].kind == Removed {
      assert changes[k] == front[k];
    }
    assert changes[|front|] == c;
  }

  lemma ReducesOneMore(s: State, changes: seq<Change>, front: seq<Change>, c: Change)
    requires changes == front + [c]
    ensures CanReduce(s, changes) <==> CanReduce(s, front) && c.id in s.instances && !Removes(front, c.id)
  {
    forall k: nat | k < |front| ensures front[k] == changes[k] {}
    assert changes[|front|] == c;
  }

  lemma ReducedOneMore(s: State, changes: seq<Change>, front: seq<Change>, c: Change, r: State)
    requires changes == front + [c] && IsReduced(s, front, r.instances) && Reduce(r, c).Some?
    ensures IsReduced(s, changes, Reduce(r, c).value.instances)
  {
    forall id { RemovesOneMore(changes, front, c, id); }
    assert changes[..|changes| - 1] == front;
  }

  lemma {:induction false} ReduceAllIff(s: State, changes: seq<Change>)
    ensures All(Reducing, s, changes).Done? <==> CanReduce(s, changes)
    ensures All(Reducing, s, changes).Done? ==> IsReduced(s, changes, All(Reducing, s, changes).state.instances)
  {
    if changes != [] {
      var front, c := changes[..|changes| - 1], changes[|changes| - 1];
      ReduceAllIff(s, front);
      assert changes == front + [c];
      ReducesOneMore(s, changes, front, c);
      if All(Reducing, s, changes).Done? {
        ReducedOneMore(s, changes, front, c, All(Reducing, s, front).state);
      }
    }
  }

  // ----- the requests -----

  /** What a start needs: no other modification, known names, and the nodes and instances of its plan. */
  ghost predicate CanStart(s: State, id: string, modified: map<string, nat>, added: seq<Change>) {
    && !AnyStarted(s) && id !in s.modifications && KnownNames(s, modified.Keys)
    && CanExtend(s, added) && CanCreate(s, added)
  }

  /** The instances after a start: every planned one is new as planned, and the others only get relationships. */
  ghost predicate ScaledOut(s: State, added: seq<Change>, r: map<string, Instance>) {
    && (forall id :: id in r <==> id in s.instances || Adds(added, id))
    && (forall k: nat :: k < |added| && added[k].kind == Added ==> IsMade(added[k], r))
    && (forall id :: id in s.instances && id in r ==>
          r[id] == s.instances[id].(relationships := Extended(TargetsOf(s), added, id, s.instances[id].relationships)))
  }

  lemma StartIff(s: State, id: string, modified: Dict<nat>, listed: seq<string>, added: seq<Change>, removed: seq<Change>)
    requires Listing(listed, s.instances).Valid()
    ensures Start(s, id, modified, listed, added, removed).Done? <==> CanStart(s, id, modified.items, added)
    ensures Start(s, id, modified, listed, added, removed).Done? ==>
      ScaledOut(s, added, Start(s, id, modified, listed, added, removed).state.instances)
  {
    if !AnyStarted(s) && id !in s.modifications {
      var begun := Begun(s, id, modified, listed, removed);
      var written := SetCountsIff(begun, Planned, modified);
      var planned := SetCounts(begun, Planned, modified).state;
      assert planned.instances == s.instances;
      PlannedIff(s, planned, added);
    }
  }

  /** Both phases of a start, after the counts are written. */
  lemma PlannedIff(s: State, planned: State, added: seq<Change>)
    requires planned.instances == s.instances && planned.nodes.Keys == s.nodes.Keys
    requires forall n :: n in s.nodes ==> planned.nodes[n].targets == s.nodes[n].targets
    ensures var extended := All(Extending, planned, added);
            && (extended.Done? <==> CanExtend(s, added))
            && (extended.Done? ==> (CreateAll(extended.state, added).Done? <==> CanCreate(s, added)))
            && (extended.Done? && CreateAll(extended.state, added).Done? ==>
                  ScaledOut(s, added, CreateAll(extended.state, added).state.instances))
  {
    var extended := All(Extending, planned, added).state;
    ExtendAllIff(planned, added);
    AllKeepsCounts(Extending, planned, added);
    assert CanExtend(planned, added) <==> CanExtend(s, added);
    if CanExtend(s, added) {
      CreateAllIff(extended, added);
      assert CanCreate(extended, added) <==> CanCreate(s, added);
      assert TargetsOf(planned) == TargetsOf(s);
      if CanCreate(s, added) {
        CreatedFromExtended(s, planned, added, extended, CreateAll(extended, added).state.instances);
      }
    }
  }

  lemma CreatedFromExtended(s: State, planned: State, added: seq<Change>, extended: State, r: map<string, Instance>)
    requires planned.instances == s.instances && TargetsOf(planned) == TargetsOf(s)
    requires IsExtended(planned, added, extended.instances) && IsCreated(extended, added, r)
    ensures ScaledOut(s, added, r)
  {
  }

  /** A start changes no instance but those that it extends; one that a single change extends has both lists merged. */
  lemma StartExtends(s: State, id: string, modified: Dict<nat>, listed: seq<string>, added: seq<Change>, removed: seq<Change>)
    requires Listing(listed, s.instances).Valid() && Start(s, id, modified, listed, added, removed).Done?
    ensures var r := Start(s, id, modified, listed, added, removed).state.instances;
            && (forall i :: i in s.instances && !Extends(added, i) ==> i in r && r[i] == s.instances[i])
            && forall k: nat :: AloneExtends(added, k) ==>
                 var i, node := added[k].id, added[k].node;
                 && i in r && i in s.instances && node in s.nodes
                 && r[i] == s.instances[i].(
                      relationships := Merged(s.nodes[node].targets, s.instances[i].relationships, added[k].relationships))
  {
    StartIff(s, id, modified, listed, added, removed);
    var r := Start(s, id, modified, listed, added, removed).state.instances;
    forall i | i in s.instances && !Extends(added, i) ensures i in r && r[i] == s.instances[i] {
      ExtendedByNone(TargetsOf(s), added, i, s.instances[i].relationships);
    }
    forall k: nat | AloneExtends(added, k) {
      ExtendedByOne(TargetsOf(s), added, k, s.instances[added[k].id].relationships);
    }
  }

  /** What a finish needs: the modification is started, its names are known, and its instances exist. */
  ghost predicate CanFinish(s: State, id: string) {
    && IsStarted(s, id) && KnownNames(s, s.modifications[id].modified.items.Keys)
    && CanReduce(s, s.modifications[id].removedAndRelated)
  }

  /** The instances after a finish: the removed ones are gone, and the others lose what the plan takes away. */
  ghost predicate ScaledIn(s: State, changes: seq<Change>, r: map<string, Instance>) {
    && (forall id :: id in r <==> id in s.instances && !Removes(changes, id))
    && (forall id :: id in r && id in s.instances && !Names(changes, id) ==> r[id] == s.instances[id])
    && forall id :: id in r && id in s.instances ==>
         && r[id] == s.instances[id].(relationships := r[id].relationships)
         && Keeps(changes, id, s.instances[id].relationships, r[id].relationships)
  }

  /** Exactly what no change takes away is kept, as often as it was and in its order. */
  ghost predicate Keeps(changes: seq<Change>, id: string, before: seq<Relationship>, after: seq<Relationship>) {
    && (forall e :: multiset(after)[e] == if TakesAway(changes, id, e) then 0 else multiset(before)[e])
    && exists picks :: IsPart(after, before, picks)
  }

  lemma FinishIff(s: State, id: string)
    ensures Finish(s, id).Done? <==> CanFinish(s, id)
    ensures Finish(s, id).Done? ==> ScaledIn(s, s.modifications[id].removedAndRelated, Finish(s, id).state.instances)
  {
    if IsStarted(s, id) {
      var m := s.modifications[id];
      var written := SetCountsIff(s, Current, m.modified);
      var counted := SetCounts(s, Current, m.modified).state;
      ReduceAllIff(counted, m.removedAndRelated);
      forall i | i in s.instances
        ensures Keeps(m.removedAndRelated, i, s.instances[i].relationships,
                      Reduced(m.removedAndRelated, i, s.instances[i].relationships))
        ensures !Names(m.removedAndRelated, i) ==>
          Reduced(m.removedAndRelated, i, s.instances[i].relationships) == s.instances[i].relationships
      {
        ReducedKeeps(m.removedAndRelated, i, s.instances[i].relationships);
        if !Names(m.removedAndRelated, i) {
          ReducedByNone(m.removedAndRelated, i, s.instances[i].relationships);
        }
      }
    }
  }

  lemma ReducedKeeps(changes: seq<Change>, id: string, rels: seq<Relationship>)
    ensures Keeps(changes, id, rels, Reduced(changes, id, rels))
  {
    forall e { ReducedCounts(changes, id, rels, e); }
    var picks := ReducedIsPart(changes, id, rels);
  }

  lemma {:induction false} ReducedByNone(changes: seq<Change>, id: string, rels: seq<Relationship>)
    requires !Names(changes, id)
    ensures Reduced(changes, id, rels) == rels
  {
    if changes != [] {
      var front := changes[..|changes| - 1];
      forall k: nat | k < |front| ensures front[k] == changes[k] {}
      ReducedByNone(front, id, rels);
    }
  }

  // ----- counts and modifications -----

  /** A name is counted once: as a group, or else as a node. */
  predicate CountsNode(s: State, counts: map<string, nat>, n: string) {
    n in counts && n !in s.groups
  }

  /** Only counts differ, and only of the listed names. */
  ghost predicate OnlyCounts(s: State, counts: map<string, nat>, r: State) {
    && r.groups.Keys == s.groups.Keys && r.nodes.Keys == s.nodes.Keys
    && (forall g :: g in s.groups && g !in counts ==> r.groups[g] == s.groups[g])
    && (forall n :: n in s.nodes && !CountsNode(s, counts, n) ==> r.nodes[n] == s.nodes[n])
    && (forall n :: n in s.nodes ==> r.nodes[n].targets == s.nodes[n].targets)
  }

  /** A start that goes through writes the planned counts, and stores the modification with a copy of the instances. */
  lemma StartWrites(s: State, id: string, modified: Dict<nat>, listed: seq<string>, added: seq<Change>, removed: seq<Change>)
    requires Listing(listed, s.instances).Valid() && Start(s, id, modified, listed, added, removed).Done?
    ensures var r, counts := Start(s, id, modified, listed, added, removed).state, modified.items;
            && OnlyCounts(s, counts, r)
            && (forall g :: g in s.groups && g in counts ==> r.groups[g] == Count(s.groups[g].current, counts[g]))
            && (forall n :: n in s.nodes && CountsNode(s, counts, n) ==>
                  r.nodes[n].count == Count(s.nodes[n].count.current, counts[n]))
            && r.modifications
            == s.modifications[id := Modification(Started, modified, removed, Listing(listed, s.instances))]
  {
    StartIff(s, id, modified, listed, added, removed);
    var written := StartLeaves(s, id, modified, listed, added, removed);
  }

  /** A finish that goes through writes the current counts, and ends the modification. */
  lemma FinishWrites(s: State, id: string)
    requires Finish(s, id).Done?
    ensures var r, counts := Finish(s, id).state, s.modifications[id].modified.items;
            && OnlyCounts(s, counts, r)
            && (forall g :: g in s.groups && g in counts ==> r.groups[g] == Count(counts[g], s.groups[g].planned))
            && (forall n :: n in s.nodes && CountsNode(s, counts, n) ==>
                  r.nodes[n].count == Count(counts[n], s.nodes[n].count.planned))
            && r.modifications == s.modifications[id := s.modifications[id].(status := Finished)]
  {
    var written := FinishLeaves(s, id);
  }

  /** A rollback that goes through takes the planned counts back, and ends the modification. */
  lemma RollbackWrites(s: State, id: string)
    requires Rollback(s, id).Done?
    ensures var r, counts := Rollback(s, id).state, s.modifications[id].modified.items;
            && OnlyCounts(s, counts, r)
            && (forall g :: g in s.groups && g in counts ==> r.groups[g] == Count(s.groups[g].current, s.groups[g].current))
            && (forall n :: n in s.nodes && CountsNode(s, counts, n) ==>
                  r.nodes[n].count == Count(s.nodes[n].count.current, s.nodes[n].count.current))
            && r.modifications == s.modifications[id := s.modifications[id].(status := RolledBack)]
  {
    var written := RollbackLeaves(s, id);
  }

  // ----- what stays of a request that raises -----

  /** Changes that raise have been made up to the first that fails, and are kept. */
  lemma {:induction false} ChangesStopAtFirst(phase: Phase, s: State, changes: seq<Change>) returns (k: nat)
    requires All(phase, s, changes).Raised?
    ensures k < |changes| && All(phase, s, changes[..k]) == Done(All(phase, s, changes).state)
    ensures One(phase, All(phase, s, changes).state, changes[k]) == None
  {
    var n := |changes| - 1;
    if All(phase, s, changes[..n]).Raised? {
      k := ChangesStopAtFirst(phase, s, changes[..n]);
      assert changes[..n][..k] == changes[..k];
    } else {
      k := n;
    }
  }

  /** The same for instances that are restored. */
  lemma {:induction false} RestoringStopsAtFirst(s: State, before: Dict<Instance>, n: nat) returns (k: nat)
    requires n <= |before.order| && RestoreUpTo(s, before, n).Raised?
    ensures k < n && RestoreUpTo(s, before, k) == Done(RestoreUpTo(s, before, n).state)
    ensures RestoreOne(RestoreUpTo(s, before, n).state, before.order[k], before.items[before.order[k]]) == None
  {
    if RestoreUpTo(s, before, n - 1).Raised? {
      k := RestoringStopsAtFirst(s, before, n - 1);
    } else {
      k := n - 1;
    }
  }

  function NamesUpTo(names: seq<string>, n: nat): set<string>
    requires n <= |names|
  {
    set i: nat | i < n :: names[i]
  }

  /** Name `k` is the first that is unknown; `m` is the number of names up to the last node before it. */
  predicate StopsAt(s: State, names: seq<string>, m: nat, k: nat) {
    && m <= k < |names| && names[k] !in s.groups && names[k] !in s.nodes
    && (forall i: nat :: i < k ==> names[i] in s.groups || names[i] in s.nodes)
    && (m > 0 ==> names[m - 1] !in s.groups)
    && forall i: nat :: m <= i < k ==> names[i] in s.groups
  }

  /** One more name: a group is only changed in the session, a node stores the session. */
  lemma WriteNext(field: Field, counts: Dict<nat>, i: nat, stored: State, session: State, next: State)
    requires i < |counts.order| && WriteOne(session, field, counts.order[i], counts.items[counts.order[i]]) == Some(next)
    ensures Write(field, counts.items, counts.order[i..], stored, session)
         == Write(field, counts.items, counts.order[i + 1..], if counts.order[i] in session.groups then stored else next, next)
  {
    assert counts.order[i..][1..] == counts.order[i + 1..];
  }

  /** The rows with the counts of the first `n` names. */
  function Upto(s: State, field: Field, counts: Dict<nat>, n: nat): State
    requires n <= |counts.order|
  {
    WithCounts(s, field, Part(counts.items, NamesUpTo(counts.order, n)))
  }

  lemma UptoNext(s: State, field: Field, counts: Dict<nat>, i: nat, more: nat, session: State)
    requires more == i + 1 <= |counts.order| && session == Upto(s, field, counts, i)
    requires counts.order[i] in s.groups || counts.order[i] in s.nodes
    ensures WriteOne(session, field, counts.order[i], counts.items[counts.order[i]]) == Some(Upto(s, field, counts, more))
    ensures session.groups.Keys == s.groups.Keys
  {
    var name := counts.order[i];
    SameNames(s, field, Part(counts.items, NamesUpTo(counts.order, i)));
    var next := WriteStep(s, field, counts.items, NamesUpTo(counts.order, i), session, name);
    assert NamesUpTo(counts.order, i) + {name} == NamesUpTo(counts.order, more);
  }

  lemma {:induction false} WriteStopsAt(s: State, field: Field, counts: Dict<nat>, k: nat, i: nat, stored: State, session: State)
    requires i <= k < |counts.order| && counts.order[k] !in s.groups && counts.order[k] !in s.nodes
    requires forall j: nat :: j < k ==> counts.order[j] in s.groups || counts.order[j] in s.nodes
    requires stored == Upto(s, field, counts, LastNode(s, counts.order, i)) && session == Upto(s, field, counts, i)
    ensures Write(field, counts.items, counts.order[i..], stored, session)
         == Raised(Upto(s, field, counts, LastNode(s, counts.order, k)))
    decreases k - i
  {
    if i < k {
      UptoNext(s, field, counts, i, i + 1, session);
      var next := Upto(s, field, counts, i + 1);
      WriteNext(field, counts, i, stored, session, next);
      WriteStopsAt(s, field, counts, k, i + 1, if counts.order[i] in s.groups then stored else next, next);
    } else {
      SameNames(s, field, Part(counts.items, NamesUpTo(counts.order, i)));
    }
  }

  /** The number of names up to the last node among the first `n`. */
  function LastNode(s: State, names: seq<string>, n: nat): (r: nat)
    requires n <= |names|
    ensures r <= n
  {
    if n == 0 then 0 else if names[n - 1] in s.groups then LastNode(s, names, n - 1) else n
  }

  lemma {:induction false} LastNodeBefore(s: State, names: seq<string>, m: nat, n: nat)
    requires m <= n <= |names| && (m > 0 ==> names[m - 1] !in s.groups) && forall i: nat :: m <= i < n ==> names[i] in s.groups
    ensures LastNode(s, names, n) == m
    decreases n
  {
    if n > m {
      LastNodeBefore(s, names, m, n - 1);
    }
  }

  /**
    What is stored when the counts raise, exactly: those of the names up to the last node before the unknown one.
    A group is stored with the next node, so groups in between are lost.
   */
  lemma SetCountsStopsAt(s: State, field: Field, counts: Dict<nat>, m: nat, k: nat)
    requires StopsAt(s, counts.order, m, k)
    ensures SetCounts(s, field, counts) == Raised(WithCounts(s, field, Part(counts.items, NamesUpTo(counts.order, m))))
  {
    NothingWritten(s, field);
    assert NamesUpTo(counts.order, 0) == {} && Part(counts.items, {}) == map[];
    assert counts.order[0..] == counts.order;
    WriteStopsAt(s, field, counts, k, 0, s, s);
    LastNodeBefore(s, counts.order, m, k);
  }
}
