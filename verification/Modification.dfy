/**
  The deployment modification protocol: start, finish and roll back, over the
  instance counts of nodes and scaling groups and over the node instances.
  Each write is stored on its own, so a request that raises leaves its first
  writes behind.
 */
module Modification {
  import opened Options
  import opened InstanceRelationships

  datatype Count = Count(current: nat, planned: nat)

  datatype NodeRow = NodeRow(count: Count, targets: seq<string>)

  /** `attributes` stands for everything else that can be set on an instance; its node cannot be set. */
  datatype Instance = Instance(node: string, relationships: seq<Relationship>, attributes: string)

  datatype Kind = Added | Removed | Related

  /** An entry of the plan of the modification, which a library computes. */
  datatype Change = Change(id: string, node: string, kind: Kind, relationships: seq<Relationship>, attributes: string)

  datatype Status = Started | Finished | RolledBack

  /** A dictionary, and the order in which it is walked. */
  datatype Listing<T> = Listing(order: seq<string>, items: map<string, T>) {
    predicate Valid() {
      (forall n :: n in order ==> n in items) && forall n :: n in items ==> n in order
    }
  }

  type Dict<T> = d: Listing<T> | d.Valid() witness Listing([], map[])

  datatype Modification = Modification(
    status: Status,
    modified: Dict<nat>,
    removedAndRelated: seq<Change>,
    before: Dict<Instance>)

  /** One deployment. */
  datatype State = State(
    nodes: map<string, NodeRow>,
    groups: map<string, Count>,
    instances: map<string, Instance>,
    modifications: map<string, Modification>)

  predicate AnyStarted(s: State) {
    exists m :: m in s.modifications && s.modifications[m].status == Started
  }

  /** What a request comes to: in both cases the rows that are stored afterwards. */
  datatype Outcome = Done(state: State) | Raised(state: State) {
    predicate IsFailure() { Raised? }

    function PropagateFailure(): Outcome
      requires Raised?
    {
      this
    }

    function Extract(): State
      requires Done?
    {
      state
    }
  }

  function AsOutcome(ok: bool, s: State): Outcome {
    if ok then Done(s) else Raised(s)
  }

  // ----- counts: a scaling group hides a node of the same name -----

  predicate KnownNames(s: State, names: set<string>) {
    forall n :: n in names ==> n in s.groups || n in s.nodes
  }

  /** Which count a request writes: the planned one, the current one, or the planned one from the current one. */
  datatype Field = Planned | Current | Undone

  function Written(field: Field, c: Count, n: nat): Count {
    match field
    case Planned => c.(planned := n)
    case Current => c.(current := n)
    case Undone => c.(planned := c.current)
  }

  function WithCounts(s: State, field: Field, modified: map<string, nat>): State {
    s.(groups := map g | g in s.groups :: if g in modified then Written(field, s.groups[g], modified[g]) else s.groups[g],
       nodes := map n | n in s.nodes ::
         if n in modified && n !in s.groups
         then s.nodes[n].(count := Written(field, s.nodes[n].count, modified[n])) else s.nodes[n])
  }

  function WriteOne(s: State, field: Field, name: string, n: nat): Option<State> {
    if name in s.groups then Some(s.(groups := s.groups[name := Written(field, s.groups[name], n)]))
    else if name in s.nodes then
      Some(s.(nodes := s.nodes[name := s.nodes[name].(count := Written(field, s.nodes[name].count, n))]))
    else None
  }

  lemma NothingWritten(s: State, field: Field)
    ensures WithCounts(s, field, map[]) == s
  {
    var r := WithCounts(s, field, map[]);
    assert r.groups == s.groups && r.nodes == s.nodes;
  }

  lemma GroupWrittenOneMore(s: State, field: Field, done: map<string, nat>, name: string, n: nat)
    requires name !in done && name in s.groups
    ensures WriteOne(WithCounts(s, field, done), field, name, n) == Some(WithCounts(s, field, done[name := n]))
  {
    var before, after := WithCounts(s, field, done), WithCounts(s, field, done[name := n]);
    assert after.groups == before.groups[name := Written(field, s.groups[name], n)];
    assert after.nodes == before.nodes;
  }

  lemma NodeWrittenOneMore(s: State, field: Field, done: map<string, nat>, name: string, n: nat)
    requires name !in done && name !in s.groups && name in s.nodes
    ensures WriteOne(WithCounts(s, field, done), field, name, n) == Some(WithCounts(s, field, done[name := n]))
  {
    var before, after := WithCounts(s, field, done), WithCounts(s, field, done[name := n]);
    assert after.groups == before.groups;
    assert after.nodes == before.nodes[name := s.nodes[name].(count := Written(field, s.nodes[name].count, n))];
  }

  lemma WrittenOneMore(s: State, field: Field, done: map<string, nat>, name: string, n: nat)
    requires name !in done && (name in s.groups || name in s.nodes)
    ensures WriteOne(WithCounts(s, field, done), field, name, n) == Some(WithCounts(s, field, done[name := n]))
  {
    if name in s.groups {
      GroupWrittenOneMore(s, field, done, name, n);
    } else {
      NodeWrittenOneMore(s, field, done, name, n);
    }
  }

  /**
    One name after the other. A group is changed in the session and stored with the next node, or at the end; a name
    that is neither a group nor a node raises, and what was not stored is lost.
   */
  function Write(field: Field, counts: map<string, nat>, names: seq<string>, stored: State, session: State): Outcome
    requires forall n :: n in names ==> n in counts
  {
    if names == [] then Done(session)
    else
      var next := WriteOne(session, field, names[0], counts[names[0]]);
      if next.None? then Raised(stored)
      else Write(field, counts, names[1..], if names[0] in session.groups then stored else next.value, next.value)
  }

  function SetCounts(s: State, field: Field, counts: Dict<nat>): Outcome {
    Write(field, counts.items, counts.order, s, s)
  }

  function Part(counts: map<string, nat>, names: set<string>): map<string, nat> {
    map n | n in names && n in counts :: counts[n]
  }

  lemma WrittenAgain(s: State, field: Field, counts: map<string, nat>, names: set<string>, name: string)
    requires name in counts && (name in s.groups || name in s.nodes)
    ensures WriteOne(WithCounts(s, field, Part(counts, names)), field, name, counts[name])
         == Some(WithCounts(s, field, Part(counts, names + {name})))
  {
    if name in names {
      var r := WithCounts(s, field, Part(counts, names));
      assert Part(counts, names + {name}) == Part(counts, names);
      assert r.groups == if name in s.groups then r.groups[name := Written(field, r.groups[name], counts[name])] else r.groups;
      if name !in s.groups {
        assert r.nodes == r.nodes[name := r.nodes[name].(count := Written(field, r.nodes[name].count, counts[name]))];
      }
    } else {
      WrittenOneMore(s, field, Part(counts, names), name, counts[name]);
      assert Part(counts, names)[name := counts[name]] == Part(counts, names + {name});
    }
  }

  lemma WriteStep(s: State, field: Field, counts: map<string, nat>, done: set<string>, session: State, name: string)
    returns (next: State)
    requires name in counts && (name in s.groups || name in s.nodes) && session == WithCounts(s, field, Part(counts, done))
    ensures WriteOne(session, field, name, counts[name]) == Some(next)
    ensures next == WithCounts(s, field, Part(counts, done + {name}))
  {
    WrittenAgain(s, field, counts, done, name);
    next := WithCounts(s, field, Part(counts, done + {name}));
  }

  lemma SameNames(s: State, field: Field, counts: map<string, nat>)
    ensures WithCounts(s, field, counts).groups.Keys == s.groups.Keys && WithCounts(s, field, counts).nodes.Keys == s.nodes.Keys
  {
  }

  /** What is stored has the new counts of some of the names; of all of them, if nothing raised. */
  lemma {:induction false} WriteGoesOn(s: State, field: Field, counts: map<string, nat>, names: seq<string>,
      kept: set<string>, done: set<string>, stored: State, session: State) returns (all: set<string>)
    requires forall n :: n in names ==> n in counts
    requires stored == WithCounts(s, field, Part(counts, kept)) && session == WithCounts(s, field, Part(counts, done))
    ensures var r := Write(field, counts, names, stored, session);
            && (r.Done? <==> forall n :: n in names ==> n in s.groups || n in s.nodes)
            && r.state == WithCounts(s, field, Part(counts, all))
            && (r.Done? ==> forall n :: n in all <==> n in done || n in names)
    decreases |names|
  {
    all := done;
    if names != [] {
      var name := names[0];
      SameNames(s, field, Part(counts, done));
      assert forall n :: n in names <==> n == name || n in names[1..];
      if name in s.groups || name in s.nodes {
        var next := WriteStep(s, field, counts, done, session, name);
        if name in s.groups {
          all := WriteGoesOn(s, field, counts, names[1..], kept, done + {name}, stored, next);
        } else {
          all := WriteGoesOn(s, field, counts, names[1..], done + {name}, done + {name}, next, next);
        }
      } else {
        all := kept;
      }
    }
  }

  /** Setting the counts raises exactly at an unknown name; it writes all counts, or those of some names. */
  lemma SetCountsIff(s: State, field: Field, counts: Dict<nat>) returns (written: map<string, nat>)
    ensures SetCounts(s, field, counts).Done? <==> KnownNames(s, counts.items.Keys)
    ensures SetCounts(s, field, counts).state == WithCounts(s, field, written)
    ensures SetCounts(s, field, counts).Done? ==> written == counts.items
  {
    NothingWritten(s, field);
    assert Part(counts.items, {}) == map[];
    var all := WriteGoesOn(s, field, counts.items, counts.order, {}, {}, s, s);
    written := Part(counts.items, all);
  }

  // ----- instances -----

  /** An instance that gets new relationships: they are merged in the order of the node. */
  function Extend(s: State, c: Change): Option<State> {
    if c.kind == Added then Some(s)
    else if c.node !in s.nodes || c.id !in s.instances then None
    else
      var rels := Merged(s.nodes[c.node].targets, s.instances[c.id].relationships, c.relationships);
      Some(s.(instances := s.instances[c.id := s.instances[c.id].(relationships := rels)]))
  }

  function Create(s: State, c: Change): Option<State> {
    if c.kind != Added then Some(s)
    else if c.node !in s.nodes || c.id in s.instances then None
    else Some(s.(instances := s.instances[c.id := Instance(c.node, c.relationships, c.attributes)]))
  }

  function TargetIds(rels: seq<Relationship>): set<string> {
    set r | r in rels :: r.targetId
  }

  function Reduce(s: State, c: Change): Option<State> {
    if c.id !in s.instances then None
    else if c.kind == Removed then Some(s.(instances := s.instances - {c.id}))
    else
      var rels := Without(s.instances[c.id].relationships, TargetIds(c.relationships));
      Some(s.(instances := s.instances[c.id := s.instances[c.id].(relationships := rels)]))
  }

  datatype Phase = Extending | Creating | Reducing

  function One(phase: Phase, s: State, c: Change): Option<State> {
    match phase
    case Extending => Extend(s, c)
    case Creating => Create(s, c)
    case Reducing => Reduce(s, c)
  }

  /** All changes in their order, each stored; the first that fails raises. */
  function All(phase: Phase, s: State, changes: seq<Change>): Outcome {
    if changes == [] then Done(s)
    else
      var before :- All(phase, s, changes[..|changes| - 1]);
      var next := One(phase, before, changes[|changes| - 1]);
      if next.None? then Raised(before) else Done(next.value)
  }

  /** The nodes of all new instances are looked up before any of them is stored. */
  predicate NodesOfNew(s: State, changes: seq<Change>) {
    forall k :: 0 <= k < |changes| && changes[k].kind == Added ==> changes[k].node in s.nodes
  }

  function CreateAll(s: State, changes: seq<Change>): Outcome {
    if NodesOfNew(s, changes) then All(Creating, s, changes) else Raised(s)
  }

  /** The instances as they were; one that exists again keeps its node, which cannot be set. */
  function Restored(current: map<string, Instance>, before: map<string, Instance>): map<string, Instance> {
    map id | id in before :: if id in current then before[id].(node := current[id].node) else before[id]
  }

  /** An instance that has to be created again needs its node. */
  predicate CanRestore(s: State, before: map<string, Instance>) {
    forall id :: id in before && id !in s.instances ==> before[id].node in s.nodes
  }

  function RestoreOne(s: State, id: string, before: Instance): Option<State> {
    if id in s.instances then Some(s.(instances := s.instances[id := before.(node := s.instances[id].node)]))
    else if before.node in s.nodes then Some(s.(instances := s.instances[id := before]))
    else None
  }

  /** The first `n` remembered instances, one by one. */
  function RestoreUpTo(s: State, before: Dict<Instance>, n: nat): Outcome
    requires n <= |before.order|
  {
    if n == 0 then Done(s)
    else
      var r :- RestoreUpTo(s, before, n - 1);
      var id := before.order[n - 1];
      var next := RestoreOne(r, id, before.items[id]);
      if next.None? then Raised(r) else Done(next.value)
  }

  function OnlyKnown(s: State, before: map<string, Instance>): State {
    s.(instances := map id | id in s.instances && id in before :: s.instances[id])
  }

  /** Instances that did not exist before are deleted first. */
  function RestoreAll(s: State, before: Dict<Instance>): Outcome {
    RestoreUpTo(OnlyKnown(s, before.items), before, |before.order|)
  }

  // ----- the three requests -----

  function WithStatus(s: State, id: string, status: Status): State
    requires id in s.modifications
  {
    s.(modifications := s.modifications[id := s.modifications[id].(status := status)])
  }

  /** The modification is stored first, together with a copy of all instances. */
  function Begun(s: State, id: string, modified: Dict<nat>, listed: seq<string>, removed: seq<Change>): State
    requires Listing(listed, s.instances).Valid()
  {
    s.(modifications := s.modifications[id := Modification(Started, modified, removed, Listing(listed, s.instances))])
  }

  function Start(s: State, id: string, modified: Dict<nat>, listed: seq<string>, added: seq<Change>, removed: seq<Change>): Outcome
    requires Listing(listed, s.instances).Valid()
  {
    if AnyStarted(s) || id in s.modifications then Raised(s)
    else
      var planned :- SetCounts(Begun(s, id, modified, listed, removed), Planned, modified);
      var extended :- All(Extending, planned, added);
      CreateAll(extended, added)
  }

  predicate IsStarted(s: State, m: string) {
    m in s.modifications && s.modifications[m].status == Started
  }

  function Finish(s: State, id: string): Outcome {
    if !IsStarted(s, id) then Raised(s)
    else
      var counted :- SetCounts(s, Current, s.modifications[id].modified);
      var reduced :- All(Reducing, counted, s.modifications[id].removedAndRelated);
      Done(reduced.(modifications := WithStatus(s, id, Finished).modifications))
  }

  function Rollback(s: State, id: string): Outcome {
    if !IsStarted(s, id) then Raised(s)
    else
      var restored :- RestoreAll(s, s.modifications[id].before);
      var counted :- SetCounts(restored, Undone, s.modifications[id].modified);
      Done(counted.(modifications := WithStatus(s, id, RolledBack).modifications))
  }

  /** The stored rows of one deployment. Every assignment to them is a commit, which nothing takes back. */
  class DeploymentRows {
    var nodes: map<string, NodeRow>
    var groups: map<string, Count>
    var instances: map<string, Instance>
    var modifications: map<string, Modification>

    function Rows(): State
      reads this
    {
      State(nodes, groups, instances, modifications)
    }

    constructor (s: State)
      ensures Rows() == s
    {
      nodes, groups, instances, modifications := s.nodes, s.groups, s.instances, s.modifications;
    }

    method Commit(s: State)
      modifies this
      ensures Rows() == s
    {
      nodes, groups, instances, modifications := s.nodes, s.groups, s.instances, s.modifications;
    }

    method WriteCounts(field: Field, counts: Dict<nat>) returns (ok: bool)
      modifies this
      ensures AsOutcome(ok, Rows()) == SetCounts(old(Rows()), field, counts)
    {
      var session, names := Rows(), counts.order;
      while names != []
        invariant forall n :: n in names ==> n in counts.items
        invariant Write(field, counts.items, names, Rows(), session) == SetCounts(old(Rows()), field, counts)
        decreases |names|
      {
        var name := names[0];
        var next := WriteOne(session, field, name, counts.items[name]);
        if next.None? {
          return false;
        }
        if name !in session.groups {
          Commit(next.value);
        }
        session, names := next.value, names[1..];
      }
      Commit(session);
      ok := true;
    }

    method ApplyAll(phase: Phase, changes: seq<Change>) returns (ok: bool)
      modifies this
      ensures AsOutcome(ok, Rows()) == All(phase, old(Rows()), changes)
    {
      for i := 0 to |changes|
        invariant All(phase, old(Rows()), changes[..i]) == Done(Rows())
      {
        assert changes[..i + 1][..i] == changes[..i];
        var next := One(phase, Rows(), changes[i]);
        if next.None? {
          AllStopsAt(phase, old(Rows()), changes, i + 1);
          return false;
        }
        Commit(next.value);
      }
      assert changes[..|changes|] == changes;
      ok := true;
    }

    /** Deletes the instances that did not exist before, and restores or creates again the others. */
    method RestoreInstances(before: Dict<Instance>) returns (ok: bool)
      modifies this
      ensures AsOutcome(ok, Rows()) == RestoreAll(old(Rows()), before)
    {
      Commit(OnlyKnown(Rows(), before.items));
      ghost var known := Rows();
      for i := 0 to |before.order|
        invariant RestoreUpTo(known, before, i) == Done(Rows())
      {
        var id := before.order[i];
        var next := RestoreOne(Rows(), id, before.items[id]);
        if next.None? {
          RestoreStopsAt(known, before, i + 1, |before.order|);
          return false;
        }
        Commit(next.value);
      }
      ok := true;
    }

    method StartModification(id: string, modified: Dict<nat>, listed: seq<string>, added: seq<Change>, removed: seq<Change>)
      returns (ok: bool)
      requires id !in modifications && Listing(listed, instances).Valid()
      modifies this
      ensures AsOutcome(ok, Rows()) == Start(old(Rows()), id, modified, listed, added, removed)
    {
      if AnyStarted(Rows()) {
        return false;
      }
      Commit(Begun(Rows(), id, modified, listed, removed));
      ok := WriteCounts(Planned, modified);
      if ok {
        ok := ApplyAll(Extending, added);
      }
      if ok {
        ok := NodesOfNew(Rows(), added);
        if ok {
          ok := ApplyAll(Creating, added);
        }
      }
    }

    method FinishModification(id: string) returns (ok: bool)
      modifies this
      ensures AsOutcome(ok, Rows()) == Finish(old(Rows()), id)
    {
      if !IsStarted(Rows(), id) {
        return false;
      }
      var m := modifications[id];
      ok := WriteCounts(Current, m.modified);
      if ok {
        ok := ApplyAll(Reducing, m.removedAndRelated);
      }
      if ok {
        RowsKeepModifications(old(Rows()), Current, m.modified, m.removedAndRelated);
        Commit(WithStatus(Rows(), id, Finished));
      }
    }

    method RollbackModification(id: string) returns (ok: bool)
      modifies this
      ensures AsOutcome(ok, Rows()) == Rollback(old(Rows()), id)
    {
      if !IsStarted(Rows(), id) {
        return false;
      }
      var m := modifications[id];
      ok := RestoreInstances(m.before);
      if ok {
        RestoringKeepsCounts(old(Rows()), m.before);
        ok := WriteCounts(Undone, m.modified);
      }
      if ok {
        var written := SetCountsIff(RestoreAll(old(Rows()), m.before).state, Undone, m.modified);
        Commit(WithStatus(Rows(), id, RolledBack));
      }
    }
  }

  lemma {:induction false} AllStopsAt(phase: Phase, s: State, changes: seq<Change>, n: nat)
    requires n <= |changes| && All(phase, s, changes[..n]).Raised?
    ensures All(phase, s, changes) == All(phase, s, changes[..n])
    decreases |changes| - n
  {
    if n < |changes| {
      assert changes[..n + 1][..n] == changes[..n];
      AllStopsAt(phase, s, changes, n + 1);
    } else {
      assert changes[..n] == changes;
    }
  }

  lemma {:induction false} RestoreStopsAt(s: State, before: Dict<Instance>, n: nat, m: nat)
    requires n <= m <= |before.order| && RestoreUpTo(s, before, n).Raised?
    ensures RestoreUpTo(s, before, m) == RestoreUpTo(s, before, n)
  {
    if n < m {
      RestoreStopsAt(s, before, n, m - 1);
    }
  }

  // ----- what the requests leave alone -----

  /** Changes of instances touch nothing else, also where they raise. */
  lemma {:induction false} AllKeepsCounts(phase: Phase, s: State, changes: seq<Change>)
    ensures var r := All(phase, s, changes).state;
            r.nodes == s.nodes && r.groups == s.groups && r.modifications == s.modifications
  {
    if changes != [] {
      AllKeepsCounts(phase, s, changes[..|changes| - 1]);
    }
  }

  lemma {:induction false} RestoringUpToKeepsCounts(s: State, before: Dict<Instance>, n: nat)
    requires n <= |before.order|
    ensures var r := RestoreUpTo(s, before, n).state;
            r.nodes == s.nodes && r.groups == s.groups && r.modifications == s.modifications
  {
    if n > 0 {
      RestoringUpToKeepsCounts(s, before, n - 1);
    }
  }

  lemma RestoringKeepsCounts(s: State, before: Dict<Instance>)
    ensures var r := RestoreAll(s, before).state;
            r.nodes == s.nodes && r.groups == s.groups && r.modifications == s.modifications
  {
    RestoringUpToKeepsCounts(OnlyKnown(s, before.items), before, |before.order|);
  }

  lemma RowsKeepModifications(s: State, field: Field, counts: Dict<nat>, changes: seq<Change>)
    ensures All(Reducing, SetCounts(s, field, counts).state, changes).state.modifications == s.modifications
  {
    var written := SetCountsIff(s, field, counts);
    AllKeepsCounts(Reducing, SetCounts(s, field, counts).state, changes);
  }

  // ----- runs -----

  /** Between the requests, other workflows may change the node instances in any way. */
  datatype Step =
    | StartStep(id: string, modified: Dict<nat>, listed: seq<string>, added: seq<Change>, removed: seq<Change>)
    | FinishStep(id: string)
    | RollbackStep(id: string)
    | Edit(instances: map<string, Instance>)

  /** What is stored after a step, whether it raised or not. A start lists all instances, else it is not a step. */
  function Apply(s: State, step: Step): State {
    match step
    case StartStep(id, modified, listed, added, removed) =>
      if Listing(listed, s.instances).Valid() then Start(s, id, modified, listed, added, removed).state else s
    case FinishStep(id) => Finish(s, id).state
    case RollbackStep(id) => Rollback(s, id).state
    case Edit(instances) => s.(instances := instances)
  }

  function Run(s: State, steps: seq<Step>): State
    decreases |steps|
  {
    if steps == [] then s else Run(Apply(s, steps[0]), steps[1..])
  }

  /** Names in `modified` have their new planned count; all other planned counts equal the current ones. */
  ghost predicate Pending(s: State, modified: map<string, nat>) {
    && (forall g :: g in s.groups ==> s.groups[g].planned == if g in modified then modified[g] else s.groups[g].current)
    && (forall n :: n in s.nodes ==>
          s.nodes[n].count.planned == if n in modified && n !in s.groups then modified[n] else s.nodes[n].count.current)
  }

  /** A started modification with an unknown name can never be ended, so nothing is said about its counts. */
  ghost predicate PendingIfKnown(s: State, modified: map<string, nat>) {
    KnownNames(s, modified.Keys) ==> Pending(s, modified)
  }

  ghost predicate Balanced(s: State) {
    && (forall a, b :: IsStarted(s, a) && IsStarted(s, b) ==> a == b)
    && (forall m :: IsStarted(s, m) ==> PendingIfKnown(s, s.modifications[m].modified.items))
    && (!AnyStarted(s) ==> Pending(s, map[]))
  }

  /** The same names and instances' targets; counts and the rest may differ. */
  predicate SameShape(s: State, r: State) {
    && r.groups.Keys == s.groups.Keys && r.nodes.Keys == s.nodes.Keys
    && forall n :: n in s.nodes ==> r.nodes[n].targets == s.nodes[n].targets
  }

  /** What a start leaves behind once it has stored the modification. */
  lemma StartLeaves(s: State, id: string, modified: Dict<nat>, listed: seq<string>, added: seq<Change>, removed: seq<Change>)
    returns (written: map<string, nat>)
    requires Listing(listed, s.instances).Valid() && !AnyStarted(s) && id !in s.modifications
    ensures var r, planned := Start(s, id, modified, listed, added, removed).state, WithCounts(s, Planned, written);
            && r.nodes == planned.nodes && r.groups == planned.groups
            && r.modifications == Begun(s, id, modified, listed, removed).modifications
    ensures KnownNames(s, modified.items.Keys) ==> written == modified.items
  {
    var begun := Begun(s, id, modified, listed, removed);
    written := SetCountsIff(begun, Planned, modified);
    var planned := SetCounts(begun, Planned, modified).state;
    AllKeepsCounts(Extending, planned, added);
    AllKeepsCounts(Creating, All(Extending, planned, added).state, added);
  }

  lemma StartIsBalanced(s: State, id: string, modified: Dict<nat>, listed: seq<string>, added: seq<Change>, removed: seq<Change>)
    requires Listing(listed, s.instances).Valid() && Balanced(s)
    ensures Balanced(Start(s, id, modified, listed, added, removed).state)
  {
    if !AnyStarted(s) && id !in s.modifications {
      var r := Start(s, id, modified, listed, added, removed).state;
      var written := StartLeaves(s, id, modified, listed, added, removed);
      assert PendingIfKnown(r, modified.items);
      forall m | IsStarted(r, m) ensures m == id {
        assert m != id ==> IsStarted(s, m);
      }
      assert IsStarted(r, id);
    }
  }

  /** What a finish leaves behind of the counts. */
  lemma FinishLeaves(s: State, id: string) returns (written: map<string, nat>)
    requires IsStarted(s, id)
    ensures var r, counted := Finish(s, id).state, WithCounts(s, Current, written);
            && r.nodes == counted.nodes && r.groups == counted.groups
            && r.modifications == if Finish(s, id).Done? then WithStatus(s, id, Finished).modifications else s.modifications
    ensures KnownNames(s, s.modifications[id].modified.items.Keys) ==> written == s.modifications[id].modified.items
    ensures Finish(s, id).Done? ==> KnownNames(s, s.modifications[id].modified.items.Keys)
  {
    written := SetCountsIff(s, Current, s.modifications[id].modified);
    AllKeepsCounts(Reducing, SetCounts(s, Current, s.modifications[id].modified).state, s.modifications[id].removedAndRelated);
  }

  /** A rollback writes counts only at its end, and raises there only at an unknown name. */
  lemma RollbackLeaves(s: State, id: string) returns (written: map<string, nat>)
    requires IsStarted(s, id)
    ensures var r, counted := Rollback(s, id).state, WithCounts(s, Undone, written);
            && r.nodes == counted.nodes && r.groups == counted.groups
            && r.modifications == if Rollback(s, id).Done? then WithStatus(s, id, RolledBack).modifications else s.modifications
    ensures Rollback(s, id).Done? ==>
      KnownNames(s, s.modifications[id].modified.items.Keys) && written == s.modifications[id].modified.items
    ensures Rollback(s, id).Raised? ==> written == map[] || !KnownNames(s, s.modifications[id].modified.items.Keys)
  {
    var m := s.modifications[id];
    var restored := RestoreAll(s, m.before);
    RestoringKeepsCounts(s, m.before);
    NothingWritten(s, Undone);
    written := map[];
    if restored.Done? {
      written := SetCountsIff(restored.state, Undone, m.modified);
    }
  }

  /** Ending the started modification leaves none. */
  lemma EndIsBalanced(s: State, r: State, id: string, status: Status)
    requires Balanced(s) && IsStarted(s, id) && status != Started
    requires r.modifications == WithStatus(s, id, status).modifications && Pending(r, map[])
    ensures Balanced(r) && !AnyStarted(r)
  {
    forall m ensures !IsStarted(r, m) {
      assert m != id && IsStarted(r, m) ==> IsStarted(s, m);
    }
    forall m | m in r.modifications ensures r.modifications[m].status != Started {
      assert !IsStarted(r, m);
    }
  }

  /** As long as the modification is started, only its own counts may have changed. */
  lemma StillBalanced(s: State, r: State, id: string)
    requires Balanced(s) && IsStarted(s, id) && r.modifications == s.modifications
    requires PendingIfKnown(r, s.modifications[id].modified.items)
    ensures Balanced(r)
  {
    assert forall m :: IsStarted(r, m) <==> IsStarted(s, m);
    assert IsStarted(r, id) && AnyStarted(r);
  }

  lemma FinishIsBalanced(s: State, id: string)
    requires Balanced(s)
    ensures Balanced(Finish(s, id).state)
  {
    if IsStarted(s, id) {
      var r := Finish(s, id);
      var written := FinishLeaves(s, id);
      if r.Done? {
        EndIsBalanced(s, r.state, id, Finished);
      } else {
        StillBalanced(s, r.state, id);
      }
    }
  }

  lemma RollbackIsBalanced(s: State, id: string)
    requires Balanced(s)
    ensures Balanced(Rollback(s, id).state)
  {
    if IsStarted(s, id) {
      var r := Rollback(s, id);
      var written := RollbackLeaves(s, id);
      if r.Done? {
        EndIsBalanced(s, r.state, id, RolledBack);
      } else {
        NothingWritten(s, Undone);
        StillBalanced(s, r.state, id);
      }
    }
  }

  lemma StepIsBalanced(s: State, step: Step)
    requires Balanced(s)
    ensures Balanced(Apply(s, step))
  {
    match step
    case StartStep(id, modified, listed, added, removed) =>
      if Listing(listed, s.instances).Valid() {
        StartIsBalanced(s, id, modified, listed, added, removed);
      }
    case FinishStep(id) => FinishIsBalanced(s, id);
    case RollbackStep(id) => RollbackIsBalanced(s, id);
    case Edit(instances) =>
      var r := Apply(s, step);
      assert forall m :: IsStarted(r, m) <==> IsStarted(s, m);
      assert AnyStarted(r) <==> AnyStarted(s);
  }

  /**
    Over every run, requests that raise midway included: at most one modification is started, and whenever none
    is, the planned count equals the current one for every node and scaling group.
   */
  lemma {:induction false} RunsAreBalanced(s: State, steps: seq<Step>)
    requires Balanced(s)
    ensures Balanced(Run(s, steps))
    decreases |steps|
  {
    if steps != [] {
      StepIsBalanced(s, steps[0]);
      RunsAreBalanced(Apply(s, steps[0]), steps[1..]);
    }
  }

  // ----- requests that raise -----

  /** A start that raises leaves everything as it was exactly if another modification is started. */
  lemma RaisedStartChangesNothingIff(s: State, id: string, modified: Dict<nat>, listed: seq<string>, added: seq<Change>,
      removed: seq<Change>)
    requires Listing(listed, s.instances).Valid() && id !in s.modifications
    requires Start(s, id, modified, listed, added, removed).Raised?
    ensures Start(s, id, modified, listed, added, removed).state == s <==> AnyStarted(s)
  {
    if !AnyStarted(s) {
      var written := StartLeaves(s, id, modified, listed, added, removed);
    }
  }

  /** A start with an unknown name raises when its modification is already stored as started. */
  lemma UnknownNameIsStarted(s: State, id: string, modified: Dict<nat>, listed: seq<string>, added: seq<Change>,
      removed: seq<Change>)
    requires Listing(listed, s.instances).Valid() && !AnyStarted(s) && id !in s.modifications
    requires !KnownNames(s, modified.items.Keys)
    ensures var r := Start(s, id, modified, listed, added, removed);
            r.Raised? && IsStarted(r.state, id) && !KnownNames(r.state, r.state.modifications[id].modified.items.Keys)
  {
    var unused := SetCountsIff(Begun(s, id, modified, listed, removed), Planned, modified);
    var written := StartLeaves(s, id, modified, listed, added, removed);
    SameNames(s, Planned, written);
  }

  /** Ids, names and targets stay; what has been ended stays ended. */
  ghost predicate KeepsNames(s: State, r: State, id: string)
    requires id in s.modifications
  {
    && SameShape(s, r) && id in r.modifications
    && r.modifications[id] == s.modifications[id].(status := r.modifications[id].status)
    && (!IsStarted(s, id) ==> !IsStarted(r, id))
  }

  lemma StartKeepsNames(s: State, m: string, modified: Dict<nat>, listed: seq<string>, added: seq<Change>,
      removed: seq<Change>, id: string)
    requires Listing(listed, s.instances).Valid() && id in s.modifications
    ensures KeepsNames(s, Start(s, m, modified, listed, added, removed).state, id)
  {
    if !AnyStarted(s) && m !in s.modifications {
      var written := StartLeaves(s, m, modified, listed, added, removed);
    }
  }

  lemma FinishKeepsNames(s: State, m: string, id: string)
    requires id in s.modifications
    ensures KeepsNames(s, Finish(s, m).state, id)
  {
    if IsStarted(s, m) {
      var written := FinishLeaves(s, m);
    }
  }

  lemma RollbackKeepsNames(s: State, m: string, id: string)
    requires id in s.modifications
    ensures KeepsNames(s, Rollback(s, m).state, id)
  {
    if IsStarted(s, m) {
      var written := RollbackLeaves(s, m);
    }
  }

  lemma StepKeepsNames(s: State, step: Step, id: string)
    requires id in s.modifications
    ensures KeepsNames(s, Apply(s, step), id)
  {
    match step
    case StartStep(m, modified, listed, added, removed) =>
      if Listing(listed, s.instances).Valid() {
        StartKeepsNames(s, m, modified, listed, added, removed, id);
      }
    case FinishStep(m) => FinishKeepsNames(s, m, id);
    case RollbackStep(m) => RollbackKeepsNames(s, m, id);
    case Edit(_) =>
  }

  /** With an unknown name no request ends the modification: over every run it stays started, and blocks all others. */
  lemma {:induction false} UnknownNameStaysStarted(s: State, id: string, steps: seq<Step>)
    requires IsStarted(s, id) && !KnownNames(s, s.modifications[id].modified.items.Keys)
    ensures IsStarted(Run(s, steps), id)
    decreases |steps|
  {
    if steps != [] {
      var r := Apply(s, steps[0]);
      StepKeepsNames(s, steps[0], id);
      if steps[0] == FinishStep(id) {
        var written := FinishLeaves(s, id);
      } else if steps[0] == RollbackStep(id) {
        var written := RollbackLeaves(s, id);
      }
      StartedStays(s, steps[0], id);
      UnknownNameStaysStarted(r, id, steps[1..]);
    }
  }

  /** Only its own end changes the status of a started modification. */
  lemma StartedStays(s: State, step: Step, id: string)
    requires IsStarted(s, id)
    requires step == FinishStep(id) ==> Finish(s, id).Raised?
    requires step == RollbackStep(id) ==> Rollback(s, id).Raised?
    ensures IsStarted(Apply(s, step), id)
  {
    match step
    case StartStep(_, _, _, _, _) => assert AnyStarted(s);
    case FinishStep(m) =>
      if IsStarted(s, m) {
        var written := FinishLeaves(s, m);
      }
    case RollbackStep(m) =>
      if IsStarted(s, m) {
        var written := RollbackLeaves(s, m);
      }
    case Edit(_) =>
  }

  // ----- restoring -----

  /** An instance can be restored if it exists, or its node does. */
  predicate CanRestoreOne(s: State, before: map<string, Instance>, id: string) {
    id in before && id !in s.instances ==> before[id].node in s.nodes
  }

  /** What has been restored after `ids`. */
  ghost predicate IsRestored(s: State, before: map<string, Instance>, ids: seq<string>, r: Outcome) {
    && (r.Done? <==> forall id :: id in ids ==> CanRestoreOne(s, before, id))
    && (r.Done? ==> r.state.nodes == s.nodes && RestoredSoFar(s, before, ids, r.state.instances))
  }

  lemma {:induction false} RestoredUpTo(s: State, before: Dict<Instance>, n: nat)
    requires n <= |before.order|
    ensures IsRestored(s, before.items, before.order[..n], RestoreUpTo(OnlyKnown(s, before.items), before, n))
  {
    if n > 0 {
      RestoredUpTo(s, before, n - 1);
      assert before.order[..n] == before.order[..n - 1] + [before.order[n - 1]];
      RestoredNext(s, before.items, before.order[..n - 1], RestoreUpTo(OnlyKnown(s, before.items), before, n - 1),
        before.order[n - 1], RestoreUpTo(OnlyKnown(s, before.items), before, n));
    }
  }

  lemma RestoredNext(s: State, before: map<string, Instance>, ids: seq<string>, r: Outcome, id: string, next: Outcome)
    requires id in before && IsRestored(s, before, ids, r)
    requires r.Raised? ==> next == r
    requires r.Done? ==> var one := RestoreOne(r.state, id, before[id]);
      next == if one.None? then Raised(r.state) else Done(one.value)
    ensures IsRestored(s, before, ids + [id], next)
  {
    assert forall i :: i in ids + [id] <==> i in ids || i == id;
    if r.Done? {
      RestoredOneMore(s, before, ids, r.state, id);
    }
  }

  ghost predicate RestoredSoFar(s: State, before: map<string, Instance>, ids: seq<string>, r: map<string, Instance>) {
    && (forall id :: id in r <==> id in before && (id in s.instances || id in ids))
    && (forall id :: id in r ==> r[id] == if id in ids then Restored(s.instances, before)[id] else s.instances[id])
  }

  lemma RestoredOneMore(s: State, before: map<string, Instance>, ids: seq<string>, r: State, id: string)
    requires id in before && r.nodes == s.nodes && RestoredSoFar(s, before, ids, r.instances)
    requires forall i :: i in ids ==> CanRestoreOne(s, before, i)
    ensures RestoreOne(r, id, before[id]).Some? <==> CanRestoreOne(s, before, id)
    ensures RestoreOne(r, id, before[id]).Some? ==>
      RestoredSoFar(s, before, ids + [id], RestoreOne(r, id, before[id]).value.instances)
  {
  }

  /** Restoring raises exactly if an instance that has to be created again has no node; else all are as they were. */
  lemma RestoreAllIff(s: State, before: Dict<Instance>)
    ensures RestoreAll(s, before).Done? <==> CanRestore(s, before.items)
    ensures RestoreAll(s, before).Done? ==> RestoreAll(s, before).state.instances == Restored(s.instances, before.items)
  {
    RestoredUpTo(s, before, |before.order|);
    assert before.order[..|before.order|] == before.order;
    assert CanRestore(s, before.items) <==> forall id :: id in before.order ==> CanRestoreOne(s, before.items, id);
  }

  /** A started modification can be rolled back if and only if its names are known, and its instances have their nodes. */
  lemma RollbackEndsIff(s: State, id: string)
    requires IsStarted(s, id)
    ensures Rollback(s, id).Done?
       <==> KnownNames(s, s.modifications[id].modified.items.Keys) && CanRestore(s, s.modifications[id].before.items)
    ensures Rollback(s, id).Done? ==>
      Rollback(s, id).state.instances == Restored(s.instances, s.modifications[id].before.items)
  {
    var m := s.modifications[id];
    RestoreAllIff(s, m.before);
    RestoringKeepsCounts(s, m.before);
    var written := SetCountsIff(RestoreAll(s, m.before).state, Undone, m.modified);
  }

  // ----- rolling back undoes starting -----

  /** The same instances with the same settable attributes. */
  ghost predicate SameInstances(a: map<string, Instance>, b: map<string, Instance>) {
    a.Keys == b.Keys && forall id :: id in a ==> a[id] == b[id].(node := a[id].node)
  }

  ghost predicate NodesExist(s: State) {
    forall id :: id in s.instances ==> s.instances[id].node in s.nodes
  }

  /** The modification asks for the counts that are already current. */
  ghost predicate AsksForCurrent(s: State, counts: map<string, nat>) {
    forall n :: n in counts ==>
      && (n in s.groups ==> s.groups[n].current == counts[n])
      && (n !in s.groups && n in s.nodes ==> s.nodes[n].count.current == counts[n])
  }

  /** Somebody tried to finish the modification on the way. */
  predicate Tried(steps: seq<Step>, id: string) {
    exists k :: 0 <= k < |steps| && steps[k] == FinishStep(id)
  }

  function Base(s: State, counts: map<string, nat>, tried: bool): State {
    if tried then WithCounts(s, Current, counts) else s
  }

  /** The modification `id` that was started on `s`, on the way: only an attempt to finish it changes current counts. */
  ghost predicate Underway(s: State, id: string, counts: map<string, nat>, r: State, tried: bool) {
    && IsStarted(r, id) && (forall m :: IsStarted(r, m) ==> m == id)
    && r.modifications[id].modified.items == counts && r.modifications[id].before.items == s.instances
    && KnownNames(s, counts.Keys)
    && r.nodes == WithCounts(Base(s, counts, tried), Planned, counts).nodes
    && r.groups == WithCounts(Base(s, counts, tried), Planned, counts).groups
  }

  lemma CountsOnTheWay(s: State, counts: map<string, nat>, r: State, tried: bool)
    requires r.nodes == WithCounts(Base(s, counts, tried), Planned, counts).nodes
    requires r.groups == WithCounts(Base(s, counts, tried), Planned, counts).groups
    ensures var f := WithCounts(r, Current, counts);
            && f.nodes == WithCounts(Base(s, counts, true), Planned, counts).nodes
            && f.groups == WithCounts(Base(s, counts, true), Planned, counts).groups
  {
  }

  lemma SameUnderway(s: State, id: string, counts: map<string, nat>, r: State, next: State, tried: bool)
    requires Underway(s, id, counts, r, tried)
    requires next.modifications == r.modifications && next.nodes == r.nodes && next.groups == r.groups
    ensures Underway(s, id, counts, next, tried)
  {
    assert forall m :: IsStarted(next, m) <==> IsStarted(r, m);
  }

  lemma FinishUnderway(s: State, id: string, counts: map<string, nat>, r: State, tried: bool)
    requires Underway(s, id, counts, r, tried) && Finish(r, id).Raised?
    ensures Underway(s, id, counts, Finish(r, id).state, true)
  {
    SameNames(Base(s, counts, tried), Planned, counts);
    SameNames(s, Current, counts);
    var written := FinishLeaves(r, id);
    CountsOnTheWay(s, counts, r, tried);
    assert forall m :: IsStarted(Finish(r, id).state, m) <==> IsStarted(r, m);
  }

  lemma RollbackUnderway(s: State, id: string, counts: map<string, nat>, r: State, tried: bool)
    requires Underway(s, id, counts, r, tried) && Rollback(r, id).Raised?
    ensures Underway(s, id, counts, Rollback(r, id).state, tried)
  {
    SameNames(Base(s, counts, tried), Planned, counts);
    SameNames(s, Current, counts);
    var written := RollbackLeaves(r, id);
    NothingWritten(r, Undone);
    SameUnderway(s, id, counts, r, Rollback(r, id).state, tried);
  }

  lemma StepUnderway(s: State, id: string, counts: map<string, nat>, r: State, tried: bool, step: Step)
    requires Underway(s, id, counts, r, tried) && IsStarted(Apply(r, step), id)
    ensures Underway(s, id, counts, Apply(r, step), tried || step == FinishStep(id))
  {
    match step
    case StartStep(_, _, _, _, _) => assert AnyStarted(r);
    case FinishStep(m) =>
      if m == id {
        var written := FinishLeaves(r, id);
        FinishUnderway(s, id, counts, r, tried);
      }
    case RollbackStep(m) =>
      if m == id {
        var written := RollbackLeaves(r, id);
        RollbackUnderway(s, id, counts, r, tried);
      }
    case Edit(_) => SameUnderway(s, id, counts, r, Apply(r, step), tried);
  }

  lemma {:induction false} EndedStaysEnded(s: State, id: string, steps: seq<Step>)
    requires id in s.modifications && !IsStarted(s, id)
    ensures !IsStarted(Run(s, steps), id)
    decreases |steps|
  {
    if steps != [] {
      StepKeepsNames(s, steps[0], id);
      EndedStaysEnded(Apply(s, steps[0]), id, steps[1..]);
    }
  }

  lemma {:induction false} RunUnderway(s: State, id: string, counts: map<string, nat>, r: State, tried: bool, steps: seq<Step>)
    requires Underway(s, id, counts, r, tried) && IsStarted(Run(r, steps), id)
    ensures Underway(s, id, counts, Run(r, steps), tried || Tried(steps, id))
    decreases |steps|
  {
    if steps != [] {
      var next := Apply(r, steps[0]);
      StepKeepsNames(r, steps[0], id);
      if !IsStarted(next, id) {
        EndedStaysEnded(next, id, steps[1..]);
      }
      StepUnderway(s, id, counts, r, tried, steps[0]);
      RunUnderway(s, id, counts, next, tried || steps[0] == FinishStep(id), steps[1..]);
      TriedFirst(steps, id);
    }
  }

  lemma TriedFirst(steps: seq<Step>, id: string)
    requires steps != []
    ensures Tried(steps, id) <==> steps[0] == FinishStep(id) || Tried(steps[1..], id)
  {
    if k :| 0 <= k < |steps[1..]| && steps[1..][k] == FinishStep(id) {
      assert steps[k + 1] == FinishStep(id);
    }
    if k :| 0 < k < |steps| && steps[k] == FinishStep(id) {
      assert steps[1..][k - 1] == FinishStep(id);
    }
  }

  /** Undoing gives a group its old counts, or the current ones that an attempt to finish has given it. */
  lemma UndoneGroup(s: State, counts: map<string, nat>, r: State, tried: bool, g: string)
    requires Pending(s, map[]) && g in s.groups
    requires r.groups == WithCounts(Base(s, counts, tried), Planned, counts).groups
    ensures g in WithCounts(r, Undone, counts).groups
    ensures WithCounts(r, Undone, counts).groups[g]
         == if tried && g in counts then Count(counts[g], counts[g]) else s.groups[g]
  {
    SameNames(Base(s, counts, tried), Planned, counts);
    SameNames(s, Current, counts);
  }

  lemma UndoneNode(s: State, counts: map<string, nat>, r: State, tried: bool, n: string)
    requires Pending(s, map[]) && n in s.nodes && r.groups.Keys == s.groups.Keys
    requires r.nodes == WithCounts(Base(s, counts, tried), Planned, counts).nodes
    ensures n in WithCounts(r, Undone, counts).nodes
    ensures WithCounts(r, Undone, counts).nodes[n]
         == if tried && n in counts && n !in s.groups then s.nodes[n].(count := Count(counts[n], counts[n])) else s.nodes[n]
  {
    SameNames(Base(s, counts, tried), Planned, counts);
    SameNames(s, Current, counts);
  }

  /** Counts that are the old ones, but for those of an attempt to finish, are all the old ones exactly if it asked for them. */
  lemma CountsAgree(s: State, counts: map<string, nat>, tried: bool, groups: map<string, Count>, nodes: map<string, NodeRow>)
    requires Pending(s, map[]) && groups.Keys == s.groups.Keys && nodes.Keys == s.nodes.Keys
    requires forall g :: g in s.groups ==>
      groups[g] == if tried && g in counts then Count(counts[g], counts[g]) else s.groups[g]
    requires forall n :: n in s.nodes ==>
      nodes[n] == if tried && n in counts && n !in s.groups then s.nodes[n].(count := Count(counts[n], counts[n])) else s.nodes[n]
    ensures groups == s.groups && nodes == s.nodes <==> !tried || AsksForCurrent(s, counts)
  {
    if tried && AsksForCurrent(s, counts) {
      assert forall g :: g in s.groups ==> groups[g] == s.groups[g];
      assert forall n :: n in s.nodes ==> nodes[n] == s.nodes[n];
    }
    if tried && groups == s.groups && nodes == s.nodes {
      forall n | n in counts && n in s.groups ensures s.groups[n].current == counts[n] {
        assert groups[n] == s.groups[n];
      }
      forall n | n in counts && n !in s.groups && n in s.nodes ensures s.nodes[n].count.current == counts[n] {
        assert nodes[n] == s.nodes[n];
      }
    }
  }

  /** Undoing the planned counts gives the old ones, unless the current ones were changed on the way. */
  lemma UndoneCounts(s: State, counts: map<string, nat>, r: State, tried: bool, u: State)
    requires Pending(s, map[]) && u == WithCounts(r, Undone, counts)
    requires r.nodes == WithCounts(Base(s, counts, tried), Planned, counts).nodes
    requires r.groups == WithCounts(Base(s, counts, tried), Planned, counts).groups
    ensures u.groups == s.groups && u.nodes == s.nodes <==> !tried || AsksForCurrent(s, counts)
  {
    SameNames(Base(s, counts, tried), Planned, counts);
    SameNames(s, Current, counts);
    SameNames(r, Undone, counts);
    forall g | g in s.groups { UndoneGroup(s, counts, r, tried, g); }
    forall n | n in s.nodes { UndoneNode(s, counts, r, tried, n); }
    CountsAgree(s, counts, tried, u.groups, u.nodes);
  }

  /**
    A start, even one that raises midway, then any run, and a rollback: the instances are as they were before the
    start. The counts are, too, if and only if nobody tried to finish the modification on the way, or it asks for
    the counts that there were.
   */
  lemma RollbackUndoesStartIff(s: State, id: string, modified: Dict<nat>, listed: seq<string>, added: seq<Change>,
      removed: seq<Change>, steps: seq<Step>)
    requires Balanced(s) && NodesExist(s) && Listing(listed, s.instances).Valid()
    requires !AnyStarted(s) && id !in s.modifications && KnownNames(s, modified.items.Keys)
    requires IsStarted(Run(Start(s, id, modified, listed, added, removed).state, steps), id)
    ensures var during := Run(Start(s, id, modified, listed, added, removed).state, steps);
            var r := Rollback(during, id);
            && r.Done? && SameInstances(r.state.instances, s.instances)
            && (r.state.groups == s.groups && r.state.nodes == s.nodes
                <==> !Tried(steps, id) || AsksForCurrent(s, modified.items))
            && (forall i :: i in s.instances && i in during.instances && during.instances[i].node == s.instances[i].node ==>
                  r.state.instances[i] == s.instances[i])
  {
    var begun := Start(s, id, modified, listed, added, removed).state;
    var written := StartLeaves(s, id, modified, listed, added, removed);
    assert Underway(s, id, modified.items, begun, false) by {
      forall m | IsStarted(begun, m) ensures m == id {
        assert m != id ==> IsStarted(s, m);
      }
    }
    RunUnderway(s, id, modified.items, begun, false, steps);
    RolledBackUnderway(s, id, modified.items, Run(begun, steps), Tried(steps, id));
  }

  lemma RolledBackUnderway(s: State, id: string, counts: map<string, nat>, r: State, tried: bool)
    requires Pending(s, map[]) && NodesExist(s) && Underway(s, id, counts, r, tried)
    ensures var u := Rollback(r, id);
            && u.Done? && SameInstances(u.state.instances, s.instances)
            && (u.state.groups == s.groups && u.state.nodes == s.nodes <==> !tried || AsksForCurrent(s, counts))
            && (forall i :: i in s.instances && i in r.instances && r.instances[i].node == s.instances[i].node ==>
                  u.state.instances[i] == s.instances[i])
  {
    SameNames(Base(s, counts, tried), Planned, counts);
    SameNames(s, Current, counts);
    RollbackEndsIff(r, id);
    var written := RollbackLeaves(r, id);
    UndoneCounts(s, counts, r, tried, WithCounts(r, Undone, counts));
    RestoredIsBefore(r.instances, s.instances);
  }

  /** Rolling back keeps the node that an instance was moved to, and nothing else of the edits. */
  lemma RestoredIsBefore(edited: map<string, Instance>, before: map<string, Instance>)
    ensures SameInstances(Restored(edited, before), before)
    ensures forall i :: i in before && i in edited && edited[i].node == before[i].node ==>
      Restored(edited, before)[i] == before[i]
  {
  }

  /** A finish that raises at an instance has written the current counts: none is changed exactly if it asked for them. */
  lemma RaisedFinishWritesCountsIff(s: State, id: string)
    requires IsStarted(s, id) && Finish(s, id).Raised?
    requires KnownNames(s, s.modifications[id].modified.items.Keys)
    ensures Finish(s, id).state.groups == s.groups && Finish(s, id).state.nodes == s.nodes
       <==> AsksForCurrent(s, s.modifications[id].modified.items)
  {
    var written := FinishLeaves(s, id);
    CurrentAgrees(s, written, WithCounts(s, Current, written));
  }

  lemma CurrentAgrees(s: State, counts: map<string, nat>, r: State)
    requires r == WithCounts(s, Current, counts)
    ensures r.groups == s.groups && r.nodes == s.nodes <==> AsksForCurrent(s, counts)
  {
    if AsksForCurrent(s, counts) {
      assert forall g :: g in s.groups ==> r.groups[g] == s.groups[g];
      assert forall n :: n in s.nodes ==> r.nodes[n] == s.nodes[n];
    } else {
      var n :| n in counts && ((n in s.groups && s.groups[n].current != counts[n])
        || (n !in s.groups && n in s.nodes && s.nodes[n].count.current != counts[n]));
      if n in s.groups {
        assert r.groups[n].current == counts[n];
      } else {
        assert r.nodes[n].count.current == counts[n];
      }
    }
  }

  lemma NothingToReduce(s: State, changes: seq<Change>)
    requires s.instances == map[] && changes != []
    ensures All(Reducing, s, changes).Raised?
  {
    assert changes[..1][..0] == [];
    AllStopsAt(Reducing, s, changes, 1);
  }

  /**
    All instances are lost while a modification is under way that removes some: finishing it raises, and rolling it
    back then restores the old instances next to the new counts.
   */
  lemma LostInstancesExample(s: State, id: string, modified: Dict<nat>, listed: seq<string>, added: seq<Change>,
      removed: seq<Change>)
    requires Balanced(s) && NodesExist(s) && Listing(listed, s.instances).Valid()
    requires !AnyStarted(s) && id !in s.modifications && KnownNames(s, modified.items.Keys)
    requires removed != [] && !AsksForCurrent(s, modified.items)
    ensures var during := Run(Start(s, id, modified, listed, added, removed).state, [Edit(map[]), FinishStep(id)]);
            && IsStarted(during, id) && Rollback(during, id).Done?
            && SameInstances(Rollback(during, id).state.instances, s.instances)
            && !(Rollback(during, id).state.groups == s.groups && Rollback(during, id).state.nodes == s.nodes)
  {
    var begun := Start(s, id, modified, listed, added, removed).state;
    var steps := [Edit(map[]), FinishStep(id)];
    assert steps[1..] == [FinishStep(id)] && steps[1..][1..] == [];
    var written := StartLeaves(s, id, modified, listed, added, removed);
    var lost := Apply(begun, Edit(map[]));
    FinishAtLostInstance(lost, id);
    assert Run(begun, steps) == Run(Finish(lost, id).state, []);
    assert steps[1] == FinishStep(id);
    RollbackUndoesStartIff(s, id, modified, listed, added, removed, steps);
  }

  lemma FinishAtLostInstance(s: State, id: string)
    requires IsStarted(s, id) && s.instances == map[] && s.modifications[id].removedAndRelated != []
    ensures Finish(s, id).Raised? && IsStarted(Finish(s, id).state, id)
  {
    var m := s.modifications[id];
    var unused := SetCountsIff(s, Current, m.modified);
    NothingToReduce(SetCounts(s, Current, m.modified).state, m.removedAndRelated);
    var written := FinishLeaves(s, id);
  }

  // ----- relationship lists stay in the order of their node -----

  ghost predicate InstanceInOrder(s: State, i: Instance) {
    i.node in s.nodes && InNodeOrder(s.nodes[i.node].targets, i.relationships)
  }

  ghost predicate Ordered(s: State) {
    && (forall n :: n in s.nodes ==> Distinct(s.nodes[n].targets))
    && (forall id :: id in s.instances ==> InstanceInOrder(s, s.instances[id]))
  }

  /** The stored plan of the modification speaks about its instances: it names their node, and lists new ones in order. */
  ghost predicate Fits(s: State, c: Change) {
    if c.kind == Added then c.node in s.nodes ==> InNodeOrder(s.nodes[c.node].targets, c.relationships)
    else c.id in s.instances ==> s.instances[c.id].node == c.node
  }

  /** Instances that stay belong to the same nodes. */
  ghost predicate SameNodes(s: State, r: State) {
    forall i :: i in s.instances && i in r.instances ==> r.instances[i].node == s.instances[i].node
  }

  lemma OneKeepsOrder(phase: Phase, s: State, c: Change)
    requires Ordered(s) && One(phase, s, c).Some? && (phase != Reducing ==> Fits(s, c))
    ensures Ordered(One(phase, s, c).value) && SameNodes(s, One(phase, s, c).value)
  {
    if phase == Extending && c.kind != Added {
      MergedInOrder(s.nodes[c.node].targets, s.instances[c.id].relationships, c.relationships);
    }
    if phase == Reducing && c.kind != Removed {
      WithoutInOrder(s.nodes[s.instances[c.id].node].targets, s.instances[c.id].relationships, TargetIds(c.relationships));
    }
  }

  /** In node order, with incoming entries that are grouped and name only targets of the node, nothing is lost. */
  lemma ExtendLosesNothing(s: State, c: Change)
    requires Ordered(s) && c.kind != Added && Fits(s, c) && Extend(s, c).Some?
    requires Grouped(c.relationships) && NamesOnly(c.relationships, s.nodes[c.node].targets)
    ensures multiset(Extend(s, c).value.instances[c.id].relationships)
         == multiset(s.instances[c.id].relationships) + multiset(c.relationships)
    ensures InNodeOrder(s.nodes[c.node].targets, Extend(s, c).value.instances[c.id].relationships)
  {
    var targets, current := s.nodes[c.node].targets, s.instances[c.id].relationships;
    assert InstanceInOrder(s, s.instances[c.id]);
    InOrderIsGrouped(targets, current);
    GroupedMergeIsPermutation(targets, current, c.relationships);
    MergedInOrder(targets, current, c.relationships);
  }

  /** Which instances there are after a phase, also where it raised. */
  ghost predicate PhaseKeeps(phase: Phase, s: State, r: State) {
    && Ordered(r) && SameNodes(s, r)
    && (phase != Reducing ==> s.instances.Keys <= r.instances.Keys)
    && (phase != Creating ==> r.instances.Keys <= s.instances.Keys)
  }

  lemma OneMoreKeeps(phase: Phase, s: State, r: State, c: Change)
    requires PhaseKeeps(phase, s, r) && r.nodes == s.nodes && One(phase, r, c).Some? && (phase != Reducing ==> Fits(s, c))
    ensures PhaseKeeps(phase, s, One(phase, r, c).value)
  {
    if phase == Extending {
      assert Fits(r, c);
      OneKeepsOrder(phase, r, c);
    } else if phase == Creating && c.kind == Added {
      assert Fits(r, c);
      OneKeepsOrder(phase, r, c);
    } else if phase == Reducing {
      OneKeepsOrder(phase, r, c);
    }
  }

  lemma {:induction false} AllKeepsOrder(phase: Phase, s: State, changes: seq<Change>)
    requires Ordered(s) && (phase != Reducing ==> forall k :: 0 <= k < |changes| ==> Fits(s, changes[k]))
    ensures PhaseKeeps(phase, s, All(phase, s, changes).state)
    decreases |changes|
  {
    if changes != [] {
      var front, last := changes[..|changes| - 1], changes[|changes| - 1];
      AllKeepsOrder(phase, s, front);
      AllKeepsCounts(phase, s, front);
      var r := All(phase, s, front);
      if r.Done? && One(phase, r.state, last).Some? {
        OneMoreKeeps(phase, s, r.state, last);
      }
    }
  }

  /** Also the instances kept for a rollback are in order, and belong to the same nodes as the current ones. */
  ghost predicate OrderedThroughout(s: State) {
    && Balanced(s) && Ordered(s)
    && forall m, id :: IsStarted(s, m) && id in s.modifications[m].before.items ==>
         KeptFits(s, s.modifications[m].before.items, id)
  }

  ghost predicate KeptFits(s: State, before: map<string, Instance>, id: string)
    requires id in before
  {
    InstanceInOrder(s, before[id]) && (id in s.instances ==> s.instances[id].node == before[id].node)
  }

  ghost predicate AllKeptFit(s: State, before: map<string, Instance>) {
    forall id :: id in before ==> KeptFits(s, before, id)
  }

  /** Plans fit the deployment, and edits keep lists in order and instances on their node. */
  ghost predicate Tidy(s: State, step: Step) {
    match step
    case StartStep(_, _, _, added, _) => forall k :: 0 <= k < |added| ==> Fits(s, added[k])
    case FinishStep(_) => true
    case RollbackStep(_) => true
    case Edit(instances) =>
      && Ordered(s.(instances := instances))
      && forall m, id :: IsStarted(s, m) && id in s.modifications[m].before.items && id in instances ==>
           instances[id].node == s.modifications[m].before.items[id].node
  }

  lemma OrderedAcross(s: State, r: State)
    requires Ordered(s) && SameShape(s, r) && r.instances == s.instances
    ensures Ordered(r)
  {
    forall id | id in r.instances ensures InstanceInOrder(r, r.instances[id]) {
      assert InstanceInOrder(s, s.instances[id]);
    }
  }

  lemma KeptAcross(s: State, r: State, before: map<string, Instance>)
    requires AllKeptFit(s, before) && SameShape(s, r) && SameNodes(s, r) && r.instances.Keys <= s.instances.Keys
    ensures AllKeptFit(r, before)
  {
    forall id | id in before ensures KeptFits(r, before, id) {
      assert KeptFits(s, before, id);
    }
  }

  lemma SetCountsKeepsOrder(s: State, field: Field, counts: Dict<nat>)
    requires Ordered(s)
    ensures var r := SetCounts(s, field, counts).state;
            && Ordered(r) && SameShape(s, r) && r.instances == s.instances && r.modifications == s.modifications
  {
    var written := SetCountsIff(s, field, counts);
    OrderedAcross(s, WithCounts(s, field, written));
  }

  lemma AddingKeepsOrder(planned: State, added: seq<Change>)
    requires Ordered(planned) && forall k :: 0 <= k < |added| ==> Fits(planned, added[k])
    ensures var extended := All(Extending, planned, added);
            && Ordered(extended.state) && SameNodes(planned, extended.state) && extended.state.nodes == planned.nodes
            && var created := CreateAll(extended.state, added).state;
               Ordered(created) && SameNodes(planned, created) && created.nodes == planned.nodes
  {
    AllKeepsOrder(Extending, planned, added);
    AllKeepsCounts(Extending, planned, added);
    var extended := All(Extending, planned, added).state;
    assert forall k :: 0 <= k < |added| ==> Fits(extended, added[k]);
    AllKeepsOrder(Creating, extended, added);
    AllKeepsCounts(Creating, extended, added);
  }

  /** Also where it raises, a start keeps all lists in order, those remembered for a rollback included. */
  lemma StartKeepsOrder(s: State, id: string, modified: Dict<nat>, listed: seq<string>, added: seq<Change>,
      removed: seq<Change>)
    requires OrderedThroughout(s) && Listing(listed, s.instances).Valid()
    requires Tidy(s, StartStep(id, modified, listed, added, removed))
    ensures OrderedThroughout(Start(s, id, modified, listed, added, removed).state)
  {
    StartIsBalanced(s, id, modified, listed, added, removed);
    if !AnyStarted(s) && id !in s.modifications {
      var r := Start(s, id, modified, listed, added, removed).state;
      StartedInOrder(s, id, modified, listed, added, removed);
      var written := StartLeaves(s, id, modified, listed, added, removed);
      forall m, i | IsStarted(r, m) && i in r.modifications[m].before.items
        ensures KeptFits(r, r.modifications[m].before.items, i)
      {
        assert m == id;
        assert InstanceInOrder(s, s.instances[i]);
      }
    }
  }

  lemma StartedInOrder(s: State, id: string, modified: Dict<nat>, listed: seq<string>, added: seq<Change>,
      removed: seq<Change>)
    requires Ordered(s) && Listing(listed, s.instances).Valid() && !AnyStarted(s) && id !in s.modifications
    requires forall k :: 0 <= k < |added| ==> Fits(s, added[k])
    ensures var r := Start(s, id, modified, listed, added, removed).state;
            Ordered(r) && SameNodes(s, r)
  {
    var begun := Begun(s, id, modified, listed, removed);
    OrderedAcross(s, begun);
    SetCountsKeepsOrder(begun, Planned, modified);
    var planned := SetCounts(begun, Planned, modified).state;
    assert forall k :: 0 <= k < |added| ==> Fits(planned, added[k]);
    AddingKeepsOrder(planned, added);
  }

  /** What a change of rows keeps, apart from the modifications. */
  ghost predicate OrderedAfter(s: State, r: State) {
    Ordered(r) && SameShape(s, r) && SameNodes(s, r) && r.instances.Keys <= s.instances.Keys
  }

  lemma ReducedInOrder(s: State, changes: seq<Change>)
    requires Ordered(s)
    ensures OrderedAfter(s, All(Reducing, s, changes).state)
  {
    AllKeepsOrder(Reducing, s, changes);
    AllKeepsCounts(Reducing, s, changes);
  }

  lemma FinishedInOrder(s: State, id: string)
    requires Ordered(s) && IsStarted(s, id)
    ensures OrderedAfter(s, Finish(s, id).state)
  {
    var m := s.modifications[id];
    SetCountsKeepsOrder(s, Current, m.modified);
    var counted := SetCounts(s, Current, m.modified);
    if counted.Done? {
      ReducedInOrder(counted.state, m.removedAndRelated);
      var reduced := All(Reducing, counted.state, m.removedAndRelated);
      if reduced.Done? {
        OrderedAcross(reduced.state, Finish(s, id).state);
      }
    }
  }

  lemma FinishKeepsOrder(s: State, id: string)
    requires OrderedThroughout(s)
    ensures OrderedThroughout(Finish(s, id).state)
  {
    FinishIsBalanced(s, id);
    if IsStarted(s, id) {
      var r := Finish(s, id).state;
      FinishedInOrder(s, id);
      assert AllKeptFit(s, s.modifications[id].before.items);
      KeptAcross(s, r, s.modifications[id].before.items);
      var written := FinishLeaves(s, id);
      OnlyOneKept(s, r, id);
    }
  }

  /** At most the one started modification remembers instances. */
  lemma OnlyOneKept(s: State, r: State, id: string)
    requires Balanced(s) && IsStarted(s, id) && Balanced(r) && Ordered(r) && AllKeptFit(r, s.modifications[id].before.items)
    requires forall m :: IsStarted(r, m) ==> IsStarted(s, m) && r.modifications[m] == s.modifications[m]
    ensures OrderedThroughout(r)
  {
    forall m, i | IsStarted(r, m) && i in r.modifications[m].before.items
      ensures KeptFits(r, r.modifications[m].before.items, i)
    {
      assert IsStarted(s, m);
    }
  }

  lemma {:induction false} RestoringUpToKeepsOrder(s: State, before: Dict<Instance>, n: nat)
    requires n <= |before.order| && Ordered(s) && AllKeptFit(s, before.items)
    ensures Ordered(RestoreUpTo(s, before, n).state) && AllKeptFit(RestoreUpTo(s, before, n).state, before.items)
  {
    if n > 0 {
      RestoringUpToKeepsOrder(s, before, n - 1);
      assert KeptFits(RestoreUpTo(s, before, n - 1).state, before.items, before.order[n - 1]);
    }
  }

  lemma RollbackKeepsOrder(s: State, id: string)
    requires OrderedThroughout(s)
    ensures OrderedThroughout(Rollback(s, id).state)
  {
    RollbackIsBalanced(s, id);
    if IsStarted(s, id) {
      var m, r := s.modifications[id], Rollback(s, id).state;
      var known := OnlyKnown(s, m.before.items);
      assert AllKeptFit(s, m.before.items);
      KeptAcross(s, known, m.before.items);
      RestoringUpToKeepsOrder(known, m.before, |m.before.order|);
      RestoringKeepsCounts(s, m.before);
      var written := RollbackLeaves(s, id);
      var restored := RestoreAll(s, m.before).state;
      SetCountsKeepsOrder(restored, Undone, m.modified);
      OrderedAcross(restored, r);
      KeptAcross(restored, r, m.before.items);
      OnlyOneKept(s, r, id);
    }
  }

  lemma EditKeepsOrder(s: State, instances: map<string, Instance>)
    requires OrderedThroughout(s) && Tidy(s, Edit(instances))
    ensures OrderedThroughout(Apply(s, Edit(instances)))
  {
    StepIsBalanced(s, Edit(instances));
    var r := Apply(s, Edit(instances));
    forall m, id | IsStarted(r, m) && id in r.modifications[m].before.items
      ensures KeptFits(r, r.modifications[m].before.items, id)
    {
      assert IsStarted(s, m);
      assert KeptFits(s, s.modifications[m].before.items, id);
    }
  }

  ghost predicate TidyRun(s: State, steps: seq<Step>)
    decreases |steps|
  {
    steps == [] || (Tidy(s, steps[0]) && TidyRun(Apply(s, steps[0]), steps[1..]))
  }

  lemma StepKeepsOrder(s: State, step: Step)
    requires OrderedThroughout(s) && Tidy(s, step)
    ensures OrderedThroughout(Apply(s, step))
  {
    match step
    case StartStep(id, modified, listed, added, removed) =>
      if Listing(listed, s.instances).Valid() {
        StartKeepsOrder(s, id, modified, listed, added, removed);
      }
    case FinishStep(id) => FinishKeepsOrder(s, id);
    case RollbackStep(id) => RollbackKeepsOrder(s, id);
    case Edit(instances) => EditKeepsOrder(s, instances);
  }

  /** Over every run with fitting plans, requests that raise included, all lists stay in the order of their node. */
  lemma {:induction false} RunsKeepOrder(s: State, steps: seq<Step>)
    requires OrderedThroughout(s) && TidyRun(s, steps)
    ensures OrderedThroughout(Run(s, steps))
    decreases |steps|
  {
    if steps != [] {
      StepKeepsOrder(s, steps[0]);
      RunsKeepOrder(Apply(s, steps[0]), steps[1..]);
    }
  }
}
