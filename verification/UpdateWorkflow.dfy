/**
  Deployment update, node storage: the steps become attribute changes, which
  are written in two phases around the install part of the update.
 */
module UpdateWorkflow {
  import opened Options
  import opened Occurrences
  import opened StepExtractor

  datatype Attribute = Operations | Properties | Relationships

  type Nodes = map<string, Node>

  type Changes = map<string, set<Attribute>>

  /** The attribute that a stored step says has changed. The test looks at the whole entity id. */
  function Touched(s: Step): Option<Attribute> {
    match s.entity
    case NodeEntity => None
    case RelationshipEntity => Some(Relationships)
    case PropertyEntity => Some(Properties)
    case OperationEntity => Some(if Name("relationships") in s.id.Parts() then Relationships else Operations)
  }

  function At(m: Changes, node: string): set<Attribute> {
    if node in m then m[node] else {}
  }

  function TouchedAttributes(steps: seq<Step>, node: string): set<Attribute> {
    set s | s in steps && s.id.node == node && Touched(s).Some? :: Touched(s).value
  }

  ghost predicate AreChanges(m: Changes, steps: seq<Step>) {
    forall n :: At(m, n) == TouchedAttributes(steps, n) && (n in m ==> m[n] != {})
  }

  lemma TouchedByOneMore(steps: seq<Step>, s: Step, n: string)
    ensures TouchedAttributes(steps + [s], n)
         == TouchedAttributes(steps, n) + if s.id.node == n && Touched(s).Some? then {Touched(s).value} else {}
  {
    forall t | t in steps + [s] ensures t in steps || t == s {}
    forall t | t in steps || t == s ensures t in steps + [s] {
      assert (steps + [s])[|steps|] == s;
    }
  }

  method ModifiedAttributes(steps: seq<Step>) returns (m: Changes)
    ensures AreChanges(m, steps)
  {
    m := map[];
    for i := 0 to |steps|
      invariant AreChanges(m, steps[..i])
    {
      assert steps[..i + 1] == steps[..i] + [steps[i]];
      forall n { TouchedByOneMore(steps[..i], steps[i], n); }
      var touched := Touched(steps[i]);
      if touched.Some? {
        var node := steps[i].id.node;
        m := m[node := At(m, node) + {touched.value}];
      }
    }
    assert steps[..|steps|] == steps;
  }

  function NodesWith(action: Action, steps: seq<Step>): set<string> {
    set s | s in steps && s.entity.NodeEntity? && s.action == action :: s.id.node
  }

  method NodesOf(action: Action, steps: seq<Step>) returns (r: set<string>)
    ensures r == NodesWith(action, steps)
  {
    r := {};
    for i := 0 to |steps|
      invariant r == NodesWith(action, steps[..i])
    {
      assert steps[..i + 1] == steps[..i] + [steps[i]];
      if steps[i].entity.NodeEntity? && steps[i].action == action {
        r := r + {steps[i].id.node};
      }
    }
    assert steps[..|steps|] == steps;
  }

  /** Stored relationships whose type and target do not occur in the plan, in their order. */
  function Dropped(plan: seq<Relationship>, stored: seq<Relationship>): seq<Relationship> {
    if stored == [] then []
    else
      var last := stored[|stored| - 1];
      Dropped(plan, stored[..|stored| - 1]) + (if KeyOf(last) in Keys(plan) then [] else [last])
  }

  method InterimRelationships(plan: seq<Relationship>, stored: seq<Relationship>) returns (r: seq<Relationship>)
    ensures r == plan + Dropped(plan, stored)
  {
    r := plan;
    for i := 0 to |stored|
      invariant r == plan + Dropped(plan, stored[..i])
    {
      assert stored[..i + 1][..i] == stored[..i];
      if KeyOf(stored[i]) !in Keys(plan) {
        r := r + [stored[i]];
      }
    }
    assert stored[..|stored|] == stored;
  }

  function WithAttributes(node: Node, plan: Node, changed: set<Attribute>): Node {
    Node(
      node.ntype,
      if Operations in changed then plan.operations else node.operations,
      if Properties in changed then plan.properties else node.properties,
      if Relationships in changed
      then plan.relationships + Dropped(plan.relationships, node.relationships)
      else node.relationships)
  }

  method UpdateAttributes(node: Node, plan: Node, changed: set<Attribute>) returns (r: Node)
    ensures r == WithAttributes(node, plan, changed)
  {
    r := node;
    if Operations in changed {
      r := r.(operations := plan.operations);
    }
    if Properties in changed {
      r := r.(properties := plan.properties);
    }
    if Relationships in changed {
      var rels := InterimRelationships(plan.relationships, node.relationships);
      r := r.(relationships := rels);
    }
  }

  /** The stored nodes after the first phase. */
  function Performed(nodes: Nodes, plan: Nodes, changes: Changes, added: set<string>): Nodes
    requires changes.Keys + added <= plan.Keys
  {
    map n | n in nodes.Keys + added ::
      if n in added then plan[n]
      else if n in changes then WithAttributes(nodes[n], plan[n], changes[n])
      else nodes[n]
  }

  /** The stored nodes after the last phase. */
  function Finished(nodes: Nodes, plan: Nodes, changes: Changes, removed: set<string>): Nodes
    requires changes.Keys <= plan.Keys
  {
    map n | n in nodes.Keys - removed ::
      if Relationships in At(changes, n) then nodes[n].(relationships := plan[n].relationships)
      else nodes[n]
  }

  predicate CanPerform(nodes: Nodes, plan: Nodes, changes: Changes, added: set<string>) {
    changes.Keys <= plan.Keys && changes.Keys <= nodes.Keys && added <= plan.Keys && added !! nodes.Keys
  }

  predicate CanFinish(nodes: Nodes, plan: Nodes, changes: Changes, removed: set<string>) {
    changes.Keys <= plan.Keys && changes.Keys <= nodes.Keys && removed <= nodes.Keys
  }

  // ----- what the first phase stores -----

  /** Stored relationships that left the plan are kept, each as often as it occurred. */
  lemma {:induction false} DroppedKeepsEveryOccurrence(plan: seq<Relationship>, stored: seq<Relationship>, r: Relationship)
    ensures multiset(Dropped(plan, stored))[r] == if KeyOf(r) in Keys(plan) then 0 else multiset(stored)[r]
  {
    if stored != [] {
      DroppedKeepsEveryOccurrence(plan, stored[..|stored| - 1], r);
      assert stored == stored[..|stored| - 1] + [stored[|stored| - 1]];
    }
  }

  /** `picks` are the places in `stored` at which the entries of `some` are found, from front to back. */
  ghost predicate PickedFrom(stored: seq<Relationship>, some: seq<Relationship>, picks: seq<nat>) {
    && |picks| == |some|
    && (forall k :: 0 <= k < |picks| ==> picks[k] < |stored| && some[k] == stored[picks[k]])
    && forall j, k :: 0 <= j < k < |picks| ==> picks[j] < picks[k]
  }

  lemma {:induction false} DroppedIsPicked(plan: seq<Relationship>, stored: seq<Relationship>) returns (picks: seq<nat>)
    ensures PickedFrom(stored, Dropped(plan, stored), picks)
  {
    if stored == [] {
      picks := [];
    } else {
      var n := |stored| - 1;
      picks := DroppedIsPicked(plan, stored[..n]);
      picks := PickedOneMore(stored, n, Dropped(plan, stored[..n]), picks, KeyOf(stored[n]) !in Keys(plan));
    }
  }

  lemma PickedOneMore(stored: seq<Relationship>, n: nat, some: seq<Relationship>, picks: seq<nat>, kept: bool)
    returns (more: seq<nat>)
    requires |stored| == n + 1 && PickedFrom(stored[..n], some, picks)
    ensures PickedFrom(stored, some + if kept then [stored[n]] else [], more)
  {
    more := picks + if kept then [n] else [];
  }

  /**
    The list between the phases: the plan's list comes first; then every stored entry whose type and target left the
    plan, as often as it was stored, and in the stored order.
   */
  ghost predicate IsInterim(plan: seq<Relationship>, stored: seq<Relationship>, r: seq<Relationship>) {
    && plan <= r
    && (forall e :: multiset(r)[e] == multiset(plan)[e] + if KeyOf(e) in Keys(plan) then 0 else multiset(stored)[e])
    && exists picks :: PickedFrom(stored, r[|plan|..], picks)
  }

  lemma InterimIsKept(plan: seq<Relationship>, stored: seq<Relationship>)
    ensures IsInterim(plan, stored, plan + Dropped(plan, stored))
  {
    var r := plan + Dropped(plan, stored);
    assert r[|plan|..] == Dropped(plan, stored);
    var picks := DroppedIsPicked(plan, stored);
    forall e { DroppedKeepsEveryOccurrence(plan, stored, e); }
  }

  /** Each changed attribute is the plan's, but for the relationships, which keep what left the plan. */
  ghost predicate AttributesWritten(before: Node, plan: Node, changed: set<Attribute>, after: Node) {
    && after.ntype == before.ntype
    && after.operations == (if Operations in changed then plan.operations else before.operations)
    && after.properties == (if Properties in changed then plan.properties else before.properties)
    && (if Relationships in changed then IsInterim(plan.relationships, before.relationships, after.relationships)
        else after.relationships == before.relationships)
  }

  /** What is stored after the first phase: new nodes as planned, and of the others the changed attributes. */
  ghost predicate FirstPhaseStored(before: Nodes, plan: Nodes, changes: Changes, added: set<string>, after: Nodes) {
    && after.Keys == before.Keys + added
    && (forall n :: n in added ==> n in plan && n in after && after[n] == plan[n])
    && (forall n :: n in before && n !in changes ==> n in after && after[n] == before[n])
    && (forall n :: n in before && n in changes ==>
          n in plan && n in after && AttributesWritten(before[n], plan[n], changes[n], after[n]))
  }

  /** What is stored after the last phase: the plan's list where relationships changed, and no removed node. */
  ghost predicate LastPhaseStored(before: Nodes, plan: Nodes, changes: Changes, removed: set<string>, after: Nodes) {
    && after.Keys == before.Keys - removed
    && forall n :: n in after ==>
         if n in changes && Relationships in changes[n]
         then n in plan && after[n] == before[n].(relationships := plan[n].relationships)
         else after[n] == before[n]
  }

  /** What a first phase that raises leaves behind: each node is as it was, or its changes are written. */
  ghost predicate PartlyStored(before: Nodes, plan: Nodes, changes: Changes, after: Nodes) {
    && after.Keys == before.Keys
    && forall n :: n in before && n in after ==>
         || after[n] == before[n]
         || (n in changes && n in plan && AttributesWritten(before[n], plan[n], changes[n], after[n]))
  }

  lemma PartIsStored(before: Nodes, plan: Nodes, changes: Changes, todo: set<string>, after: Nodes)
    requires after.Keys == before.Keys && changes.Keys - todo <= plan.Keys
    requires forall n :: n in after ==>
      after[n] == if n in changes && n !in todo then WithAttributes(before[n], plan[n], changes[n]) else before[n]
    ensures PartlyStored(before, plan, changes, after)
  {
    forall n | n in after && n in changes && n !in todo ensures AttributesWritten(before[n], plan[n], changes[n], after[n]) {
      AttributesAreWritten(before[n], plan[n], changes[n]);
    }
  }

  lemma AttributesAreWritten(before: Node, plan: Node, changed: set<Attribute>)
    ensures AttributesWritten(before, plan, changed, WithAttributes(before, plan, changed))
  {
    InterimIsKept(plan.relationships, before.relationships);
  }

  lemma PerformedIsStored(before: Nodes, plan: Nodes, changes: Changes, added: set<string>)
    requires CanPerform(before, plan, changes, added)
    ensures FirstPhaseStored(before, plan, changes, added, Performed(before, plan, changes, added))
  {
    var after := Performed(before, plan, changes, added);
    forall n | n in before && n in changes ensures AttributesWritten(before[n], plan[n], changes[n], after[n]) {
      AttributesAreWritten(before[n], plan[n], changes[n]);
    }
  }

  /** The nodes of one deployment, as they are stored. */
  class DeploymentNodes {
    var nodes: Nodes

    constructor (initial: Nodes)
      ensures nodes == initial
    {
      nodes := initial;
    }

    /** Writes the changed attributes; stops (false) at a node that the plan or the storage does not have. */
    method WriteChanges(plan: Nodes, changes: Changes) returns (ok: bool)
      modifies this
      ensures ok <==> changes.Keys <= plan.Keys && changes.Keys <= old(nodes).Keys
      ensures ok ==> nodes == Performed(old(nodes), plan, changes, {})
      ensures !ok ==> PartlyStored(old(nodes), plan, changes, nodes)
    {
      ghost var before := nodes;
      var todo := changes.Keys;
      while todo != {}
        invariant todo <= changes.Keys
        invariant nodes.Keys == before.Keys
        invariant changes.Keys - todo <= plan.Keys && changes.Keys - todo <= before.Keys
        invariant forall n :: n in nodes ==>
          nodes[n] == if n in changes && n !in todo then WithAttributes(before[n], plan[n], changes[n]) else before[n]
      {
        var name :| name in todo;
        if name !in plan || name !in nodes {
          PartIsStored(before, plan, changes, todo, nodes);
          return false;
        }
        var updated := UpdateAttributes(nodes[name], plan[name], changes[name]);
        nodes := nodes[name := updated];
        todo := todo - {name};
      }
      ok := true;
    }

    /** First phase. It raises (returns false) on a node that the plan or the storage does not have. */
    method UpdateDeploymentNodes(plan: Nodes, changes: Changes, added: set<string>) returns (ok: bool)
      modifies this
      ensures ok <==> CanPerform(old(nodes), plan, changes, added)
      ensures ok ==> nodes == Performed(old(nodes), plan, changes, added)
      ensures ok ==> FirstPhaseStored(old(nodes), plan, changes, added, nodes)
      ensures !ok ==> PartlyStored(old(nodes), plan, changes, nodes)
    {
      ok := WriteChanges(plan, changes);
      if ok {
        if !(added <= plan.Keys) || added * nodes.Keys != {} {
          PartIsStored(old(nodes), plan, changes, {}, nodes);
          return false;
        }
        nodes := nodes + map n | n in added :: plan[n];
        PerformedIsStored(old(nodes), plan, changes, added);
      }
    }

    /** Last phase: relationship lists become the plan's, and removed nodes are deleted. */
    method FinishDeploymentNodes(plan: Nodes, changes: Changes, removed: set<string>)
      requires CanFinish(nodes, plan, changes, removed)
      modifies this
      ensures nodes == Finished(old(nodes), plan, changes, removed)
      ensures LastPhaseStored(old(nodes), plan, changes, removed, nodes)
    {
      ghost var before := nodes;
      var todo := changes.Keys;
      while todo != {}
        invariant todo <= changes.Keys
        invariant nodes.Keys == before.Keys
        invariant forall n :: n in nodes ==>
          nodes[n] == if n !in todo && Relationships in At(changes, n)
                      then before[n].(relationships := plan[n].relationships) else before[n]
      {
        var name :| name in todo;
        if Relationships in changes[name] {
          nodes := nodes[name := nodes[name].(relationships := plan[name].relationships)];
        }
        todo := todo - {name};
      }
      nodes := nodes - removed;
    }
  }

  /** The whole update of the node storage, from the stored list of steps. It refuses unsupported steps. */
  method RunUpdate(storage: DeploymentNodes, plan: Nodes, steps: seq<Step>) returns (ok: bool)
    requires IsListing(steps, plan, storage.nodes)
    modifies storage
    ensures ok <==> AllSupported(plan, old(storage.nodes))
    ensures !ok ==> storage.nodes == old(storage.nodes)
    ensures ok ==> (Converged(plan, storage.nodes) <==> AllOperationsVisible(plan, old(storage.nodes)))
  {
    if exists s :: s in steps && !s.supported {
      return false;
    }
    var changes := ModifiedAttributes(steps);
    var added := NodesOf(Add, steps);
    var removed := NodesOf(Remove, steps);
    UpdateConverges(plan, storage.nodes, steps, changes);
    ok := storage.UpdateDeploymentNodes(plan, changes, added);
    storage.FinishDeploymentNodes(plan, changes, removed);
  }

  // ----- convergence -----

  ghost predicate AllSupported(plan: Nodes, stored: Nodes) {
    forall s :: IsStep(plan, stored, s) ==> s.supported
  }

  /** A stored list of steps, in any order. */
  ghost predicate IsListing(steps: seq<Step>, plan: Nodes, stored: Nodes) {
    forall s :: s in steps <==> IsStep(plan, stored, s)
  }

  /** Some changed operation of the node leaves a step whose entity id does not mention `relationships`. */
  ghost predicate OperationsVisible(name: string, plan: Node, stored: Node) {
    Known(plan.operations) == Known(stored.operations) || ShowsOperationChange(name, plan, stored)
  }

  ghost predicate ShowsOperationChange(name: string, plan: Node, stored: Node) {
    && name != "relationships"
    && exists k :: Differs(Known(plan.operations), Known(stored.operations), k) && k != "relationships"
  }

  ghost predicate AllOperationsVisible(plan: Nodes, stored: Nodes) {
    forall n :: n in plan && n in stored ==> OperationsVisible(n, plan[n], stored[n])
  }

  ghost predicate Converged(plan: Nodes, final: Nodes) {
    && final.Keys == plan.Keys
    && forall n :: n in plan ==> final[n].ntype == plan[n].ntype && SameNode(plan[n], final[n])
  }

  lemma ReplacedIsUnsupported(plan: Nodes, stored: Nodes, n: string)
    requires n in plan && n in stored && Replaced(plan[n], stored[n])
    ensures !AllSupported(plan, stored)
  {
    assert IsStep(plan, stored, WholeNode(Modify, n, false));
  }

  lemma InnerOperationPath(s: Step)
    requires s.entity.OperationEntity? && s.id.OfRelationshipDict?
    ensures Touched(s) == Some(Relationships)
  {
    assert s.id.Parts()[2] == Name("relationships");
  }

  lemma OperationPath(n: string, k: string)
    ensures Name("relationships") in OfAttribute(n, "operations", k).Parts() <==> n == "relationships" || k == "relationships"
  {
    assert |"nodes"| == 5 && |"operations"| == 10 && |"relationships"| == 13;
    var parts := OfAttribute(n, "operations", k).Parts();
    assert parts[1] == Name(n) && parts[3] == Name(k);
  }

  ghost predicate HasNodeSteps(steps: seq<Step>, n: string, p: Node, o: Node) {
    forall s :: s in steps && s.id.node == n <==> IsNodeStep(n, p, o, s)
  }

  /** What the recorded changes of a node present on both sides say about its fields. */
  lemma ChangesOfNode(steps: seq<Step>, n: string, p: Node, o: Node)
    requires HasNodeSteps(steps, n, p, o)
    requires forall s :: IsNodeStep(n, p, o, s) ==> s.supported
    ensures var touched := TouchedAttributes(steps, n);
            && (Properties !in touched ==> Known(p.properties) == Known(o.properties))
            && (Relationships !in touched ==> SameRelationships(p.relationships, o.relationships))
            && (Operations in touched <==> ShowsOperationChange(n, p, o))
  {
    PropertyChanges(steps, n, p, o);
    RelationshipChanges(steps, n, p, o);
    OperationChanges(steps, n, p, o);
  }

  lemma PropertyChanges(steps: seq<Step>, n: string, p: Node, o: Node)
    requires HasNodeSteps(steps, n, p, o)
    ensures Properties !in TouchedAttributes(steps, n) ==> Known(p.properties) == Known(o.properties)
  {
    DictStepsIffDifferent(n, "properties", PropertyEntity, p.properties, o.properties);
    if s :| IsDictStep(n, "properties", PropertyEntity, p.properties, o.properties, s) {
      assert IsNodeStep(n, p, o, s);
      assert Touched(s) == Some(Properties);
    }
  }

  lemma RelationshipChanges(steps: seq<Step>, n: string, p: Node, o: Node)
    requires HasNodeSteps(steps, n, p, o) && forall s :: IsNodeStep(n, p, o, s) ==> s.supported
    ensures Relationships !in TouchedAttributes(steps, n) ==> SameRelationships(p.relationships, o.relationships)
  {
    if s :| IsRelationshipStep(n, p.relationships, o.relationships, s) {
      assert IsNodeStep(n, p, o, s);
      if s.entity.OperationEntity? {
        InnerOperationPath(s);
      }
      assert Touched(s) == Some(Relationships);
    } else {
      NoStepsMeansSameList(n, p.relationships, o.relationships);
    }
  }

  lemma OperationChanges(steps: seq<Step>, n: string, p: Node, o: Node)
    requires HasNodeSteps(steps, n, p, o)
    ensures Operations in TouchedAttributes(steps, n) <==> ShowsOperationChange(n, p, o)
  {
    var ps, os := Known(p.operations), Known(o.operations);
    if k :| Differs(ps, os, k) && n != "relationships" && k != "relationships" {
      var s := Step(ActionOn(ps, os, k), OperationEntity, OfAttribute(n, "operations", k), true);
      assert IsDictStep(n, "operations", OperationEntity, p.operations, o.operations, s);
      assert IsNodeStep(n, p, o, s);
      OperationPath(n, k);
      assert Touched(s) == Some(Operations);
    }
    if Operations in TouchedAttributes(steps, n) {
      var s :| s in steps && s.id.node == n && Touched(s) == Some(Operations);
      assert IsNodeStep(n, p, o, s);
      if IsRelationshipStep(n, p.relationships, o.relationships, s) {
        InnerOperationPath(s);
      } else {
        OperationPath(n, s.id.key);
      }
    }
  }

  lemma ChangesOnlyOnCommonNodes(plan: Nodes, stored: Nodes, steps: seq<Step>, n: string)
    requires IsListing(steps, plan, stored)
    ensures TouchedAttributes(steps, n) != {} ==> n in plan && n in stored
    ensures n in NodesWith(Add, steps) <==> n in plan && n !in stored
    ensures n in NodesWith(Remove, steps) <==> n !in plan && n in stored
  {
    if n in plan && n !in stored {
      assert IsStep(plan, stored, WholeNode(Add, n, true));
      assert WholeNode(Add, n, true) in steps;
    }
    if n !in plan && n in stored {
      assert IsStep(plan, stored, WholeNode(Remove, n, true));
      assert WholeNode(Remove, n, true) in steps;
    }
  }

  /** A node present on both sides, after both phases. */
  function FinalNode(node: Node, plan: Node, changed: set<Attribute>): Node {
    var updated := WithAttributes(node, plan, changed);
    if Relationships in changed then updated.(relationships := plan.relationships) else updated
  }

  lemma StepsOfNode(plan: Nodes, stored: Nodes, steps: seq<Step>, n: string)
    requires n in plan && n in stored
    requires IsListing(steps, plan, stored) && AllSupported(plan, stored)
    ensures !Replaced(plan[n], stored[n]) && HasNodeSteps(steps, n, plan[n], stored[n])
    ensures forall s :: IsNodeStep(n, plan[n], stored[n], s) ==> s.supported
  {
    if Replaced(plan[n], stored[n]) {
      ReplacedIsUnsupported(plan, stored, n);
    }
    forall s | IsNodeStep(n, plan[n], stored[n], s) ensures IsStep(plan, stored, s) {}
    forall s | s in steps && s.id.node == n ensures IsNodeStep(n, plan[n], stored[n], s) {
      assert IsStep(plan, stored, s);
    }
  }

  lemma NodeConverges(plan: Nodes, stored: Nodes, steps: seq<Step>, n: string)
    requires n in plan && n in stored
    requires IsListing(steps, plan, stored) && AllSupported(plan, stored)
    ensures var final := FinalNode(stored[n], plan[n], TouchedAttributes(steps, n));
            final.ntype == plan[n].ntype && (SameNode(plan[n], final) <==> OperationsVisible(n, plan[n], stored[n]))
  {
    StepsOfNode(plan, stored, steps, n);
    ChangesOfNode(steps, n, plan[n], stored[n]);
  }

  function FinalNodes(plan: Nodes, stored: Nodes, changes: Changes): Nodes {
    map n | n in plan :: if n in stored then FinalNode(stored[n], plan[n], At(changes, n)) else plan[n]
  }

  lemma TwoPhases(plan: Nodes, stored: Nodes, changes: Changes)
    requires changes.Keys <= plan.Keys && changes.Keys <= stored.Keys
    ensures Finished(Performed(stored, plan, changes, plan.Keys - stored.Keys), plan, changes, stored.Keys - plan.Keys)
         == FinalNodes(plan, stored, changes)
  {
    var performed := Performed(stored, plan, changes, plan.Keys - stored.Keys);
    var finished := Finished(performed, plan, changes, stored.Keys - plan.Keys);
    assert performed.Keys == stored.Keys + plan.Keys;
    assert finished.Keys == plan.Keys;
    forall n | n in plan ensures finished[n] == FinalNodes(plan, stored, changes)[n] {}
  }

  /** Steps that list the whole difference give both phases what they need. */
  lemma PhasesGoThrough(plan: Nodes, stored: Nodes, steps: seq<Step>, changes: Changes)
    requires IsListing(steps, plan, stored) && AreChanges(changes, steps)
    ensures NodesWith(Add, steps) == plan.Keys - stored.Keys
    ensures NodesWith(Remove, steps) == stored.Keys - plan.Keys
    ensures changes.Keys <= plan.Keys && changes.Keys <= stored.Keys
  {
    forall n { ChangesOnlyOnCommonNodes(plan, stored, steps, n); }
    forall n | n in changes ensures n in plan && n in stored {
      assert At(changes, n) == TouchedAttributes(steps, n);
    }
  }

  lemma FinalNodesConverge(plan: Nodes, stored: Nodes, steps: seq<Step>, changes: Changes)
    requires IsListing(steps, plan, stored) && AllSupported(plan, stored) && AreChanges(changes, steps)
    ensures Converged(plan, FinalNodes(plan, stored, changes)) <==> AllOperationsVisible(plan, stored)
  {
    var final := FinalNodes(plan, stored, changes);
    forall n | n in plan
      ensures final[n].ntype == plan[n].ntype
      ensures SameNode(plan[n], final[n]) <==> (n in stored ==> OperationsVisible(n, plan[n], stored[n]))
    {
      if n in stored {
        NodeConverges(plan, stored, steps, n);
        assert At(changes, n) == TouchedAttributes(steps, n);
      }
    }
  }

  /**
    The update converges. From steps that list the whole difference, in any
    order and all of them supported, both phases go through, and the stored
    nodes then equal the plan on every compared field, if and only if no
    node's operation changes are hidden behind the name `relationships`.
   */
  lemma UpdateConverges(plan: Nodes, stored: Nodes, steps: seq<Step>, changes: Changes)
    requires IsListing(steps, plan, stored) && AllSupported(plan, stored)
    requires AreChanges(changes, steps)
    ensures CanPerform(stored, plan, changes, NodesWith(Add, steps))
    ensures var performed := Performed(stored, plan, changes, NodesWith(Add, steps));
            && CanFinish(performed, plan, changes, NodesWith(Remove, steps))
            && (Converged(plan, Finished(performed, plan, changes, NodesWith(Remove, steps)))
                <==> AllOperationsVisible(plan, stored))
  {
    PhasesGoThrough(plan, stored, steps, changes);
    TwoPhases(plan, stored, changes);
    FinalNodesConverge(plan, stored, steps, changes);
  }

  const STORED_NODES: Nodes := map["a" := Node("t", Some(map["relationships" := "x"]), None, [])]

  const PLAN_NODES: Nodes := map["a" := Node("t", Some(map["relationships" := "y"]), None, [])]

  const HIDDEN_STEP := Step(Modify, OperationEntity, OfAttribute("a", "operations", "relationships"), true)

  const HIDDEN_CHANGES: Changes := map["a" := {Relationships}]

  lemma HiddenStepIsAll()
    ensures IsListing([HIDDEN_STEP], PLAN_NODES, STORED_NODES) && AreChanges(HIDDEN_CHANGES, [HIDDEN_STEP])
  {
    forall s ensures s in [HIDDEN_STEP] <==> IsStep(PLAN_NODES, STORED_NODES, s) {}
    forall n ensures At(HIDDEN_CHANGES, n) == TouchedAttributes([HIDDEN_STEP], n) {
      OperationPath("a", "relationships");
      TouchedByOneMore([], HIDDEN_STEP, n);
      assert [] + [HIDDEN_STEP] == [HIDDEN_STEP];
    }
  }

  lemma HiddenStepIsSupported()
    ensures AllSupported(PLAN_NODES, STORED_NODES)
  {
    HiddenStepIsAll();
    forall s | IsStep(PLAN_NODES, STORED_NODES, s) ensures s.supported {
      assert s in [HIDDEN_STEP];
    }
  }

  /**
    A supported update that does not converge: the changed operation is itself
    called `relationships`. Both phases go through and change nothing.
   */
  lemma HiddenOperationExample()
    ensures IsListing([HIDDEN_STEP], PLAN_NODES, STORED_NODES) && AllSupported(PLAN_NODES, STORED_NODES)
    ensures AreChanges(HIDDEN_CHANGES, [HIDDEN_STEP])
    ensures NodesWith(Add, [HIDDEN_STEP]) == NodesWith(Remove, [HIDDEN_STEP]) == {}
    ensures Finished(Performed(STORED_NODES, PLAN_NODES, HIDDEN_CHANGES, {}), PLAN_NODES, HIDDEN_CHANGES, {}) == STORED_NODES
    ensures !Converged(PLAN_NODES, STORED_NODES)
  {
    HiddenStepIsAll();
    HiddenStepIsSupported();
    assert PLAN_NODES["a"].operations.value["relationships"] == "y";
    assert STORED_NODES["a"].operations.value["relationships"] == "x";
  }
}
