/**
  The steps of a deployment update, one form of entity at a time: for each form of step, the exact condition on the
  stored nodes and the nodes of the plan under which it is extracted.
 */
module StepForms {
  import opened Options
  import opened Occurrences
  import opened StepExtractor

  /** The first containment relationship is at `i`. */
  predicate ContainedAt(rels: seq<Relationship>, i: nat) {
    && i < |rels| && CONTAINED_IN in rels[i].hierarchy
    && forall j: nat :: j < i ==> CONTAINED_IN !in rels[j].hierarchy
  }

  /** Both are contained in the same node, or in none. */
  ghost predicate SameContainer(a: seq<Relationship>, b: seq<Relationship>) {
    || ((forall i: nat :: !ContainedAt(a, i)) && forall i: nat :: !ContainedAt(b, i))
    || exists i: nat, j: nat :: ContainedAt(a, i) && ContainedAt(b, j) && a[i].target == b[j].target
  }

  /** The node is on both sides, of the same type and in the same container, so it is compared part by part. */
  ghost predicate IsCompared(plan: map<string, Node>, stored: map<string, Node>, n: string) {
    && n in plan && n in stored && plan[n].ntype == stored[n].ntype
    && SameContainer(plan[n].relationships, stored[n].relationships)
  }

  /** The key is only in the plan, only stored, or has different values. */
  predicate ChangesKey(action: Action, plan: Option<Dict>, stored: Option<Dict>, k: string) {
    var inPlan, isStored := plan.Some? && k in plan.value, stored.Some? && k in stored.value;
    match action
    case Add => inPlan && !isStored
    case Remove => isStored && !inPlan
    case Modify => inPlan && isStored && plan.value[k] != stored.value[k]
  }

  /** The entries are of the same key, and have equally many entries of that key before them. */
  predicate ArePaired(plan: seq<Relationship>, stored: seq<Relationship>, j: nat, i: nat) {
    && j < |plan| && i < |stored| && KeyOf(plan[j]) == KeyOf(stored[i])
    && Before(Keys(plan), j, KeyOf(plan[j])) == Before(Keys(stored), i, KeyOf(stored[i]))
  }

  /** A step for the whole node. It cannot change its type or its container. */
  ghost predicate IsWholeStep(plan: map<string, Node>, stored: map<string, Node>, s: Step) {
    && s.id.OfNode? && s.entity.NodeEntity?
    && match s.action
       case Add => s.id.node in plan && s.id.node !in stored && s.supported
       case Remove => s.id.node in stored && s.id.node !in plan && s.supported
       case Modify => s.id.node in plan && s.id.node in stored && !IsCompared(plan, stored, s.id.node) && !s.supported
  }

  /** An operation or a property of the node. */
  predicate IsAttributeStep(plan: Node, stored: Node, s: Step) {
    && s.id.OfAttribute? && s.supported
    && ((s.id.attribute == "operations" && s.entity.OperationEntity?
           && ChangesKey(s.action, plan.operations, stored.operations, s.id.key))
        || (s.id.attribute == "properties" && s.entity.PropertyEntity?
           && ChangesKey(s.action, plan.properties, stored.properties, s.id.key)))
  }

  /** A relationship that is new, or gone: no entry of the other side is paired with it. */
  ghost predicate IsEntryStep(plan: seq<Relationship>, stored: seq<Relationship>, s: Step) {
    && s.id.OfRelationship? && s.entity.RelationshipEntity? && s.supported
    && match s.action
       case Add => s.id.index < |plan| && forall i: nat :: !ArePaired(plan, stored, s.id.index, i)
       case Remove => s.id.index < |stored| && forall j: nat :: !ArePaired(plan, stored, j, s.id.index)
       case Modify => false
  }

  /** A relationship that is paired with an entry at another place. */
  predicate IsMoveStep(plan: seq<Relationship>, stored: seq<Relationship>, s: Step) {
    && s.id.OfMove? && s.entity.RelationshipEntity? && s.supported && s.action.Modify?
    && ArePaired(plan, stored, s.id.index, s.id.source) && s.id.index != s.id.source
  }

  /** An operation or a property of paired relationships; their properties cannot be changed. */
  predicate IsPartStep(plan: Relationship, stored: Relationship, s: Step) {
    && s.id.OfRelationshipDict?
    && ((s.id.attribute == "source_operations" && s.entity.OperationEntity? && s.supported
           && ChangesKey(s.action, plan.sourceOperations, stored.sourceOperations, s.id.key))
        || (s.id.attribute == "target_operations" && s.entity.OperationEntity? && s.supported
           && ChangesKey(s.action, plan.targetOperations, stored.targetOperations, s.id.key))
        || (s.id.attribute == "properties" && s.entity.PropertyEntity? && !s.supported
           && ChangesKey(s.action, plan.properties, stored.properties, s.id.key)))
  }

  ghost predicate IsPairedPartStep(plan: seq<Relationship>, stored: seq<Relationship>, s: Step) {
    && s.id.OfRelationshipDict?
    && exists i: nat :: ArePaired(plan, stored, s.id.index, i) && IsPartStep(plan[s.id.index], stored[i], s)
  }

  ghost predicate IsListStep(plan: seq<Relationship>, stored: seq<Relationship>, s: Step) {
    IsEntryStep(plan, stored, s) || IsMoveStep(plan, stored, s) || IsPairedPartStep(plan, stored, s)
  }

  /** A step for a part of the node. */
  ghost predicate IsPartOfNode(plan: Node, stored: Node, s: Step) {
    IsAttributeStep(plan, stored, s) || IsListStep(plan.relationships, stored.relationships, s)
  }

  ghost predicate IsExpected(plan: map<string, Node>, stored: map<string, Node>, s: Step) {
    || IsWholeStep(plan, stored, s)
    || (IsCompared(plan, stored, s.id.node) && IsPartOfNode(plan[s.id.node], stored[s.id.node], s))
  }

  // ----- the extracted steps have these forms -----

  lemma {:induction false} ContainerIff(rels: seq<Relationship>)
    ensures Container(rels).None? <==> forall i: nat :: !ContainedAt(rels, i)
    ensures Container(rels).Some? ==> exists i: nat :: ContainedAt(rels, i) && Container(rels) == Some(rels[i].target)
  {
    if rels != [] {
      ContainerIff(rels[1..]);
      if CONTAINED_IN in rels[0].hierarchy {
        assert ContainedAt(rels, 0);
      } else {
        ContainedInRest(rels);
      }
    }
  }

  lemma ContainedInRest(rels: seq<Relationship>)
    requires rels != [] && CONTAINED_IN !in rels[0].hierarchy
    ensures forall i: nat :: ContainedAt(rels[1..], i) ==> ContainedAt(rels, i + 1)
    ensures forall i: nat :: ContainedAt(rels, i) ==> i > 0 && ContainedAt(rels[1..], i - 1)
  {
    forall i: nat | ContainedAt(rels[1..], i) ensures ContainedAt(rels, i + 1) {
      forall j: nat | 0 < j < i + 1 ensures rels[j] == rels[1..][j - 1] {}
    }
    forall i: nat | ContainedAt(rels, i) ensures i > 0 && ContainedAt(rels[1..], i - 1) {
      forall j: nat | j < i - 1 ensures rels[1..][j] == rels[j + 1] {}
    }
  }

  lemma SameContainerIff(a: seq<Relationship>, b: seq<Relationship>)
    ensures SameContainer(a, b) <==> Container(a) == Container(b)
  {
    ContainerIff(a);
    ContainerIff(b);
    forall i: nat, j: nat | ContainedAt(a, i) && ContainedAt(a, j) ensures i == j {}
    forall i: nat, j: nat | ContainedAt(b, i) && ContainedAt(b, j) ensures i == j {}
  }

  lemma PairedIff(plan: seq<Relationship>, stored: seq<Relationship>, j: nat, i: nat)
    requires j < |plan|
    ensures ArePaired(plan, stored, j, i) <==> Match(Keys(plan), j, Keys(stored)) == Some(i)
  {
    if ArePaired(plan, stored, j, i) {
      KthIsFound(Keys(stored), KeyOf(plan[j]), Before(Keys(plan), j, KeyOf(plan[j])), i);
    }
  }

  lemma AttributeIff(node: string, plan: Node, stored: Node, s: Step)
    requires s.id.node == node
    ensures IsAttributeStep(plan, stored, s) <==>
      || IsDictStep(node, "operations", OperationEntity, plan.operations, stored.operations, s)
      || IsDictStep(node, "properties", PropertyEntity, plan.properties, stored.properties, s)
  {
  }

  lemma PartIff(node: string, j: nat, plan: Relationship, stored: Relationship, s: Step)
    requires s.id.node == node && s.id.OfRelationshipDict? && s.id.index == j
    ensures IsPartStep(plan, stored, s) <==> IsInnerStep(node, j, plan, stored, s)
  {
  }

  lemma EntryIff(node: string, plan: seq<Relationship>, stored: seq<Relationship>, s: Step)
    requires s.id.node == node && s.id.OfRelationship?
    ensures IsEntryStep(plan, stored, s) <==> IsRelationshipStep(node, plan, stored, s)
  {
    var i := s.id.index;
    AddedAreUnmatched(node, plan, stored, i);
    RemovedAreUnmatched(node, plan, stored, i);
    forall k: nat | i < |plan| ensures ArePaired(plan, stored, i, k) <==> Match(Keys(plan), i, Keys(stored)) == Some(k) {
      PairedIff(plan, stored, i, k);
    }
    forall j: nat | j < |plan| ensures ArePaired(plan, stored, j, i) <==> Match(Keys(plan), j, Keys(stored)) == Some(i) {
      PairedIff(plan, stored, j, i);
    }
  }

  lemma MoveIff(node: string, plan: seq<Relationship>, stored: seq<Relationship>, s: Step)
    requires s.id.node == node && s.id.OfMove?
    ensures IsMoveStep(plan, stored, s) <==> IsRelationshipStep(node, plan, stored, s)
  {
    MovedAreDisplaced(node, plan, stored, s.id.source, s.id.index);
    if s.id.index < |plan| {
      PairedIff(plan, stored, s.id.index, s.id.source);
    }
  }

  lemma PairedPartIff(node: string, plan: seq<Relationship>, stored: seq<Relationship>, s: Step)
    requires s.id.node == node && s.id.OfRelationshipDict?
    ensures IsPairedPartStep(plan, stored, s) <==> IsRelationshipStep(node, plan, stored, s)
  {
    var j := s.id.index;
    if j < |plan| {
      var m := Match(Keys(plan), j, Keys(stored));
      forall i: nat { PairedIff(plan, stored, j, i); }
      if m.Some? {
        PartIff(node, j, plan[j], stored[m.value], s);
      }
      assert IsStepAt(node, plan, stored, j, s) <==> IsPairedPartStep(plan, stored, s);
    }
  }

  lemma ListIff(node: string, plan: seq<Relationship>, stored: seq<Relationship>, s: Step)
    requires s.id.node == node
    ensures IsListStep(plan, stored, s) <==> IsRelationshipStep(node, plan, stored, s)
  {
    if s.id.OfRelationship? {
      EntryIff(node, plan, stored, s);
    } else if s.id.OfMove? {
      MoveIff(node, plan, stored, s);
    } else if s.id.OfRelationshipDict? {
      PairedPartIff(node, plan, stored, s);
    }
  }

  /** A step is extracted if and only if it is expected: every form of step has its exact condition. */
  lemma StepIff(plan: map<string, Node>, stored: map<string, Node>, s: Step)
    ensures IsStep(plan, stored, s) <==> IsExpected(plan, stored, s)
  {
    var n := s.id.node;
    if n in plan && n in stored {
      SameContainerIff(plan[n].relationships, stored[n].relationships);
      AttributeIff(n, plan[n], stored[n], s);
      ListIff(n, plan[n].relationships, stored[n].relationships, s);
    }
  }

  // ----- the stored form -----

  /** No two entities are stored under the same list of parts. */
  lemma PartsTellEntitiesApart(a: EntityId, b: EntityId)
    ensures a.Parts() == b.Parts() ==> a == b
  {
    if a.Parts() == b.Parts() {
      SameParts(a, b, 1);
      if |a.Parts()| > 3 {
        SameParts(a, b, 2);
        SameParts(a, b, 3);
      }
      if |a.Parts()| > 4 {
        SameParts(a, b, 4);
      }
      if |a.Parts()| > 5 {
        SameParts(a, b, 5);
      }
    }
  }

  lemma SameParts(a: EntityId, b: EntityId, i: nat)
    requires a.Parts() == b.Parts() && i < |a.Parts()|
    ensures a.Parts()[i] == b.Parts()[i]
  {
  }
}
