/**
  Deployment update, step extraction: the difference between the stored nodes
  and the nodes of the new plan, as a set of steps.
 */
module StepExtractor {
  import opened Options
  import opened Occurrences

  type Dict = map<string, string>

  /** A relationship of a node; a missing dictionary is `None`. */
  datatype Relationship = Relationship(
    rtype: string,
    target: string,
    hierarchy: seq<string>,
    sourceOperations: Option<Dict>,
    targetOperations: Option<Dict>,
    properties: Option<Dict>)

  datatype Node = Node(
    ntype: string,
    operations: Option<Dict>,
    properties: Option<Dict>,
    relationships: seq<Relationship>)

  datatype Action = Add | Remove | Modify
  datatype Entity = NodeEntity | RelationshipEntity | OperationEntity | PropertyEntity
  datatype PathPart = Name(name: string) | Index(index: nat)

  /** What a step is about. `Parts` is the list form in which it is stored. */
  datatype EntityId =
    | OfNode(node: string)
    | OfAttribute(node: string, attribute: string, key: string)
    | OfRelationship(node: string, index: nat)
    | OfMove(node: string, source: nat, index: nat)
    | OfRelationshipDict(node: string, index: nat, attribute: string, key: string)
  {
    function Parts(): seq<PathPart> {
      match this
      case OfNode(_) => [Name("nodes"), Name(node)]
      case OfAttribute(_, _, _) => [Name("nodes"), Name(node), Name(attribute), Name(key)]
      case OfRelationship(_, _) => [Name("nodes"), Name(node), Name("relationships"), Index(index)]
      case OfMove(_, _, _) => [Name("nodes"), Name(node), Name("relationships"), Index(source), Index(index)]
      case OfRelationshipDict(_, _, _, _) =>
        [Name("nodes"), Name(node), Name("relationships"), Index(index), Name(attribute), Name(key)]
    }
  }

  datatype Step = Step(action: Action, entity: Entity, id: EntityId, supported: bool)

  const CONTAINED_IN := "cloudify.relationships.contained_in"

  type Key = (string, string)

  function Known(d: Option<Dict>): Dict {
    if d.Some? then d.value else map[]
  }

  function KeyOf(r: Relationship): Key {
    (r.rtype, r.target)
  }

  function Keys(rels: seq<Relationship>): (r: seq<Key>)
    ensures |r| == |rels|
    ensures forall i :: 0 <= i < |rels| ==> r[i] == KeyOf(rels[i])
  {
    seq(|rels|, i requires 0 <= i < |rels| => KeyOf(rels[i]))
  }

  // ----- dictionaries -----

  predicate Differs(plan: Dict, stored: Dict, k: string) {
    (k in plan && k !in stored) || (k in stored && k !in plan) || (k in plan && k in stored && plan[k] != stored[k])
  }

  function ActionOn(plan: Dict, stored: Dict, k: string): Action {
    if k !in stored then Add else if k !in plan then Remove else Modify
  }

  /** Two dictionaries agree exactly when no key differs. */
  lemma NoKeyDiffers(plan: Dict, stored: Dict)
    ensures plan == stored <==> forall k :: !Differs(plan, stored, k)
  {
    if forall k :: !Differs(plan, stored, k) {
      assert forall k :: k in plan ==> !Differs(plan, stored, k);
      assert forall k :: k in stored ==> !Differs(plan, stored, k);
      assert plan.Keys == stored.Keys;
    }
  }

  // ----- steps -----

  function AddRelationship(node: string, j: nat): Step {
    Step(Add, RelationshipEntity, OfRelationship(node, j), true)
  }

  function RemoveRelationship(node: string, i: nat): Step {
    Step(Remove, RelationshipEntity, OfRelationship(node, i), true)
  }

  function MoveRelationship(node: string, i: nat, j: nat): Step {
    Step(Modify, RelationshipEntity, OfMove(node, i, j), true)
  }

  function WholeNode(action: Action, node: string, supported: bool): Step {
    Step(action, NodeEntity, OfNode(node), supported)
  }

  /** A step for one key of a node's dictionary. */
  predicate IsDictStep(node: string, attribute: string, entity: Entity,
                       plan: Option<Dict>, stored: Option<Dict>, s: Step) {
    && s.id.OfAttribute? && s.id.node == node && s.id.attribute == attribute
    && s.entity == entity && s.supported
    && Differs(Known(plan), Known(stored), s.id.key)
    && s.action == ActionOn(Known(plan), Known(stored), s.id.key)
  }

  /** A step for one key of a dictionary of relationship `j`. */
  predicate IsInnerDictStep(node: string, j: nat, attribute: string, entity: Entity, supported: bool,
                            plan: Option<Dict>, stored: Option<Dict>, s: Step) {
    && s.id.OfRelationshipDict? && s.id.node == node && s.id.index == j && s.id.attribute == attribute
    && s.entity == entity && s.supported == supported
    && Differs(Known(plan), Known(stored), s.id.key)
    && s.action == ActionOn(Known(plan), Known(stored), s.id.key)
  }

  /** A relationship found on both sides: its properties may not change, so those steps are unsupported. */
  predicate IsInnerStep(node: string, j: nat, plan: Relationship, stored: Relationship, s: Step) {
    || IsInnerDictStep(node, j, "source_operations", OperationEntity, true, plan.sourceOperations, stored.sourceOperations, s)
    || IsInnerDictStep(node, j, "target_operations", OperationEntity, true, plan.targetOperations, stored.targetOperations, s)
    || IsInnerDictStep(node, j, "properties", PropertyEntity, false, plan.properties, stored.properties, s)
  }

  /** A step for plan entry `j`, when the search in the stored list gave `found`. */
  predicate IsFoundStep(node: string, plan: seq<Relationship>, stored: seq<Relationship>, j: nat, found: Option<nat>, s: Step)
    requires j < |plan| && (found.Some? ==> found.value < |stored|)
  {
    match found
    case None => s == AddRelationship(node, j)
    case Some(i) => (i != j && s == MoveRelationship(node, i, j)) || IsInnerStep(node, j, plan[j], stored[i], s)
  }

  predicate IsStepAt(node: string, plan: seq<Relationship>, stored: seq<Relationship>, j: nat, s: Step)
    requires j < |plan|
  {
    IsFoundStep(node, plan, stored, j, Match(Keys(plan), j, Keys(stored)), s)
  }

  ghost predicate IsPlanStep(node: string, plan: seq<Relationship>, stored: seq<Relationship>, n: nat, s: Step)
    requires n <= |plan|
  {
    exists j: nat :: j < n && IsStepAt(node, plan, stored, j, s)
  }

  ghost predicate IsStoredStep(node: string, plan: seq<Relationship>, stored: seq<Relationship>, n: nat, s: Step)
    requires n <= |stored|
  {
    exists i: nat :: i < n && Match(Keys(stored), i, Keys(plan)).None? && s == RemoveRelationship(node, i)
  }

  ghost predicate IsRelationshipStep(node: string, plan: seq<Relationship>, stored: seq<Relationship>, s: Step) {
    IsPlanStep(node, plan, stored, |plan|, s) || IsStoredStep(node, plan, stored, |stored|, s)
  }

  ghost predicate IsNodeStep(node: string, plan: Node, stored: Node, s: Step) {
    || IsDictStep(node, "operations", OperationEntity, plan.operations, stored.operations, s)
    || IsRelationshipStep(node, plan.relationships, stored.relationships, s)
    || IsDictStep(node, "properties", PropertyEntity, plan.properties, stored.properties, s)
  }

  /** Target of the first containment relationship, if there is one. */
  function Container(rels: seq<Relationship>): Option<string> {
    if rels == [] then None
    else if CONTAINED_IN in rels[0].hierarchy then Some(rels[0].target)
    else Container(rels[1..])
  }

  predicate Replaced(plan: Node, stored: Node) {
    plan.ntype != stored.ntype || Container(plan.relationships) != Container(stored.relationships)
  }

  /** A step of the whole comparison. Every step names the node it belongs to. */
  ghost predicate IsStep(plan: map<string, Node>, stored: map<string, Node>, s: Step) {
    var n := s.id.node;
    if n in plan && n in stored then
      if Replaced(plan[n], stored[n]) then s == WholeNode(Modify, n, false)
      else IsNodeStep(n, plan[n], stored[n], s)
    else (n in plan && s == WholeNode(Add, n, true)) || (n in stored && s == WholeNode(Remove, n, true))
  }

  // ----- the extraction -----

  function DictSteps(node: string, attribute: string, entity: Entity,
                     plan: Option<Dict>, stored: Option<Dict>): (r: set<Step>)
    ensures forall s :: s in r <==> IsDictStep(node, attribute, entity, plan, stored, s)
  {
    var p, o := Known(plan), Known(stored);
    var r := set k | k in p.Keys + o.Keys && Differs(p, o, k) ::
      Step(ActionOn(p, o, k), entity, OfAttribute(node, attribute, k), true);
    assert forall s :: IsDictStep(node, attribute, entity, plan, stored, s) ==> s.id.key in p.Keys + o.Keys;
    r
  }

  function InnerDictSteps(node: string, j: nat, attribute: string, entity: Entity, supported: bool,
                          plan: Option<Dict>, stored: Option<Dict>): (r: set<Step>)
    ensures forall s :: s in r <==> IsInnerDictStep(node, j, attribute, entity, supported, plan, stored, s)
  {
    var p, o := Known(plan), Known(stored);
    var r := set k | k in p.Keys + o.Keys && Differs(p, o, k) ::
      Step(ActionOn(p, o, k), entity, OfRelationshipDict(node, j, attribute, k), supported);
    assert forall s :: IsInnerDictStep(node, j, attribute, entity, supported, plan, stored, s) ==> s.id.key in p.Keys + o.Keys;
    r
  }

  method InnerSteps(node: string, j: nat, plan: Relationship, stored: Relationship) returns (r: set<Step>)
    ensures forall s :: s in r <==> IsInnerStep(node, j, plan, stored, s)
  {
    r := InnerDictSteps(node, j, "source_operations", OperationEntity, true, plan.sourceOperations, stored.sourceOperations)
      + InnerDictSteps(node, j, "target_operations", OperationEntity, true, plan.targetOperations, stored.targetOperations)
      + InnerDictSteps(node, j, "properties", PropertyEntity, false, plan.properties, stored.properties);
  }

  /** Finds the relationship with the given key that follows `skip` earlier ones. */
  method FindRelationship(rels: seq<Relationship>, key: Key, skip: nat) returns (r: Option<nat>)
    ensures r.Some? ==> IsKth(Keys(rels), key, skip, r.value)
    ensures r.None? ==> Total(Keys(rels), key) <= skip
  {
    ghost var keys := Keys(rels);
    var left: nat := skip;
    for i := 0 to |rels|
      invariant left + Before(keys, i, key) == skip
    {
      if KeyOf(rels[i]) == key {
        if left == 0 {
          return Some(i);
        }
        left := left - 1;
      }
    }
    r := None;
  }

  ghost predicate IsCounter(seen: map<Key, nat>, keys: seq<Key>, n: nat)
    requires n <= |keys|
  {
    forall k :: (if k in seen then seen[k] else 0) == Before(keys, n, k)
  }

  method StepsForFound(node: string, plan: seq<Relationship>, stored: seq<Relationship>, j: nat, found: Option<nat>)
    returns (r: set<Step>)
    requires j < |plan| && (found.Some? ==> found.value < |stored|)
    ensures forall s :: s in r <==> IsFoundStep(node, plan, stored, j, found, s)
  {
    if found.None? {
      return {AddRelationship(node, j)};
    }
    r := InnerSteps(node, j, plan[j], stored[found.value]);
    if found.value != j {
      r := r + {MoveRelationship(node, found.value, j)};
    }
  }

  /** First pass: every relationship of the plan, with a running counter per key. */
  method DiffPlanRelationships(node: string, plan: seq<Relationship>, stored: seq<Relationship>)
    returns (steps: set<Step>)
    ensures forall s :: s in steps <==> IsPlanStep(node, plan, stored, |plan|, s)
  {
    steps := {};
    var seen: map<Key, nat> := map[];
    for j := 0 to |plan|
      invariant forall s :: s in steps <==> IsPlanStep(node, plan, stored, j, s)
      invariant IsCounter(seen, Keys(plan), j)
    {
      var key := KeyOf(plan[j]);
      var skip := if key in seen then seen[key] else 0;
      var found := FindRelationship(stored, key, skip);
      FoundIsMatch(plan, stored, j, skip, found);
      seen := seen[key := skip + 1];
      var more := StepsForFound(node, plan, stored, j, found);
      assert forall s :: s in more <==> IsStepAt(node, plan, stored, j, s);
      steps := steps + more;
    }
  }

  /** Second pass: every stored relationship that the plan no longer has. */
  method DiffStoredRelationships(node: string, plan: seq<Relationship>, stored: seq<Relationship>)
    returns (steps: set<Step>)
    ensures forall s :: s in steps <==> IsStoredStep(node, plan, stored, |stored|, s)
  {
    steps := {};
    var seen: map<Key, nat> := map[];
    for i := 0 to |stored|
      invariant forall s :: s in steps <==> IsStoredStep(node, plan, stored, i, s)
      invariant IsCounter(seen, Keys(stored), i)
    {
      var key := KeyOf(stored[i]);
      var skip := if key in seen then seen[key] else 0;
      var found := FindRelationship(plan, key, skip);
      FoundIsMatch(stored, plan, i, skip, found);
      seen := seen[key := skip + 1];
      if found.None? {
        steps := steps + {RemoveRelationship(node, i)};
      }
    }
  }

  lemma FoundIsMatch(s: seq<Relationship>, t: seq<Relationship>, i: nat, skip: nat, found: Option<nat>)
    requires i < |s| && skip == Before(Keys(s), i, KeyOf(s[i]))
    requires found.Some? ==> IsKth(Keys(t), KeyOf(s[i]), skip, found.value)
    requires found.None? ==> Total(Keys(t), KeyOf(s[i])) <= skip
    ensures found == Match(Keys(s), i, Keys(t))
  {
    if found.Some? {
      KthIsFound(Keys(t), KeyOf(s[i]), skip, found.value);
    }
  }

  method DiffNode(node: string, plan: Node, stored: Node) returns (steps: set<Step>)
    ensures forall s :: s in steps <==> IsNodeStep(node, plan, stored, s)
  {
    var added := DiffPlanRelationships(node, plan.relationships, stored.relationships);
    var removed := DiffStoredRelationships(node, plan.relationships, stored.relationships);
    steps := DictSteps(node, "operations", OperationEntity, plan.operations, stored.operations)
      + added + removed
      + DictSteps(node, "properties", PropertyEntity, plan.properties, stored.properties);
  }

  ghost predicate IsStepAmong(plan: map<string, Node>, stored: map<string, Node>, names: set<string>, s: Step) {
    s.id.node in names && IsStep(plan, stored, s)
  }

  /** The whole comparison: all plan nodes, then the stored nodes that the plan dropped. */
  method DiffNodes(plan: map<string, Node>, stored: map<string, Node>) returns (steps: set<Step>)
    ensures forall s :: s in steps <==> IsStep(plan, stored, s)
  {
    steps := {};
    var todo := plan.Keys + stored.Keys;
    while todo != {}
      invariant todo <= plan.Keys + stored.Keys
      invariant forall s :: s in steps <==> IsStepAmong(plan, stored, plan.Keys + stored.Keys - todo, s)
    {
      var n :| n in todo;
      todo := todo - {n};
      if n !in stored {
        steps := steps + {WholeNode(Add, n, true)};
      } else if n !in plan {
        steps := steps + {WholeNode(Remove, n, true)};
      } else if Replaced(plan[n], stored[n]) {
        steps := steps + {WholeNode(Modify, n, false)};
      } else {
        var more := DiffNode(n, plan[n], stored[n]);
        forall s | IsNodeStep(n, plan[n], stored[n], s) ensures s.id.node == n {}
        steps := steps + more;
      }
    }
  }

  // ----- properties -----

  /** The two relationships agree on everything the extractor compares. */
  predicate SameRelationship(a: Relationship, b: Relationship) {
    && KeyOf(a) == KeyOf(b)
    && Known(a.sourceOperations) == Known(b.sourceOperations)
    && Known(a.targetOperations) == Known(b.targetOperations)
    && Known(a.properties) == Known(b.properties)
  }

  predicate SameRelationships(a: seq<Relationship>, b: seq<Relationship>) {
    |a| == |b| && forall i :: 0 <= i < |a| ==> SameRelationship(a[i], b[i])
  }

  predicate SameNode(a: Node, b: Node) {
    && Known(a.operations) == Known(b.operations)
    && Known(a.properties) == Known(b.properties)
    && SameRelationships(a.relationships, b.relationships)
  }

  lemma DictStepsIffDifferent(node: string, attribute: string, entity: Entity, plan: Option<Dict>, stored: Option<Dict>)
    ensures (forall s :: !IsDictStep(node, attribute, entity, plan, stored, s)) <==> Known(plan) == Known(stored)
  {
    var p, o := Known(plan), Known(stored);
    NoKeyDiffers(p, o);
    if k :| Differs(p, o, k) {
      assert IsDictStep(node, attribute, entity, plan, stored,
                        Step(ActionOn(p, o, k), entity, OfAttribute(node, attribute, k), true));
    }
  }

  lemma InnerDictStepsIffDifferent(node: string, j: nat, attribute: string, entity: Entity, supported: bool,
                                   plan: Option<Dict>, stored: Option<Dict>)
    ensures (forall s :: !IsInnerDictStep(node, j, attribute, entity, supported, plan, stored, s))
       <==> Known(plan) == Known(stored)
  {
    var p, o := Known(plan), Known(stored);
    NoKeyDiffers(p, o);
    if k :| Differs(p, o, k) {
      assert IsInnerDictStep(node, j, attribute, entity, supported, plan, stored,
                             Step(ActionOn(p, o, k), entity, OfRelationshipDict(node, j, attribute, k), supported));
    }
  }

  lemma NoInnerStepIffSame(node: string, j: nat, plan: Relationship, stored: Relationship)
    requires KeyOf(plan) == KeyOf(stored)
    ensures (forall s :: !IsInnerStep(node, j, plan, stored, s)) <==> SameRelationship(plan, stored)
  {
    InnerDictStepsIffDifferent(node, j, "source_operations", OperationEntity, true, plan.sourceOperations, stored.sourceOperations);
    InnerDictStepsIffDifferent(node, j, "target_operations", OperationEntity, true, plan.targetOperations, stored.targetOperations);
    InnerDictStepsIffDifferent(node, j, "properties", PropertyEntity, false, plan.properties, stored.properties);
    assert forall s ::
      IsInnerDictStep(node, j, "source_operations", OperationEntity, true, plan.sourceOperations, stored.sourceOperations, s)
      ==> IsInnerStep(node, j, plan, stored, s);
    assert forall s ::
      IsInnerDictStep(node, j, "target_operations", OperationEntity, true, plan.targetOperations, stored.targetOperations, s)
      ==> IsInnerStep(node, j, plan, stored, s);
    assert forall s ::
      IsInnerDictStep(node, j, "properties", PropertyEntity, false, plan.properties, stored.properties, s)
      ==> IsInnerStep(node, j, plan, stored, s);
  }

  lemma NoStepAtIffSame(node: string, plan: seq<Relationship>, stored: seq<Relationship>, j: nat)
    requires j < |plan|
    ensures (forall s :: !IsStepAt(node, plan, stored, j, s))
       <==> Match(Keys(plan), j, Keys(stored)) == Some(j) && SameRelationship(plan[j], stored[j])
  {
    var m := Match(Keys(plan), j, Keys(stored));
    if m.None? {
      assert IsStepAt(node, plan, stored, j, AddRelationship(node, j));
    } else {
      NoInnerStepIffSame(node, j, plan[j], stored[m.value]);
      if m.value != j {
        assert IsStepAt(node, plan, stored, j, MoveRelationship(node, m.value, j));
      } else {
        assert forall s :: IsInnerStep(node, j, plan[j], stored[j], s) <==> IsStepAt(node, plan, stored, j, s);
      }
    }
  }

  lemma SameListHasNoSteps(node: string, plan: seq<Relationship>, stored: seq<Relationship>)
    requires SameRelationships(plan, stored)
    ensures forall s :: !IsRelationshipStep(node, plan, stored, s)
  {
    assert Keys(plan) == Keys(stored);
    forall j: nat | j < |plan| { MatchSelf(Keys(plan), j); }
    forall s, j: nat | j < |plan| ensures !IsStepAt(node, plan, stored, j, s) {
      NoStepAtIffSame(node, plan, stored, j);
    }
  }

  lemma NoStepsMeansSameList(node: string, plan: seq<Relationship>, stored: seq<Relationship>)
    requires forall s :: !IsRelationshipStep(node, plan, stored, s)
    ensures SameRelationships(plan, stored)
  {
    forall j: nat | j < |plan|
      ensures Match(Keys(plan), j, Keys(stored)) == Some(j) && SameRelationship(plan[j], stored[j])
    {
      forall s ensures !IsStepAt(node, plan, stored, j, s) {
        assert !IsRelationshipStep(node, plan, stored, s);
      }
      NoStepAtIffSame(node, plan, stored, j);
    }
    if |plan| > 0 {
      assert Match(Keys(plan), |plan| - 1, Keys(stored)) == Some(|plan| - 1);
    }
    if |plan| < |stored| {
      StoredEntryBeyond(node, plan, stored);
      assert false;
    }
  }

  /** A stored list that is longer than the plan's leaves a step. */
  lemma StoredEntryBeyond(node: string, plan: seq<Relationship>, stored: seq<Relationship>)
    requires |plan| < |stored|
    requires forall j: nat :: j < |plan| ==> Match(Keys(plan), j, Keys(stored)) == Some(j)
    ensures IsRelationshipStep(node, plan, stored, RemoveRelationship(node, |plan|))
  {
    var m := Match(Keys(stored), |plan|, Keys(plan));
    if m.Some? {
      MatchIsSymmetric(Keys(plan), Keys(stored), m.value, |plan|);
    }
  }

  /** A node yields no step exactly when the compared fields agree, missing read as empty. */
  lemma NoStepsIffSameNode(node: string, plan: Node, stored: Node)
    ensures (forall s :: !IsNodeStep(node, plan, stored, s)) <==> SameNode(plan, stored)
  {
    DictStepsIffDifferent(node, "operations", OperationEntity, plan.operations, stored.operations);
    DictStepsIffDifferent(node, "properties", PropertyEntity, plan.properties, stored.properties);
    if SameRelationships(plan.relationships, stored.relationships) {
      SameListHasNoSteps(node, plan.relationships, stored.relationships);
    } else {
      if forall s :: !IsRelationshipStep(node, plan.relationships, stored.relationships, s) {
        NoStepsMeansSameList(node, plan.relationships, stored.relationships);
      }
    }
    assert forall s ::
      IsDictStep(node, "operations", OperationEntity, plan.operations, stored.operations, s) ==>
      IsNodeStep(node, plan, stored, s);
    assert forall s ::
      IsRelationshipStep(node, plan.relationships, stored.relationships, s) ==>
      IsNodeStep(node, plan, stored, s);
    assert forall s ::
      IsDictStep(node, "properties", PropertyEntity, plan.properties, stored.properties, s) ==>
      IsNodeStep(node, plan, stored, s);
  }

  lemma AddedAreUnmatched(node: string, plan: seq<Relationship>, stored: seq<Relationship>, j: nat)
    ensures IsRelationshipStep(node, plan, stored, AddRelationship(node, j))
       <==> j < |plan| && Match(Keys(plan), j, Keys(stored)).None?
  {
    if j < |plan| && Match(Keys(plan), j, Keys(stored)).None? {
      assert IsStepAt(node, plan, stored, j, AddRelationship(node, j));
    }
  }

  lemma MovedAreDisplaced(node: string, plan: seq<Relationship>, stored: seq<Relationship>, i: nat, j: nat)
    ensures IsRelationshipStep(node, plan, stored, MoveRelationship(node, i, j))
       <==> i != j && j < |plan| && Match(Keys(plan), j, Keys(stored)) == Some(i)
  {
    if i != j && j < |plan| && Match(Keys(plan), j, Keys(stored)) == Some(i) {
      assert IsStepAt(node, plan, stored, j, MoveRelationship(node, i, j));
    }
  }

  /** Removed entries are the stored ones that no plan entry is matched with. */
  lemma RemovedAreUnmatched(node: string, plan: seq<Relationship>, stored: seq<Relationship>, i: nat)
    ensures IsRelationshipStep(node, plan, stored, RemoveRelationship(node, i))
       <==> i < |stored| && Match(Keys(stored), i, Keys(plan)).None?
    ensures IsRelationshipStep(node, plan, stored, RemoveRelationship(node, i))
       <==> i < |stored| && forall j: nat :: j < |plan| ==> Match(Keys(plan), j, Keys(stored)) != Some(i)
  {
    if i < |stored| {
      forall j: nat | j < |plan|
        ensures Match(Keys(plan), j, Keys(stored)) == Some(i) <==> Match(Keys(stored), i, Keys(plan)) == Some(j)
      {
        MatchIsSymmetric(Keys(plan), Keys(stored), j, i);
      }
    }
  }

  /** The key that the steps and the stored list put at position `j` of the new list. */
  ghost function RebuiltKey(steps: iset<Step>, node: string, added: map<nat, Key>, stored: seq<Key>, j: nat): Option<Key> {
    if AddRelationship(node, j) in steps then (if j in added then Some(added[j]) else None)
    else if exists i: nat :: i < |stored| && MoveRelationship(node, i, j) in steps then
      var i: nat :| i < |stored| && MoveRelationship(node, i, j) in steps; Some(stored[i])
    else if j < |stored| then Some(stored[j])
    else None
  }

  ghost function RelationshipSteps(node: string, plan: seq<Relationship>, stored: seq<Relationship>): iset<Step> {
    iset s | IsRelationshipStep(node, plan, stored, s)
  }

  /** The keys of the added entries, by their position in the plan. */
  ghost function Added(steps: iset<Step>, node: string, plan: seq<Key>): map<nat, Key> {
    map j: nat | j < |plan| && AddRelationship(node, j) in steps :: plan[j]
  }

  ghost function Removed(steps: iset<Step>, node: string, stored: seq<Key>): set<nat> {
    set i: nat | i < |stored| && RemoveRelationship(node, i) in steps
  }

  lemma RebuiltAt(node: string, plan: seq<Relationship>, stored: seq<Relationship>, j: nat)
    requires j < |plan|
    ensures var steps := RelationshipSteps(node, plan, stored);
            RebuiltKey(steps, node, Added(steps, node, Keys(plan)), Keys(stored), j) == Some(Keys(plan)[j])
  {
    AddedAreUnmatched(node, plan, stored, j);
    forall i: nat { MovedAreDisplaced(node, plan, stored, i, j); }
    var m := Match(Keys(plan), j, Keys(stored));
    if m.Some? && m.value != j {
      assert MoveRelationship(node, m.value, j) in RelationshipSteps(node, plan, stored);
    }
  }

  /**
    The steps lose nothing: with the keys of the added entries, they turn the
    stored list into the plan's key sequence, position by position, and the
    numbers of added and removed entries give its length.
   */
  lemma StepsRebuildTheList(node: string, plan: seq<Relationship>, stored: seq<Relationship>)
    ensures var steps := RelationshipSteps(node, plan, stored);
            var added := Added(steps, node, Keys(plan));
            && |plan| == |stored| + |added| - |Removed(steps, node, Keys(stored))|
            && forall j: nat :: j < |plan| ==> RebuiltKey(steps, node, added, Keys(stored), j) == Some(Keys(plan)[j])
  {
    forall j: nat | j < |plan|
      ensures RebuiltKey(RelationshipSteps(node, plan, stored), node,
                         Added(RelationshipSteps(node, plan, stored), node, Keys(plan)), Keys(stored), j) == Some(Keys(plan)[j])
    {
      RebuiltAt(node, plan, stored, j);
    }
    AddedCount(node, plan, stored);
    RemovedCount(node, plan, stored);
    UnmatchedBalance(Keys(plan), Keys(stored));
  }

  lemma AddedCount(node: string, plan: seq<Relationship>, stored: seq<Relationship>)
    ensures |Added(RelationshipSteps(node, plan, stored), node, Keys(plan))|
         == |Range(|plan|) - Matched(Keys(plan), Keys(stored))|
  {
    var added := Added(RelationshipSteps(node, plan, stored), node, Keys(plan));
    forall j: nat ensures j in added <==> j in Range(|plan|) - Matched(Keys(plan), Keys(stored)) {
      AddedAreUnmatched(node, plan, stored, j);
    }
    assert added.Keys == Range(|plan|) - Matched(Keys(plan), Keys(stored));
    assert |added| == |added.Keys|;
  }

  lemma RemovedCount(node: string, plan: seq<Relationship>, stored: seq<Relationship>)
    ensures |Removed(RelationshipSteps(node, plan, stored), node, Keys(stored))|
         == |Range(|stored|) - Matched(Keys(stored), Keys(plan))|
  {
    forall i: nat { RemovedAreUnmatched(node, plan, stored, i); }
    assert Removed(RelationshipSteps(node, plan, stored), node, Keys(stored))
        == Range(|stored|) - Matched(Keys(stored), Keys(plan));
  }
}
