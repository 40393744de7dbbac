/**
  Deployment update, install part: which node instances are updated in place
  and which are reinstalled, whatever the checks, heals and updates report.
 */
module UpdateInstances {
  import opened Options
  import opened StepExtractor

  datatype Drift = Drift(ok: bool, result: bool)

  /** Drift of the instance itself and of its relationships, as stored in its system properties. */
  datatype Properties = Properties(own: Option<Drift>, relationships: seq<Drift>)

  type Instances = set<nat>

  datatype Parameters = Parameters(
    added: Instances,
    removed: Instances,
    forceIds: Instances,
    skipDriftCheck: bool,
    forceReinstall: bool,
    skipHeal: bool,
    skipReinstall: bool)

  /** The deployment, and everything that external operations may answer. */
  datatype World = World(
    all: Instances,
    started: nat -> bool,
    of: string -> Instances,
    hasCheckDrift: nat -> bool,
    hasUpdate: nat -> bool,
    contained: nat -> Instances,
    stored: nat -> Properties,
    checked: nat -> Properties,
    toHeal: Instances -> Instances,
    toReinstall: Instances -> Instances,
    healFailed: nat -> bool,
    updateFailed: nat -> bool)

  predicate HasDrift(p: Properties) {
    (p.own.Some? && p.own.value.result) || exists d :: d in p.relationships && d.result
  }

  predicate HasFailedCheck(p: Properties) {
    (p.own.Some? && !p.own.value.ok) || exists d :: d in p.relationships && !d.ok
  }

  /** Own drift needs an update operation; drift of relationships alone never needs a reinstall. */
  predicate CanBeUpdated(w: World, i: nat, p: Properties) {
    p.own.Some? && p.own.value.result ==> w.hasUpdate(i)
  }

  // ----- what is considered -----

  function ToSkip(w: World, p: Parameters): Instances {
    p.added + p.removed + set i | i in w.all && !w.started(i)
  }

  function Forced(w: World, p: Parameters): Instances {
    set i | i in w.all - ToSkip(w, p) && i in p.forceIds
  }

  function Considered(w: World, p: Parameters): Instances {
    w.all - ToSkip(w, p) - Forced(w, p)
  }

  function ChangedNodes(steps: seq<Step>): set<string> {
    set s | s in steps && (s.entity.PropertyEntity? || s.entity.OperationEntity?) :: s.id.node
  }

  function Changed(w: World, steps: seq<Step>): Instances {
    set n, i | n in ChangedNodes(steps) && i in w.of(n) :: i
  }

  function FailedCheck(w: World, p: Parameters): Instances {
    if p.skipDriftCheck then {} else set i | i in Considered(w, p) && HasFailedCheck(w.checked(i))
  }

  function FoundDrift(w: World, p: Parameters): Instances {
    if p.skipDriftCheck then {}
    else set i | i in Considered(w, p) && !HasFailedCheck(w.checked(i)) && HasDrift(w.checked(i))
  }

  /** Changed instances without a drift check of their own are marked as drifted. */
  function Fake(w: World, p: Parameters, steps: seq<Step>): Instances {
    Changed(w, steps) - ToSkip(w, p)
      - (if p.skipDriftCheck then {} else set i | i in Considered(w, p) && w.hasCheckDrift(i))
  }

  function Drifted(w: World, p: Parameters, steps: seq<Step>): Instances {
    FoundDrift(w, p) + Fake(w, p, steps)
  }

  function PropertiesOf(w: World, p: Parameters, steps: seq<Step>, i: nat): Properties {
    var current := if p.skipDriftCheck || i !in Considered(w, p) then w.stored(i) else w.checked(i);
    if i in Fake(w, p, steps) then current.(own := Some(Drift(true, true))) else current
  }

  predicate Updatable(w: World, p: Parameters, steps: seq<Step>, i: nat) {
    CanBeUpdated(w, i, PropertiesOf(w, p, steps, i))
  }

  function ContainedIn(w: World, s: Instances): Instances {
    set i, j | i in s && j in w.contained(i) :: j
  }

  function Base(w: World, p: Parameters): Instances {
    Forced(w, p) + ContainedIn(w, FailedCheck(w, p))
  }

  // ----- the set to reinstall, before healing -----

  /** One drifted instance after the other; those already to be reinstalled are passed over. */
  function Escalated(w: World, p: Parameters, steps: seq<Step>, order: seq<nat>): Instances {
    if order == [] then Base(w, p)
    else
      var must, i := Escalated(w, p, steps, order[..|order| - 1]), order[|order| - 1];
      if i in must || Updatable(w, p, steps, i) then must else must + w.contained(i)
  }

  predicate IsOrderOf(order: seq<nat>, s: Instances) {
    (forall k :: 0 <= k < |order| ==> order[k] in s) && forall i :: i in s ==> i in order
  }

  /** Instances that cause a reinstall of what they contain, whatever was seen before them. */
  function Reinstalling(w: World, p: Parameters, steps: seq<Step>, seen: Instances): Instances {
    set i | i in seen && i !in Base(w, p) && !Updatable(w, p, steps, i)
  }

  /** The same set without any order. */
  function EscalatedSet(w: World, p: Parameters, steps: seq<Step>): Instances {
    Base(w, p) + ContainedIn(w, Reinstalling(w, p, steps, Drifted(w, p, steps)))
  }

  /** Containment is transitive, and an instance contains itself. */
  ghost predicate Transitive(w: World) {
    forall i, j :: j in w.contained(i) ==> w.contained(j) <= w.contained(i)
  }

  ghost predicate Reflexive(w: World) {
    forall i: nat :: i in w.contained(i)
  }

  // ----- the outcome -----

  datatype Outcome = Outcome(updated: Instances, failed: Instances, reinstalled: Instances)

  function ToUpdate(w: World, p: Parameters, steps: seq<Step>, preHeal: Instances): Instances {
    if p.forceReinstall then {} else Drifted(w, p, steps) - preHeal
  }

  function ToReinstall(w: World, p: Parameters, toUpdate: Instances): Instances {
    if toUpdate != {} && !p.skipHeal then w.toReinstall(toUpdate) else {}
  }

  function FailedHeal(w: World, p: Parameters, toUpdate: Instances): Instances {
    if toUpdate != {} && !p.skipHeal then set i | i in w.toHeal(toUpdate) && w.healFailed(i) else {}
  }

  function Result(w: World, p: Parameters, steps: seq<Step>, preHeal: Instances): Outcome {
    var must := if p.forceReinstall then preHeal + (Drifted(w, p, steps) - preHeal) else preHeal;
    var toUpdate := ToUpdate(w, p, steps, preHeal);
    var toReinstall, failedHeal := ToReinstall(w, p, toUpdate), FailedHeal(w, p, toUpdate);
    var updated := toUpdate - toReinstall - failedHeal;
    var failed := set i | i in updated && w.updateFailed(i);
    Outcome(updated, failed,
      if p.skipReinstall then Forced(w, p) else must + toReinstall + failedHeal + failed - ToSkip(w, p))
  }

  // ----- the operation -----

  method FindChangedInstances(w: World, steps: seq<Step>) returns (changed: Instances)
    ensures changed == Changed(w, steps)
  {
    var nodes: set<string> := {};
    for i := 0 to |steps|
      invariant nodes == ChangedNodes(steps[..i])
    {
      assert steps[..i + 1] == steps[..i] + [steps[i]];
      if steps[i].entity.PropertyEntity? || steps[i].entity.OperationEntity? {
        nodes := nodes + {steps[i].id.node};
      }
    }
    assert steps[..|steps|] == steps;
    changed := {};
    var todo := nodes;
    while todo != {}
      invariant todo <= nodes
      invariant changed == set n, i | n in nodes - todo && i in w.of(n) :: i
    {
      var n :| n in todo;
      changed := changed + w.of(n);
      todo := todo - {n};
    }
    assert nodes - {} == nodes;
  }

  /** Returns the instances with drift, and those whose check failed. */
  method CheckDrift(w: World, instances: Instances) returns (drifted: Instances, failed: Instances)
    ensures failed == set i | i in instances && HasFailedCheck(w.checked(i))
    ensures drifted == set i | i in instances && !HasFailedCheck(w.checked(i)) && HasDrift(w.checked(i))
  {
    drifted, failed := {}, {};
    var todo := instances;
    while todo != {}
      invariant todo <= instances
      invariant failed == set i | i in instances - todo && HasFailedCheck(w.checked(i))
      invariant drifted == set i | i in instances - todo && !HasFailedCheck(w.checked(i)) && HasDrift(w.checked(i))
    {
      var i :| i in todo;
      if HasFailedCheck(w.checked(i)) {
        failed := failed + {i};
      } else if HasDrift(w.checked(i)) {
        drifted := drifted + {i};
      }
      todo := todo - {i};
    }
    assert instances - {} == instances;
  }

  method AddContained(w: World, start: Instances, more: Instances) returns (must: Instances)
    ensures must == start + ContainedIn(w, more)
  {
    must := start;
    var todo := more;
    while todo != {}
      invariant todo <= more && must == start + ContainedIn(w, more - todo)
    {
      var i :| i in todo;
      must := must + w.contained(i);
      todo := todo - {i};
    }
    assert more - {} == more;
  }

  /** What some order of the drifted instances leads to. */
  ghost predicate IsEscalation(w: World, p: Parameters, steps: seq<Step>, must: Instances) {
    exists order: seq<nat> :: IsOrderOf(order, Drifted(w, p, steps)) && must == Escalated(w, p, steps, order)
  }

  method Escalate(w: World, p: Parameters, steps: seq<Step>, drifted: Instances, base: Instances)
    returns (must: Instances)
    requires drifted == Drifted(w, p, steps) && base == Base(w, p)
    ensures IsEscalation(w, p, steps, must)
  {
    must := base;
    ghost var order: seq<nat> := [];
    var todo := drifted;
    while todo != {}
      invariant todo <= drifted && IsOrderOf(order, drifted - todo)
      invariant must == Escalated(w, p, steps, order)
    {
      var i :| i in todo;
      if i !in must && !Updatable(w, p, steps, i) {
        must := must + w.contained(i);
      }
      assert (order + [i])[..|order|] == order;
      order := order + [i];
      todo := todo - {i};
    }
    assert drifted - {} == drifted;
  }

  method FindDrift(w: World, p: Parameters, steps: seq<Step>, changed: Instances, consider: Instances)
    returns (drifted: Instances, failed: Instances)
    requires changed == Changed(w, steps) - ToSkip(w, p) && consider == Considered(w, p)
    ensures drifted == Drifted(w, p, steps) && failed == FailedCheck(w, p)
  {
    var withCheck: Instances := {};
    drifted, failed := {}, {};
    if !p.skipDriftCheck {
      withCheck := set i | i in consider && w.hasCheckDrift(i);
      drifted, failed := CheckDrift(w, consider);
    }
    var fake := changed - withCheck;
    drifted := drifted + fake;
  }

  method Heal(w: World, p: Parameters, instances: Instances, base: Instances)
    returns (toUpdate: Instances, must: Instances)
    ensures toUpdate == instances - ToReinstall(w, p, instances) - FailedHeal(w, p, instances)
    ensures must == base + ToReinstall(w, p, instances) + FailedHeal(w, p, instances)
  {
    toUpdate, must := instances, base;
    if toUpdate != {} && !p.skipHeal {
      var toHeal, toReinstall := w.toHeal(toUpdate), w.toReinstall(toUpdate);
      must := must + toReinstall;
      toUpdate := toUpdate - toReinstall;
      var failedHeal := set i | i in toHeal && w.healFailed(i);
      must := must + failedHeal;
      toUpdate := toUpdate - failedHeal;
    }
  }

  /** Heals and updates those that can be updated, and adds to the set to reinstall those where that failed. */
  method HealAndUpdate(w: World, p: Parameters, steps: seq<Step>, forced: Instances, drifted: Instances, preHeal: Instances)
    returns (r: Outcome)
    requires forced == Forced(w, p) && drifted == Drifted(w, p, steps)
    ensures r == Result(w, p, steps, preHeal)
  {
    var must, toUpdate := preHeal, drifted - preHeal;
    if p.forceReinstall {
      must := must + toUpdate;
      toUpdate := {};
    }
    toUpdate, must := Heal(w, p, toUpdate, must);
    var failed := set i | i in toUpdate && w.updateFailed(i);
    must := must + failed - ToSkip(w, p);
    if p.skipReinstall {
      must := forced;
    }
    r := Outcome(toUpdate, failed, must);
  }

  ghost predicate IsOutcome(w: World, p: Parameters, steps: seq<Step>, r: Outcome) {
    exists preHeal: Instances :: IsEscalation(w, p, steps, preHeal) && r == Result(w, p, steps, preHeal)
  }

  method UpdateOrReinstall(w: World, p: Parameters, steps: seq<Step>) returns (r: Outcome)
    ensures IsOutcome(w, p, steps, r)
  {
    var toSkip := p.added + p.removed + set i | i in w.all && !w.started(i);
    var changed := FindChangedInstances(w, steps);
    var forced := set i | i in w.all - toSkip && i in p.forceIds;
    var drifted, failed := FindDrift(w, p, steps, changed - toSkip, w.all - toSkip - forced);
    var must := AddContained(w, forced, failed);
    must := Escalate(w, p, steps, drifted, must);
    ghost var preHeal := must;
    r := HealAndUpdate(w, p, steps, forced, drifted, must);
    assert IsEscalation(w, p, steps, preHeal) && r == Result(w, p, steps, preHeal);
  }

  // ----- properties, for all answers of the world -----

  lemma {:induction false} EscalatedHasBase(w: World, p: Parameters, steps: seq<Step>, order: seq<nat>)
    ensures Base(w, p) <= Escalated(w, p, steps, order)
  {
    if order != [] {
      EscalatedHasBase(w, p, steps, order[..|order| - 1]);
    }
  }

  lemma {:induction false} EscalatedCovers(w: World, p: Parameters, steps: seq<Step>, order: seq<nat>, i: nat)
    requires Reflexive(w) && i in order && !Updatable(w, p, steps, i)
    ensures i in Escalated(w, p, steps, order)
  {
    var front := order[..|order| - 1];
    assert order == front + [order[|order| - 1]];
    if i in front {
      EscalatedCovers(w, p, steps, front, i);
    }
  }

  lemma EscalationHasForced(w: World, p: Parameters, steps: seq<Step>, must: Instances)
    requires IsEscalation(w, p, steps, must)
    ensures Forced(w, p) <= must
  {
    var order :| IsOrderOf(order, Drifted(w, p, steps)) && must == Escalated(w, p, steps, order);
    EscalatedHasBase(w, p, steps, order);
  }

  lemma ResultIsSound(w: World, p: Parameters, steps: seq<Step>, preHeal: Instances)
    requires Forced(w, p) <= preHeal
    ensures var r := Result(w, p, steps, preHeal);
            && r.updated !! ToSkip(w, p) && r.reinstalled !! ToSkip(w, p)
            && r.updated * r.reinstalled <= r.failed
            && (!p.skipReinstall ==> Drifted(w, p, steps) <= (r.updated - r.failed) + r.reinstalled)
  {
  }

  /**
    For all answers of the world, in every order: instances that were not installed before, or are added or
    removed, are left alone; an instance is both updated and reinstalled only if its update failed; and unless
    reinstalling is switched off, every drifted instance ends updated without failure, or reinstalled.
   */
  lemma EveryOutcomeIsSound(w: World, p: Parameters, steps: seq<Step>, r: Outcome)
    requires IsOutcome(w, p, steps, r)
    ensures r.updated !! ToSkip(w, p) && r.reinstalled !! ToSkip(w, p)
    ensures r.updated * r.reinstalled <= r.failed
    ensures !p.skipReinstall ==> Drifted(w, p, steps) <= (r.updated - r.failed) + r.reinstalled
  {
    var preHeal :| IsEscalation(w, p, steps, preHeal) && r == Result(w, p, steps, preHeal);
    EscalationHasForced(w, p, steps, preHeal);
    ResultIsSound(w, p, steps, preHeal);
  }

  /** Only drifted instances are updated, and those that can be. */
  lemma UpdatedAreUpdatable(w: World, p: Parameters, steps: seq<Step>, r: Outcome, i: nat)
    requires Reflexive(w) && IsOutcome(w, p, steps, r)
    ensures i in r.updated ==> i in Drifted(w, p, steps) && Updatable(w, p, steps, i)
  {
    var preHeal :| IsEscalation(w, p, steps, preHeal) && r == Result(w, p, steps, preHeal);
    var order :| IsOrderOf(order, Drifted(w, p, steps)) && preHeal == Escalated(w, p, steps, order);
    if i in Drifted(w, p, steps) && !Updatable(w, p, steps, i) {
      EscalatedCovers(w, p, steps, order, i);
    }
  }

  lemma {:induction false} EscalatedWithin(w: World, p: Parameters, steps: seq<Step>, order: seq<nat>, seen: Instances)
    requires Transitive(w) && Reflexive(w) && IsOrderOf(order, seen)
    ensures Escalated(w, p, steps, order)
         == Base(w, p) + ContainedIn(w, Reinstalling(w, p, steps, seen))
    decreases |order|
  {
    if order == [] {
      assert seen == {};
    } else {
      var front, i := order[..|order| - 1], order[|order| - 1];
      assert order == front + [i];
      var before := set j | j in front;
      assert IsOrderOf(front, before) && seen == before + {i};
      EscalatedWithin(w, p, steps, front, before);
      EscalatedOneMore(w, p, steps, front, i, before);
    }
  }

  lemma EscalatedOneMore(w: World, p: Parameters, steps: seq<Step>, front: seq<nat>, i: nat, before: Instances)
    requires Transitive(w) && Reflexive(w)
    requires Escalated(w, p, steps, front) == Base(w, p) + ContainedIn(w, Reinstalling(w, p, steps, before))
    ensures Escalated(w, p, steps, front + [i]) == Base(w, p) + ContainedIn(w, Reinstalling(w, p, steps, before + {i}))
  {
    var must := Escalated(w, p, steps, front);
    assert (front + [i])[..|front|] == front;
    if i in must && i !in Base(w, p) {
      var j :| j in Reinstalling(w, p, steps, before) && i in w.contained(j);
      assert w.contained(i) <= w.contained(j);
    }
  }

  /** With transitive containment the order does not matter. */
  lemma OrderDoesNotMatter(w: World, p: Parameters, steps: seq<Step>, must: Instances)
    requires Transitive(w) && Reflexive(w)
    ensures IsEscalation(w, p, steps, must) ==> must == EscalatedSet(w, p, steps)
  {
    if order :| IsOrderOf(order, Drifted(w, p, steps)) && must == Escalated(w, p, steps, order) {
      EscalatedWithin(w, p, steps, order, Drifted(w, p, steps));
    }
  }

  /** A world with two started and drifted instances that cannot be updated. */
  function TwoDrifted(c: nat -> Instances, i: nat, j: nat): World {
    var drift := Properties(Some(Drift(true, true)), []);
    World({i, j}, _ => true, _ => {}, _ => true, _ => false, c, _ => drift, _ => drift, _ => {}, _ => {},
      _ => false, _ => false)
  }

  const DEFAULTS: Parameters := Parameters({}, {}, {}, false, false, false, false)

  lemma BothDrifted(c: nat -> Instances, i: nat, j: nat)
    ensures Drifted(TwoDrifted(c, i, j), DEFAULTS, []) == {i, j} && Base(TwoDrifted(c, i, j), DEFAULTS) == {}
    ensures !Updatable(TwoDrifted(c, i, j), DEFAULTS, [], i) && !Updatable(TwoDrifted(c, i, j), DEFAULTS, [], j)
  {
    assert ChangedNodes([]) == {} && Changed(TwoDrifted(c, i, j), []) == {};
  }

  /** If `i` contains `j` but not all that `j` contains, taking `i` first passes over `j`. */
  lemma OrderMatters(c: nat -> Instances, i: nat, j: nat, k: nat)
    requires i in c(i) && j in c(j) && j in c(i) && k in c(j) && k !in c(i)
    ensures var w := TwoDrifted(c, i, j);
            && IsEscalation(w, DEFAULTS, [], Escalated(w, DEFAULTS, [], [i, j]))
            && IsEscalation(w, DEFAULTS, [], Escalated(w, DEFAULTS, [], [j, i]))
            && k !in Escalated(w, DEFAULTS, [], [i, j]) && k in Escalated(w, DEFAULTS, [], [j, i])
  {
    var w := TwoDrifted(c, i, j);
    BothDrifted(c, i, j);
    assert [i, j][..1] == [i] && [j, i][..1] == [j] && [i][..0] == [] && [j][..0] == [];
    assert Escalated(w, DEFAULTS, [], []) == {};
    assert Escalated(w, DEFAULTS, [], [i]) == c(i) && Escalated(w, DEFAULTS, [], [j]) == c(j);
    assert IsOrderOf([i, j], {i, j}) && IsOrderOf([j, i], {i, j});
  }

  /** Whatever is deployed and drifted, the set to reinstall before healing is the same for every order. */
  ghost predicate NeverDependsOnOrder(c: nat -> Instances) {
    forall w: World, p, steps, a, b ::
      w.contained == c && IsEscalation(w, p, steps, a) && IsEscalation(w, p, steps, b) ==> a == b
  }

  /** The exact condition on containment, for an instance contains at least itself. */
  lemma NeverDependsOnOrderIff(c: nat -> Instances)
    requires forall i: nat :: i in c(i)
    ensures NeverDependsOnOrder(c) <==> forall i, j :: j in c(i) ==> c(j) <= c(i)
  {
    if i, j :| j in c(i) && !(c(j) <= c(i)) {
      var k :| k in c(j) && k !in c(i);
      OrderMatters(c, i, j, k);
      assert TwoDrifted(c, i, j).contained == c;
    } else {
      forall w: World, p, steps, a, b | w.contained == c && IsEscalation(w, p, steps, a) && IsEscalation(w, p, steps, b)
        ensures a == b
      {
        OrderDoesNotMatter(w, p, steps, a);
        OrderDoesNotMatter(w, p, steps, b);
      }
    }
  }
}
