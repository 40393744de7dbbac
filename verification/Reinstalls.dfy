/**
  Why a node instance is updated or reinstalled, instance by instance: the reasons are read off the parameters, the
  steps and the answers of the world, and are exact.
 */
module Reinstalls {
  import opened Options
  import opened StepExtractor
  import opened UpdateInstances

  /** Added or removed by the update, or not installed before. */
  predicate Skipped(w: World, p: Parameters, i: nat) {
    i in p.added || i in p.removed || (i in w.all && !w.started(i))
  }

  predicate IsForced(w: World, p: Parameters, i: nat) {
    i in w.all && i in p.forceIds && !Skipped(w, p, i)
  }

  predicate IsChecked(w: World, p: Parameters, i: nat) {
    !p.skipDriftCheck && i in w.all && i !in p.forceIds && !Skipped(w, p, i)
  }

  /** The check of the instance itself, or of one of its relationships, failed. */
  ghost predicate CheckFails(w: World, p: Parameters, i: nat) {
    && IsChecked(w, p, i)
    && ((w.checked(i).own.Some? && !w.checked(i).own.value.ok)
        || exists k: nat :: k < |w.checked(i).relationships| && !w.checked(i).relationships[k].ok)
  }

  /** All checks went through, and one of them found drift. */
  ghost predicate ShowsDrift(w: World, p: Parameters, i: nat) {
    && IsChecked(w, p, i) && !CheckFails(w, p, i)
    && ((w.checked(i).own.Some? && w.checked(i).own.value.result)
        || exists k: nat :: k < |w.checked(i).relationships| && w.checked(i).relationships[k].result)
  }

  /** A property or an operation of its node changed, and no check of its own looks for drift. */
  ghost predicate IsMarked(w: World, p: Parameters, steps: seq<Step>, i: nat) {
    && !Skipped(w, p, i) && !(IsChecked(w, p, i) && w.hasCheckDrift(i))
    && exists k: nat :: k < |steps| && (steps[k].entity.PropertyEntity? || steps[k].entity.OperationEntity?)
         && i in w.of(steps[k].id.node)
  }

  ghost predicate IsDrifted(w: World, p: Parameters, steps: seq<Step>, i: nat) {
    ShowsDrift(w, p, i) || IsMarked(w, p, steps, i)
  }

  /** It drifted itself, and its node has no update operation. */
  ghost predicate CannotUpdate(w: World, p: Parameters, steps: seq<Step>, i: nat) {
    && IsDrifted(w, p, steps, i) && !w.hasUpdate(i)
    && (IsMarked(w, p, steps, i) || (w.checked(i).own.Some? && w.checked(i).own.value.result))
  }

  /** Inside of an instance whose check failed. */
  ghost predicate InsideFailed(w: World, p: Parameters, i: nat) {
    exists j: nat :: CheckFails(w, p, j) && i in w.contained(j)
  }

  /** Inside of an instance that drifted and cannot be updated. */
  ghost predicate InsideDrifted(w: World, p: Parameters, steps: seq<Step>, i: nat) {
    exists j: nat :: CannotUpdate(w, p, steps, j) && !IsForced(w, p, j) && i in w.contained(j)
  }

  // ----- the sets of the update -----

  lemma MarkedIff(w: World, p: Parameters, steps: seq<Step>, i: nat)
    ensures i in Fake(w, p, steps) <==> IsMarked(w, p, steps, i)
  {
    if IsMarked(w, p, steps, i) {
      var k: nat :| k < |steps| && (steps[k].entity.PropertyEntity? || steps[k].entity.OperationEntity?)
        && i in w.of(steps[k].id.node);
      assert steps[k] in steps;
      assert steps[k].id.node in ChangedNodes(steps);
    }
  }

  lemma FailedIff(w: World, p: Parameters, i: nat)
    ensures i in FailedCheck(w, p) <==> CheckFails(w, p, i)
  {
    var rels := w.checked(i).relationships;
    if d :| d in rels && !d.ok {
      var k: nat :| k < |rels| && rels[k] == d;
    }
    forall k: nat | k < |rels| ensures rels[k] in rels {}
  }

  lemma DriftedIff(w: World, p: Parameters, steps: seq<Step>, i: nat)
    ensures i in Drifted(w, p, steps) <==> IsDrifted(w, p, steps, i)
  {
    MarkedIff(w, p, steps, i);
    FailedIff(w, p, i);
    var rels := w.checked(i).relationships;
    if d :| d in rels && d.result {
      var k: nat :| k < |rels| && rels[k] == d;
    }
    forall k: nat | k < |rels| ensures rels[k] in rels {}
  }

  lemma CannotUpdateIff(w: World, p: Parameters, steps: seq<Step>, i: nat)
    ensures i in Drifted(w, p, steps) && !Updatable(w, p, steps, i) <==> CannotUpdate(w, p, steps, i)
  {
    MarkedIff(w, p, steps, i);
    DriftedIff(w, p, steps, i);
  }

  lemma BaseIff(w: World, p: Parameters, i: nat)
    ensures i in Base(w, p) <==> IsForced(w, p, i) || InsideFailed(w, p, i)
  {
    forall j: nat ensures j in FailedCheck(w, p) <==> CheckFails(w, p, j) {
      FailedIff(w, p, j);
    }
  }

  // ----- the instances to reinstall before healing -----

  /** Forced, or inside of an instance whose check failed, or of a drifted one that cannot be updated. */
  ghost predicate HasReason(w: World, p: Parameters, steps: seq<Step>, i: nat) {
    IsForced(w, p, i) || InsideFailed(w, p, i) || InsideDrifted(w, p, steps, i)
  }

  lemma {:induction false} EscalatedHasReason(w: World, p: Parameters, steps: seq<Step>, order: seq<nat>, i: nat)
    requires forall k :: 0 <= k < |order| ==> order[k] in Drifted(w, p, steps)
    requires i in Escalated(w, p, steps, order)
    ensures HasReason(w, p, steps, i)
  {
    if order == [] {
      BaseIff(w, p, i);
    } else {
      var front, j := order[..|order| - 1], order[|order| - 1];
      if i in Escalated(w, p, steps, front) {
        EscalatedHasReason(w, p, steps, front, i);
      } else {
        CannotUpdateIff(w, p, steps, j);
        BaseIff(w, p, j);
        EscalatedHasBase(w, p, steps, front);
      }
    }
  }

  /** Before healing there is a reason for each; forced instances, and insides of failed checks, are never left out. */
  ghost predicate BeforeHealing(w: World, p: Parameters, steps: seq<Step>, preHeal: Instances) {
    && (forall i: nat :: i in preHeal ==> HasReason(w, p, steps, i))
    && (forall i: nat :: IsForced(w, p, i) || InsideFailed(w, p, i) ==> i in preHeal)
    && (Reflexive(w) ==> forall i: nat :: CannotUpdate(w, p, steps, i) ==> i in preHeal)
    && (Reflexive(w) && Transitive(w) ==> forall i: nat :: HasReason(w, p, steps, i) ==> i in preHeal)
  }

  lemma EscalationIsBeforeHealing(w: World, p: Parameters, steps: seq<Step>, preHeal: Instances)
    requires IsEscalation(w, p, steps, preHeal)
    ensures BeforeHealing(w, p, steps, preHeal)
  {
    var order :| IsOrderOf(order, Drifted(w, p, steps)) && preHeal == Escalated(w, p, steps, order);
    EscalatedHasBase(w, p, steps, order);
    forall i: nat | i in preHeal ensures HasReason(w, p, steps, i) {
      EscalatedHasReason(w, p, steps, order, i);
    }
    forall i: nat | IsForced(w, p, i) || InsideFailed(w, p, i) ensures i in preHeal {
      BaseIff(w, p, i);
    }
    if Reflexive(w) {
      forall i: nat | CannotUpdate(w, p, steps, i) ensures i in preHeal {
        CannotUpdateIff(w, p, steps, i);
        EscalatedCovers(w, p, steps, order, i);
      }
      if Transitive(w) {
        forall i: nat | HasReason(w, p, steps, i) ensures i in preHeal {
          ReasonIsEscalated(w, p, steps, preHeal, i);
        }
      }
    }
  }

  lemma ReasonIsEscalated(w: World, p: Parameters, steps: seq<Step>, preHeal: Instances, i: nat)
    requires Reflexive(w) && Transitive(w) && IsEscalation(w, p, steps, preHeal) && HasReason(w, p, steps, i)
    ensures i in preHeal
  {
    OrderDoesNotMatter(w, p, steps, preHeal);
    BaseIff(w, p, i);
    if InsideDrifted(w, p, steps, i) {
      var j: nat :| CannotUpdate(w, p, steps, j) && !IsForced(w, p, j) && i in w.contained(j);
      CannotUpdateIff(w, p, steps, j);
      BaseIff(w, p, j);
      if j in Base(w, p) {
        var k: nat :| CheckFails(w, p, k) && j in w.contained(k);
        assert w.contained(j) <= w.contained(k);
        assert InsideFailed(w, p, i);
      } else {
        assert j in Reinstalling(w, p, steps, Drifted(w, p, steps));
      }
    }
  }

  // ----- the outcome -----

  /** Healing asks to reinstall the instance, or fails on it. */
  predicate NotHealed(w: World, p: Parameters, toUpdate: Instances, i: nat) {
    && toUpdate != {} && !p.skipHeal
    && (i in w.toReinstall(toUpdate) || (i in w.toHeal(toUpdate) && w.healFailed(i)))
  }

  /** All drifted instances are to be reinstalled, and this one drifted. */
  ghost predicate IsForcedDrift(w: World, p: Parameters, steps: seq<Step>, i: nat) {
    p.forceReinstall && IsDrifted(w, p, steps, i)
  }

  /** The outcome, given what is to be reinstalled before healing, and what healing starts with. */
  ghost predicate Explained(w: World, p: Parameters, steps: seq<Step>, r: Outcome, preHeal: Instances, toUpdate: Instances) {
    && (forall i: nat :: i in toUpdate <==> IsDrifted(w, p, steps, i) && i !in preHeal && !p.forceReinstall)
    && (forall i: nat :: i in r.updated <==> i in toUpdate && !NotHealed(w, p, toUpdate, i))
    && (forall i: nat :: i in r.failed <==> i in r.updated && w.updateFailed(i))
    && (p.skipReinstall ==> forall i: nat :: i in r.reinstalled <==> IsForced(w, p, i))
    && (!p.skipReinstall ==> forall i: nat :: i in r.reinstalled <==>
          (i in preHeal || IsForcedDrift(w, p, steps, i) || NotHealed(w, p, toUpdate, i) || i in r.failed) && !Skipped(w, p, i))
  }

  /**
    The exact outcome, for all answers of the world and in every order. In particular, a drifted instance that was
    not to be reinstalled before healing is reinstalled only if that is forced for all, if healing asks for it or
    fails, or if its update fails.
   */
  lemma OutcomeIsExplained(w: World, p: Parameters, steps: seq<Step>, r: Outcome) returns (preHeal: Instances, toUpdate: Instances)
    requires IsOutcome(w, p, steps, r)
    ensures BeforeHealing(w, p, steps, preHeal) && Explained(w, p, steps, r, preHeal, toUpdate)
  {
    preHeal :| IsEscalation(w, p, steps, preHeal) && r == Result(w, p, steps, preHeal);
    EscalationIsBeforeHealing(w, p, steps, preHeal);
    toUpdate := ToUpdate(w, p, steps, preHeal);
    ResultIsExplained(w, p, steps, preHeal);
  }

  lemma ResultIsExplained(w: World, p: Parameters, steps: seq<Step>, preHeal: Instances)
    ensures Explained(w, p, steps, Result(w, p, steps, preHeal), preHeal, ToUpdate(w, p, steps, preHeal))
  {
    forall i: nat ensures i in Drifted(w, p, steps) <==> IsDrifted(w, p, steps, i) {
      DriftedIff(w, p, steps, i);
    }
  }
}
