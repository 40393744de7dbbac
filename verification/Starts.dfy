/**
  When an execution starts, waits or is refused, read off the rows of the table: the conditions are exact, so an
  execution that nothing keeps from starting is started.
 */
module Starts {
  import opened Options
  import opened Ranges
  import opened Executions
  import Dequeue
  import opened SchedulerRuns

  /** Some system execution is active or queued, possibly the one that is looked at. */
  ghost predicate SystemBusy(st: States, t: Table) {
    exists i: nat :: i < |t| && t[i].system && (t[i].status in st.active || t[i].status == Queued)
  }

  /** A queued execution that is older than `e`; every one is, if `e` has no date. */
  predicate WaitsBefore(other: Execution, e: Execution) {
    && other.status == Queued
    && (e.createdAt.None? || (other.createdAt.Some? && other.createdAt.value < e.createdAt.value))
  }

  /** An execution of the same deployment that is active, or waits before `e`. */
  predicate IsRival(st: States, other: Execution, e: Execution) {
    other.deployment == e.deployment && (other.status in st.active || WaitsBefore(other, e))
  }

  /** Another execution of the same deployment is active, or queued and older. */
  ghost predicate DeploymentBusy(st: States, t: Table, id: nat)
    requires id < |t|
  {
    exists i: nat :: i < |t| && i != id && IsRival(st, t[i], t[id])
  }

  /** The request neither looks at other executions nor queues. */
  predicate Unchecked(e: Execution, r: Request) {
    e.workflow == "create_snapshot" && !e.legacy && !r.queue
  }

  /** Nothing keeps the execution from starting. */
  ghost predicate MayStart(st: States, t: Table, id: nat, r: Request)
    requires id < |t|
  {
    if Unchecked(t[id], r) then true
    else if r.overlap then !r.queue
    else if t[id].system && t[id].deployment.None? then forall i: nat :: i < |t| && i != id ==> t[i].status !in st.active
    else !SystemBusy(st, t) && (r.force || t[id].deployment.None? || !DeploymentBusy(st, t, id))
  }

  /** Where it may not start, the execution is queued, and the request does not raise. */
  ghost predicate MayWait(st: States, t: Table, id: nat, r: Request)
    requires id < |t|
  {
    r.queue || (!(t[id].system && t[id].deployment.None?) && (SystemBusy(st, t) || t[id].scheduled))
  }

  /** The three decisions, each with its exact condition. */
  lemma DecideIff(st: States, t: Table, id: nat, r: Request)
    requires id < |t|
    ensures Decide(st, t, id, r) == Go <==> MayStart(st, t, id, r)
    ensures Decide(st, t, id, r) == Wait <==> !MayStart(st, t, id, r) && MayWait(st, t, id, r)
    ensures Decide(st, t, id, r) == Refuse <==> !MayStart(st, t, id, r) && !MayWait(st, t, id, r)
  {
    SystemBusyIff(st, t);
    DeploymentBusyIff(st, t, id);
    OtherActiveIff(st, t, id);
  }

  lemma SystemBusyIff(st: States, t: Table)
    ensures SystemBusy(st, t) <==> AnySystemActiveOrQueued(st, t)
  {
    if i: nat :| i < |t| && t[i].system && (Active(st, t, i) || t[i].status == Queued) {
      assert t[i].status in st.active || t[i].status == Queued;
    }
    if i: nat :| i < |t| && t[i].system && (t[i].status in st.active || t[i].status == Queued) {
      assert Active(st, t, i) || t[i].status == Queued;
    }
  }

  lemma DeploymentBusyIff(st: States, t: Table, id: nat)
    requires id < |t|
    ensures t[id].deployment.Some? ==> (DeploymentBusy(st, t, id) <==> BlockedInDeployment(st, t, id))
  {
    if t[id].deployment.Some? {
      forall i: nat | i < |t|
        ensures IsRival(st, t[i], t[id]) <==> SameDeployment(t, i, id) && (Active(st, t, i) || QueuedBefore(t, i, id)) {}
    }
  }

  lemma OtherActiveIff(st: States, t: Table, id: nat)
    ensures AnyOtherActive(st, t, id) <==> !forall i: nat :: i < |t| && i != id ==> t[i].status !in st.active
  {
    if i: nat :| i < |t| && i != id && t[i].status in st.active {
      assert Active(st, t, i);
    }
  }

  // ----- one turn -----

  /** A pending row for each component of the deployment, of the same workflow. */
  ghost predicate AreComponents(w: World, e: Execution, rows: Table) {
    && e.deployment.Some? && |rows| == |w.components(e.deployment.value)|
    && forall k :: 0 <= k < |rows| ==>
         && rows[k].deployment == Some(w.components(e.deployment.value)[k]) && !rows[k].system
         && rows[k].workflow == e.workflow && rows[k].legacy == e.legacy && rows[k].status == Pending
         && rows[k].createdAt == w.now && !rows[k].scheduled && rows[k].groups == []
  }

  /** The execution is pending, and sent; if it cascades, its components follow, once for its deployment. */
  ghost predicate IsSent(w: World, p: Progress, id: nat, next: Progress)
    requires id < |p.table| && p.work != []
  {
    var e, size := p.table[id], |p.table|;
    && size <= |next.table| && next.table[..size] == p.table[id := e.(status := Pending)]
    && next.messages == p.messages + [id] && next.failed == p.failed
    && (if e.deployment.Some? && w.cascades(e.workflow, e.deployment.value)
        then && AreComponents(w, e, next.table[size..])
             && next.done == p.done + {e.deployment.value}
             && next.work == p.work[..|p.work| - 1] + Interval(size, |next.table|)
        else |next.table| == size && next.done == p.done && next.work == p.work[..|p.work| - 1])
  }

  /** Only the status of the execution changes, and it is not sent. */
  ghost predicate IsOnly(p: Progress, id: nat, s: Status, failed: bool, next: Progress)
    requires id < |p.table| && p.work != []
  {
    && next.table == p.table[id := p.table[id].(status := s)] && next.work == p.work[..|p.work| - 1]
    && next.messages == p.messages && next.done == p.done && next.failed == failed
  }

  lemma LaunchedIsSent(w: World, p: Progress, q: Progress, id: nat)
    requires id < |p.table| && p.work != [] && q == p.(work := p.work[..|p.work| - 1], run := q.run) && !w.renderFails(id)
    ensures IsSent(w, p, id, Launched(w, q, id))
  {
    var next, size := Launched(w, q, id), |p.table|;
    if Cascades(w, p.table[id]) {
      var added := ComponentExecutions(w, p.table[id], w.components(p.table[id].deployment.value));
      assert next.table[size..] == added && next.table[..size] == WithStatus(p.table, id, Pending);
    } else {
      assert next.table[..size] == next.table;
    }
  }

  /**
    Every turn of the loop: an execution of a deployment that is done is dropped; else it fails if its check or its
    rendering does, is sent exactly if it may start, and waits or raises otherwise.
   */
  lemma TurnIff(st: States, w: World, r: Request, p: Progress)
    requires p.Valid(w) && p.work != []
    ensures var id, e, next := p.work[|p.work| - 1], p.table[p.work[|p.work| - 1]], Advance(st, w, r, p);
            if e.deployment.Some? && e.deployment.value in p.done then next == Some(p.(work := p.work[..|p.work| - 1]))
            else if p.run == w.maxExecutions then next == None
            else if w.checkFails(id) then next.Some? && IsOnly(p, id, Failed, true, next.value)
            else if MayStart(st, p.table, id, r) then
              next.Some? && if w.renderFails(id) then IsOnly(p, id, Failed, true, next.value) else IsSent(w, p, id, next.value)
            else if MayWait(st, p.table, id, r) then next.Some? && IsOnly(p, id, Queued, p.failed, next.value)
            else next == None
  {
    var id := p.work[|p.work| - 1];
    DecideIff(st, p.table, id, r);
    if !w.renderFails(id) {
      LaunchedIsSent(w, p, p.(work := p.work[..|p.work| - 1], run := p.run + 1), id);
    }
  }

  // ----- the whole loop -----

  /** Turn after turn, from the first state of the loop. */
  ghost predicate AreTurns(st: States, w: World, r: Request, turns: seq<Progress>) {
    && turns != [] && (forall k :: 0 <= k < |turns| ==> turns[k].Valid(w))
    && forall k :: 0 <= k < |turns| - 1 ==> turns[k].work != [] && Advance(st, w, r, turns[k]) == Some(turns[k + 1])
  }

  /** The loop ends with an empty worklist, or raises in a turn and leaves the table as it was before that turn. */
  ghost predicate EndsAs(st: States, w: World, r: Request, last: Progress, result: Prepared)
    requires last.Valid(w)
  {
    if last.work == [] then result == Prepared(last.table, last.messages, last.failed)
    else Advance(st, w, r, last) == None && result == Raised(last.table)
  }

  lemma {:induction false} PrepareIsTurns(st: States, w: World, r: Request, p: Progress) returns (turns: seq<Progress>)
    requires p.Valid(w)
    ensures AreTurns(st, w, r, turns) && turns[0] == p && EndsAs(st, w, r, turns[|turns| - 1], Prepare(st, w, r, p))
    decreases w.maxExecutions - p.run, |p.work|
  {
    turns := [p];
    if p.work != [] && Advance(st, w, r, p).Some? {
      var rest := PrepareIsTurns(st, w, r, Advance(st, w, r, p).value);
      turns := [p] + rest;
    }
  }

  /** A submitted batch: its rows are stored behind the others, and taken from the last to the first. */
  lemma SubmitIsTurns(st: States, t: Table, batch: seq<Execution>, r: Request, w: World, refusal: Refusal)
    returns (turns: seq<Progress>)
    ensures AreTurns(st, w, r, turns)
    ensures turns[0].table == t + batch && turns[0].done == {} && turns[0].run == 0 && turns[0].messages == []
    ensures |turns[0].work| == |batch| && forall k :: 0 <= k < |batch| ==> turns[0].work[k] == |t| + k
    ensures var last := turns[|turns| - 1];
            SubmitBatch(st, t, batch, r, w, refusal) == if last.work == [] || refusal.Kept? then last.table else t
  {
    turns := PrepareIsTurns(st, w, r, Begin(t + batch, Interval(|t|, |t + batch|)));
  }

  /** Its message is sent, it is queued or failed, or the components of its deployment were added before its turn. */
  ghost predicate IsDealtWith(w: World, t: Table, messages: seq<nat>, id: nat) {
    && id < |t|
    && (id in messages || t[id].status == Queued || t[id].status == Failed || CascadedBefore(w, t, messages, t[id].deployment))
  }

  ghost predicate CascadedBefore(w: World, t: Table, messages: seq<nat>, deployment: Option<nat>) {
    exists m: nat :: m in messages && m < |t| && Cascades(w, t[m]) && t[m].deployment == deployment
  }

  /** Everything that was in the worklist, or added, still is in the worklist, or is dealt with. */
  ghost predicate KeepsTrack(w: World, p: Progress, first: seq<nat>, size: nat) {
    && size <= |p.table|
    && (forall id: nat :: id in first || size <= id < |p.table| ==> id in p.work || IsDealtWith(w, p.table, p.messages, id))
    && (forall d :: d in p.done ==> CascadedBefore(w, p.table, p.messages, Some(d)))
  }

  /** A turn changes at most the status of the execution it takes, and adds rows and messages at the end. */
  ghost predicate TurnsOn(p: Progress, id: nat, next: Progress) {
    && |p.table| <= |next.table| && p.messages <= next.messages
    && (forall i: nat :: i < |p.table| ==> next.table[i] == p.table[i].(status := next.table[i].status))
    && (forall i: nat :: i < |p.table| && i != id ==> next.table[i] == p.table[i])
  }

  lemma CascadedStays(w: World, p: Progress, id: nat, next: Progress, deployment: Option<nat>)
    requires TurnsOn(p, id, next) && CascadedBefore(w, p.table, p.messages, deployment)
    ensures CascadedBefore(w, next.table, next.messages, deployment)
  {
    var m: nat :| m in p.messages && m < |p.table| && Cascades(w, p.table[m]) && p.table[m].deployment == deployment;
    assert m in next.messages && Cascades(w, next.table[m]);
  }

  lemma DealtWithStays(w: World, p: Progress, id: nat, next: Progress, i: nat)
    requires TurnsOn(p, id, next) && IsDealtWith(w, p.table, p.messages, i)
    requires id < |next.table| && IsDealtWith(w, next.table, next.messages, id)
    ensures IsDealtWith(w, next.table, next.messages, i)
  {
    if i != id && i !in p.messages && p.table[i].status != Queued && p.table[i].status != Failed {
      CascadedStays(w, p, id, next, p.table[i].deployment);
    }
  }

  lemma TrackKept(w: World, p: Progress, id: nat, rest: seq<nat>, next: Progress, first: seq<nat>, size: nat)
    requires KeepsTrack(w, p, first, size) && p.work == rest + [id] && TurnsOn(p, id, next)
    requires IsDealtWith(w, next.table, next.messages, id)
    requires forall i: nat :: i in rest || |p.table| <= i < |next.table| ==> i in next.work
    requires forall d :: d in next.done ==> d in p.done || CascadedBefore(w, next.table, next.messages, Some(d))
    ensures KeepsTrack(w, next, first, size)
  {
    forall i: nat | (i in first || size <= i < |next.table|) && i !in next.work
      ensures IsDealtWith(w, next.table, next.messages, i)
    {
      assert i in p.work ==> i == id;
      if i != id {
        DealtWithStays(w, p, id, next, i);
      }
    }
    forall d | d in p.done ensures CascadedBefore(w, next.table, next.messages, Some(d)) {
      CascadedStays(w, p, id, next, Some(d));
    }
  }

  lemma SentKeepsTrack(w: World, p: Progress, id: nat, rest: seq<nat>, next: Progress, first: seq<nat>, size: nat)
    requires KeepsTrack(w, p, first, size) && p.work == rest + [id] && id < |p.table| && IsSent(w, p, id, next)
    ensures KeepsTrack(w, next, first, size)
  {
    var t := next.table[..|p.table|];
    forall i: nat | i < |p.table| ensures next.table[i] == t[i] {}
    assert id in next.messages;
    forall i: nat | |p.table| <= i < |next.table| ensures i in next.work {
      assert next.work == rest + Interval(|p.table|, |next.table|);
      assert Interval(|p.table|, |next.table|)[i - |p.table|] == i;
    }
    if Cascades(w, p.table[id]) {
      assert Cascades(w, next.table[id]);
    }
    TrackKept(w, p, id, rest, next, first, size);
  }

  lemma TurnKeepsTrack(st: States, w: World, r: Request, p: Progress, first: seq<nat>, size: nat, next: Progress)
    requires p.Valid(w) && p.work != [] && KeepsTrack(w, p, first, size) && Advance(st, w, r, p) == Some(next)
    ensures KeepsTrack(w, next, first, size)
  {
    var id, rest := p.work[|p.work| - 1], p.work[..|p.work| - 1];
    assert p.work == rest + [id];
    var e := p.table[id];
    TurnIff(st, w, r, p);
    if e.deployment.Some? && e.deployment.value in p.done {
      TrackKept(w, p, id, rest, next, first, size);
    } else if next.messages == p.messages {
      TrackKept(w, p, id, rest, next, first, size);
    } else {
      SentKeepsTrack(w, p, id, rest, next, first, size);
    }
  }

  lemma {:induction false} PrepareKeepsTrack(st: States, w: World, r: Request, p: Progress, first: seq<nat>, size: nat)
    requires p.Valid(w) && KeepsTrack(w, p, first, size)
    ensures var result := Prepare(st, w, r, p);
            result.Prepared? ==> forall id: nat :: id in first || size <= id < |result.table| ==>
              IsDealtWith(w, result.table, result.messages, id)
    decreases w.maxExecutions - p.run, |p.work|
  {
    if p.work != [] && Advance(st, w, r, p).Some? {
      var next := Advance(st, w, r, p).value;
      TurnKeepsTrack(st, w, r, p, first, size, next);
      PrepareKeepsTrack(st, w, r, next, first, size);
      assert Prepare(st, w, r, p) == Prepare(st, w, r, next);
    }
  }

  /** A request that does not raise has dealt with each of its executions, and with each that it added for components. */
  lemma NothingIsForgotten(st: States, w: World, r: Request, t: Table, work: seq<nat>)
    requires forall k :: 0 <= k < |work| ==> work[k] < |t|
    ensures var result := Prepare(st, w, r, Begin(t, work));
            result.Prepared? ==> forall id: nat :: id in work || |t| <= id < |result.table| ==>
              IsDealtWith(w, result.table, result.messages, id)
  {
    PrepareKeepsTrack(st, w, r, Begin(t, work), work, |t|);
  }

  // ----- one submitted execution -----

  /** What becomes of the execution of a request for it alone. */
  ghost function Fate(st: States, w: World, r: Request, t: Table, id: nat): Option<Status>
    requires id < |t|
  {
    if w.checkFails(id) then Some(Failed)
    else if MayStart(st, t, id, r) then (if w.renderFails(id) then Some(Failed) else Some(Pending))
    else if MayWait(st, t, id, r) then Some(Queued)
    else None
  }

  lemma PreparedAlone(st: States, w: World, r: Request, t: Table, id: nat)
    requires id < |t| && t[id].status == Pending && w.maxExecutions > 0 && !Cascades(w, t[id])
    ensures var fate, result := Fate(st, w, r, t, id), Prepare(st, w, r, Begin(t, [id]));
            match fate
            case None => result == Raised(t)
            case Some(s) => result == Prepared(t[id := t[id].(status := s)], if s == Pending then [id] else [], s == Failed)
  {
    var p := Begin(t, [id]);
    assert p.work[..0] == [];
    TurnIff(st, w, r, p);
    var next := Advance(st, w, r, p);
    if next.Some? {
      assert next.value.work == [];
      assert next.value.table[..|t|] == next.value.table;
      assert Prepare(st, w, r, p) == Prepare(st, w, r, next.value);
    }
  }

  /**
    The exact fate of one submitted execution that does not cascade. It is left pending, and sent, if and only if
    nothing keeps it from starting; else it is queued if it may wait, and the request raises if it may not.
   */
  lemma SingleSubmitIff(st: States, t: Table, e: Execution, r: Request, w: World, refusal: Refusal)
    requires e.status == Pending && w.maxExecutions > 0 && !Cascades(w, e)
    ensures var after := SubmitBatch(st, t, [e], r, w, refusal);
            match Fate(st, w, r, t + [e], |t|)
            case None => after == if refusal.Kept? then t + [e] else t
            case Some(s) => after == t + [e.(status := s)]
  {
    assert Interval(|t|, |t + [e]|) == [|t|];
    PreparedAlone(st, w, r, t + [e], |t|);
  }

  /**
    For a checked execution of a deployment, whose check and rendering work: pending if and only if no system
    execution is active or queued, and it is forced or no other execution of the deployment is active, or queued and
    older. It is queued otherwise, unless only its deployment is busy and neither it nor the request may wait.
   */
  lemma DeploymentSubmitIff(st: States, t: Table, e: Execution, r: Request, w: World, refusal: Refusal)
    requires st.Valid() && e.status == Pending && e.deployment.Some? && !e.system && !r.overlap && !Unchecked(e, r)
    requires w.maxExecutions > 0 && !w.checkFails(|t|) && !w.renderFails(|t|) && !Cascades(w, e)
    ensures var after := SubmitBatch(st, t, [e], r, w, refusal);
            var blocked := exists i: nat :: i < |t| && IsRival(st, t[i], e);
            if SystemBusy(st, t) then after == t + [e.(status := Queued)]
            else if r.force || !blocked then after == t + [e]
            else if r.queue || e.scheduled then after == t + [e.(status := Queued)]
            else after == if refusal.Kept? then t + [e] else t
  {
    var stored := t + [e];
    SingleSubmitIff(st, t, e, r, w, refusal);
    SystemBusyBefore(st, t, e);
    DeploymentBusyBefore(st, t, e);
    assert e.(status := Pending) == e;
  }

  lemma SystemBusyBefore(st: States, t: Table, e: Execution)
    requires !e.system
    ensures SystemBusy(st, t + [e]) <==> SystemBusy(st, t)
  {
    var stored := t + [e];
    if i: nat :| i < |t| && t[i].system && (t[i].status in st.active || t[i].status == Queued) {
      assert stored[i] == t[i];
    }
  }

  lemma DeploymentBusyBefore(st: States, t: Table, e: Execution)
    ensures DeploymentBusy(st, t + [e], |t|) <==> exists i: nat :: i < |t| && IsRival(st, t[i], e)
  {
    var stored := t + [e];
    if i: nat :| i < |t| && IsRival(st, t[i], e) {
      assert stored[i] == t[i];
    }
  }

  // ----- one dequeued execution -----

  /** No other row keeps the dequeued execution from starting; a system execution of a deployment waits for itself. */
  ghost predicate FreeToStart(st: States, t: Table, id: nat)
    requires id < |t|
  {
    if t[id].system then t[id].deployment.None? && forall i: nat :: i < |t| && i != id ==> t[i].status !in st.active
    else
      && (forall i: nat :: i < |t| && i != id && t[i].system ==> t[i].status !in st.active && t[i].status != Queued)
      && (t[id].deployment.Some? ==> forall i: nat :: i < |t| && i != id ==> !IsRival(st, t[i], t[id]))
  }

  lemma FreeOncePending(st: States, t: Table, id: nat)
    requires st.Valid() && id < |t|
    ensures MayStart(st, WithStatus(t, id, Pending), id, REFRESH) <==> FreeToStart(st, t, id)
  {
    var pending := WithStatus(t, id, Pending);
    assert forall i: nat :: i < |t| && i != id ==> pending[i] == t[i];
    if t[id].system {
      assert pending[id].system && pending[id].status in st.active;
    } else {
      FreeOfSystem(st, t, id);
      FreeOfDeployment(st, t, id);
    }
  }

  lemma FreeOfSystem(st: States, t: Table, id: nat)
    requires id < |t| && !t[id].system
    ensures SystemBusy(st, WithStatus(t, id, Pending)) <==>
      !forall i: nat :: i < |t| && i != id && t[i].system ==> t[i].status !in st.active && t[i].status != Queued
  {
    var pending := WithStatus(t, id, Pending);
    if i: nat :| i < |t| && i != id && t[i].system && (t[i].status in st.active || t[i].status == Queued) {
      assert pending[i] == t[i];
    }
  }

  lemma FreeOfDeployment(st: States, t: Table, id: nat)
    requires id < |t|
    ensures DeploymentBusy(st, WithStatus(t, id, Pending), id) <==>
            !forall i: nat :: i < |t| && i != id ==> !IsRival(st, t[i], t[id])
  {
    var pending := WithStatus(t, id, Pending);
    forall i: nat | i < |t| && i != id ensures IsRival(st, pending[i], pending[id]) <==> IsRival(st, t[i], t[id]) {}
  }

  /** What becomes of a dequeued execution. */
  ghost function FateOnceDequeued(st: States, w: World, t: Table, id: nat): Status
    requires id < |t|
  {
    if (t[id].deployment.Some? && w.refreshFails(id)) || w.checkFails(id) then Failed
    else if !FreeToStart(st, t, id) then Queued
    else if w.renderFails(id) then Failed else Pending
  }

  /** The exact fate of one dequeued execution that does not cascade: it is started if and only if it is free to start. */
  lemma RefreshIff(st: States, t: Table, id: nat, w: World)
    requires st.Valid() && id < |t| && !Cascades(w, t[id]) && w.maxExecutions > 0
    ensures Refresh(st, t, id, w) == t[id := t[id].(status := FateOnceDequeued(st, w, t, id))]
  {
    FreeOncePending(st, t, id);
    PreparedAlone(st, w, REFRESH, WithStatus(t, id, Pending), id);
  }

  /** It counts as refreshed if and only if it did not fail; being queued again is no failure. */
  lemma RefreshesIff(st: States, t: Table, id: nat, w: World)
    requires st.Valid() && id < |t| && !Cascades(w, t[id]) && w.maxExecutions > 0
    ensures Refreshes(st, t, id, w) <==> FateOnceDequeued(st, w, t, id) != Failed
  {
    FreeOncePending(st, t, id);
    PreparedAlone(st, w, REFRESH, WithStatus(t, id, Pending), id);
  }

  /** Another row does not matter if it is of another deployment, and of no system execution. */
  lemma FreeWhateverElse(st: States, t: Table, other: nat, s: Status, id: nat)
    requires id < |t| && other < |t| && other != id && !t[id].system && !t[other].system
    requires t[other].deployment != t[id].deployment
    ensures FreeToStart(st, t[other := t[other].(status := s)], id) <==> FreeToStart(st, t, id)
  {
    var after := t[other := t[other].(status := s)];
    forall i: nat | i < |t| && i != other ensures after[i] == t[i] {}
    forall i: nat | i < |t| && i != id ensures IsRival(st, after[i], after[id]) <==> IsRival(st, t[i], t[id]) {}
  }

  /** The fates of the executions of one pass are settled when it begins; whatever was not picked stays as it is. */
  ghost predicate EachMeetsItsFate(st: States, w: World, t: Table, picked: seq<nat>, r: Table) {
    && |r| == |t|
    && (forall id: nat :: id < |t| && id in picked ==> r[id] == t[id].(status := FateOnceDequeued(st, w, t, id)))
    && forall id: nat :: id < |t| && id !in picked ==> r[id] == t[id]
  }

  lemma OneMoreMeetsItsFate(st: States, w: World, t: Table, picked: seq<nat>, rest: seq<nat>, id: nat, next: Table, r: Table)
    requires id < |t| && Dequeue.IsFair(t, picked) && picked == [id] + rest
    requires next == t[id := t[id].(status := FateOnceDequeued(st, w, t, id))]
    requires EachMeetsItsFate(st, w, next, rest, r)
    ensures EachMeetsItsFate(st, w, t, picked, r)
  {
    OthersKeepTheirFate(st, w, t, picked, rest, id, next);
    assert picked[0] == id;
    forall k | 0 <= k < |rest| ensures picked[k + 1] == rest[k] && rest[k] != id {}
  }

  lemma FairAfterOne(t: Table, picked: seq<nat>, s: Status)
    requires Dequeue.IsFair(t, picked) && picked != []
    ensures Dequeue.IsFair(t[picked[0] := t[picked[0]].(status := s)], picked[1..])
  {
  }

  /** A pass over executions of different deployments starts each of them if and only if it is free to start. */
  lemma {:induction false} PassIff(st: States, t: Table, picked: seq<nat>, w: World)
    requires st.Valid() && NeverCascades(w) && w.maxExecutions > 0 && Dequeue.IsFair(t, picked)
    ensures EachMeetsItsFate(st, w, t, picked, RefreshAll(st, t, picked, w))
    decreases |picked|
  {
    if picked != [] {
      var id, rest := picked[0], picked[1..];
      RefreshIff(st, t, id, w);
      var next := Refresh(st, t, id, w);
      FairAfterOne(t, picked, FateOnceDequeued(st, w, t, id));
      PassIff(st, next, rest, w);
      OneMoreMeetsItsFate(st, w, t, picked, rest, id, next, RefreshAll(st, next, rest, w));
    }
  }

  /** A system execution of a deployment finds itself among those that are active, so it never starts. */
  lemma SystemOfDeploymentNeverStarts(st: States, t: Table, e: Execution, r: Request, w: World, refusal: Refusal, id: nat)
    requires st.Valid() && w.maxExecutions > 0
    requires e.system && e.deployment.Some? && e.status == Pending && !Cascades(w, e)
    requires !Unchecked(e, r) && !r.overlap && !w.checkFails(|t|)
    requires id < |t| && t[id].system && t[id].deployment.Some? && !Cascades(w, t[id])
    ensures SubmitBatch(st, t, [e], r, w, refusal) == t + [e.(status := Queued)]
    ensures var r := Refresh(st, t, id, w); id < |r| && r[id].status != Pending
  {
    var stored := t + [e];
    assert stored[|t|] == e;
    assert SystemBusy(st, stored);
    SingleSubmitIff(st, t, e, r, w, refusal);
    RefreshIff(st, t, id, w);
  }

  /** A pass is not repeated if and only if none of its executions failed. */
  lemma {:induction false} PassSucceedsIff(st: States, t: Table, picked: seq<nat>, w: World)
    requires st.Valid() && NeverCascades(w) && w.maxExecutions > 0 && Dequeue.IsFair(t, picked)
    ensures PassSucceeds(st, t, Pass(picked, w)) <==> forall id: nat :: id in picked ==> FateOnceDequeued(st, w, t, id) != Failed
    decreases |picked|
  {
    if picked != [] {
      var id, rest := picked[0], picked[1..];
      RefreshIff(st, t, id, w);
      RefreshesIff(st, t, id, w);
      var next := Refresh(st, t, id, w);
      FairAfterOne(t, picked, FateOnceDequeued(st, w, t, id));
      PassSucceedsIff(st, next, rest, w);
      OthersKeepTheirFate(st, w, t, picked, rest, id, next);
      PassGoesOn(st, t, picked, rest, id, next, w);
    }
  }

  lemma PassGoesOn(st: States, t: Table, picked: seq<nat>, rest: seq<nat>, id: nat, next: Table, w: World)
    requires (forall k :: 0 <= k < |picked| ==> picked[k] < |t|) && (forall k :: 0 <= k < |rest| ==> rest[k] < |next|)
    requires id < |t| && picked == [id] + rest && next == Refresh(st, t, id, w)
    ensures PassSucceeds(st, t, Pass(picked, w)) <==> Refreshes(st, t, id, w) && PassSucceeds(st, next, Pass(rest, w))
  {
    assert picked[0] == id && picked[1..] == rest;
  }

  lemma OthersKeepTheirFate(st: States, w: World, t: Table, picked: seq<nat>, rest: seq<nat>, id: nat, next: Table)
    requires id < |t| && Dequeue.IsFair(t, picked) && picked == [id] + rest
    requires next == t[id := t[id].(status := FateOnceDequeued(st, w, t, id))]
    ensures forall i: nat :: i in rest ==> i < |t| && FateOnceDequeued(st, w, next, i) == FateOnceDequeued(st, w, t, i)
    ensures forall i: nat :: i in picked <==> i == id || i in rest
  {
    assert picked[0] == id;
    forall k | 0 <= k < |rest| ensures picked[k + 1] == rest[k] && rest[k] != id {}
    forall i: nat | i in rest ensures FateOnceDequeued(st, w, next, i) == FateOnceDequeued(st, w, t, i) {
      var k :| 0 <= k < |rest| && rest[k] == i;
      FreeWhateverElse(st, t, id, FateOnceDequeued(st, w, t, id), i);
    }
  }

  // ----- reports -----

  /**
    A report is stored as it is, or changes nothing. What has ended stays as it is, unless it is the creation of a
    snapshot; while an execution is cancelled, it cannot become active or terminated, nor, while that is forced,
    cancelling again. Everything else is accepted.
   */
  lemma ReportIff(st: States, t: Table, id: nat, s: Status)
    requires st.Valid() && id < |t|
    ensures var r, current := Apply(st, t, Report(id, s)), t[id].status;
            if current in st.end && t[id].workflow != "create_snapshot" then r == t
            else if (current == Cancelling && (s in st.active || s == Terminated) && s != Cancelling)
                 || (current == ForceCancelling && (s in st.active || s in {Terminated, Cancelling}) && s != ForceCancelling)
            then r == t
            else r == t[id := t[id].(status := s)]
  {
    assert t[id := t[id]] == t;
  }
}
