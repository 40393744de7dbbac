/**
  The executions table, and how a request decides for each execution whether
  it is started, queued or refused.
 */
module Executions {
  import opened Options
  import opened Ranges

  datatype Status =
    | Pending | Started | Queued | Scheduled
    | Terminated | Failed | Cancelled
    | Cancelling | ForceCancelling | KillCancelling

  /** The status sets are those of a library; only the following is assumed of them. */
  datatype States = States(active: set<Status>, end: set<Status>) {
    predicate Valid() {
      && Pending in active && Started in active
      && Terminated in end && Failed in end && Cancelled in end
      && active !! end
      && Queued !in active && Queued !in end
    }
  }

  /** An execution; its identifier is its index in the table, which is its storage order. */
  datatype Execution = Execution(
    deployment: Option<nat>,
    system: bool,
    workflow: string,
    legacy: bool,
    status: Status,
    createdAt: Option<int>,
    scheduled: bool,
    groups: seq<nat>)

  type Table = seq<Execution>

  datatype Request = Request(force: bool, queue: bool, overlap: bool)

  /** Everything a request learns from code and data outside of this model. */
  datatype World = World(
    refreshFails: nat -> bool,
    checkFails: nat -> bool,
    renderFails: nat -> bool,
    cascades: (string, nat) -> bool,
    components: nat -> seq<nat>,
    now: Option<int>,
    maxExecutions: nat)

  datatype Decision = Go | Wait | Refuse

  predicate IsBlocking(e: Execution) {
    e.workflow != "create_snapshot" || e.legacy
  }

  predicate SystemWide(e: Execution) {
    e.system && e.deployment.None?
  }

  predicate Active(st: States, t: Table, i: nat) {
    i < |t| && t[i].status in st.active
  }

  predicate SameDeployment(t: Table, i: nat, j: nat) {
    i < |t| && j < |t| && t[i].deployment.Some? && t[i].deployment == t[j].deployment
  }

  /** Execution `i` is queued, and was created before `id`; anything queued is older than an undated `id`. */
  predicate QueuedBefore(t: Table, i: nat, id: nat)
    requires id < |t|
  {
    && i < |t| && t[i].status == Queued
    && (t[id].createdAt.Some? ==> t[i].createdAt.Some? && t[i].createdAt.value < t[id].createdAt.value)
  }

  function WithStatus(t: Table, id: nat, s: Status): (r: Table)
    requires id < |t|
    ensures |r| == |t|
  {
    t[id := t[id].(status := s)]
  }

  predicate AnyOtherActive(st: States, t: Table, id: nat) {
    exists i: nat :: i < |t| && i != id && Active(st, t, i)
  }

  /** The filter does not leave out the execution that is being checked. */
  predicate AnySystemActiveOrQueued(st: States, t: Table) {
    exists i: nat :: i < |t| && t[i].system && (Active(st, t, i) || t[i].status == Queued)
  }

  predicate BlockedInDeployment(st: States, t: Table, id: nat)
    requires id < |t|
  {
    exists i: nat :: i < |t| && i != id && SameDeployment(t, i, id) && (Active(st, t, i) || QueuedBefore(t, i, id))
  }

  function CheckForExecutions(st: States, t: Table, id: nat, force: bool, queue: bool): Decision
    requires id < |t|
  {
    if AnySystemActiveOrQueued(st, t) then Wait
    else if force || t[id].deployment.None? || !BlockedInDeployment(st, t, id) then Go
    else if queue || t[id].scheduled then Wait
    else Refuse
  }

  function Decide(st: States, t: Table, id: nat, r: Request): Decision
    requires id < |t|
  {
    if !IsBlocking(t[id]) && !r.queue then Go
    else if r.overlap then (if r.queue then Wait else Go)
    else if SystemWide(t[id]) then
      if !AnyOtherActive(st, t, id) then Go else if r.queue then Wait else Refuse
    else CheckForExecutions(st, t, id, r.force, r.queue)
  }

  /** The executions that a cascading workflow adds for the components of its deployment. */
  function ComponentExecutions(w: World, e: Execution, deployments: seq<nat>): (r: seq<Execution>)
    ensures |r| == |deployments|
    ensures forall i :: 0 <= i < |r| ==>
      r[i] == Execution(Some(deployments[i]), false, e.workflow, e.legacy, Pending, w.now, false, [])
  {
    seq(|deployments|, i requires 0 <= i < |deployments| =>
      Execution(Some(deployments[i]), false, e.workflow, e.legacy, Pending, w.now, false, []))
  }

  predicate Cascades(w: World, e: Execution) {
    e.deployment.Some? && w.cascades(e.workflow, e.deployment.value)
  }

  datatype Prepared =
    | Prepared(table: Table, messages: seq<nat>, failed: bool)
    | Raised(table: Table)

  /** State of the loop over the worklist: `done` are deployments whose components were added. */
  datatype Progress = Progress(table: Table, work: seq<nat>, done: set<nat>, run: nat, messages: seq<nat>, failed: bool) {
    predicate Valid(w: World) {
      (forall k :: 0 <= k < |work| ==> work[k] < |table|) && run <= w.maxExecutions
    }
  }

  predicate Skipped(p: Progress)
    requires p.work != [] && p.work[|p.work| - 1] < |p.table|
  {
    var e := p.table[p.work[|p.work| - 1]];
    e.deployment.Some? && e.deployment.value in p.done
  }

  /** Starts the execution, and adds those of the components of its deployment if it cascades. */
  function Launched(w: World, p: Progress, id: nat): Progress
    requires id < |p.table|
  {
    var t := p.table;
    if w.renderFails(id) then p.(table := WithStatus(t, id, Failed), failed := true)
    else
      var started := p.(table := WithStatus(t, id, Pending), messages := p.messages + [id]);
      if !Cascades(w, t[id]) then started
      else
        var added := ComponentExecutions(w, t[id], w.components(t[id].deployment.value));
        started.(
          table := started.table + added,
          work := p.work + Interval(|t|, |t| + |added|),
          done := p.done + {t[id].deployment.value})
  }

  /** One execution taken from the end of the worklist. `None` is an exception. */
  function Advance(st: States, w: World, r: Request, p: Progress): (next: Option<Progress>)
    requires p.Valid(w) && p.work != []
    ensures next.Some? ==> next.value.Valid(w)
    ensures next.Some? ==>
      || (next.value.run == p.run && |next.value.work| < |p.work|)
      || next.value.run == p.run + 1
  {
    var id, rest, t := p.work[|p.work| - 1], p.work[..|p.work| - 1], p.table;
    if Skipped(p) then Some(p.(work := rest))
    else if p.run == w.maxExecutions then None
    else
      var q := p.(work := rest, run := p.run + 1);
      if w.checkFails(id) then Some(q.(table := WithStatus(t, id, Failed), failed := true))
      else
        match Decide(st, t, id, r)
        case Refuse => None
        case Wait => Some(q.(table := WithStatus(t, id, Queued)))
        case Go => Some(Launched(w, q, id))
  }

  /** The loop terminates even when components contain each other in a cycle. */
  function Prepare(st: States, w: World, r: Request, p: Progress): Prepared
    requires p.Valid(w)
    decreases w.maxExecutions - p.run, |p.work|
  {
    if p.work == [] then Prepared(p.table, p.messages, p.failed)
    else
      match Advance(st, w, r, p)
      case None => Raised(p.table)
      case Some(next) => Prepare(st, w, r, next)
  }

  function Begin(t: Table, work: seq<nat>): Progress {
    Progress(t, work, {}, 0, [], false)
  }

  /** The stored table, and the loop that works on it in place. */
  class ExecutionStore {
    var table: Table

    constructor (initial: Table)
      ensures table == initial
    {
      table := initial;
    }

    method SetStatus(id: nat, s: Status)
      requires id < |table|
      modifies this
      ensures table == WithStatus(old(table), id, s)
    {
      table := table[id := table[id].(status := s)];
    }

    /** One round of the loop; an exception leaves the table as it is. */
    method TakeOne(st: States, w: World, r: Request, p: Progress) returns (raised: bool, next: Progress)
      requires p.Valid(w) && p.work != [] && p.table == table
      modifies this
      ensures raised ==> Advance(st, w, r, p) == None && table == old(table)
      ensures !raised ==> Advance(st, w, r, p) == Some(next) && table == next.table
    {
      raised, next := false, p;
      var id := p.work[|p.work| - 1];
      if table[id].deployment.Some? && table[id].deployment.value in p.done {
        next := p.(work := p.work[..|p.work| - 1]);
        return;
      }
      if p.run == w.maxExecutions {
        return true, p;
      }
      next := p.(run := p.run + 1, work := p.work[..|p.work| - 1]);
      if w.checkFails(id) {
        SetStatus(id, Failed);
        next := next.(failed := true, table := table);
        return;
      }
      var decision := Decide(st, table, id, r);
      if decision == Refuse {
        return true, p;
      }
      if decision == Wait {
        SetStatus(id, Queued);
        next := next.(table := table);
        return;
      }
      next := Launch(w, next, id);
    }

    method Launch(w: World, p: Progress, id: nat) returns (next: Progress)
      requires p.table == table && id < |table|
      modifies this
      ensures next == Launched(w, p, id) && table == next.table
    {
      next := p;
      if w.renderFails(id) {
        SetStatus(id, Failed);
        next := next.(failed := true, table := table);
        return;
      }
      var e := table[id];
      SetStatus(id, Pending);
      next := next.(messages := p.messages + [id]);
      if Cascades(w, e) {
        var added := ComponentExecutions(w, e, w.components(e.deployment.value));
        next := next.(work := p.work + Interval(|table|, |table| + |added|), done := p.done + {e.deployment.value});
        table := table + added;
      }
      next := next.(table := table);
    }

    method PrepareExecutions(st: States, w: World, r: Request, executions: seq<nat>)
      returns (raised: bool, messages: seq<nat>, failed: bool)
      requires forall k :: 0 <= k < |executions| ==> executions[k] < |table|
      modifies this
      ensures (if raised then Raised(table) else Prepared(table, messages, failed))
           == Prepare(st, w, r, Begin(old(table), executions))
    {
      var p := Begin(table, executions);
      while p.work != []
        invariant p.Valid(w) && p.table == table
        invariant Prepare(st, w, r, p) == Prepare(st, w, r, Begin(old(table), executions))
        decreases w.maxExecutions - p.run, |p.work|
      {
        var next;
        raised, next := TakeOne(st, w, r, p);
        if raised {
          return true, p.messages, p.failed;
        }
        p := next;
      }
      raised, messages, failed := false, p.messages, p.failed;
    }
  }
}
