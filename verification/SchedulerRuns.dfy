/**
  Runs of the execution scheduler: submits, dequeues and status reports in any
  order, each as one atomic step, and what they keep true of the table.
 */
module SchedulerRuns {
  import opened Options
  import opened Ranges
  import opened Executions
  import opened Dequeue
  import opened Startable

  /** May the status of an execution be changed by a report? */
  predicate ValidUpdate(st: States, workflow: string, current: Status, future: Status) {
    current == future
    || (&& (current !in st.end || workflow == "create_snapshot")
        && !(current == Cancelling && (future in st.active || future == Terminated))
        && !(current == ForceCancelling && (future in st.active || future == Terminated || future == Cancelling)))
  }

  /** What becomes of the rows of a submit that raises: a transaction or a clean-up removes them, or they stay. */
  datatype Refusal = Undone | Kept

  datatype Step =
    | Submit(batch: seq<Execution>, request: Request, world: World, refusal: Refusal)
    | Pass(picked: seq<nat>, world: World)
    | Report(id: nat, future: Status)

  function SubmitBatch(st: States, t: Table, batch: seq<Execution>, r: Request, w: World, refusal: Refusal): Table {
    var stored := t + batch;
    match Prepare(st, w, r, Begin(stored, Interval(|t|, |stored|)))
    case Raised(result) => if refusal.Kept? then result else t
    case Prepared(result, _, _) => result
  }

  const REFRESH := Request(false, true, false)

  function Concluded(outcome: Prepared, id: nat): Table
    requires id < |outcome.table|
  {
    if outcome.Raised? || outcome.failed then WithStatus(outcome.table, id, Failed) else outcome.table
  }

  /** A dequeued execution is prepared again; an exception leaves it failed. */
  function Refresh(st: States, t: Table, id: nat, w: World): (r: Table)
    requires id < |t|
  {
    var pending := WithStatus(t, id, Pending);
    if t[id].deployment.Some? && w.refreshFails(id) then WithStatus(pending, id, Failed)
    else
      var outcome := Prepare(st, w, REFRESH, Begin(pending, [id]));
      PrepareNeverShrinks(st, w, REFRESH, Begin(pending, [id]));
      Concluded(outcome, id)
  }

  /** Nothing failed and nothing raised; being queued again is no failure. */
  predicate Refreshes(st: States, t: Table, id: nat, w: World)
    requires id < |t|
  {
    && !(t[id].deployment.Some? && w.refreshFails(id))
    && var outcome := Prepare(st, w, REFRESH, Begin(WithStatus(t, id, Pending), [id])); outcome.Prepared? && !outcome.failed
  }

  /** All are refreshed, one after the other. */
  predicate AllRefresh(st: States, t: Table, picked: seq<nat>, w: World)
    requires forall k :: 0 <= k < |picked| ==> picked[k] < |t|
    decreases |picked|
  {
    if picked == [] then true
    else
      RefreshNeverShrinks(st, t, picked[0], w);
      Refreshes(st, t, picked[0], w) && AllRefresh(st, Refresh(st, t, picked[0], w), picked[1..], w)
  }

  function RefreshAll(st: States, t: Table, picked: seq<nat>, w: World): Table
    requires forall k :: 0 <= k < |picked| ==> picked[k] < |t|
    decreases |picked|
  {
    if picked == [] then t
    else
      RefreshNeverShrinks(st, t, picked[0], w);
      RefreshAll(st, Refresh(st, t, picked[0], w), picked[1..], w)
  }

  function Apply(st: States, t: Table, step: Step): Table {
    match step
    case Submit(batch, request, world, refusal) => SubmitBatch(st, t, batch, request, world, refusal)
    case Pass(picked, world) =>
      if forall k :: 0 <= k < |picked| ==> picked[k] < |t| then RefreshAll(st, t, picked, world) else t
    case Report(id, future) =>
      if id < |t| && ValidUpdate(st, t[id].workflow, t[id].status, future) then WithStatus(t, id, future) else t
  }

  lemma {:induction false} PrepareNeverShrinks(st: States, w: World, r: Request, p: Progress)
    requires p.Valid(w)
    ensures |p.table| <= |Prepare(st, w, r, p).table|
    decreases w.maxExecutions - p.run, |p.work|
  {
    if p.work != [] {
      var next := Advance(st, w, r, p);
      if next.Some? {
        PrepareNeverShrinks(st, w, r, next.value);
      }
    }
  }

  lemma RefreshNeverShrinks(st: States, t: Table, id: nat, w: World)
    requires id < |t|
    ensures |t| <= |Refresh(st, t, id, w)|
  {
    PrepareNeverShrinks(st, w, REFRESH, Begin(WithStatus(t, id, Pending), [id]));
  }

  /** Steps of a request that has no more to do than its own executions: nothing cascades. */
  ghost predicate NeverCascades(w: World) {
    forall workflow, d :: !w.cascades(workflow, d)
  }

  /** The worklist names different executions, all with the placeholder status. */
  ghost predicate Placeholders(t: Table, work: seq<nat>) {
    && (forall k :: 0 <= k < |work| ==> work[k] < |t| && t[work[k]].status == Pending)
    && (forall j, k :: 0 <= j < k < |work| ==> work[j] != work[k])
  }

  // ----- one active execution per deployment -----

  /** Two active executions of one deployment, if any, include one that is still in the worklist. */
  ghost predicate OneActive(st: States, t: Table, work: seq<nat>) {
    forall i: nat, j: nat :: i != j && SameDeployment(t, i, j) && Active(st, t, i) && Active(st, t, j) ==> i in work || j in work
  }

  /** Nothing else in the deployment of `m` is active or was queued before it, or is still to be decided. */
  ghost predicate Settled(st: States, t: Table, work: seq<nat>, m: nat) {
    m < |t| && (t[m].deployment.Some? ==> forall i: nat :: i != m && SameDeployment(t, i, m) ==>
      i !in work && !Active(st, t, i) && !QueuedBefore(t, i, m))
  }

  /** Executions of a deployment are submitted without force, and their check is not switched off. */
  ghost predicate Checked(r: Request, e: Execution) {
    e.deployment.Some? ==> !r.force && !r.overlap && (IsBlocking(e) || r.queue)
  }

  ghost predicate InOrder(st: States, r: Request, p: Progress) {
    && Placeholders(p.table, p.work)
    && p.done == {}
    && (forall k :: 0 <= k < |p.work| ==> Checked(r, p.table[p.work[k]]))
    && OneActive(st, p.table, p.work)
    && (forall k :: 0 <= k < |p.messages| ==> p.messages[k] !in p.work && Settled(st, p.table, p.work, p.messages[k]))
  }

  /** Only rows of the worklist change, and of those only the status. */
  ghost predicate Untouched(before: Table, work: seq<nat>, after: Table) {
    && |after| == |before|
    && (forall i :: 0 <= i < |after| ==> after[i] == before[i].(status := after[i].status))
    && (forall i: nat :: i < |after| && i !in work ==> after[i] == before[i])
  }

  lemma SetAside(st: States, r: Request, p: Progress, s: Status)
    requires s !in st.active
    requires st.Valid() && p.work != [] && InOrder(st, r, p)
    ensures var id := p.work[|p.work| - 1];
            var q := p.(table := WithStatus(p.table, id, s), work := p.work[..|p.work| - 1]);
            InOrder(st, r, q) && Untouched(p.table, [id], q.table) && !Active(st, q.table, id)
  {
    var id, rest := p.work[|p.work| - 1], p.work[..|p.work| - 1];
    assert p.work == rest + [id];
    var t := WithStatus(p.table, id, s);
    forall m | m in p.messages ensures m !in rest && Settled(st, t, rest, m) {
      SettledAside(st, p.table, rest, id, s, m);
    }
    OneActiveAside(st, p.table, rest, id, s);
  }

  lemma OneActiveAside(st: States, t: Table, rest: seq<nat>, id: nat, s: Status)
    requires s !in st.active && st.Valid() && id < |t| && OneActive(st, t, rest + [id])
    ensures OneActive(st, WithStatus(t, id, s), rest)
  {
    var after := WithStatus(t, id, s);
    forall i: nat, j: nat | i != j && SameDeployment(after, i, j) && Active(st, after, i) && Active(st, after, j)
      ensures i in rest || j in rest
    {
      assert SameDeployment(t, i, j);
    }
  }

  lemma SettledAside(st: States, t: Table, rest: seq<nat>, id: nat, s: Status, m: nat)
    requires s !in st.active && st.Valid() && id < |t| && m !in rest + [id] && Settled(st, t, rest + [id], m)
    ensures m !in rest && Settled(st, WithStatus(t, id, s), rest, m)
  {
    assert id in rest + [id] && forall i: nat :: i in rest ==> i in rest + [id];
    assert forall i: nat :: SameDeployment(WithStatus(t, id, s), i, m) ==> SameDeployment(t, i, m);
  }

  lemma SettledWithout(st: States, t: Table, rest: seq<nat>, id: nat, m: nat)
    requires m !in rest + [id] && Settled(st, t, rest + [id], m)
    ensures m !in rest && Settled(st, t, rest, m)
  {
    assert forall i: nat :: i in rest ==> i in rest + [id];
  }

  lemma OneActiveWithout(st: States, t: Table, rest: seq<nat>, id: nat)
    requires OneActive(st, t, rest + [id]) && Settled(st, t, rest, id)
    ensures OneActive(st, t, rest)
  {
    forall i: nat, j: nat | i != j && SameDeployment(t, i, j) && Active(st, t, i) && Active(st, t, j)
      ensures i in rest || j in rest
    {
      assert SameDeployment(t, j, i);
      assert i in rest + [id] || j in rest + [id];
    }
  }

  lemma SetGoing(st: States, r: Request, p: Progress)
    requires st.Valid() && p.work != [] && InOrder(st, r, p)
    requires Settled(st, p.table, p.work[..|p.work| - 1], p.work[|p.work| - 1])
    ensures var id := p.work[|p.work| - 1];
            InOrder(st, r, p.(messages := p.messages + [id], work := p.work[..|p.work| - 1]))
  {
    var id, rest := p.work[|p.work| - 1], p.work[..|p.work| - 1];
    assert p.work == rest + [id];
    OneActiveWithout(st, p.table, rest, id);
    forall k | 0 <= k < |p.messages| ensures p.messages[k] !in rest && Settled(st, p.table, rest, p.messages[k]) {
      SettledWithout(st, p.table, rest, id, p.messages[k]);
    }
    assert id !in rest;
  }

  /** What a turn does to the execution `id` that it takes: it is set aside, or started. */
  ghost predicate TookOne(p: Progress, q: Progress, id: nat, s: Status)
    requires p.work != [] && id < |p.table|
  {
    && q.table == WithStatus(p.table, id, s) && q.work == p.work[..|p.work| - 1] && q.done == p.done
    && q.messages == if s == Pending then p.messages + [id] else p.messages
  }

  lemma AdvanceTakesOne(st: States, w: World, r: Request, p: Progress)
    requires NeverCascades(w) && p.Valid(w) && p.work != [] && p.done == {}
    ensures var id, next := p.work[|p.work| - 1], Advance(st, w, r, p);
            next.Some? ==>
              || TookOne(p, next.value, id, Failed)
              || TookOne(p, next.value, id, Queued)
              || (TookOne(p, next.value, id, Pending) && Decide(st, p.table, id, r) == Go)
  {
  }

  /** The execution taken is started, or it is not active any more. */
  ghost predicate TurnedInOrder(st: States, r: Request, p: Progress, q: Progress)
    requires p.work != []
  {
    var id := p.work[|p.work| - 1];
    && InOrder(st, r, q) && Untouched(p.table, [id], q.table)
    && q.work == p.work[..|p.work| - 1]
    && (q.messages == p.messages + [id] || (q.messages == p.messages && !Active(st, q.table, id)))
  }

  lemma AsideInOrder(st: States, r: Request, p: Progress, q: Progress, s: Status)
    requires st.Valid() && p.work != [] && InOrder(st, r, p) && s !in st.active && s != Pending
    requires TookOne(p, q, p.work[|p.work| - 1], s)
    ensures TurnedInOrder(st, r, p, q)
  {
    SetAside(st, r, p, s);
  }

  lemma StartInOrder(st: States, r: Request, p: Progress, q: Progress)
    requires st.Valid() && p.work != [] && InOrder(st, r, p)
    requires TookOne(p, q, p.work[|p.work| - 1], Pending) && Decide(st, p.table, p.work[|p.work| - 1], r) == Go
    ensures TurnedInOrder(st, r, p, q)
  {
    var id, rest := p.work[|p.work| - 1], p.work[..|p.work| - 1];
    assert WithStatus(p.table, id, Pending) == p.table;
    StartedIsSettled(st, r, p.table, rest, id);
    SetGoing(st, r, p);
  }

  lemma AdvanceInOrder(st: States, w: World, r: Request, p: Progress)
    requires st.Valid() && NeverCascades(w) && p.Valid(w) && p.work != [] && InOrder(st, r, p)
    ensures Advance(st, w, r, p).Some? ==> TurnedInOrder(st, r, p, Advance(st, w, r, p).value)
  {
    AdvanceTakesOne(st, w, r, p);
    if Advance(st, w, r, p).Some? {
      var id, q := p.work[|p.work| - 1], Advance(st, w, r, p).value;
      if TookOne(p, q, id, Failed) {
        AsideInOrder(st, r, p, q, Failed);
      } else if TookOne(p, q, id, Queued) {
        AsideInOrder(st, r, p, q, Queued);
      } else {
        StartInOrder(st, r, p, q);
      }
    }
  }

  /** The decision to start leaves no rival behind. */
  lemma StartedIsSettled(st: States, r: Request, t: Table, rest: seq<nat>, id: nat)
    requires st.Valid() && id < |t| && Checked(r, t[id]) && Decide(st, t, id, r) == Go
    requires forall k :: 0 <= k < |rest| ==> rest[k] < |t| && t[rest[k]].status == Pending && rest[k] != id
    ensures Settled(st, t, rest, id)
  {
    if t[id].deployment.Some? {
      assert !BlockedInDeployment(st, t, id);
    }
  }

  ghost predicate PreparedInOrder(st: States, p: Progress, result: Prepared) {
    && Untouched(p.table, p.work, result.table)
    && OneActive(st, result.table, p.work)
    && (result.Prepared? ==>
          && OneActive(st, result.table, [])
          && (forall i: nat :: i in result.messages ==> Settled(st, result.table, [], i))
          && (forall i: nat :: i in p.messages ==> i in result.messages)
          && (forall i: nat :: i in p.work && Active(st, result.table, i) ==> i in result.messages))
  }

  lemma PreparedThrough(st: States, r: Request, p: Progress, q: Progress, result: Prepared)
    requires p.work != [] && InOrder(st, r, p) && TurnedInOrder(st, r, p, q) && PreparedInOrder(st, q, result)
    ensures PreparedInOrder(st, p, result)
  {
    var id, rest := p.work[|p.work| - 1], p.work[..|p.work| - 1];
    assert p.work == rest + [id];
    assert forall i: nat :: i in p.work <==> i in rest || i == id;
    assert id !in rest;
  }

  lemma {:induction false} PrepareInOrder(st: States, w: World, r: Request, p: Progress)
    requires st.Valid() && NeverCascades(w) && p.Valid(w) && InOrder(st, r, p)
    ensures PreparedInOrder(st, p, Prepare(st, w, r, p))
    decreases |p.work|
  {
    if p.work != [] {
      AdvanceInOrder(st, w, r, p);
      var next := Advance(st, w, r, p);
      if next.Some? {
        PrepareInOrder(st, w, r, next.value);
        PreparedThrough(st, r, p, next.value, Prepare(st, w, r, next.value));
      }
    }
  }

  lemma PendingInOrder(st: States, t: Table, id: nat)
    requires st.Valid() && id < |t| && OneActive(st, t, [])
    ensures OneActive(st, WithStatus(t, id, Pending), [id])
    ensures OneActive(st, WithStatus(t, id, Failed), [])
  {
    forall s, i: nat, j: nat | s in {Pending, Failed} && i != j && i != id && j != id
        && SameDeployment(WithStatus(t, id, s), i, j)
      ensures !(Active(st, WithStatus(t, id, s), i) && Active(st, WithStatus(t, id, s), j))
    {
      assert SameDeployment(t, i, j);
    }
  }

  lemma RefreshInOrder(st: States, t: Table, id: nat, w: World)
    requires st.Valid() && NeverCascades(w)
    requires id < |t| && t[id].status == Queued && OneActive(st, t, [])
    ensures var after := Refresh(st, t, id, w);
            Untouched(t, [id], after) && OneActive(st, after, []) && (Active(st, after, id) ==> Settled(st, after, [], id))
  {
    var pending := WithStatus(t, id, Pending);
    PendingInOrder(st, t, id);
    if t[id].deployment.Some? && w.refreshFails(id) {
      assert Refresh(st, t, id, w) == WithStatus(t, id, Failed);
    } else {
      assert InOrder(st, REFRESH, Begin(pending, [id]));
      PrepareInOrder(st, w, REFRESH, Begin(pending, [id]));
      ConcludedInOrder(st, t, id, Prepare(st, w, REFRESH, Begin(pending, [id])));
    }
  }

  lemma ConcludedInOrder(st: States, t: Table, id: nat, outcome: Prepared)
    requires st.Valid() && id < |t|
    requires Untouched(WithStatus(t, id, Pending), [id], outcome.table) && OneActive(st, outcome.table, [id])
    requires outcome.Prepared? ==>
      && OneActive(st, outcome.table, [])
      && (Active(st, outcome.table, id) ==> Settled(st, outcome.table, [], id))
    ensures var after := Concluded(outcome, id);
            Untouched(t, [id], after) && OneActive(st, after, []) && (Active(st, after, id) ==> Settled(st, after, [], id))
  {
    var failed := WithStatus(outcome.table, id, Failed);
    forall i: nat, j: nat | i != j && SameDeployment(failed, i, j) && Active(st, failed, i) && Active(st, failed, j)
      ensures false
    {
      assert SameDeployment(outcome.table, i, j);
    }
  }

  /** The picked executions are queued and belong to different deployments. */
  ghost predicate Apart(t: Table, picked: seq<nat>) {
    && (forall k :: 0 <= k < |picked| ==> picked[k] < |t| && t[picked[k]].status == Queued)
    && (forall j, k :: 0 <= j < k < |picked| ==> picked[j] != picked[k] && t[picked[j]].deployment != t[picked[k]].deployment)
  }

  lemma {:induction false} RefreshAllInOrder(st: States, t: Table, picked: seq<nat>, w: World)
    requires st.Valid() && NeverCascades(w)
    requires Apart(t, picked) && OneActive(st, t, [])
    ensures var after := RefreshAll(st, t, picked, w);
            && Untouched(t, picked, after) && OneActive(st, after, [])
            && forall i: nat :: i in picked && Active(st, after, i) ==> Settled(st, after, [], i)
    decreases |picked|
  {
    if picked != [] {
      var id, rest := picked[0], picked[1..];
      assert picked == [id] + rest;
      RefreshInOrder(st, t, id, w);
      var middle := Refresh(st, t, id, w);
      ApartAfter(t, id, rest, middle);
      RefreshAllInOrder(st, middle, rest, w);
      FirstStaysSettled(st, t, id, rest, middle, RefreshAll(st, middle, rest, w));
    }
  }

  lemma ApartAfter(t: Table, id: nat, rest: seq<nat>, middle: Table)
    requires id < |t| && Apart(t, [id] + rest) && Untouched(t, [id], middle)
    ensures Apart(middle, rest) && id !in rest
    ensures forall k :: 0 <= k < |rest| ==> middle[rest[k]].deployment != middle[id].deployment
  {
    var picked := [id] + rest;
    forall k | 0 <= k < |rest| ensures picked[k + 1] == rest[k] && rest[k] != id && middle[rest[k]] == t[rest[k]] {
      assert picked[0] == id && picked[k + 1] == rest[k];
    }
    forall j, k | 0 <= j < k < |rest| ensures rest[j] != rest[k] && t[rest[j]].deployment != t[rest[k]].deployment {
      assert picked[j + 1] != picked[k + 1];
    }
    forall k | 0 <= k < |rest| ensures t[rest[k]].deployment != t[id].deployment {
      assert picked[0] == id && picked[k + 1] == rest[k];
    }
  }

  lemma FirstStaysSettled(st: States, t: Table, id: nat, rest: seq<nat>, middle: Table, after: Table)
    requires id < |t| && Untouched(t, [id], middle) && Untouched(middle, rest, after) && id !in rest
    requires forall k :: 0 <= k < |rest| ==> rest[k] < |t| && middle[rest[k]].deployment != middle[id].deployment
    requires Active(st, middle, id) ==> Settled(st, middle, [], id)
    ensures Untouched(t, [id] + rest, after) && (Active(st, after, id) ==> Settled(st, after, [], id))
  {
    if Active(st, after, id) {
      SettledStays(st, middle, rest, after, id);
    }
    forall i: nat | i < |t| && i !in [id] + rest ensures after[i] == t[i] {
      assert ([id] + rest)[0] == id;
      assert i != id && i !in rest;
    }
  }

  /** What is settled stays so while rows of other deployments change. */
  lemma SettledStays(st: States, t: Table, rows: seq<nat>, after: Table, m: nat)
    requires Untouched(t, rows, after) && m !in rows && Settled(st, t, [], m)
    requires forall k :: 0 <= k < |rows| ==> rows[k] < |t| && t[rows[k]].deployment != t[m].deployment
    ensures Settled(st, after, [], m)
  {
    forall i: nat | i != m && SameDeployment(after, i, m) ensures !Active(st, after, i) && !QueuedBefore(after, i, m) {
      assert SameDeployment(t, i, m);
      assert i !in rows;
    }
  }

  // ----- runs -----

  function Run(st: States, t: Table, steps: seq<Step>): Table
    decreases |steps|
  {
    if steps == [] then t else Run(st, Apply(st, t, steps[0]), steps[1..])
  }

  /**
    Unforced submits that do not cascade, dequeue passes, and reports on executions that are active. What is kept
    of a refused submit is one execution that belongs to no deployment.
   */
  ghost predicate Ordinary(st: States, t: Table, step: Step) {
    match step
    case Submit(batch, r, w, refusal) =>
      && NeverCascades(w) && (refusal.Kept? ==> |batch| == 1 && batch[0].deployment.None?)
      && forall k :: 0 <= k < |batch| ==> batch[k].status == Pending && Checked(r, batch[k])
    case Pass(picked, w) => NeverCascades(w) && IsSelection(t, picked)
    case Report(id, _) => Active(st, t, id)
  }

  /** No two active executions share a deployment. */
  ghost predicate OneActivePerDeployment(st: States, t: Table) {
    forall i: nat, j: nat :: i != j && SameDeployment(t, i, j) ==> !(Active(st, t, i) && Active(st, t, j))
  }

  /** Execution `m` became active, and no execution of its deployment that is older is queued. */
  ghost predicate StartsInOrder(st: States, before: Table, after: Table, m: nat) {
    Active(st, after, m) && !Active(st, before, m) ==>
      forall i: nat :: i != m && SameDeployment(after, i, m) ==> !QueuedBefore(after, i, m)
  }

  ghost predicate AllStartInOrder(st: States, before: Table, after: Table) {
    forall m: nat :: StartsInOrder(st, before, after, m)
  }

  lemma SubmitBeginsInOrder(st: States, t: Table, batch: seq<Execution>, r: Request, w: World, refusal: Refusal)
    requires st.Valid() && OneActivePerDeployment(st, t) && Ordinary(st, t, Submit(batch, r, w, refusal))
    ensures InOrder(st, r, Begin(t + batch, Interval(|t|, |t + batch|)))
  {
    var stored := t + batch;
    var work := Interval(|t|, |stored|);
    forall i: nat, j: nat | i != j && SameDeployment(stored, i, j) && Active(st, stored, i) && Active(st, stored, j)
      ensures i in work || j in work
    {
      if i < |t| && j < |t| {
        assert SameDeployment(t, i, j);
      } else {
        assert i >= |t| ==> work[i - |t|] == i;
        assert j >= |t| ==> work[j - |t|] == j;
      }
    }
  }

  /** A request that goes through starts only settled executions, and those that it starts are new. */
  lemma PreparedStartsInOrder(st: States, t: Table, batch: seq<Execution>, result: Prepared)
    requires result.Prepared? && PreparedInOrder(st, Begin(t + batch, Interval(|t|, |t + batch|)), result)
    ensures OneActivePerDeployment(st, result.table) && AllStartInOrder(st, t, result.table)
  {
    var work := Interval(|t|, |t + batch|);
    forall m: nat ensures StartsInOrder(st, t, result.table, m) {
      if Active(st, result.table, m) && !Active(st, t, m) && m >= |t| {
        assert work[m - |t|] == m;
      }
    }
  }

  /** A row that is kept belongs to no deployment, and has no rival in one. */
  lemma KeptStartsInOrder(st: States, t: Table, e: Execution, result: Prepared)
    requires e.deployment.None? && PreparedInOrder(st, Begin(t + [e], Interval(|t|, |t + [e]|)), result)
    ensures OneActivePerDeployment(st, result.table) && AllStartInOrder(st, t, result.table)
  {
    assert result.table[|t|].deployment.None?;
    forall i: nat, j: nat | SameDeployment(result.table, i, j) ensures i != |t| && j != |t| {}
  }

  lemma SubmitInOrder(st: States, t: Table, batch: seq<Execution>, r: Request, w: World, refusal: Refusal)
    requires st.Valid() && OneActivePerDeployment(st, t) && Ordinary(st, t, Submit(batch, r, w, refusal))
    ensures var after := SubmitBatch(st, t, batch, r, w, refusal);
            OneActivePerDeployment(st, after) && AllStartInOrder(st, t, after)
  {
    var p := Begin(t + batch, Interval(|t|, |t + batch|));
    SubmitBeginsInOrder(st, t, batch, r, w, refusal);
    PrepareInOrder(st, w, r, p);
    var result := Prepare(st, w, r, p);
    if result.Prepared? {
      PreparedStartsInOrder(st, t, batch, result);
    } else if refusal.Kept? {
      assert batch == [batch[0]];
      KeptStartsInOrder(st, t, batch[0], result);
    }
  }

  lemma PassInOrder(st: States, t: Table, picked: seq<nat>, w: World)
    requires st.Valid() && OneActivePerDeployment(st, t) && Ordinary(st, t, Pass(picked, w))
    ensures var after := Apply(st, t, Pass(picked, w));
            OneActivePerDeployment(st, after) && AllStartInOrder(st, t, after)
  {
    assert Apart(t, picked);
    RefreshAllInOrder(st, t, picked, w);
  }

  lemma StepInOrder(st: States, t: Table, step: Step)
    requires st.Valid() && OneActivePerDeployment(st, t) && Ordinary(st, t, step)
    ensures var after := Apply(st, t, step);
            OneActivePerDeployment(st, after) && AllStartInOrder(st, t, after)
  {
    match step
    case Submit(batch, r, w, refusal) => SubmitInOrder(st, t, batch, r, w, refusal);
    case Pass(picked, w) => PassInOrder(st, t, picked, w);
    case Report(id, future) =>
      var after := Apply(st, t, step);
      forall i: nat, j: nat | i != j && SameDeployment(after, i, j) ensures !(Active(st, after, i) && Active(st, after, j)) {
        assert SameDeployment(t, i, j);
      }
  }

  ghost predicate OrdinaryRun(st: States, t: Table, steps: seq<Step>)
    decreases |steps|
  {
    steps == [] || (Ordinary(st, t, steps[0]) && OrdinaryRun(st, Apply(st, t, steps[0]), steps[1..]))
  }

  /** Over every run: one active execution per deployment, and no start overtakes an older queued execution. */
  lemma {:induction false} RunsAreExclusive(st: States, t: Table, steps: seq<Step>, n: nat)
    requires st.Valid() && OneActivePerDeployment(st, t) && OrdinaryRun(st, t, steps) && n <= |steps|
    ensures OneActivePerDeployment(st, Run(st, t, steps[..n]))
    ensures n < |steps| ==> AllStartInOrder(st, Run(st, t, steps[..n]), Run(st, t, steps[..n + 1]))
    decreases |steps|
  {
    if n > 0 {
      StepInOrder(st, t, steps[0]);
      assert steps[..n][1..] == steps[1..][..n - 1];
      assert n < |steps| ==> steps[..n + 1][1..] == steps[1..][..n];
      RunsAreExclusive(st, Apply(st, t, steps[0]), steps[1..], n - 1);
    } else if |steps| > 0 {
      StepInOrder(st, t, steps[0]);
      assert steps[..0] == [] && steps[..1] == [steps[0]] && [steps[0]][1..] == [];
      var after := Apply(st, t, steps[0]);
      assert Run(st, t, [steps[0]]) == Run(st, after, []) == after;
    }
  }

  // ----- system-wide executions run alone -----

  ghost predicate NoActiveSystemWide(st: States, t: Table) {
    forall i: nat :: i < |t| && SystemWide(t[i]) ==> !Active(st, t, i)
  }

  /** An active system-wide execution and another active one, if any, include one still in the worklist. */
  ghost predicate RunsAlone(st: States, t: Table, work: seq<nat>) {
    forall i: nat, j: nat :: i != j && Active(st, t, i) && Active(st, t, j) && SystemWide(t[i]) ==> i in work || j in work
  }

  ghost predicate Supervising(st: States, r: Request, p: Progress) {
    && Placeholders(p.table, p.work)
    && !r.overlap
    && (forall k :: 0 <= k < |p.work| ==> IsBlocking(p.table[p.work[k]]) || r.queue)
    && RunsAlone(st, p.table, p.work)
    && (p.done != {} ==> NoActiveSystemWide(st, p.table))
  }

  lemma GoMeansAlone(st: States, r: Request, t: Table, id: nat)
    requires id < |t| && Active(st, t, id) && !r.overlap && (IsBlocking(t[id]) || r.queue)
    requires Decide(st, t, id, r) == Go
    ensures SystemWide(t[id]) ==> !AnyOtherActive(st, t, id)
    ensures !SystemWide(t[id]) ==> NoActiveSystemWide(st, t)
  {
    if !SystemWide(t[id]) {
      assert !AnySystemActiveOrQueued(st, t);
    }
  }

  lemma CascadeSupervised(st: States, w: World, r: Request, p: Progress)
    requires st.Valid() && p.work != [] && Supervising(st, r, p) && NoActiveSystemWide(st, p.table)
    requires Cascades(w, p.table[p.work[|p.work| - 1]])
    ensures var id, rest, t := p.work[|p.work| - 1], p.work[..|p.work| - 1], p.table;
            var added := ComponentExecutions(w, t[id], w.components(t[id].deployment.value));
            forall q: Progress :: q.table == t + added && q.work == rest + Interval(|t|, |t| + |added|) ==>
              Supervising(st, r, q) && NoActiveSystemWide(st, q.table)
  {
    var id, rest, t := p.work[|p.work| - 1], p.work[..|p.work| - 1], p.table;
    assert id in p.work;
    var added := ComponentExecutions(w, t[id], w.components(t[id].deployment.value));
    var more, work := t + added, rest + Interval(|t|, |t| + |added|);
    assert NoActiveSystemWide(st, more);
    assert Placeholders(more, work);
  }

  /** Rows are added only at the end, and at most the status of `id` changes; new work is in new rows. */
  ghost predicate Framed(before: Progress, id: nat, after: Progress) {
    && |before.table| <= |after.table|
    && Untouched(before.table, [id], after.table[..|before.table|])
    && (forall k :: 0 <= k < |after.work| ==> after.work[k] in before.work || after.work[k] >= |before.table|)
    && (after.done == before.done || after.done != {})
  }

  /** What a turn can come to: skipped, failed, queued, or launched. */
  ghost predicate IsTurn(w: World, p: Progress, next: Progress)
    requires p.Valid(w) && p.work != []
  {
    var id, rest, t := p.work[|p.work| - 1], p.work[..|p.work| - 1], p.table;
    var q := p.(work := rest, run := p.run + 1);
    || next == p.(work := rest)
    || next == q.(table := WithStatus(t, id, Failed), failed := true)
    || next == q.(table := WithStatus(t, id, Queued))
    || next == Launched(w, q, id)
  }

  lemma AdvanceIsTurn(st: States, w: World, r: Request, p: Progress)
    requires p.Valid(w) && p.work != []
    ensures Advance(st, w, r, p).Some? ==> IsTurn(w, p, Advance(st, w, r, p).value)
  {
  }

  lemma LaunchFrame(w: World, p: Progress, id: nat)
    requires id < |p.table|
    ensures var after := Launched(w, p, id);
            Framed(p, id, after) && (after.work == p.work || after.done != {})
  {
    var after := Launched(w, p, id);
    assert forall i :: 0 <= i < |p.table| && i != id ==> after.table[..|p.table|][i] == p.table[i];
  }

  lemma StatusFrame(p: Progress, id: nat, next: Progress)
    requires id < |p.table| && |next.table| == |p.table| && next.done == p.done
    requires next.table == p.table || exists s :: next.table == WithStatus(p.table, id, s)
    requires forall k :: 0 <= k < |next.work| ==> next.work[k] in p.work
    ensures Framed(p, id, next)
  {
    assert next.table[..|p.table|] == next.table;
  }

  lemma FramedWithMoreWork(p: Progress, q: Progress, id: nat, next: Progress)
    requires Framed(q, id, next) && p.table == q.table && p.done == q.done
    requires forall k :: 0 <= k < |q.work| ==> q.work[k] in p.work
    ensures Framed(p, id, next)
  {
  }

  lemma TurnIsFramed(w: World, p: Progress, next: Progress)
    requires p.Valid(w) && p.work != [] && IsTurn(w, p, next)
    ensures Framed(p, p.work[|p.work| - 1], next) && (next.work == p.work[..|p.work| - 1] || next.done != {})
  {
    var id, rest := p.work[|p.work| - 1], p.work[..|p.work| - 1];
    var q := p.(work := rest, run := p.run + 1);
    if next == Launched(w, q, id) {
      LaunchFrame(w, q, id);
      FramedWithMoreWork(p, q, id, next);
    } else {
      StatusFrame(p, id, next);
    }
  }

  /** One turn of the loop, whatever is decided. */
  lemma AdvanceFrame(st: States, w: World, r: Request, p: Progress)
    requires p.Valid(w) && p.work != []
    ensures var next := Advance(st, w, r, p);
            next.Some? ==>
              && Framed(p, p.work[|p.work| - 1], next.value)
              && (next.value.work == p.work[..|p.work| - 1] || next.value.done != {})
  {
    AdvanceIsTurn(st, w, r, p);
    if Advance(st, w, r, p).Some? {
      TurnIsFramed(w, p, Advance(st, w, r, p).value);
    }
  }

  /** A whole request: rows are added at the end, and of the others at most the status of those in the worklist changes. */
  lemma {:induction false} PrepareFrame(st: States, w: World, r: Request, p: Progress)
    requires p.Valid(w)
    ensures var result := Prepare(st, w, r, p);
            |p.table| <= |result.table| && Untouched(p.table, p.work, result.table[..|p.table|])
    decreases w.maxExecutions - p.run, |p.work|
  {
    var result := Prepare(st, w, r, p);
    if p.work != [] {
      var id := p.work[|p.work| - 1];
      var next := Advance(st, w, r, p);
      if next.Some? {
        AdvanceFrame(st, w, r, p);
        PrepareFrame(st, w, r, next.value);
        FrameThrough(p.table, p.work, id, next.value.table, next.value.work, result.table);
      } else {
        assert result.table[..|p.table|] == p.table;
      }
    } else {
      assert result.table[..|p.table|] == p.table;
    }
  }

  lemma RefreshFrame(st: States, t: Table, id: nat, w: World)
    requires id < |t|
    ensures var after := Refresh(st, t, id, w);
            |t| <= |after| && Untouched(t, [id], after[..|t|])
  {
    var pending := WithStatus(t, id, Pending);
    PrepareFrame(st, w, REFRESH, Begin(pending, [id]));
    var after := Refresh(st, t, id, w);
    var result := Prepare(st, w, REFRESH, Begin(pending, [id])).table;
    assert forall i :: 0 <= i < |t| ==> result[..|t|][i] == result[i] && after[..|t|][i] == after[i];
  }

  lemma LaunchSupervised(st: States, w: World, r: Request, p: Progress, q: Progress)
    requires st.Valid() && p.work != [] && Supervising(st, r, p)
    requires q == p.(work := p.work[..|p.work| - 1], run := q.run) && !w.renderFails(p.work[|p.work| - 1])
    requires var id := p.work[|p.work| - 1];
             if SystemWide(p.table[id]) then !AnyOtherActive(st, p.table, id) else NoActiveSystemWide(st, p.table)
    ensures Supervising(st, r, Launched(w, q, p.work[|p.work| - 1]))
  {
    var id, rest, t := p.work[|p.work| - 1], p.work[..|p.work| - 1], p.table;
    assert p.work == rest + [id];
    assert WithStatus(t, id, Pending) == t;
    if Cascades(w, t[id]) {
      CascadeSupervised(st, w, r, p);
    } else {
      RunsAloneWithout(st, t, rest, id);
    }
  }

  lemma AdvanceLaunches(st: States, w: World, r: Request, p: Progress)
    requires p.Valid(w) && p.work != [] && !Skipped(p) && Decide(st, p.table, p.work[|p.work| - 1], r) == Go
    ensures var id, next := p.work[|p.work| - 1], Advance(st, w, r, p);
            next.Some? && next.value.messages != p.messages ==>
              !w.renderFails(id) && next.value == Launched(w, p.(work := p.work[..|p.work| - 1], run := p.run + 1), id)
  {
  }

  lemma GoSupervised(st: States, w: World, r: Request, p: Progress)
    requires st.Valid() && p.Valid(w) && p.work != [] && Supervising(st, r, p) && !Skipped(p)
    requires Decide(st, p.table, p.work[|p.work| - 1], r) == Go
    ensures var next := Advance(st, w, r, p);
            next.Some? && next.value.messages != p.messages ==> Supervising(st, r, next.value)
  {
    AdvanceLaunches(st, w, r, p);
    var id, next := p.work[|p.work| - 1], Advance(st, w, r, p);
    if next.Some? && next.value.messages != p.messages {
      GoMeansAlone(st, r, p.table, id);
      LaunchSupervised(st, w, r, p, p.(work := p.work[..|p.work| - 1], run := p.run + 1));
    }
  }

  lemma AdvanceSupervised(st: States, w: World, r: Request, p: Progress)
    requires st.Valid() && p.Valid(w) && p.work != [] && Supervising(st, r, p)
    ensures var next := Advance(st, w, r, p);
            next.Some? ==> Supervising(st, r, next.value)
  {
    var id, rest, t := p.work[|p.work| - 1], p.work[..|p.work| - 1], p.table;
    assert p.work == rest + [id];
    var next := Advance(st, w, r, p);
    if next.Some? && !Skipped(p) {
      if next.value.messages != p.messages {
        GoSupervised(st, w, r, p);
      } else {
        StoppedSupervised(st, r, p, next.value);
      }
    }
  }

  lemma RunsAloneWithout(st: States, t: Table, rest: seq<nat>, id: nat)
    requires RunsAlone(st, t, rest + [id]) && id < |t|
    requires if SystemWide(t[id]) then !AnyOtherActive(st, t, id) else NoActiveSystemWide(st, t)
    ensures RunsAlone(st, t, rest)
  {
  }

  lemma StoppedSupervised(st: States, r: Request, p: Progress, q: Progress)
    requires st.Valid() && p.work != [] && Supervising(st, r, p)
    requires q.work == p.work[..|p.work| - 1] && q.done == p.done
    requires exists s :: s !in st.active && q.table == WithStatus(p.table, p.work[|p.work| - 1], s)
    ensures Supervising(st, r, q)
  {
    var id, rest := p.work[|p.work| - 1], p.work[..|p.work| - 1];
    assert p.work == rest + [id];
    assert !Active(st, q.table, id);
    forall i: nat, j: nat | i != j && Active(st, q.table, i) && Active(st, q.table, j) && SystemWide(q.table[i])
      ensures i in rest || j in rest
    {
      assert Active(st, p.table, i) && Active(st, p.table, j);
    }
  }

  ghost predicate AloneAfter(st: States, p: Progress, result: Prepared) {
    && RunsAlone(st, result.table, if result.Prepared? then [] else p.work)
    && (p.done != {} ==> NoActiveSystemWide(st, result.table))
  }

  lemma AloneThrough(st: States, p: Progress, next: Progress, result: Prepared)
    requires p.work != [] && (next.work == p.work[..|p.work| - 1] || next.done != {})
    requires next.done == p.done || next.done != {}
    requires AloneAfter(st, next, result)
    ensures AloneAfter(st, p, result)
  {
  }

  lemma {:induction false} PrepareAlone(st: States, w: World, r: Request, p: Progress)
    requires st.Valid() && p.Valid(w) && Supervising(st, r, p)
    ensures AloneAfter(st, p, Prepare(st, w, r, p))
    decreases w.maxExecutions - p.run, |p.work|
  {
    if p.work != [] {
      AdvanceSupervised(st, w, r, p);
      AdvanceFrame(st, w, r, p);
      var next := Advance(st, w, r, p);
      if next.Some? {
        PrepareAlone(st, w, r, next.value);
        AloneThrough(st, p, next.value, Prepare(st, w, r, next.value));
      }
    }
  }

  lemma PrepareSupervised(st: States, w: World, r: Request, p: Progress)
    requires st.Valid() && p.Valid(w) && Supervising(st, r, p)
    ensures var result := Prepare(st, w, r, p);
            && |p.table| <= |result.table|
            && Untouched(p.table, p.work, result.table[..|p.table|])
            && RunsAlone(st, result.table, if result.Prepared? then [] else p.work)
            && (p.done != {} ==> NoActiveSystemWide(st, result.table))
  {
    PrepareFrame(st, w, r, p);
    PrepareAlone(st, w, r, p);
  }

  lemma FrameThrough(before: Table, work: seq<nat>, id: nat, middle: Table, rest: seq<nat>, after: Table)
    requires |before| <= |middle| <= |after| && id in work
    requires Untouched(before, [id], middle[..|before|]) && Untouched(middle, rest, after[..|middle|])
    requires forall k :: 0 <= k < |rest| ==> rest[k] in work || rest[k] >= |before|
    ensures Untouched(before, work, after[..|before|])
  {
    forall i: nat | i < |before|
      ensures after[i] == before[i].(status := after[i].status) && (i !in work ==> after[i] == before[i])
    {
      assert middle[..|before|][i] == middle[i] && after[..|middle|][i] == after[i];
    }
  }

  lemma RefreshSupervised(st: States, t: Table, id: nat, w: World)
    requires st.Valid() && id < |t| && t[id].status == Queued && RunsAlone(st, t, [])
    ensures var after := Refresh(st, t, id, w);
            |t| <= |after| && RunsAlone(st, after, []) && Untouched(t, [id], after[..|t|])
  {
    var pending := WithStatus(t, id, Pending);
    RunsAloneOncePending(st, t, id);
    PrepareSupervised(st, w, REFRESH, Begin(pending, [id]));
    RunsAloneOnceFailed(st, pending, id);
    ConcludedSupervised(st, t, id, Prepare(st, w, REFRESH, Begin(pending, [id])));
  }

  lemma ConcludedSupervised(st: States, t: Table, id: nat, outcome: Prepared)
    requires st.Valid() && id < |t| <= |outcome.table|
    requires Untouched(WithStatus(t, id, Pending), [id], outcome.table[..|t|])
    requires RunsAlone(st, outcome.table, if outcome.Prepared? then [] else [id])
    ensures var after := Concluded(outcome, id);
            |t| <= |after| && RunsAlone(st, after, []) && Untouched(t, [id], after[..|t|])
  {
    RunsAloneOnceFailed(st, outcome.table, id);
    assert forall i :: 0 <= i < |t| ==> outcome.table[..|t|][i] == outcome.table[i];
  }

  lemma RunsAloneOncePending(st: States, t: Table, id: nat)
    requires st.Valid() && id < |t| && RunsAlone(st, t, [])
    ensures RunsAlone(st, WithStatus(t, id, Pending), [id])
  {
    var pending := WithStatus(t, id, Pending);
    forall i: nat, j: nat | i != j && Active(st, pending, i) && Active(st, pending, j) && SystemWide(pending[i])
      ensures i in [id] || j in [id]
    {
      if i != id && j != id {
        assert Active(st, t, i) && Active(st, t, j);
      }
    }
  }

  lemma RunsAloneOnceFailed(st: States, t: Table, id: nat)
    requires st.Valid() && id < |t| && (RunsAlone(st, t, [id]) || RunsAlone(st, t, []))
    ensures RunsAlone(st, WithStatus(t, id, Failed), [])
  {
    var failed := WithStatus(t, id, Failed);
    forall i: nat, j: nat | i != j && Active(st, failed, i) && Active(st, failed, j) && SystemWide(failed[i]) ensures false {
      assert Active(st, t, i) && Active(st, t, j);
    }
  }

  lemma {:induction false} RefreshAllSupervised(st: States, t: Table, picked: seq<nat>, w: World)
    requires st.Valid() && RunsAlone(st, t, [])
    requires forall k :: 0 <= k < |picked| ==> picked[k] < |t| && t[picked[k]].status == Queued
    requires forall j, k :: 0 <= j < k < |picked| ==> picked[j] != picked[k]
    ensures RunsAlone(st, RefreshAll(st, t, picked, w), [])
    decreases |picked|
  {
    if picked != [] {
      RefreshSupervised(st, t, picked[0], w);
      var middle := Refresh(st, t, picked[0], w);
      forall k | 0 <= k < |picked[1..]| ensures middle[picked[1..][k]].status == Queued {
        assert middle[..|t|][picked[k + 1]] == middle[picked[k + 1]];
      }
      RefreshAllSupervised(st, middle, picked[1..], w);
    }
  }

  /**
    Any submit that is checked at all (with or without force, cascading or not), dequeues, and reports on active
    executions. What is kept of a refused submit is one execution.
   */
  ghost predicate Supervised(st: States, t: Table, step: Step) {
    match step
    case Submit(batch, r, w, refusal) =>
      && !r.overlap && (refusal.Kept? ==> |batch| == 1 && w.maxExecutions > 0)
      && forall k :: 0 <= k < |batch| ==> batch[k].status == Pending && (IsBlocking(batch[k]) || r.queue)
    case Pass(picked, w) => IsSelection(t, picked)
    case Report(id, _) => Active(st, t, id)
  }

  lemma SubmitBegins(st: States, t: Table, batch: seq<Execution>, r: Request, w: World, refusal: Refusal)
    requires st.Valid() && RunsAlone(st, t, []) && Supervised(st, t, Submit(batch, r, w, refusal))
    ensures Supervising(st, r, Begin(t + batch, Interval(|t|, |t + batch|)))
  {
    var stored := t + batch;
    var work := Interval(|t|, |stored|);
    forall i: nat, j: nat | i != j && Active(st, stored, i) && Active(st, stored, j) && SystemWide(stored[i])
      ensures i in work || j in work
    {
      if i < |t| && j < |t| {
        assert Active(st, t, i) && Active(st, t, j);
      } else {
        assert i >= |t| ==> work[i - |t|] == i;
        assert j >= |t| ==> work[j - |t|] == j;
      }
    }
  }

  lemma UndoneSubmitSupervised(st: States, t: Table, batch: seq<Execution>, r: Request, w: World)
    requires st.Valid() && RunsAlone(st, t, []) && Supervised(st, t, Submit(batch, r, w, Undone))
    ensures RunsAlone(st, SubmitBatch(st, t, batch, r, w, Undone), [])
  {
    SubmitBegins(st, t, batch, r, w, Undone);
    PrepareSupervised(st, w, r, Begin(t + batch, Interval(|t|, |t + batch|)));
  }

  /** A refusal that keeps the row: a system-wide execution that may not wait, submitted while something is active. */
  ghost predicate StaysPending(st: States, t: Table, step: Step) {
    && step.Submit? && step.refusal.Kept? && |step.batch| == 1 && SystemWide(step.batch[0])
    && !step.request.queue && !step.world.checkFails(|t|) && exists i: nat :: Active(st, t, i)
  }

  /** The first turn of a single submit: it is refused for good, or leaves nothing that could be. */
  lemma SingleTurn(st: States, t: Table, e: Execution, r: Request, w: World)
    requires st.Valid() && RunsAlone(st, t, []) && Supervised(st, t, Submit([e], r, w, Kept))
    ensures var p := Begin(t + [e], Interval(|t|, |t + [e]|));
            && (Advance(st, w, r, p).None? <==> !w.checkFails(|t|) && Decide(st, t + [e], |t|, r) == Refuse)
            && (Advance(st, w, r, p).Some? ==> RunsAlone(st, Prepare(st, w, r, p).table, []))
  {
    var p := Begin(t + [e], Interval(|t|, |t + [e]|));
    assert p.work == [|t|] && p.work[..0] == [];
    var next := Advance(st, w, r, p);
    if next.Some? {
      SubmitBegins(st, t, [e], r, w, Kept);
      AdvanceSupervised(st, w, r, p);
      AdvanceFrame(st, w, r, p);
      PrepareAlone(st, w, r, next.value);
    }
  }

  lemma RefusedSingle(st: States, t: Table, e: Execution, r: Request)
    requires st.Valid() && RunsAlone(st, t, []) && e.status == Pending && !r.overlap && (IsBlocking(e) || r.queue)
    ensures SystemWide(e) ==>
      (Decide(st, t + [e], |t|, r) == Refuse <==> !r.queue && exists i: nat :: Active(st, t, i))
    ensures SystemWide(e) && Decide(st, t + [e], |t|, r) == Refuse ==> !RunsAlone(st, t + [e], [])
    ensures !SystemWide(e) && Decide(st, t + [e], |t|, r) == Refuse ==> RunsAlone(st, t + [e], [])
  {
    var stored := t + [e];
    assert Active(st, stored, |t|);
    assert forall i: nat :: i != |t| ==> (Active(st, stored, i) <==> Active(st, t, i));
    if SystemWide(e) {
      assert AnyOtherActive(st, stored, |t|) <==> exists i: nat :: Active(st, t, i);
    } else if Decide(st, stored, |t|, r) == Refuse {
      assert !AnySystemActiveOrQueued(st, stored);
    }
  }

  /** A single submit whose refusal keeps its row leaves system-wide executions alone, unless it is refused as such. */
  lemma KeptSubmitIff(st: States, t: Table, e: Execution, r: Request, w: World)
    requires st.Valid() && RunsAlone(st, t, []) && Supervised(st, t, Submit([e], r, w, Kept))
    ensures RunsAlone(st, SubmitBatch(st, t, [e], r, w, Kept), []) <==> !StaysPending(st, t, Submit([e], r, w, Kept))
  {
    SingleTurn(st, t, e, r, w);
    RefusedSingle(st, t, e, r);
  }

  lemma StepSupervisedIff(st: States, t: Table, step: Step)
    requires st.Valid() && RunsAlone(st, t, []) && Supervised(st, t, step)
    ensures RunsAlone(st, Apply(st, t, step), []) <==> !StaysPending(st, t, step)
  {
    match step
    case Submit(batch, r, w, refusal) =>
      if refusal.Kept? {
        assert batch == [batch[0]];
        KeptSubmitIff(st, t, batch[0], r, w);
      } else {
        UndoneSubmitSupervised(st, t, batch, r, w);
      }
    case Pass(picked, w) => RefreshAllSupervised(st, t, picked, w);
    case Report(id, future) =>
      var after := Apply(st, t, step);
      forall i: nat, j: nat | i != j && Active(st, after, i) && Active(st, after, j) && SystemWide(after[i]) ensures false {
        assert Active(st, t, i) && Active(st, t, j);
      }
  }

  ghost predicate SupervisedRun(st: States, t: Table, steps: seq<Step>)
    decreases |steps|
  {
    steps == [] || (Supervised(st, t, steps[0]) && SupervisedRun(st, Apply(st, t, steps[0]), steps[1..]))
  }

  /** A refused submit of the run leaves a pending row where something is active. */
  ghost predicate AnyStaysPending(st: States, t: Table, steps: seq<Step>)
    decreases |steps|
  {
    steps != [] && (StaysPending(st, t, steps[0]) || AnyStaysPending(st, Apply(st, t, steps[0]), steps[1..]))
  }

  ghost predicate AloneThroughout(st: States, t: Table, steps: seq<Step>)
    decreases |steps|
  {
    RunsAlone(st, t, []) && (steps == [] || AloneThroughout(st, Apply(st, t, steps[0]), steps[1..]))
  }

  /** Over every run: system-wide executions are alone at every step, if and only if no refused one stays pending. */
  lemma {:induction false} AloneThroughoutIff(st: States, t: Table, steps: seq<Step>)
    requires st.Valid() && RunsAlone(st, t, []) && SupervisedRun(st, t, steps)
    ensures AloneThroughout(st, t, steps) <==> !AnyStaysPending(st, t, steps)
    decreases |steps|
  {
    if steps != [] {
      StepSupervisedIff(st, t, steps[0]);
      if !StaysPending(st, t, steps[0]) {
        AloneThroughoutIff(st, Apply(st, t, steps[0]), steps[1..]);
      }
    }
  }

  lemma {:induction false} AloneAtTheEnd(st: States, t: Table, steps: seq<Step>)
    requires AloneThroughout(st, t, steps)
    ensures RunsAlone(st, Run(st, t, steps), [])
    decreases |steps|
  {
    if steps != [] {
      AloneAtTheEnd(st, Apply(st, t, steps[0]), steps[1..]);
    }
  }

  lemma AloneWithoutWork(st: States, t: Table, i: nat)
    requires RunsAlone(st, t, []) && Active(st, t, i) && SystemWide(t[i])
    ensures forall j: nat :: j != i ==> !Active(st, t, j)
  {
    forall j: nat | j != i && Active(st, t, j) ensures false {}
  }

  /**
    Over every run, forced submits and cascades included: an active system-wide execution is the only active one,
    if no refused submit leaves one pending beside another active one.
   */
  lemma SystemWideRunsAlone(st: States, t: Table, steps: seq<Step>)
    requires st.Valid() && RunsAlone(st, t, []) && SupervisedRun(st, t, steps) && !AnyStaysPending(st, t, steps)
    ensures var after := Run(st, t, steps);
            forall i: nat, j: nat :: i != j && Active(st, after, i) && SystemWide(after[i]) ==> !Active(st, after, j)
  {
    AloneThroughoutIff(st, t, steps);
    AloneAtTheEnd(st, t, steps);
    var after := Run(st, t, steps);
    forall i: nat, j: nat | i != j && Active(st, after, i) && SystemWide(after[i]) ensures !Active(st, after, j) {
      AloneWithoutWork(st, after, i);
    }
  }

  /** A snapshot to be restored while a workflow runs: the request is refused, and its execution stays pending. */
  lemma RefusedRestoreExample(st: States, w: World)
    requires st.Valid() && w.maxExecutions > 0 && !w.checkFails(1)
    ensures var t := [Execution(Some(0), false, "install", false, Started, Some(1), false, [])];
            var e := Execution(None, true, "restore_snapshot", false, Pending, Some(2), false, []);
            var step := Submit([e], Request(false, false, false), w, Kept);
            && Supervised(st, t, step) && RunsAlone(st, t, [])
            && Apply(st, t, step) == t + [e] && !RunsAlone(st, t + [e], [])
  {
    var t := [Execution(Some(0), false, "install", false, Started, Some(1), false, [])];
    var e := Execution(None, true, "restore_snapshot", false, Pending, Some(2), false, []);
    var r := Request(false, false, false);
    assert Active(st, t, 0);
    assert RunsAlone(st, t, []);
    SingleTurn(st, t, e, r, w);
    RefusedSingle(st, t, e, r);
  }

  // ----- while a system execution is queued -----

  ghost predicate QueuedSystem(t: Table, q: nat) {
    q < |t| && t[q].system && t[q].status == Queued
  }

  /** With a system execution queued, the only executions that a request can start are system-wide ones. */
  lemma {:induction false} PrepareWhileQueued(st: States, w: World, r: Request, p: Progress, q: nat)
    requires st.Valid() && p.Valid(w) && Supervising(st, r, p) && p.done == {}
    requires QueuedSystem(p.table, q) && q !in p.work
    ensures var result := Prepare(st, w, r, p);
            && |result.table| == |p.table|
            && (result.Prepared? ==> forall i: nat :: i in p.work && Active(st, result.table, i) ==> SystemWide(p.table[i]))
    decreases w.maxExecutions - p.run, |p.work|
  {
    if p.work != [] {
      var id, rest := p.work[|p.work| - 1], p.work[..|p.work| - 1];
      assert p.work == rest + [id];
      AdvanceSupervised(st, w, r, p);
      AdvanceFrame(st, w, r, p);
      var next := Advance(st, w, r, p);
      if next.Some? {
        TurnWhileQueued(st, w, r, p, q);
        PrepareWhileQueued(st, w, r, next.value, q);
        PrepareSupervised(st, w, r, next.value);
      }
    }
  }

  lemma TurnWhileQueued(st: States, w: World, r: Request, p: Progress, q: nat)
    requires st.Valid() && p.Valid(w) && p.work != [] && Supervising(st, r, p) && p.done == {}
    requires QueuedSystem(p.table, q) && q !in p.work
    ensures var next := Advance(st, w, r, p);
            next.Some? ==>
              && next.value.done == {} && next.value.work == p.work[..|p.work| - 1]
              && |next.value.table| == |p.table| && next.value.table[q] == p.table[q]
              && (Active(st, next.value.table, p.work[|p.work| - 1]) ==> SystemWide(p.table[p.work[|p.work| - 1]]))
  {
    var id := p.work[|p.work| - 1];
    assert id in p.work && id != q;
    assert AnySystemActiveOrQueued(st, p.table);
  }

  /**
    A submit made while a system execution is queued makes at most system-wide executions active, and only next to
    no active one, unless it is refused and stays pending.
   */
  lemma SubmitWhileQueued(st: States, t: Table, batch: seq<Execution>, r: Request, w: World, refusal: Refusal, q: nat)
    requires st.Valid() && RunsAlone(st, t, []) && Supervised(st, t, Submit(batch, r, w, refusal)) && QueuedSystem(t, q)
    ensures var after := SubmitBatch(st, t, batch, r, w, refusal);
            forall m: nat :: Active(st, after, m) && !Active(st, t, m) ==>
              && m >= |t| && SystemWide(after[m])
              && (StaysPending(st, t, Submit(batch, r, w, refusal)) || forall i: nat :: i != m ==> !Active(st, after, i))
  {
    var step := Submit(batch, r, w, refusal);
    StepSupervisedIff(st, t, step);
    var after := SubmitBatch(st, t, batch, r, w, refusal);
    forall m: nat | Active(st, after, m) && !Active(st, t, m)
      ensures m >= |t| && SystemWide(after[m])
      ensures StaysPending(st, t, step) || forall i: nat :: i != m ==> !Active(st, after, i)
    {
      NewlyActiveWhileQueued(st, t, batch, r, w, refusal, q, m);
      if !StaysPending(st, t, step) {
        AloneWithoutWork(st, after, m);
      }
    }
  }

  lemma NewlyActiveWhileQueued(st: States, t: Table, batch: seq<Execution>, r: Request, w: World, refusal: Refusal,
      q: nat, m: nat)
    requires st.Valid() && RunsAlone(st, t, []) && Supervised(st, t, Submit(batch, r, w, refusal)) && QueuedSystem(t, q)
    requires Active(st, SubmitBatch(st, t, batch, r, w, refusal), m) && !Active(st, t, m)
    ensures m >= |t| && SystemWide(SubmitBatch(st, t, batch, r, w, refusal)[m])
  {
    SubmitBegins(st, t, batch, r, w, refusal);
    var work := Interval(|t|, |t + batch|);
    var p := Begin(t + batch, work);
    var result := Prepare(st, w, r, p);
    PrepareFrame(st, w, r, p);
    PrepareWhileQueued(st, w, r, p, q);
    assert result.table[..|t + batch|] == result.table;
    assert m >= |t|;
    assert work[m - |t|] == m;
    if result.Raised? {
      var e := batch[0];
      assert batch == [e] && QueuedSystem(t + [e], q);
      assert AnySystemActiveOrQueued(st, t + [e]);
      SingleWhileQueued(st, t, e, r, w, q);
    }
  }

  /** With a system execution queued, only a system-wide one is refused. */
  lemma SingleWhileQueued(st: States, t: Table, e: Execution, r: Request, w: World, q: nat)
    requires st.Valid() && RunsAlone(st, t, []) && Supervised(st, t, Submit([e], r, w, Kept)) && QueuedSystem(t, q)
    ensures var result := Prepare(st, w, r, Begin(t + [e], Interval(|t|, |t + [e]|)));
            result.Raised? ==> result.table == t + [e] && SystemWide(e)
  {
    var p := Begin(t + [e], Interval(|t|, |t + [e]|));
    assert p.work == [|t|] && p.work[..0] == [];
    assert (t + [e])[q] == t[q] && AnySystemActiveOrQueued(st, t + [e]);
    SubmitBegins(st, t, [e], r, w, Kept);
    TurnWhileQueued(st, w, r, p, q);
    var next := Advance(st, w, r, p);
    if next.Some? {
      assert next.value.work == [];
      assert Prepare(st, w, r, p) == Prepare(st, w, r, next.value);
    }
  }

  /**
    The exact condition. While a system execution waits in the queue, a single
    checked submit ends up active if and only if it is system-wide itself and
    nothing is active, in which case it overtakes the queued one, or it is
    refused for good and its row is kept.
   */
  lemma NewcomerStartsIff(st: States, t: Table, e: Execution, r: Request, w: World, refusal: Refusal, q: nat)
    requires st.Valid() && QueuedSystem(t, q)
    requires e.status == Pending && !r.overlap && (IsBlocking(e) || r.queue)
    requires w.maxExecutions > 0 && !w.checkFails(|t|) && !w.renderFails(|t|)
    ensures Active(st, SubmitBatch(st, t, [e], r, w, refusal), |t|)
       <==> SystemWide(e) && ((refusal.Kept? && !r.queue) || forall i: nat :: !Active(st, t, i))
  {
    var stored := t + [e];
    var p := Begin(stored, Interval(|t|, |stored|));
    assert p.work == [|t|] && p.work[..0] == [];
    assert stored[q] == t[q] && AnySystemActiveOrQueued(st, stored);
    assert forall i: nat :: i != |t| ==> (Active(st, stored, i) <==> Active(st, t, i));
    assert AnyOtherActive(st, stored, |t|) <==> exists i: nat :: Active(st, t, i);
    var next := Advance(st, w, r, p);
    if next.Some? {
      assert next.value.work == [];
      assert Prepare(st, w, r, p) == Prepare(st, w, r, next.value);
    }
  }

  /** A queued snapshot, and a submit of a second one: it is started at once. */
  lemma NewcomerExample(st: States, w: World)
    requires st.Valid() && w.maxExecutions > 0 && !w.checkFails(1) && !w.renderFails(1)
    ensures var t := [Execution(None, true, "create_snapshot", false, Queued, Some(1), false, [])];
            var e := Execution(None, true, "create_snapshot", false, Pending, Some(2), false, []);
            var after := SubmitBatch(st, t, [e], Request(false, true, false), w, Undone);
            QueuedSystem(t, 0) && Active(st, after, 1)
  {
    var t := [Execution(None, true, "create_snapshot", false, Queued, Some(1), false, [])];
    var e := Execution(None, true, "create_snapshot", false, Pending, Some(2), false, []);
    NewcomerStartsIff(st, t, e, Request(false, true, false), w, Undone, 0);
  }

  /** A dequeued system execution waits for itself unless it is system-wide, and then it has no components. */
  lemma RefreshSystem(st: States, t: Table, id: nat, w: World)
    requires st.Valid() && id < |t| && t[id].system
    ensures |Refresh(st, t, id, w)| == |t|
  {
    var pending := WithStatus(t, id, Pending);
    var p := Begin(pending, [id]);
    assert Active(st, pending, id) && AnySystemActiveOrQueued(st, pending);
    var next := Advance(st, w, REFRESH, p);
    if next.Some? {
      assert next.value.work == [];
      assert Prepare(st, w, REFRESH, p) == Prepare(st, w, REFRESH, next.value);
    }
  }

  /** A dequeue pass made while a system execution is queued starts nothing but the oldest of those, and adds nothing. */
  lemma PassWhileQueued(st: States, t: Table, picked: seq<nat>, w: World, q: nat)
    requires st.Valid() && Supervised(st, t, Pass(picked, w)) && QueuedSystem(t, q)
    ensures var after := Apply(st, t, Pass(picked, w));
            && |after| == |t|
            && forall m: nat :: Active(st, after, m) && !Active(st, t, m) ==> IsOldestQueuedSystem(t, m)
  {
    assert AnyQueuedSystem(t);
    var id := picked[0];
    assert picked == [id] && picked[1..] == [];
    RefreshSystem(st, t, id, w);
    RefreshFrame(st, t, id, w);
    var after := Refresh(st, t, id, w);
    assert RefreshAll(st, t, picked, w) == RefreshAll(st, after, [], w) == after;
    assert after[..|t|] == after;
  }

  // ----- a pass keeps the limits -----

  lemma {:induction false} PrepareAddsNothing(st: States, w: World, r: Request, p: Progress)
    requires NeverCascades(w) && p.Valid(w)
    ensures |Prepare(st, w, r, p).table| == |p.table|
    decreases w.maxExecutions - p.run, |p.work|
  {
    if p.work != [] {
      var next := Advance(st, w, r, p);
      if next.Some? {
        PrepareAddsNothing(st, w, r, next.value);
      }
    }
  }

  lemma RefreshAddsNothing(st: States, t: Table, id: nat, w: World)
    requires NeverCascades(w) && id < |t|
    ensures Untouched(t, [id], Refresh(st, t, id, w))
  {
    PrepareAddsNothing(st, w, REFRESH, Begin(WithStatus(t, id, Pending), [id]));
    RefreshFrame(st, t, id, w);
    var after := Refresh(st, t, id, w);
    assert after[..|t|] == after;
  }

  lemma {:induction false} OneMoreActive(st: States, t: Table, id: nat, after: Table, g: nat, n: nat)
    requires Untouched(t, [id], after) && n <= |t|
    ensures ActiveIn(st, after, g, n) <= ActiveIn(st, t, g, n) + if id < n && g in t[id].groups then 1 else 0
    ensures ActiveCount(st, after, n) <= ActiveCount(st, t, n) + if id < n then 1 else 0
  {
    if n > 0 {
      OneMoreActive(st, t, id, after, g, n - 1);
      assert n - 1 != id ==> after[n - 1] == t[n - 1];
    }
  }

  lemma {:induction false} PickedInFirst(t: Table, g: nat, id: nat, rest: seq<nat>)
    requires id < |t| && forall k :: 0 <= k < |rest| ==> rest[k] < |t|
    ensures PickedIn(t, g, [id] + rest) == PickedIn(t, g, rest) + if g in t[id].groups then 1 else 0
  {
    if rest != [] {
      var front, last := rest[..|rest| - 1], rest[|rest| - 1];
      PickedInFirst(t, g, id, front);
      PickedInOneMore(t, g, [id] + front, last);
      assert [id] + rest == [id] + front + [last];
    } else {
      assert [id] + rest == [] + [id];
      PickedInOneMore(t, g, [], id);
    }
  }

  lemma {:induction false} PickedInSameGroups(t: Table, u: Table, g: nat, picked: seq<nat>)
    requires |t| == |u| && forall i :: 0 <= i < |t| ==> t[i].groups == u[i].groups
    requires forall k :: 0 <= k < |picked| ==> picked[k] < |t|
    ensures PickedIn(t, g, picked) == PickedIn(u, g, picked)
  {
    if picked != [] {
      PickedInSameGroups(t, u, g, picked[..|picked| - 1]);
    }
  }

  /** A pass without cascades starts at most what was picked. */
  lemma {:induction false} PassStartsThePicked(st: States, t: Table, picked: seq<nat>, w: World, g: nat)
    requires NeverCascades(w) && forall k :: 0 <= k < |picked| ==> picked[k] < |t|
    ensures var after := RefreshAll(st, t, picked, w);
            && Untouched(t, picked, after)
            && ActiveIn(st, after, g, |t|) <= ActiveIn(st, t, g, |t|) + PickedIn(t, g, picked)
            && ActiveCount(st, after, |t|) <= ActiveCount(st, t, |t|) + |picked|
    decreases |picked|
  {
    if picked != [] {
      var id, rest := picked[0], picked[1..];
      assert picked == [id] + rest;
      var middle := Refresh(st, t, id, w);
      RefreshAddsNothing(st, t, id, w);
      OneMoreActive(st, t, id, middle, g, |t|);
      PickedInFirst(t, g, id, rest);
      PickedInSameGroups(t, middle, g, rest);
      PassStartsThePicked(st, middle, rest, w, g);
    }
  }

  /** No group has more active executions than before, or than its concurrency. */
  ghost predicate WithinConcurrency(st: States, before: Table, after: Table, concurrency: map<nat, nat>) {
    forall g :: ActiveIn(st, after, g, |after|) <= Max(ActiveIn(st, before, g, |before|), CountIn(concurrency, g))
  }

  lemma PassKeepsConcurrency(st: States, t: Table, concurrency: map<nat, nat>, picked: seq<nat>, w: World)
    requires NeverCascades(w) && (forall k :: 0 <= k < |picked| ==> picked[k] < |t|)
    requires WithinGroups(st, t, concurrency, picked)
    ensures WithinConcurrency(st, t, RefreshAll(st, t, picked, w), concurrency)
  {
    forall g {
      PassStartsThePicked(st, t, picked, w, g);
    }
  }

  lemma NoQueuedSystemAfter(t: Table, picked: seq<nat>, after: Table)
    requires !AnyQueuedSystem(t) && Untouched(t, picked, after) && IsFair(t, picked)
    ensures !AnyQueuedSystem(after)
  {
    forall i: nat | i < |after| && after[i].system ensures after[i].status != Queued {
      assert i !in picked;
    }
  }

  /** As many executions as the limits allow are active, or no more than were counted before. */
  ghost predicate KeepsLimits(st: States, before: Table, after: Table, limit: nat, concurrency: map<nat, nat>) {
    && WithinConcurrency(st, before, after, concurrency)
    && ActiveCount(st, after, |after|) <= Max(limit, CountedTotal(st, before, |before|))
  }

  lemma FairPassKeepsLimits(st: States, t: Table, limit: nat, concurrency: map<nat, nat>, picked: seq<nat>, w: World)
    requires NeverCascades(w) && !AnyQueuedSystem(t) && IsFair(t, picked) && WithinGroups(st, t, concurrency, picked)
    requires CountedTotal(st, t, |t|) + |picked| <= Max(limit, CountedTotal(st, t, |t|))
    ensures KeepsLimits(st, t, RefreshAll(st, t, picked, w), limit, concurrency)
    ensures !AnyQueuedSystem(RefreshAll(st, t, picked, w))
  {
    TotalCoversActive(st, t, |t|);
    PassStartsThePicked(st, t, picked, w, 0);
    PassKeepsConcurrency(st, t, concurrency, picked, w);
    NoQueuedSystemAfter(t, picked, RefreshAll(st, t, picked, w));
  }

  /** A pass that does not cascade keeps the limits, of the table as it is afterwards. */
  lemma PassKeepsLimits(st: States, t: Table, limit: nat, concurrency: map<nat, nat>, rows: seq<nat>, picked: seq<nat>, w: World)
    requires NeverCascades(w) && !AnyQueuedSystem(t) && (forall k :: 0 <= k < |rows| ==> rows[k] < |t|)
    requires Picking(st, t, limit, concurrency, rows, |rows|, picked)
    ensures KeepsLimits(st, t, Apply(st, t, Pass(picked, w)), limit, concurrency)
    ensures !AnyQueuedSystem(Apply(st, t, Pass(picked, w)))
  {
    FairPassKeepsLimits(st, t, limit, concurrency, picked, w);
    assert Apply(st, t, Pass(picked, w)) == RefreshAll(st, t, picked, w);
  }

  // ----- what reports cannot do -----

  /** Every dequeue pass is a selection of queued executions; submits and reports are arbitrary. */
  ghost predicate Selecting(st: States, t: Table, steps: seq<Step>)
    decreases |steps|
  {
    steps == [] ||
    ((steps[0].Pass? ==> IsSelection(t, steps[0].picked)) && Selecting(st, Apply(st, t, steps[0]), steps[1..]))
  }

  lemma {:induction false} RefreshAllLeaves(st: States, t: Table, picked: seq<nat>, w: World, id: nat)
    requires (forall k :: 0 <= k < |picked| ==> picked[k] < |t|) && id < |t| && id !in picked
    ensures id < |RefreshAll(st, t, picked, w)| && RefreshAll(st, t, picked, w)[id] == t[id]
    decreases |picked|
  {
    if picked != [] {
      var middle := Refresh(st, t, picked[0], w);
      RefreshFrame(st, t, picked[0], w);
      assert middle[..|t|][id] == middle[id];
      assert id != picked[0];
      RefreshAllLeaves(st, middle, picked[1..], w, id);
    }
  }

  lemma SubmitLeaves(st: States, t: Table, batch: seq<Execution>, r: Request, w: World, refusal: Refusal, id: nat)
    requires id < |t|
    ensures var after := SubmitBatch(st, t, batch, r, w, refusal);
            id < |after| && after[id] == t[id]
  {
    var stored := t + batch;
    var p := Begin(stored, Interval(|t|, |stored|));
    PrepareFrame(st, w, r, p);
    var result := Prepare(st, w, r, p).table;
    assert result[..|stored|][id] == result[id];
  }

  /** Only a report changes the status of an execution that is not queued. */
  lemma OnlyReportsChange(st: States, t: Table, step: Step, id: nat)
    requires id < |t| && t[id].status != Queued && (step.Pass? ==> IsSelection(t, step.picked))
    ensures var after := Apply(st, t, step);
            && id < |after|
            && (after[id] == t[id] || (step.Report? && after[id] == t[id].(status := step.future)
                                       && ValidUpdate(st, t[id].workflow, t[id].status, step.future)))
  {
    match step
    case Submit(batch, r, w, refusal) => SubmitLeaves(st, t, batch, r, w, refusal, id);
    case Pass(picked, w) => RefreshAllLeaves(st, t, picked, w, id);
    case Report(_, _) =>
  }

  /** Over every run: an execution that has ended keeps its status, unless it is a snapshot's. */
  lemma {:induction false} EndedStaysEnded(st: States, t: Table, steps: seq<Step>, id: nat)
    requires st.Valid() && Selecting(st, t, steps)
    requires id < |t| && t[id].status in st.end && t[id].workflow != "create_snapshot"
    ensures id < |Run(st, t, steps)| && Run(st, t, steps)[id] == t[id]
    decreases |steps|
  {
    if steps != [] {
      OnlyReportsChange(st, t, steps[0], id);
      EndedStaysEnded(st, Apply(st, t, steps[0]), steps[1..], id);
    }
  }

  predicate IsCancelling(s: Status) {
    s == Cancelling || s == ForceCancelling
  }

  /** Not a waiting status: a report of it does not release a cancelling execution. */
  predicate Holds(st: States, s: Status) {
    s in st.active || s in st.end || IsCancelling(s)
  }

  predicate ReportsOnly(steps: seq<Step>, allowed: set<Status>) {
    forall k :: 0 <= k < |steps| && steps[k].Report? ==> steps[k].future in allowed
  }

  /** Still being cancelled, or ended without having been completed. */
  predicate GivenUp(st: States, s: Status) {
    IsCancelling(s) || (s in st.end && s != Terminated)
  }

  lemma {:induction false} CancellingIsGivenUp(st: States, t: Table, steps: seq<Step>, id: nat, allowed: set<Status>)
    requires st.Valid() && Selecting(st, t, steps) && ReportsOnly(steps, allowed)
    requires forall s :: s in allowed ==> Holds(st, s)
    requires id < |t| && GivenUp(st, t[id].status) && t[id].workflow != "create_snapshot"
    ensures id < |Run(st, t, steps)| && GivenUp(st, Run(st, t, steps)[id].status)
    decreases |steps|
  {
    if steps != [] {
      OnlyReportsChange(st, t, steps[0], id);
      CancellingIsGivenUp(st, Apply(st, t, steps[0]), steps[1..], id, allowed);
    }
  }

  ghost predicate EndsUp(st: States, t: Table, steps: seq<Step>, id: nat, s: Status) {
    id < |Run(st, t, steps)| && Run(st, t, steps)[id].status == s
  }

  /** A report of a waiting status releases a cancelling execution, and the next report starts it again. */
  lemma WaitingReleases(st: States, t: Table, id: nat, s: Status)
    requires st.Valid() && id < |t| && IsCancelling(t[id].status) && t[id].status !in st.end && !Holds(st, s)
    ensures Selecting(st, t, [Report(id, s), Report(id, Started)])
    ensures EndsUp(st, t, [Report(id, s), Report(id, Started)], id, Started)
  {
    var steps := [Report(id, s), Report(id, Started)];
    assert steps[1..] == [Report(id, Started)] && steps[1..][1..] == [];
    var released := Apply(st, t, steps[0]);
    assert released == WithStatus(t, id, s);
    assert Apply(st, released, Report(id, Started)) == WithStatus(released, id, Started);
    assert Run(st, t, steps) == Run(st, WithStatus(released, id, Started), []);
  }

  /** The exact condition: no run starts a cancelling execution again, if and only if no waiting status is reported. */
  lemma NeverStartedAgainIff(st: States, t: Table, id: nat, allowed: set<Status>)
    requires st.Valid() && id < |t| && t[id].workflow != "create_snapshot"
    requires IsCancelling(t[id].status) && t[id].status !in st.end && Started in allowed
    ensures (forall steps :: Selecting(st, t, steps) && ReportsOnly(steps, allowed) ==> !EndsUp(st, t, steps, id, Started))
       <==> forall s :: s in allowed ==> Holds(st, s)
  {
    if s :| s in allowed && !Holds(st, s) {
      WaitingReleases(st, t, id, s);
      assert ReportsOnly([Report(id, s), Report(id, Started)], allowed);
    } else {
      forall steps | Selecting(st, t, steps) && ReportsOnly(steps, allowed) ensures !EndsUp(st, t, steps, id, Started) {
        CancellingIsGivenUp(st, t, steps, id, allowed);
      }
    }
  }

  // ----- the dequeue loop -----

  lemma LaunchKeepsGroups(w: World, p: Progress, id: nat)
    requires id < |p.table| && DistinctGroups(p.table)
    ensures DistinctGroups(Launched(w, p, id).table)
  {
    var after := Launched(w, p, id).table;
    forall i | 0 <= i < |after| ensures i < |p.table| ==> after[i].groups == p.table[i].groups {}
  }

  lemma AdvanceKeepsGroups(st: States, w: World, r: Request, p: Progress)
    requires p.Valid(w) && p.work != [] && DistinctGroups(p.table)
    ensures Advance(st, w, r, p).Some? ==> DistinctGroups(Advance(st, w, r, p).value.table)
  {
    LaunchKeepsGroups(w, p.(work := p.work[..|p.work| - 1], run := p.run + 1), p.work[|p.work| - 1]);
  }

  lemma {:induction false} PrepareKeepsGroups(st: States, w: World, r: Request, p: Progress)
    requires p.Valid(w) && DistinctGroups(p.table)
    ensures DistinctGroups(Prepare(st, w, r, p).table)
    decreases w.maxExecutions - p.run, |p.work|
  {
    if p.work != [] {
      var next := Advance(st, w, r, p);
      if next.Some? {
        AdvanceKeepsGroups(st, w, r, p);
        PrepareKeepsGroups(st, w, r, next.value);
      }
    }
  }

  /** Starts one dequeued execution; an exception on the way leaves it failed. */
  method RefreshExecution(store: ExecutionStore, st: States, id: nat, w: World) returns (refreshed: bool)
    requires id < |store.table| && DistinctGroups(store.table)
    modifies store
    ensures store.table == Refresh(st, old(store.table), id, w)
    ensures refreshed <==> Refreshes(st, old(store.table), id, w)
    ensures |store.table| >= |old(store.table)| && DistinctGroups(store.table)
  {
    var deployment := store.table[id].deployment;
    store.SetStatus(id, Pending);
    PrepareKeepsGroups(st, w, REFRESH, Begin(store.table, [id]));
    PrepareNeverShrinks(st, w, REFRESH, Begin(store.table, [id]));
    if deployment.Some? && w.refreshFails(id) {
      store.SetStatus(id, Failed);
      return false;
    }
    var raised, messages, failed := store.PrepareExecutions(st, w, REFRESH, [id]);
    refreshed := !raised && !failed;
    if !refreshed {
      store.SetStatus(id, Failed);
    }
  }

  /** One pass over the dequeued executions. */
  method RefreshPicked(store: ExecutionStore, st: States, picked: seq<nat>, w: World) returns (allStarted: bool)
    requires forall k :: 0 <= k < |picked| ==> picked[k] < |store.table|
    requires DistinctGroups(store.table)
    modifies store
    ensures store.table == RefreshAll(st, old(store.table), picked, w) && DistinctGroups(store.table)
    ensures allStarted <==> AllRefresh(st, old(store.table), picked, w)
  {
    allStarted := true;
    for k := 0 to |picked|
      invariant |store.table| >= |old(store.table)| && DistinctGroups(store.table)
      invariant RefreshAll(st, store.table, picked[k..], w) == RefreshAll(st, old(store.table), picked, w)
      invariant allStarted && AllRefresh(st, store.table, picked[k..], w) <==> AllRefresh(st, old(store.table), picked, w)
    {
      assert picked[k..][0] == picked[k] && picked[k..][1..] == picked[k + 1..];
      var refreshed := RefreshExecution(store, st, picked[k], w);
      allStarted := allStarted && refreshed;
    }
  }

  /** All executions of the pass were refreshed. */
  predicate PassSucceeds(st: States, t: Table, pass: Step) {
    && pass.Pass? && (forall k :: 0 <= k < |pass.picked| ==> pass.picked[k] < |t|)
    && AllRefresh(st, t, pass.picked, pass.world)
  }

  /** Every pass but the last failed somewhere; after the last one nothing is left to do, or it was the fifth. */
  ghost predicate AsOftenAsNeeded(st: States, t: Table, limit: nat, concurrency: map<nat, nat>, passes: seq<Step>) {
    && |passes| <= 5
    && (forall k :: 0 <= k < |passes| - 1 ==> !PassSucceeds(st, Run(st, t, passes[..k]), passes[k]))
    && (|passes| < 5 ==> NothingToStart(st, Run(st, t, passes), limit, concurrency) || LastSucceeds(st, t, passes))
  }

  ghost predicate LastSucceeds(st: States, t: Table, passes: seq<Step>) {
    passes != [] && PassSucceeds(st, Run(st, t, passes[..|passes| - 1]), passes[|passes| - 1])
  }

  /** Dequeues once; done if there is nothing to start, or everything was started. */
  method StartOnce(store: ExecutionStore, st: States, limit: nat, concurrency: map<nat, nat>, w: World)
    returns (done: bool, ghost pass: Option<Step>)
    requires DistinctGroups(store.table)
    modifies store
    ensures DistinctGroups(store.table)
    ensures pass.None? ==> done && store.table == old(store.table)
    ensures pass.None? <==> NothingToStart(st, old(store.table), limit, concurrency)
    ensures pass.Some? ==> (done <==> PassSucceeds(st, old(store.table), pass.value))
    ensures pass.Some? ==>
      && pass.value.Pass? && Supervised(st, old(store.table), pass.value)
      && store.table == Apply(st, old(store.table), pass.value)
    ensures !AnyQueuedSystem(old(store.table)) && NeverCascades(w) ==>
      && KeepsLimits(st, old(store.table), store.table, limit, concurrency)
      && !AnyQueuedSystem(store.table)
  {
    var picked; ghost var rows;
    picked, rows := GetQueuedExecutions(st, store.table, limit, concurrency);
    if !AnyQueuedSystem(store.table) {
      RowsAreFirst(st, store.table, concurrency, rows);
      PickedNothingIff(st, store.table, limit, concurrency, picked);
    }
    if picked == [] {
      return true, None;
    }
    if !AnyQueuedSystem(store.table) && NeverCascades(w) {
      PassKeepsLimits(st, store.table, limit, concurrency, rows, picked, w);
    }
    done := RefreshPicked(store, st, picked, w);
    pass := Some(Pass(picked, w));
  }

  /** Dequeues up to five times, again as long as one of the executions failed to start. The passes are a run. */
  method StartQueuedExecutions(store: ExecutionStore, st: States, limit: nat, concurrency: map<nat, nat>, worlds: nat -> World)
    returns (ghost passes: seq<Step>)
    requires DistinctGroups(store.table)
    modifies store
    ensures store.table == Run(st, old(store.table), passes)
    ensures SupervisedRun(st, old(store.table), passes) && |passes| <= 5
    ensures passes == [] <==> NothingToStart(st, old(store.table), limit, concurrency)
    ensures AsOftenAsNeeded(st, old(store.table), limit, concurrency, passes)
    ensures forall k :: 0 <= k < |passes| ==> passes[k].Pass?
    ensures !AnyQueuedSystem(old(store.table)) && (forall n :: NeverCascades(worlds(n))) ==>
      WithinConcurrency(st, old(store.table), store.table, concurrency)
  {
    passes := [];
    ghost var before, limited := store.table, !AnyQueuedSystem(store.table) && forall n :: NeverCascades(worlds(n));
    for attempt := 0 to 5
      invariant |passes| == attempt && Dequeueing(st, before, store.table, concurrency, limited, passes)
      invariant passes != [] ==> !NothingToStart(st, before, limit, concurrency)
    {
      ghost var now := store.table;
      var done; ghost var pass;
      done, pass := StartOnce(store, st, limit, concurrency, worlds(attempt));
      if pass.Some? {
        OneMorePass(st, before, now, store.table, limit, concurrency, limited, passes, pass.value);
        passes := passes + [pass.value];
      }
      if done {
        return;
      }
    }
  }

  /** The passes so far are a run, within the limits if these are in force, and none of them succeeded. */
  ghost predicate Dequeueing(st: States, before: Table, now: Table, concurrency: map<nat, nat>, limited: bool, passes: seq<Step>) {
    Passed(st, before, now, concurrency, limited, passes) && NoneSucceeds(st, before, passes)
  }

  ghost predicate Passed(st: States, before: Table, now: Table, concurrency: map<nat, nat>, limited: bool, passes: seq<Step>) {
    && DistinctGroups(now) && now == Run(st, before, passes) && SupervisedRun(st, before, passes)
    && (limited ==> WithinConcurrency(st, before, now, concurrency) && !AnyQueuedSystem(now))
    && forall k :: 0 <= k < |passes| ==> passes[k].Pass?
  }

  lemma OneMorePass(st: States, before: Table, now: Table, after: Table, limit: nat, concurrency: map<nat, nat>, limited: bool,
      passes: seq<Step>, pass: Step)
    requires Dequeueing(st, before, now, concurrency, limited, passes)
    requires pass.Pass? && Supervised(st, now, pass) && after == Apply(st, now, pass) && DistinctGroups(after)
    requires limited ==> KeepsLimits(st, now, after, limit, concurrency) && !AnyQueuedSystem(after)
    ensures var more := passes + [pass];
            && Passed(st, before, after, concurrency, limited, more)
            && (forall k :: 0 <= k < |passes| ==> !PassSucceeds(st, Run(st, before, more[..k]), more[k]))
            && (PassSucceeds(st, now, pass) <==> LastSucceeds(st, before, more))
            && (!PassSucceeds(st, now, pass) ==> NoneSucceeds(st, before, more))
  {
    RunOneMore(st, before, passes, pass);
    PassesBefore(st, before, passes, pass);
  }

  /** The passes so far: none of them succeeded. */
  ghost predicate NoneSucceeds(st: States, t: Table, passes: seq<Step>) {
    forall k :: 0 <= k < |passes| ==> passes[k].Pass? && !PassSucceeds(st, Run(st, t, passes[..k]), passes[k])
  }

  lemma PassesBefore(st: States, t: Table, passes: seq<Step>, pass: Step)
    ensures var more := passes + [pass];
            && more[..|passes|] == passes
            && forall k :: 0 <= k < |passes| ==> more[k] == passes[k] && Run(st, t, more[..k]) == Run(st, t, passes[..k])
  {
    var more := passes + [pass];
    forall k | 0 <= k <= |passes| ensures more[..k] == passes[..k] {}
    assert passes[..|passes|] == passes;
  }

  lemma {:induction false} RunOneMore(st: States, t: Table, steps: seq<Step>, step: Step)
    requires SupervisedRun(st, t, steps) && Supervised(st, Run(st, t, steps), step)
    ensures SupervisedRun(st, t, steps + [step])
    ensures Run(st, t, steps + [step]) == Apply(st, Run(st, t, steps), step)
    decreases |steps|
  {
    if steps == [] {
      assert steps + [step] == [step];
      assert Run(st, Apply(st, t, step), []) == Apply(st, t, step);
    } else {
      assert (steps + [step])[0] == steps[0] && (steps + [step])[1..] == steps[1..] + [step];
      RunOneMore(st, Apply(st, t, steps[0]), steps[1..], step);
    }
  }
}
