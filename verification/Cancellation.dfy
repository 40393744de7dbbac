/**
  Cancelling executions: a worklist collects the requested executions and,
  through component deployments, everything below them; then all of them are
  marked at once.
 */
module Cancellation {
  import opened Options
  import opened Executions
  import opened Graph
  import opened Worklists

  /** The component deployments of a deployment, found in the runtime properties of its node instances. */
  type Components = nat -> seq<nat>

  datatype Mode = Mode(kill: bool, force: bool) {
    /** Killing implies force. */
    predicate Valid() { kill ==> force }

    function NewStatus(): Status {
      if kill then KillCancelling else if force then ForceCancelling else Cancelling
    }
  }

  /** Order of creation; a missing date counts as the most recent one. */
  predicate NoLater(a: Option<int>, b: Option<int>) {
    b.None? || (a.Some? && a.value <= b.value)
  }

  /** The most recently created execution of a deployment, among the first `n`. */
  function Latest(t: Table, d: nat, n: nat): (r: Option<nat>)
    requires n <= |t|
    ensures r.Some? <==> exists i: nat :: i < n && t[i].deployment == Some(d)
    ensures r.Some? ==> r.value < n && t[r.value].deployment == Some(d)
    ensures r.Some? ==> forall i: nat :: i < n && t[i].deployment == Some(d) ==> NoLater(t[i].createdAt, t[r.value].createdAt)
  {
    if n == 0 then None
    else
      var r := Latest(t, d, n - 1);
      if t[n - 1].deployment == Some(d) && (r.None? || !NoLater(t[n - 1].createdAt, t[r.value].createdAt)) then Some(n - 1)
      else r
  }

  function Flag(mode: Mode, s: Status): bool {
    mode.kill || s == Queued || s == Scheduled
  }

  predicate MayCancel(mode: Mode, s: Status) {
    Flag(mode, s) || (mode.force && s == Cancelling) || s == Pending || s == Started
  }

  function ComponentDeployments(t: Table, c: Components, id: nat): seq<nat>
    requires id < |t|
  {
    if t[id].deployment.None? then [] else c(t[id].deployment.value)
  }

  /** A component deployment without any execution makes the request fail. */
  predicate Complete(t: Table, c: Components, id: nat)
    requires id < |t|
  {
    forall d :: d in ComponentDeployments(t, c, id) ==> Latest(t, d, |t|).Some?
  }

  /** Unfinished latest executions of the listed deployments. */
  function Unfinished(st: States, t: Table, deployments: seq<nat>): (r: seq<nat>)
    ensures forall k :: 0 <= k < |r| ==> r[k] < |t|
  {
    if deployments == [] then []
    else
      var last := Latest(t, deployments[|deployments| - 1], |t|);
      Unfinished(st, t, deployments[..|deployments| - 1])
        + (if last.Some? && t[last.value].status !in st.end then [last.value] else [])
  }

  function Below(st: States, t: Table, c: Components, id: nat): (r: seq<nat>)
    requires id < |t|
    ensures forall k :: 0 <= k < |r| ==> r[k] < |t|
  {
    Unfinished(st, t, ComponentDeployments(t, c, id))
  }

  predicate Refused(st: States, t: Table, c: Components, mode: Mode, id: nat)
    requires id < |t|
  {
    !MayCancel(mode, t[id].status) || !Complete(t, c, id)
  }

  /** The component graph on executions, as successor lists. */
  function Successors(st: States, t: Table, c: Components): (adj: Adjacency)
    ensures |adj| == |t| && IsAdjacency(adj)
    ensures forall i :: 0 <= i < |t| ==> adj[i] == Below(st, t, c, i)
  {
    seq(|t|, i requires 0 <= i < |t| => Below(st, t, c, i))
  }

  function Refusals(st: States, t: Table, c: Components, mode: Mode): set<nat> {
    set id: nat | id < |t| && Refused(st, t, c, mode, id)
  }

  /** Closed under going to unfinished component executions. */
  ghost predicate Closed(st: States, t: Table, c: Components, s: set<nat>) {
    forall i, j :: i in s && i < |t| && j in Below(st, t, c, i) ==> j in s
  }

  ghost predicate Includes(s: set<nat>, ids: seq<nat>) {
    forall k :: 0 <= k < |ids| ==> ids[k] in s
  }

  /** Execution `id` is requested, or reachable from a requested one: every closed set with the requested ones has it. */
  ghost predicate Concerned(st: States, t: Table, c: Components, requested: seq<nat>, id: nat) {
    forall s :: Closed(st, t, c, s) && Includes(s, requested) ==> id in s
  }

  /** No execution that the request comes to can be reached from itself. Cycles elsewhere do not matter. */
  ghost predicate NoCycleConcerned(st: States, t: Table, c: Components, requested: seq<nat>) {
    forall i: nat :: i < |t| && Concerned(st, t, c, requested, i) ==> !Reaches(EdgesOf(Successors(st, t, c)), i, i)
  }

  /** The loop over the worklist ends: it becomes empty, or comes to an execution that is refused. */
  ghost predicate Ends(st: States, t: Table, c: Components, mode: Mode, requested: seq<nat>) {
    exists n :: EndsAfter(st, t, c, mode, requested, n)
  }

  ghost predicate EndsAfter(st: States, t: Table, c: Components, mode: Mode, work: seq<nat>, n: nat) {
    EndsIn(Successors(st, t, c), Refusals(st, t, c, mode), work, n)
  }

  /** The status change of the second phase. */
  function Marked(t: Table, flagged: set<nat>, s: Status): (r: Table)
    ensures |r| == |t|
    ensures forall i: nat :: i < |t| ==> r[i] == if i in flagged then t[i].(status := s) else t[i]
  {
    seq(|t|, i requires 0 <= i < |t| => if i in flagged then t[i].(status := s) else t[i])
  }

  datatype Outcome = NotFound | Illegal(id: nat) | Done(flags: map<nat, bool>)

  /** The loop has flagged only what may be cancelled, and lost nothing that is concerned. */
  ghost predicate Collecting(st: States, t: Table, c: Components, mode: Mode, requested: seq<nat>,
                             flags: map<nat, bool>, work: seq<nat>) {
    && (forall id :: id in flags ==> id < |t| && !Refused(st, t, c, mode, id) && flags[id] == Flag(mode, t[id].status))
    && FoundAll(st, t, c, requested, flags.Keys, work)
    && ClosedBut(st, t, c, flags.Keys, work)
  }

  /** Everything flagged or waiting is concerned, and everything requested is one of both. */
  ghost predicate FoundAll(st: States, t: Table, c: Components, requested: seq<nat>, flagged: set<nat>, work: seq<nat>) {
    && (forall id :: id in flagged || id in work ==> id < |t| && Concerned(st, t, c, requested, id))
    && (forall id :: id in requested ==> id in flagged || id in work)
  }

  lemma FoundOneMore(st: States, t: Table, c: Components, requested: seq<nat>, flagged: set<nat>, rest: seq<nat>, id: nat)
    requires id < |t| && FoundAll(st, t, c, requested, flagged, rest + [id])
    ensures FoundAll(st, t, c, requested, flagged + {id}, rest + Below(st, t, c, id))
  {
    assert id in rest + [id];
    forall j | j in Below(st, t, c, id) ensures j < |t| && Concerned(st, t, c, requested, j) {
      ConcernedBelow(st, t, c, requested, id, j);
    }
    forall j | j in flagged + {id} || j in rest ensures j in flagged || j in rest + [id] {}
    forall j | j in requested ensures j in flagged + {id} || j in rest {}
  }

  /** What is below a flagged execution is flagged, or still in the worklist. */
  ghost predicate ClosedBut(st: States, t: Table, c: Components, flagged: set<nat>, work: seq<nat>) {
    forall id, j :: id in flagged && id < |t| && j in Below(st, t, c, id) ==> j in flagged || j in work
  }

  lemma ClosedButOne(st: States, t: Table, c: Components, flagged: set<nat>, rest: seq<nat>, id: nat)
    requires id < |t| && ClosedBut(st, t, c, flagged, rest + [id])
    ensures ClosedBut(st, t, c, flagged + {id}, rest + Below(st, t, c, id))
  {
    var below := Below(st, t, c, id);
    forall j | j in rest + [id] ensures j in flagged + {id} || j in rest {}
    forall j | j in rest || j in below ensures j in rest + below {}
  }

  lemma ConcernedBelow(st: States, t: Table, c: Components, requested: seq<nat>, id: nat, j: nat)
    requires id < |t| && Concerned(st, t, c, requested, id) && j in Below(st, t, c, id)
    ensures Concerned(st, t, c, requested, j)
  {
    forall s | Closed(st, t, c, s) && Includes(s, requested) ensures j in s {
      assert id in s;
    }
  }

  lemma CollectOne(st: States, t: Table, c: Components, mode: Mode, requested: seq<nat>, flags: map<nat, bool>, work: seq<nat>)
    requires work != [] && Collecting(st, t, c, mode, requested, flags, work)
    requires work[|work| - 1] < |t| && !Refused(st, t, c, mode, work[|work| - 1])
    ensures var id := work[|work| - 1];
            Collecting(st, t, c, mode, requested, flags[id := Flag(mode, t[id].status)],
                       work[..|work| - 1] + Below(st, t, c, id))
  {
    var id, rest := work[|work| - 1], work[..|work| - 1];
    assert work == rest + [id];
    FoundOneMore(st, t, c, requested, flags.Keys, rest, id);
    ClosedButOne(st, t, c, flags.Keys, rest, id);
    assert flags[id := Flag(mode, t[id].status)].Keys == flags.Keys + {id};
  }

  lemma CollectedAll(st: States, t: Table, c: Components, mode: Mode, requested: seq<nat>, flags: map<nat, bool>)
    requires Collecting(st, t, c, mode, requested, flags, [])
    ensures forall id: nat :: id in flags <==> id < |t| && Concerned(st, t, c, requested, id)
  {
    assert Closed(st, t, c, flags.Keys);
    assert Includes(flags.Keys, requested);
  }

  lemma CollectingBegins(st: States, t: Table, c: Components, mode: Mode, requested: seq<nat>)
    requires forall k :: 0 <= k < |requested| ==> requested[k] < |t|
    ensures Collecting(st, t, c, mode, requested, map[], requested)
  {
    forall id | id in requested ensures Concerned(st, t, c, requested, id) {}
  }

  lemma NextInCollecting(st: States, t: Table, c: Components, mode: Mode, requested: seq<nat>, flags: map<nat, bool>,
      work: seq<nat>)
    requires work != [] && Collecting(st, t, c, mode, requested, flags, work)
    ensures work[|work| - 1] < |t| && Concerned(st, t, c, requested, work[|work| - 1])
  {
    assert work[|work| - 1] in work;
  }

  /** First phase. The worklist is taken from the end; nothing is stored yet. */
  method Collect(st: States, t: Table, c: Components, mode: Mode, requested: seq<nat>) returns (r: Outcome)
    requires mode.Valid() && forall k :: 0 <= k < |requested| ==> requested[k] < |t|
    requires Ends(st, t, c, mode, requested)
    ensures r.NotFound? <==> requested == []
    ensures r.Illegal? ==> r.id < |t| && Concerned(st, t, c, requested, r.id) && Refused(st, t, c, mode, r.id)
    ensures r.Done? ==>
      && (forall id: nat :: id in r.flags <==> id < |t| && Concerned(st, t, c, requested, id))
      && (forall id: nat :: id in r.flags ==>
            id < |t| && !Refused(st, t, c, mode, id) && r.flags[id] == Flag(mode, t[id].status))
  {
    if requested == [] {
      return NotFound;
    }
    var flags, refused := CollectAll(st, t, c, mode, requested);
    if refused.Some? {
      return Illegal(refused.value);
    }
    CollectedAll(st, t, c, mode, requested, flags);
    r := Done(flags);
  }

  lemma EndsSoonerBelow(st: States, t: Table, c: Components, mode: Mode, work: seq<nat>, left: nat, next: seq<nat>)
    returns (fewer: nat)
    requires work != [] && work[|work| - 1] < |t| && !Refused(st, t, c, mode, work[|work| - 1])
    requires EndsAfter(st, t, c, mode, work, left) && next == work[..|work| - 1] + Below(st, t, c, work[|work| - 1])
    ensures fewer < left && EndsAfter(st, t, c, mode, next, fewer)
  {
    var rest, id := LastOf(work);
    assert Next(Successors(st, t, c), id) == Below(st, t, c, id) && rest == work[..|work| - 1];
    fewer := EndsSooner(Successors(st, t, c), Refusals(st, t, c, mode), rest, id, left);
  }

  method CollectAll(st: States, t: Table, c: Components, mode: Mode, requested: seq<nat>)
    returns (flags: map<nat, bool>, refused: Option<nat>)
    requires forall k :: 0 <= k < |requested| ==> requested[k] < |t|
    requires Ends(st, t, c, mode, requested)
    ensures refused.Some? ==>
      refused.value < |t| && Concerned(st, t, c, requested, refused.value) && Refused(st, t, c, mode, refused.value)
    ensures refused.None? ==> Collecting(st, t, c, mode, requested, flags, [])
  {
    ghost var left :| EndsAfter(st, t, c, mode, requested, left);
    flags := map[];
    var work := requested;
    CollectingBegins(st, t, c, mode, requested);
    while work != []
      invariant Collecting(st, t, c, mode, requested, flags, work)
      invariant EndsAfter(st, t, c, mode, work, left)
      decreases left
    {
      var id := work[|work| - 1];
      NextInCollecting(st, t, c, mode, requested, flags, work);
      if !MayCancel(mode, t[id].status) || !Complete(t, c, id) {
        return flags, Some(id);
      }
      var more, next := flags[id := Flag(mode, t[id].status)], work[..|work| - 1] + Below(st, t, c, id);
      CollectOne(st, t, c, mode, requested, flags, work);
      left := EndsSoonerBelow(st, t, c, mode, work, left, next);
      flags, work := more, next;
    }
    refused := None;
  }

  /** The second phase marks everything that was flagged, and remembers whose process is to be killed. */
  method MarkAll(store: ExecutionStore, mode: Mode, flags: map<nat, bool>) returns (killed: set<nat>)
    requires forall id :: id in flags ==> id < |store.table|
    modifies store
    ensures store.table == Marked(old(store.table), flags.Keys, mode.NewStatus())
    ensures killed == set id | id in flags && flags[id]
  {
    killed := {};
    ghost var before := store.table;
    var todo := flags.Keys;
    while todo != {}
      invariant todo <= flags.Keys && store.table == Marked(before, flags.Keys - todo, mode.NewStatus())
      invariant killed == set id | id in flags.Keys - todo && flags[id]
    {
      var id :| id in todo;
      if flags[id] {
        killed := killed + {id};
      }
      store.SetStatus(id, mode.NewStatus());
      todo := todo - {id};
    }
    assert flags.Keys - {} == flags.Keys;
  }

  ghost predicate NoneRefused(st: States, t: Table, c: Components, mode: Mode, requested: seq<nat>) {
    forall id: nat :: id < |t| && Concerned(st, t, c, requested, id) ==> !Refused(st, t, c, mode, id)
  }

  /** Exactly the concerned executions get the new status, and messages to kill go to exactly the flagged ones. */
  ghost predicate AllCancelled(st: States, before: Table, after: Table, c: Components, mode: Mode, requested: seq<nat>, killed: set<nat>) {
    && |after| == |before|
    && (forall id: nat :: id < |before| ==>
          after[id] == if Concerned(st, before, c, requested, id) then before[id].(status := mode.NewStatus()) else before[id])
    && (forall id: nat :: id in killed <==>
          id < |before| && Concerned(st, before, c, requested, id) && Flag(mode, before[id].status))
  }

  // ----- component executions, read off the table -----

  /** The newest execution of a deployment; of equally new ones the first stored. */
  ghost predicate IsNewest(t: Table, d: nat, j: nat) {
    && j < |t| && t[j].deployment == Some(d)
    && forall i: nat :: i < |t| && t[i].deployment == Some(d) ==>
         NoLater(t[i].createdAt, t[j].createdAt) && (i < j ==> !NoLater(t[j].createdAt, t[i].createdAt))
  }

  lemma {:induction false} LatestIsFirst(t: Table, d: nat, n: nat, j: nat)
    requires n <= |t| && Latest(t, d, n) == Some(j)
    ensures j < n && t[j].deployment == Some(d)
    ensures forall i: nat :: i < j && t[i].deployment == Some(d) ==> !NoLater(t[j].createdAt, t[i].createdAt)
  {
    var r := Latest(t, d, n - 1);
    if r == Some(j) {
      LatestIsFirst(t, d, n - 1, j);
    }
  }

  lemma LatestIsNewest(t: Table, d: nat, j: nat)
    ensures Latest(t, d, |t|) == Some(j) <==> IsNewest(t, d, j)
  {
    var r := Latest(t, d, |t|);
    if r.Some? {
      LatestIsFirst(t, d, |t|, r.value);
    }
  }

  /** Execution `j` is the newest one of a component of the deployment of `i`, and has not ended. */
  ghost predicate RunsComponent(st: States, t: Table, c: Components, i: nat, j: nat) {
    && i < |t| && t[i].deployment.Some?
    && exists d :: d in c(t[i].deployment.value) && IsNewest(t, d, j) && t[j].status !in st.end
  }

  /** `picks` are the places of the deployments whose newest execution has not ended, from front to back. */
  ghost predicate ListsUnfinished(st: States, t: Table, deployments: seq<nat>, r: seq<nat>, picks: seq<nat>) {
    && |picks| == |r|
    && (forall k :: 0 <= k < |r| ==>
          picks[k] < |deployments| && IsNewest(t, deployments[picks[k]], r[k]) && t[r[k]].status !in st.end)
    && (forall j, k :: 0 <= j < k < |picks| ==> picks[j] < picks[k])
    && forall i: nat, j: nat :: i < |deployments| && IsNewest(t, deployments[i], j) && t[j].status !in st.end ==> i in picks
  }

  /** Exactly the newest executions that have not ended, in the order in which their deployments are listed. */
  lemma {:induction false} UnfinishedInOrder(st: States, t: Table, deployments: seq<nat>) returns (picks: seq<nat>)
    ensures ListsUnfinished(st, t, deployments, Unfinished(st, t, deployments), picks)
  {
    if deployments == [] {
      picks := [];
    } else {
      var n := |deployments| - 1;
      picks := UnfinishedInOrder(st, t, deployments[..n]);
      picks := OneMoreDeployment(st, t, deployments, Unfinished(st, t, deployments[..n]), picks, n);
    }
  }

  lemma OneMoreDeployment(st: States, t: Table, deployments: seq<nat>, r: seq<nat>, picks: seq<nat>, n: nat)
    returns (more: seq<nat>)
    requires |deployments| == n + 1 && ListsUnfinished(st, t, deployments[..n], r, picks)
    ensures var last := Latest(t, deployments[n], |t|);
            ListsUnfinished(st, t, deployments,
                            r + (if last.Some? && t[last.value].status !in st.end then [last.value] else []), more)
  {
    var last := Latest(t, deployments[n], |t|);
    forall j: nat { LatestIsNewest(t, deployments[n], j); }
    forall i: nat | i < n ensures deployments[..n][i] == deployments[i] {}
    more := picks;
    if last.Some? && t[last.value].status !in st.end {
      more := picks + [n];
      assert more[|picks|] == n;
      forall i | i in picks ensures i in more {}
    }
  }

  lemma BelowIff(st: States, t: Table, c: Components, i: nat, j: nat)
    requires i < |t|
    ensures j in Below(st, t, c, i) <==> RunsComponent(st, t, c, i, j)
  {
    var deployments := ComponentDeployments(t, c, i);
    var picks := UnfinishedInOrder(st, t, deployments);
    if j in Below(st, t, c, i) {
      var k :| 0 <= k < |Below(st, t, c, i)| && Below(st, t, c, i)[k] == j;
      assert deployments[picks[k]] in deployments;
    }
    if RunsComponent(st, t, c, i, j) {
      var d :| d in c(t[i].deployment.value) && IsNewest(t, d, j) && t[j].status !in st.end;
      var m :| 0 <= m < |deployments| && deployments[m] == d;
      var k :| 0 <= k < |picks| && picks[k] == m;
      LatestIsNewest(t, d, j);
      LatestIsNewest(t, d, Below(st, t, c, i)[k]);
    }
  }

  /** Each execution runs a component of the deployment of the one before it. */
  ghost predicate IsChain(st: States, t: Table, c: Components, p: seq<nat>) {
    p != [] && p[0] < |t| && forall k :: 0 <= k < |p| - 1 ==> RunsComponent(st, t, c, p[k], p[k + 1])
  }

  /** A chain leads from a requested execution to `j`. */
  ghost predicate OnChain(st: States, t: Table, c: Components, requested: seq<nat>, j: nat) {
    exists p :: IsChain(st, t, c, p) && p[0] in requested && p[|p| - 1] == j
  }

  lemma ChainGoesOn(st: States, t: Table, c: Components, requested: seq<nat>, i: nat, j: nat)
    requires OnChain(st, t, c, requested, i) && RunsComponent(st, t, c, i, j)
    ensures OnChain(st, t, c, requested, j)
  {
    var p :| IsChain(st, t, c, p) && p[0] in requested && p[|p| - 1] == i;
    var q := p + [j];
    assert IsChain(st, t, c, q) && q[0] in requested && q[|q| - 1] == j;
  }

  /** What is on a chain, but not requested, runs a component of something on a chain. */
  lemma ChainComesFrom(st: States, t: Table, c: Components, requested: seq<nat>, j: nat) returns (i: nat)
    requires OnChain(st, t, c, requested, j) && j !in requested
    ensures OnChain(st, t, c, requested, i) && RunsComponent(st, t, c, i, j)
  {
    var p :| IsChain(st, t, c, p) && p[0] in requested && p[|p| - 1] == j;
    var q := p[..|p| - 1];
    i := q[|q| - 1];
    assert IsChain(st, t, c, q) && q[0] in requested;
    assert RunsComponent(st, t, c, p[|p| - 2], p[|p| - 1]);
  }

  lemma ChainIsConcerned(st: States, t: Table, c: Components, requested: seq<nat>, p: seq<nat>)
    requires IsChain(st, t, c, p) && p[0] in requested
    ensures Concerned(st, t, c, requested, p[|p| - 1])
    decreases |p|
  {
    if |p| > 1 {
      var q := p[..|p| - 1];
      ChainIsConcerned(st, t, c, requested, q);
      assert RunsComponent(st, t, c, p[|p| - 2], p[|p| - 1]);
      BelowIff(st, t, c, p[|p| - 2], p[|p| - 1]);
      ConcernedBelow(st, t, c, requested, p[|p| - 2], p[|p| - 1]);
    } else {
      forall s | Closed(st, t, c, s) && Includes(s, requested) ensures p[0] in s {}
    }
  }

  /** An execution is concerned if and only if a chain leads to it. */
  lemma ConcernedIff(st: States, t: Table, c: Components, requested: seq<nat>, id: nat)
    requires id < |t| && forall k :: 0 <= k < |requested| ==> requested[k] < |t|
    ensures Concerned(st, t, c, requested, id) <==> OnChain(st, t, c, requested, id)
  {
    if OnChain(st, t, c, requested, id) {
      var p :| IsChain(st, t, c, p) && p[0] in requested && p[|p| - 1] == id;
      ChainIsConcerned(st, t, c, requested, p);
    }
    var s := set i: nat | i < |t| && OnChain(st, t, c, requested, i);
    forall i, j | i in s && i < |t| && j in Below(st, t, c, i) ensures j in s {
      BelowIff(st, t, c, i, j);
      ChainGoesOn(st, t, c, requested, i, j);
    }
    forall k | 0 <= k < |requested| ensures requested[k] in s {
      var p := [requested[k]];
      assert IsChain(st, t, c, p) && p[0] in requested && p[|p| - 1] == requested[k];
    }
    assert Closed(st, t, c, s) && Includes(s, requested);
  }

  /** Its status allows the mode, and each component of its deployment has an execution. */
  ghost predicate Cancellable(t: Table, c: Components, mode: Mode, id: nat)
    requires id < |t|
  {
    && (mode.kill || t[id].status in {Pending, Started, Queued, Scheduled} || (mode.force && t[id].status == Cancelling))
    && (t[id].deployment.Some? ==> forall d :: d in c(t[id].deployment.value) ==>
          exists i: nat :: i < |t| && t[i].deployment == Some(d))
  }

  lemma RefusedIff(st: States, t: Table, c: Components, mode: Mode, id: nat)
    requires id < |t|
    ensures Refused(st, t, c, mode, id) <==> !Cancellable(t, c, mode, id)
  {
    forall d: nat ensures Latest(t, d, |t|).Some? <==> exists i: nat :: i < |t| && t[i].deployment == Some(d) {}
  }

  ghost predicate AllCancellable(st: States, t: Table, c: Components, mode: Mode, requested: seq<nat>) {
    forall id: nat :: id < |t| && OnChain(st, t, c, requested, id) ==> Cancellable(t, c, mode, id)
  }

  /** Exactly what is on a chain is marked; processes are killed by a kill, and where nothing has started. */
  ghost predicate ChainsCancelled(st: States, before: Table, after: Table, c: Components, mode: Mode, requested: seq<nat>,
                                  killed: set<nat>) {
    && |after| == |before|
    && (forall id: nat :: id < |before| && OnChain(st, before, c, requested, id) ==> after[id] == before[id].(
          status := if mode.kill then KillCancelling else if mode.force then ForceCancelling else Cancelling))
    && (forall id: nat :: id < |before| && !OnChain(st, before, c, requested, id) ==> after[id] == before[id])
    && (forall id: nat :: id in killed <==>
          && id < |before| && OnChain(st, before, c, requested, id)
          && (mode.kill || before[id].status == Queued || before[id].status == Scheduled))
  }

  lemma CancelledIsOnChain(st: States, before: Table, after: Table, c: Components, mode: Mode, requested: seq<nat>,
                           killed: set<nat>)
    requires forall k :: 0 <= k < |requested| ==> requested[k] < |before|
    requires AllCancelled(st, before, after, c, mode, requested, killed)
    ensures ChainsCancelled(st, before, after, c, mode, requested, killed)
  {
    forall id: nat | id < |before| { ConcernedIff(st, before, c, requested, id); }
  }

  lemma NoneRefusedIff(st: States, t: Table, c: Components, mode: Mode, requested: seq<nat>)
    requires forall k :: 0 <= k < |requested| ==> requested[k] < |t|
    ensures NoneRefused(st, t, c, mode, requested) <==> AllCancellable(st, t, c, mode, requested)
  {
    forall id: nat | id < |t|
      ensures Concerned(st, t, c, requested, id) <==> OnChain(st, t, c, requested, id)
      ensures Refused(st, t, c, mode, id) <==> !Cancellable(t, c, mode, id)
    {
      ConcernedIff(st, t, c, requested, id);
      RefusedIff(st, t, c, mode, id);
    }
  }

  /**
    Whoever is cancelled takes the running executions of its components along; a row that changes was requested, or
    runs a component of one that is marked too; and no finished execution changes unless it was requested.
   */
  lemma CancelledTogether(st: States, before: Table, after: Table, c: Components, mode: Mode, requested: seq<nat>,
                          killed: set<nat>)
    requires mode.Valid() && forall k :: 0 <= k < |requested| ==> requested[k] < |before|
    requires ChainsCancelled(st, before, after, c, mode, requested, killed)
    ensures forall i: nat, j: nat :: i < |before| && (i in requested || after[i] != before[i]) ==>
      RunsComponent(st, before, c, i, j) ==> j < |after| && after[j].status == mode.NewStatus()
    ensures forall j: nat :: j < |before| && after[j] != before[j] && j !in requested ==>
      exists i: nat :: i < |before| && after[i].status == mode.NewStatus() && RunsComponent(st, before, c, i, j)
    ensures forall j: nat :: j < |before| && before[j].status in st.end && j !in requested ==> after[j] == before[j]
  {
    forall id: nat | id in requested ensures id < |before| ==> OnChain(st, before, c, requested, id) {
      if id < |before| {
        var p := [id];
        assert IsChain(st, before, c, p) && p[0] in requested && p[|p| - 1] == id;
      }
    }
    forall i: nat, j: nat | i < |before| && (i in requested || after[i] != before[i]) && RunsComponent(st, before, c, i, j)
      ensures j < |after| && after[j].status == mode.NewStatus()
    {
      ChainGoesOn(st, before, c, requested, i, j);
    }
    forall j: nat | j < |before| && OnChain(st, before, c, requested, j) && j !in requested
      ensures before[j].status !in st.end
      ensures exists i: nat :: i < |before| && after[i].status == mode.NewStatus() && RunsComponent(st, before, c, i, j)
    {
      var i := ChainComesFrom(st, before, c, requested, j);
    }
  }

  /** The whole request: it either raises with nothing changed, or cancels everything concerned. */
  method CancelExecutions(store: ExecutionStore, st: States, c: Components, mode: Mode, requested: seq<nat>)
    returns (r: Outcome, killed: set<nat>)
    requires mode.Valid() && forall k :: 0 <= k < |requested| ==> requested[k] < |store.table|
    requires Ends(st, store.table, c, mode, requested)
    modifies store
    ensures r.NotFound? <==> requested == []
    ensures r.Done? <==> requested != [] && NoneRefused(st, old(store.table), c, mode, requested)
    ensures !r.Done? ==> store.table == old(store.table) && killed == {}
    ensures r.Done? ==> AllCancelled(st, old(store.table), store.table, c, mode, requested, killed)
    ensures r.Done? <==> requested != [] && AllCancellable(st, old(store.table), c, mode, requested)
    ensures r.Done? ==> ChainsCancelled(st, old(store.table), store.table, c, mode, requested, killed)
  {
    killed := {};
    r := Collect(st, store.table, c, mode, requested);
    NoneRefusedIff(st, store.table, c, mode, requested);
    if r.Done? {
      killed := MarkAll(store, mode, r.flags);
      CancelledIsOnChain(st, old(store.table), store.table, c, mode, requested, killed);
    }
  }

  // ----- when the loop ends -----

  ghost predicate ReachedFrom(edges: set<Edge>, requested: seq<nat>, v: nat) {
    exists r :: r in requested && (r == v || Reaches(edges, r, v))
  }

  lemma NextIsReached(edges: set<Edge>, requested: seq<nat>, v: nat, j: nat)
    requires ReachedFrom(edges, requested, v) && (v, j) in edges
    ensures ReachedFrom(edges, requested, j)
  {
    var r :| r in requested && (r == v || Reaches(edges, r, v));
    EdgeReaches(edges, v, j);
    if r != v {
      ReachesTransitive(edges, r, v, j);
    }
  }

  /** What is concerned is requested, or reached from something requested. */
  lemma ConcernedIsReached(st: States, t: Table, c: Components, requested: seq<nat>, i: nat)
    requires forall k :: 0 <= k < |requested| ==> requested[k] < |t|
    requires i < |t| && Concerned(st, t, c, requested, i)
    ensures ReachedFrom(EdgesOf(Successors(st, t, c)), requested, i)
  {
    var edges := EdgesOf(Successors(st, t, c));
    var s := set v: nat | v < |t| && ReachedFrom(edges, requested, v);
    forall v, j | v in s && v < |t| && j in Below(st, t, c, v) ensures j in s {
      var k :| 0 <= k < |Below(st, t, c, v)| && Below(st, t, c, v)[k] == j;
      assert (v, Successors(st, t, c)[v][k]) in edges;
      NextIsReached(edges, requested, v, j);
    }
    forall k | 0 <= k < |requested| ensures requested[k] in s {
      assert requested[k] in requested;
    }
    assert Closed(st, t, c, s) && Includes(s, requested);
  }

  lemma ReachedIsConcerned(st: States, t: Table, c: Components, requested: seq<nat>, v: nat, i: nat)
    requires forall k :: 0 <= k < |requested| ==> requested[k] < |t|
    requires v in requested && (i == v || Reaches(EdgesOf(Successors(st, t, c)), v, i))
    ensures i < |t| && Concerned(st, t, c, requested, i)
  {
    if i != v {
      var p :| IsPathFrom(EdgesOf(Successors(st, t, c)), p, v, i);
      PathIsConcerned(st, t, c, requested, p);
    }
  }

  lemma {:induction false} PathIsConcerned(st: States, t: Table, c: Components, requested: seq<nat>, p: seq<nat>)
    requires p != [] && p[0] < |t| && Concerned(st, t, c, requested, p[0])
    requires IsPath(EdgesOf(Successors(st, t, c)), p)
    ensures p[|p| - 1] < |t| && Concerned(st, t, c, requested, p[|p| - 1])
    decreases |p|
  {
    if |p| > 1 {
      assert (p[0], p[1]) in EdgesOf(Successors(st, t, c));
      NextIsEdge(Successors(st, t, c), p[0], p[1]);
      ConcernedBelow(st, t, c, requested, p[0], p[1]);
      forall i | 0 <= i < |p[1..]| - 1 ensures (p[1..][i], p[1..][i + 1]) in EdgesOf(Successors(st, t, c)) {
        assert (p[i + 1], p[i + 2]) in EdgesOf(Successors(st, t, c));
      }
      PathIsConcerned(st, t, c, requested, p[1..]);
    }
  }

  ghost predicate AllConcerned(st: States, t: Table, c: Components, requested: seq<nat>, work: seq<nat>) {
    forall k :: 0 <= k < |work| ==> work[k] < |t| && Concerned(st, t, c, requested, work[k])
  }

  /** From a request on or above a cycle, while nothing concerned is refused, the worklist is never empty. */
  lemma CyclesNeverEnd(st: States, t: Table, c: Components, mode: Mode, requested: seq<nat>, work: seq<nat>, id: nat, n: nat)
    requires AllConcerned(st, t, c, requested, work) && NoneRefused(st, t, c, mode, requested)
    requires id in work && LeadsToCycle(EdgesOf(Successors(st, t, c)), id)
    ensures var r := After(Successors(st, t, c), Refusals(st, t, c, mode), work, n);
            r.Some? && r.value != []
  {
    var edges := EdgesOf(Successors(st, t, c));
    forall v, x | v in work && (x == v || Reaches(edges, v, x)) ensures x !in Refusals(st, t, c, mode) {
      if x != v {
        var p :| IsPathFrom(edges, p, v, x);
        PathIsConcerned(st, t, c, requested, p);
      }
    }
    NeverEmpties(Successors(st, t, c), Refusals(st, t, c, mode), work, id, n);
  }

  /** All requested executions are harmless if and only if nothing concerned is refused, or on a cycle. */
  lemma RequestIsHarmless(st: States, t: Table, c: Components, mode: Mode, requested: seq<nat>)
    requires forall k :: 0 <= k < |requested| ==> requested[k] < |t|
    ensures AllHarmless(Successors(st, t, c), Refusals(st, t, c, mode), requested)
       <==> NoneRefused(st, t, c, mode, requested) && NoCycleConcerned(st, t, c, requested)
  {
    var edges, stop := EdgesOf(Successors(st, t, c)), Refusals(st, t, c, mode);
    if NoneRefused(st, t, c, mode, requested) && NoCycleConcerned(st, t, c, requested) {
      forall v, i | v in requested && (i == v || Reaches(edges, v, i)) ensures i !in stop && !Reaches(edges, i, i) {
        ReachedIsConcerned(st, t, c, requested, v, i);
      }
    }
    if AllHarmless(Successors(st, t, c), stop, requested) {
      forall i: nat | i < |t| && Concerned(st, t, c, requested, i) ensures i !in stop && !Reaches(edges, i, i) {
        ConcernedIsReached(st, t, c, requested, i);
      }
    }
  }

  /**
    The exact conditions, from the table and the order in which components are listed. The loop empties its
    worklist if and only if nothing concerned is refused, or on a cycle; it comes to a refused execution if and
    only if a path leads down to one, and only harmless executions are listed after each of its steps. In all
    other cases it does not end.
   */
  lemma CollectingEndsIff(st: States, t: Table, c: Components, mode: Mode, requested: seq<nat>)
    requires forall k :: 0 <= k < |requested| ==> requested[k] < |t|
    ensures (exists n :: Empties(Successors(st, t, c), Refusals(st, t, c, mode), requested, n))
       <==> NoneRefused(st, t, c, mode, requested) && NoCycleConcerned(st, t, c, requested)
    ensures (exists n :: Halts(Successors(st, t, c), Refusals(st, t, c, mode), requested, n))
       <==> ComesToStop(Successors(st, t, c), Refusals(st, t, c, mode), requested)
    ensures Ends(st, t, c, mode, requested) <==>
      || (NoneRefused(st, t, c, mode, requested) && NoCycleConcerned(st, t, c, requested))
      || ComesToStop(Successors(st, t, c), Refusals(st, t, c, mode), requested)
  {
    var adj, stop := Successors(st, t, c), Refusals(st, t, c, mode);
    RequestIsHarmless(st, t, c, mode, requested);
    EmptiesIff(adj, stop, requested);
    HaltsIff(adj, stop, requested);
    EndsIff(adj, stop, requested);
    if n :| EndsIn(adj, stop, requested, n) {
      assert EndsAfter(st, t, c, mode, requested, n);
    }
  }
}
