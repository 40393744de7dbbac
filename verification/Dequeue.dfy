/**
  Choosing which queued executions to start: a capacity allocator with one
  global limit and one limit per execution group.
 */
module Dequeue {
  import opened Options
  import opened Executions

  const CREATE_ENVIRONMENT := "create_deployment_environment"

  /** Number of stored rows that the dequeue query may return. */
  const BATCH := 5

  /** How many of the first `n` table rows satisfy the group membership `g` and are active. */
  function ActiveIn(st: States, t: Table, g: nat, n: nat): nat
    requires n <= |t|
  {
    if n == 0 then 0 else ActiveIn(st, t, g, n - 1) + (if Active(st, t, n - 1) && g in t[n - 1].groups then 1 else 0)
  }

  function ActiveCount(st: States, t: Table, n: nat): nat
    requires n <= |t|
  {
    if n == 0 then 0 else ActiveCount(st, t, n - 1) + (if Active(st, t, n - 1) then 1 else 0)
  }

  /** The join with the groups gives one row per group, and one for an execution without groups. */
  function RowsOf(e: Execution): nat {
    if e.groups == [] then 1 else |e.groups|
  }

  function CountedTotal(st: States, t: Table, n: nat): nat
    requires n <= |t|
  {
    if n == 0 then 0 else CountedTotal(st, t, n - 1) + (if Active(st, t, n - 1) then RowsOf(t[n - 1]) else 0)
  }

  /** Number of picked executions that belong to group `g`. */
  function PickedIn(t: Table, g: nat, picked: seq<nat>): nat
    requires forall k :: 0 <= k < |picked| ==> picked[k] < |t|
  {
    if picked == [] then 0
    else PickedIn(t, g, picked[..|picked| - 1]) + (if g in t[picked[|picked| - 1]].groups then 1 else 0)
  }

  predicate DistinctGroups(t: Table) {
    forall i, j, k :: 0 <= i < |t| && 0 <= j < k < |t[i].groups| ==> t[i].groups[j] != t[i].groups[k]
  }

  function CountIn(groups: map<nat, nat>, g: nat): nat {
    if g in groups then groups[g] else 0
  }

  /** One more execution in every listed group. */
  method Increment(groups: map<nat, nat>, of: seq<nat>) returns (r: map<nat, nat>)
    requires forall j, k :: 0 <= j < k < |of| ==> of[j] != of[k]
    ensures forall g :: CountIn(r, g) == CountIn(groups, g) + (if g in of then 1 else 0)
    ensures r.Keys == groups.Keys + set g | g in of
  {
    r := groups;
    for k := 0 to |of|
      invariant forall g :: CountIn(r, g) == CountIn(groups, g) + (if g in of[..k] then 1 else 0)
      invariant r.Keys == groups.Keys + set g | g in of[..k]
    {
      assert of[..k + 1] == of[..k] + [of[k]];
      r := r[of[k] := CountIn(r, of[k]) + 1];
    }
    assert of[..|of|] == of;
  }

  /** Currently running executions: the counted total, and the active number per group. */
  method ReportRunning(st: States, t: Table) returns (total: nat, groups: map<nat, nat>)
    requires DistinctGroups(t)
    ensures total == CountedTotal(st, t, |t|)
    ensures forall g :: CountIn(groups, g) == ActiveIn(st, t, g, |t|) && (g in groups <==> ActiveIn(st, t, g, |t|) > 0)
  {
    total, groups := 0, map[];
    for i := 0 to |t|
      invariant total == CountedTotal(st, t, i)
      invariant forall g :: CountIn(groups, g) == ActiveIn(st, t, g, i) && (g in groups <==> ActiveIn(st, t, g, i) > 0)
    {
      if Active(st, t, i) {
        total := total + RowsOf(t[i]);
        groups := Increment(groups, t[i].groups);
      }
    }
  }

  lemma {:induction false} TotalCoversActive(st: States, t: Table, n: nat)
    requires n <= |t|
    ensures ActiveCount(st, t, n) <= CountedTotal(st, t, n)
  {
    if n > 0 {
      TotalCoversActive(st, t, n - 1);
    }
  }

  /** The deployment of `id` has an active execution, or one that is about to create its environment. */
  predicate DeploymentBusy(st: States, t: Table, id: nat)
    requires id < |t|
  {
    exists i: nat :: i < |t| && SameDeployment(t, i, id)
      && (Active(st, t, i) || (t[i].status == Queued && t[i].workflow == CREATE_ENVIRONMENT))
  }

  predicate Candidate(st: States, t: Table, excluded: set<nat>, id: nat)
    requires id < |t|
  {
    && t[id].status == Queued && !t[id].system
    && (t[id].workflow == CREATE_ENVIRONMENT || !DeploymentBusy(st, t, id))
    && forall g :: g in t[id].groups ==> g !in excluded
  }

  function Repeat(id: nat, n: nat): (r: seq<nat>)
    ensures |r| == n && forall k :: 0 <= k < n ==> r[k] == id
  {
    seq(n, _ => id)
  }

  /** Rows of the dequeue query, in storage order, before its limit. An execution has one row per group. */
  function QueryRows(st: States, t: Table, excluded: set<nat>, n: nat): (r: seq<nat>)
    requires n <= |t|
    ensures forall k :: 0 <= k < |r| ==> r[k] < n && Candidate(st, t, excluded, r[k])
    ensures forall j, k :: 0 <= j < k < |r| ==> r[j] <= r[k]
  {
    if n == 0 then []
    else if Candidate(st, t, excluded, n - 1) then
      QueryRows(st, t, excluded, n - 1) + Repeat(n - 1, RowsOf(t[n - 1]))
    else QueryRows(st, t, excluded, n - 1)
  }

  function Limited(rows: seq<nat>): seq<nat> {
    if |rows| <= BATCH then rows else rows[..BATCH]
  }

  /** Oldest queued system execution; rows without a date come last. */
  predicate IsOldestQueuedSystem(t: Table, id: nat) {
    && id < |t| && t[id].system && t[id].status == Queued
    && forall i :: 0 <= i < |t| && t[i].system && t[i].status == Queued && t[i].createdAt.Some? ==>
         t[id].createdAt.Some? && t[id].createdAt.value <= t[i].createdAt.value
  }

  predicate AnyQueuedSystem(t: Table) {
    exists i :: 0 <= i < |t| && t[i].system && t[i].status == Queued
  }

  method OldestQueuedSystem(t: Table) returns (r: Option<nat>)
    ensures r.Some? <==> AnyQueuedSystem(t)
    ensures r.Some? ==> IsOldestQueuedSystem(t, r.value)
  {
    r := None;
    for i := 0 to |t|
      invariant r.Some? <==> exists k :: 0 <= k < i && t[k].system && t[k].status == Queued
      invariant r.Some? ==> r.value < i && IsOldestQueuedSystem(t[..i], r.value)
    {
      if t[i].system && t[i].status == Queued {
        if r.None? || (t[i].createdAt.Some?
             && (t[r.value].createdAt.None? || t[i].createdAt.value < t[r.value].createdAt.value)) {
          r := Some(i);
        }
      }
      assert forall k :: 0 <= k < i + 1 ==> t[..i + 1][k] == t[k];
      assert forall k :: 0 <= k < i ==> t[..i][k] == t[k];
    }
    assert t[..|t|] == t;
  }

  predicate GroupFull(st: States, t: Table, concurrency: map<nat, nat>, picked: seq<nat>, g: nat)
    requires forall k :: 0 <= k < |picked| ==> picked[k] < |t|
  {
    ActiveIn(st, t, g, |t|) + PickedIn(t, g, picked) >= CountIn(concurrency, g)
  }

  /** Why row `id` is not among the picked ones. */
  ghost predicate Justified(st: States, t: Table, limit: nat, concurrency: map<nat, nat>, picked: seq<nat>, id: nat)
    requires id < |t|
    requires forall k :: 0 <= k < |picked| ==> picked[k] < |t|
  {
    || CountedTotal(st, t, |t|) + |picked| >= limit
    || (exists g :: g in t[id].groups && GroupFull(st, t, concurrency, picked, g))
    || (exists k :: 0 <= k < |picked| && picked[k] <= id && t[picked[k]].deployment == t[id].deployment)
  }

  /** What a selection of non-system executions never does, whatever the limits. */
  ghost predicate IsFair(t: Table, picked: seq<nat>) {
    && (forall k :: 0 <= k < |picked| ==> picked[k] < |t| && t[picked[k]].status == Queued && !t[picked[k]].system)
    && (forall j, k :: 0 <= j < k < |picked| ==> picked[j] < picked[k])
    && (forall j, k :: 0 <= j < k < |picked| ==> t[picked[j]].deployment != t[picked[k]].deployment)
  }

  function Max(a: nat, b: nat): nat {
    if a < b then b else a
  }

  ghost predicate WithinGroups(st: States, t: Table, concurrency: map<nat, nat>, picked: seq<nat>)
    requires forall k :: 0 <= k < |picked| ==> picked[k] < |t|
  {
    forall g :: ActiveIn(st, t, g, |t|) + PickedIn(t, g, picked) <= Max(ActiveIn(st, t, g, |t|), CountIn(concurrency, g))
  }

  ghost predicate AllJustified(st: States, t: Table, limit: nat, concurrency: map<nat, nat>, picked: seq<nat>, rows: seq<nat>, n: nat)
    requires n <= |rows|
    requires forall k :: 0 <= k < |rows| ==> rows[k] < |t|
    requires forall k :: 0 <= k < |picked| ==> picked[k] < |t|
  {
    forall k :: 0 <= k < n && rows[k] !in picked ==> Justified(st, t, limit, concurrency, picked, rows[k])
  }

  /** Everything that holds of the picked executions after the first `n` rows. */
  ghost predicate Picking(st: States, t: Table, limit: nat, concurrency: map<nat, nat>, rows: seq<nat>, n: nat, picked: seq<nat>)
    requires n <= |rows|
    requires forall k :: 0 <= k < |rows| ==> rows[k] < |t|
  {
    && IsFair(t, picked)
    && (forall k :: 0 <= k < |picked| ==> picked[k] in rows[..n])
    && CountedTotal(st, t, |t|) + |picked| <= Max(limit, CountedTotal(st, t, |t|))
    && WithinGroups(st, t, concurrency, picked)
    && AllJustified(st, t, limit, concurrency, picked, rows, n)
  }

  lemma PickedInOneMore(t: Table, g: nat, picked: seq<nat>, id: nat)
    requires id < |t| && forall k :: 0 <= k < |picked| ==> picked[k] < |t|
    ensures PickedIn(t, g, picked + [id]) == PickedIn(t, g, picked) + (if g in t[id].groups then 1 else 0)
  {
    assert (picked + [id])[..|picked|] == picked;
  }

  lemma JustifiedStays(st: States, t: Table, limit: nat, concurrency: map<nat, nat>, picked: seq<nat>, id: nat, other: nat)
    requires id < |t| && other < |t| && forall k :: 0 <= k < |picked| ==> picked[k] < |t|
    requires Justified(st, t, limit, concurrency, picked, other)
    ensures Justified(st, t, limit, concurrency, picked + [id], other)
  {
    var more := picked + [id];
    if g :| g in t[other].groups && GroupFull(st, t, concurrency, picked, g) {
      PickedInOneMore(t, g, picked, id);
      assert GroupFull(st, t, concurrency, more, g);
    } else if k :| 0 <= k < |picked| && picked[k] <= other && t[picked[k]].deployment == t[other].deployment {
      assert more[k] == picked[k];
    }
  }

  lemma PickOne(st: States, t: Table, limit: nat, concurrency: map<nat, nat>, rows: seq<nat>, n: nat, picked: seq<nat>)
    requires n < |rows| && forall k :: 0 <= k < |rows| ==> rows[k] < |t| && t[rows[k]].status == Queued && !t[rows[k]].system
    requires forall j, k :: 0 <= j < k < |rows| ==> rows[j] <= rows[k]
    requires Picking(st, t, limit, concurrency, rows, n, picked)
    requires CountedTotal(st, t, |t|) + |picked| < limit
    requires forall g :: g in t[rows[n]].groups ==> !GroupFull(st, t, concurrency, picked, g)
    requires forall k :: 0 <= k < |picked| ==> t[picked[k]].deployment != t[rows[n]].deployment
    ensures Picking(st, t, limit, concurrency, rows, n + 1, picked + [rows[n]])
  {
    assert rows[..n + 1] == rows[..n] + [rows[n]];
    FairOneMore(t, rows, n, picked);
    forall g
      ensures ActiveIn(st, t, g, |t|) + PickedIn(t, g, picked + [rows[n]])
           <= Max(ActiveIn(st, t, g, |t|), CountIn(concurrency, g))
    {
      PickedInOneMore(t, g, picked, rows[n]);
    }
    JustifiedOneMore(st, t, limit, concurrency, rows, n, picked);
  }

  lemma FairOneMore(t: Table, rows: seq<nat>, n: nat, picked: seq<nat>)
    requires n < |rows| && rows[n] < |t| && t[rows[n]].status == Queued && !t[rows[n]].system
    requires forall j, k :: 0 <= j < k < |rows| ==> rows[j] <= rows[k]
    requires IsFair(t, picked) && forall k :: 0 <= k < |picked| ==> picked[k] in rows[..n]
    requires forall k :: 0 <= k < |picked| ==> t[picked[k]].deployment != t[rows[n]].deployment
    ensures IsFair(t, picked + [rows[n]])
  {
    forall k | 0 <= k < |picked| ensures picked[k] < rows[n] {
      assert picked[k] in rows[..n];
    }
  }

  lemma JustifiedOneMore(st: States, t: Table, limit: nat, concurrency: map<nat, nat>, rows: seq<nat>, n: nat, picked: seq<nat>)
    requires n < |rows| && forall k :: 0 <= k < |rows| ==> rows[k] < |t|
    requires forall k :: 0 <= k < |picked| ==> picked[k] < |t|
    requires AllJustified(st, t, limit, concurrency, picked, rows, n)
    ensures AllJustified(st, t, limit, concurrency, picked + [rows[n]], rows, n + 1)
  {
    var more := picked + [rows[n]];
    forall k | 0 <= k < n + 1 && rows[k] !in more ensures Justified(st, t, limit, concurrency, more, rows[k]) {
      assert more[|picked|] == rows[n];
      assert rows[k] !in picked by {
        assert forall j :: 0 <= j < |picked| ==> more[j] == picked[j];
      }
      JustifiedStays(st, t, limit, concurrency, picked, rows[n], rows[k]);
    }
  }

  lemma PassOver(st: States, t: Table, limit: nat, concurrency: map<nat, nat>, rows: seq<nat>, n: nat, picked: seq<nat>)
    requires n < |rows| && forall k :: 0 <= k < |rows| ==> rows[k] < |t|
    requires Picking(st, t, limit, concurrency, rows, n, picked)
    requires Justified(st, t, limit, concurrency, picked, rows[n])
    ensures Picking(st, t, limit, concurrency, rows, n + 1, picked)
  {
    assert rows[..n + 1] == rows[..n] + [rows[n]];
  }

  /** Row by row, with the running total, the counts per group and the deployments already used. */
  method Allocate(st: States, t: Table, limit: nat, concurrency: map<nat, nat>, rows: seq<nat>,
                  counted: nat, active: map<nat, nat>)
    returns (picked: seq<nat>)
    requires DistinctGroups(t)
    requires forall k :: 0 <= k < |rows| ==> rows[k] < |t| && t[rows[k]].status == Queued && !t[rows[k]].system
    requires forall j, k :: 0 <= j < k < |rows| ==> rows[j] <= rows[k]
    requires counted == CountedTotal(st, t, |t|)
    requires forall g :: CountIn(active, g) == ActiveIn(st, t, g, |t|)
    ensures Picking(st, t, limit, concurrency, rows, |rows|, picked)
  {
    picked := [];
    var total: nat, groups := counted, active;
    var seen: set<Option<nat>> := {};
    var n := 0;
    while n < |rows|
      invariant n <= |rows|
      invariant Picking(st, t, limit, concurrency, rows, n, picked)
      invariant Counting(st, t, picked, total, groups, seen)
    {
      var id := rows[n];
      if total >= limit {
        StopHere(st, t, limit, concurrency, rows, n, picked);
        return;
      }
      if (exists g :: g in t[id].groups && CountIn(groups, g) >= CountIn(concurrency, g)) || t[id].deployment in seen {
        PassNext(st, t, limit, concurrency, rows, n, picked, total, groups, seen);
      } else {
        var counts := Increment(groups, t[id].groups);
        PickNext(st, t, limit, concurrency, rows, n, picked, total, groups, seen);
        CountOneMore(st, t, picked, total, groups, seen, id, counts);
        groups := counts;
        seen := seen + {t[id].deployment};
        total := total + 1;
        picked := picked + [id];
      }
      n := n + 1;
    }
  }

  lemma PassNext(st: States, t: Table, limit: nat, concurrency: map<nat, nat>, rows: seq<nat>, n: nat, picked: seq<nat>,
      total: nat, groups: map<nat, nat>, seen: set<Option<nat>>)
    requires n < |rows| && forall k :: 0 <= k < |rows| ==> rows[k] < |t|
    requires forall j, k :: 0 <= j < k < |rows| ==> rows[j] <= rows[k]
    requires Picking(st, t, limit, concurrency, rows, n, picked) && Counting(st, t, picked, total, groups, seen)
    requires (exists g :: g in t[rows[n]].groups && CountIn(groups, g) >= CountIn(concurrency, g))
      || t[rows[n]].deployment in seen
    ensures Picking(st, t, limit, concurrency, rows, n + 1, picked)
  {
    if g :| g in t[rows[n]].groups && CountIn(groups, g) >= CountIn(concurrency, g) {
      assert GroupFull(st, t, concurrency, picked, g);
    } else {
      PickedBefore(st, t, limit, concurrency, rows, n, picked);
    }
    PassOver(st, t, limit, concurrency, rows, n, picked);
  }

  lemma PickNext(st: States, t: Table, limit: nat, concurrency: map<nat, nat>, rows: seq<nat>, n: nat, picked: seq<nat>,
      total: nat, groups: map<nat, nat>, seen: set<Option<nat>>)
    requires n < |rows| && forall k :: 0 <= k < |rows| ==> rows[k] < |t| && t[rows[k]].status == Queued && !t[rows[k]].system
    requires forall j, k :: 0 <= j < k < |rows| ==> rows[j] <= rows[k]
    requires Picking(st, t, limit, concurrency, rows, n, picked) && Counting(st, t, picked, total, groups, seen)
    requires total < limit && t[rows[n]].deployment !in seen
    requires forall g :: g in t[rows[n]].groups ==> CountIn(groups, g) < CountIn(concurrency, g)
    ensures Picking(st, t, limit, concurrency, rows, n + 1, picked + [rows[n]])
  {
    PickOne(st, t, limit, concurrency, rows, n, picked);
  }

  /** The running counts: in total and per group, what was active and what has been picked. */
  ghost predicate Counting(st: States, t: Table, picked: seq<nat>, total: nat, groups: map<nat, nat>, seen: set<Option<nat>>)
    requires forall k :: 0 <= k < |picked| ==> picked[k] < |t|
  {
    && total == CountedTotal(st, t, |t|) + |picked|
    && (forall g :: CountIn(groups, g) == ActiveIn(st, t, g, |t|) + PickedIn(t, g, picked))
    && seen == set k | 0 <= k < |picked| :: t[picked[k]].deployment
  }

  lemma CountOneMore(st: States, t: Table, picked: seq<nat>, total: nat, groups: map<nat, nat>, seen: set<Option<nat>>,
      id: nat, counts: map<nat, nat>)
    requires id < |t| && forall k :: 0 <= k < |picked| ==> picked[k] < |t|
    requires Counting(st, t, picked, total, groups, seen)
    requires forall g :: CountIn(counts, g) == CountIn(groups, g) + if g in t[id].groups then 1 else 0
    ensures Counting(st, t, picked + [id], total + 1, counts, seen + {t[id].deployment})
  {
    forall g { PickedInOneMore(t, g, picked, id); }
    var more := picked + [id];
    forall d ensures d in seen + {t[id].deployment} <==> d in set k | 0 <= k < |more| :: t[more[k]].deployment {
      assert more[|picked|] == id;
      if d in seen {
        var k :| 0 <= k < |picked| && t[picked[k]].deployment == d;
        assert more[k] == picked[k];
      }
    }
  }

  lemma StopHere(st: States, t: Table, limit: nat, concurrency: map<nat, nat>, rows: seq<nat>, n: nat, picked: seq<nat>)
    requires n <= |rows| && forall k :: 0 <= k < |rows| ==> rows[k] < |t|
    requires Picking(st, t, limit, concurrency, rows, n, picked) && CountedTotal(st, t, |t|) + |picked| >= limit
    ensures Picking(st, t, limit, concurrency, rows, |rows|, picked)
  {
    assert rows[..|rows|] == rows;
    forall k | 0 <= k < |picked| ensures picked[k] in rows {
      assert picked[k] in rows[..n];
    }
  }

  lemma PickedBefore(st: States, t: Table, limit: nat, concurrency: map<nat, nat>, rows: seq<nat>, n: nat, picked: seq<nat>)
    requires n < |rows| && forall k :: 0 <= k < |rows| ==> rows[k] < |t|
    requires forall j, k :: 0 <= j < k < |rows| ==> rows[j] <= rows[k]
    requires Picking(st, t, limit, concurrency, rows, n, picked)
    requires exists k :: 0 <= k < |picked| && t[picked[k]].deployment == t[rows[n]].deployment
    ensures Justified(st, t, limit, concurrency, picked, rows[n])
  {
    var k :| 0 <= k < |picked| && t[picked[k]].deployment == t[rows[n]].deployment;
    assert picked[k] in rows[..n];
  }

  /** The groups that are already at their limit, which the query leaves out. */
  function ExcludedGroups(concurrency: map<nat, nat>, active: map<nat, nat>): set<nat> {
    set g | g in active && active[g] >= CountIn(concurrency, g)
  }

  /** A selection as the dequeue makes it: one system execution, or a fair choice among the others. */
  ghost predicate IsSelection(t: Table, picked: seq<nat>) {
    if AnyQueuedSystem(t) then |picked| == 1 && IsOldestQueuedSystem(t, picked[0])
    else IsFair(t, picked)
  }

  /**
    One dequeue pass. Without queued system executions it stays within every
    limit, and each queued row that it leaves out had a reason.
   */
  method GetQueuedExecutions(st: States, t: Table, limit: nat, concurrency: map<nat, nat>)
    returns (picked: seq<nat>, ghost rows: seq<nat>)
    requires DistinctGroups(t)
    ensures IsSelection(t, picked)
    ensures !AnyQueuedSystem(t) ==>
      && (forall k :: 0 <= k < |rows| ==> rows[k] < |t|)
      && (exists active: map<nat, nat> ::
            && (forall g :: CountIn(active, g) == ActiveIn(st, t, g, |t|) && (g in active <==> ActiveIn(st, t, g, |t|) > 0))
            && rows == Limited(QueryRows(st, t, ExcludedGroups(concurrency, active), |t|)))
      && Picking(st, t, limit, concurrency, rows, |rows|, picked)
    ensures ActiveCount(st, t, |t|) <= CountedTotal(st, t, |t|)
  {
    rows := [];
    TotalCoversActive(st, t, |t|);
    var system := OldestQueuedSystem(t);
    if system.Some? {
      return [system.value], rows;
    }
    var total, groups := ReportRunning(st, t);
    var found := Limited(QueryRows(st, t, ExcludedGroups(concurrency, groups), |t|));
    picked := Allocate(st, t, limit, concurrency, found, total, groups);
    rows := found;
  }
}
