/**
  When a dequeue pass finds nothing to start: the exact condition on the table, the groups and the limits. A group
  that allows no execution at all can hold up executions outside of it.
 */
module Startable {
  import opened Options
  import opened Executions
  import opened Dequeue

  /** A queued execution that creates its environment, or whose deployment has nothing active or about to create it. */
  ghost predicate Waits(st: States, t: Table, id: nat) {
    && id < |t| && t[id].status == Queued && !t[id].system
    && (t[id].workflow == CREATE_ENVIRONMENT || t[id].deployment.None? ||
        forall i: nat :: i < |t| && t[i].deployment == t[id].deployment ==>
          t[i].status !in st.active && !(t[i].status == Queued && t[i].workflow == CREATE_ENVIRONMENT))
  }

  /** All its groups have room for one more. */
  predicate HasRoom(st: States, t: Table, concurrency: map<nat, nat>, id: nat)
    requires id < |t|
  {
    forall g :: g in t[id].groups ==> ActiveIn(st, t, g, |t|) < CountIn(concurrency, g)
  }

  ghost predicate CanStart(st: States, t: Table, concurrency: map<nat, nat>, id: nat) {
    Waits(st, t, id) && HasRoom(st, t, concurrency, id)
  }

  /** One of its groups allows no execution at all. */
  predicate Paused(t: Table, concurrency: map<nat, nat>, id: nat)
    requires id < |t|
  {
    exists g :: g in t[id].groups && CountIn(concurrency, g) == 0
  }

  /** The groups that the query leaves out: something in them is active, and they have no room. */
  function FullGroups(st: States, t: Table, concurrency: map<nat, nat>): set<nat> {
    set i: nat, g | i < |t| && g in t[i].groups && Max(1, CountIn(concurrency, g)) <= ActiveIn(st, t, g, |t|) :: g
  }

  /** What the query returns. */
  function FirstRows(st: States, t: Table, concurrency: map<nat, nat>): (r: seq<nat>)
    ensures forall k :: 0 <= k < |r| ==> r[k] < |t|
  {
    Limited(QueryRows(st, t, FullGroups(st, t, concurrency), |t|))
  }

  /** All rows that the query returns are of paused executions, and there may be more beyond its limit. */
  ghost predicate HeldUp(st: States, t: Table, concurrency: map<nat, nat>) {
    var rows := FirstRows(st, t, concurrency);
    |rows| == BATCH && forall k :: 0 <= k < |rows| ==> Paused(t, concurrency, rows[k])
  }

  /** Nothing is started: the total limit is reached, or nothing can start, or paused executions hold the rest up. */
  ghost predicate NothingToStart(st: States, t: Table, limit: nat, concurrency: map<nat, nat>) {
    && !AnyQueuedSystem(t)
    && (CountedTotal(st, t, |t|) >= limit || (forall id :: !CanStart(st, t, concurrency, id)) || HeldUp(st, t, concurrency))
  }

  // ----- the query -----

  lemma CandidateIff(st: States, t: Table, excluded: set<nat>, id: nat)
    requires id < |t|
    ensures Candidate(st, t, excluded, id) <==> Waits(st, t, id) && forall g :: g in t[id].groups ==> g !in excluded
  {
    if DeploymentBusy(st, t, id) {
      var i: nat :| i < |t| && SameDeployment(t, i, id)
        && (Active(st, t, i) || (t[i].status == Queued && t[i].workflow == CREATE_ENVIRONMENT));
      assert t[i].deployment == t[id].deployment;
    } else {
      forall i: nat | i < |t| && t[i].deployment == t[id].deployment && t[id].deployment.Some?
        ensures t[i].status !in st.active && !(t[i].status == Queued && t[i].workflow == CREATE_ENVIRONMENT)
      {
        assert SameDeployment(t, i, id);
      }
    }
  }

  lemma RepeatCounts(id: nat, n: nat, j: nat)
    ensures multiset(Repeat(id, n))[j] == if j == id then n else 0
  {
    if n > 0 {
      RepeatCounts(id, n - 1, j);
      assert Repeat(id, n) == Repeat(id, n - 1) + [id];
    }
  }

  /** Before its limit, the query has each candidate once for each of its groups, or once if it has none. */
  lemma {:induction false} QueryCounts(st: States, t: Table, excluded: set<nat>, n: nat, id: nat)
    requires n <= |t|
    ensures multiset(QueryRows(st, t, excluded, n))[id] ==
      if id < n && Candidate(st, t, excluded, id) then RowsOf(t[id]) else 0
  {
    if n > 0 {
      QueryCounts(st, t, excluded, n - 1, id);
      if Candidate(st, t, excluded, n - 1) {
        RepeatCounts(n - 1, RowsOf(t[n - 1]), id);
      }
    }
  }

  lemma QueryHas(st: States, t: Table, excluded: set<nat>, id: nat)
    requires id < |t| && Candidate(st, t, excluded, id)
    ensures id in QueryRows(st, t, excluded, |t|)
  {
    QueryCounts(st, t, excluded, |t|, id);
    assert id in multiset(QueryRows(st, t, excluded, |t|));
  }

  lemma {:induction false} ActiveGroupIsListed(st: States, t: Table, g: nat, n: nat)
    requires n <= |t| && ActiveIn(st, t, g, n) > 0
    ensures exists i: nat :: i < n && g in t[i].groups
  {
    if !(Active(st, t, n - 1) && g in t[n - 1].groups) {
      ActiveGroupIsListed(st, t, g, n - 1);
    }
  }

  /** The running counts tell the same groups. */
  lemma ExcludedIsFull(st: States, t: Table, concurrency: map<nat, nat>, active: map<nat, nat>)
    requires forall g :: CountIn(active, g) == ActiveIn(st, t, g, |t|) && (g in active <==> ActiveIn(st, t, g, |t|) > 0)
    ensures ExcludedGroups(concurrency, active) == FullGroups(st, t, concurrency)
  {
    forall g | g in ExcludedGroups(concurrency, active) ensures g in FullGroups(st, t, concurrency) {
      ActiveGroupIsListed(st, t, g, |t|);
    }
  }

  /** The rows of a pass are those that the query returns. */
  lemma RowsAreFirst(st: States, t: Table, concurrency: map<nat, nat>, rows: seq<nat>)
    requires exists active: map<nat, nat> ::
      && (forall g :: CountIn(active, g) == ActiveIn(st, t, g, |t|) && (g in active <==> ActiveIn(st, t, g, |t|) > 0))
      && rows == Limited(QueryRows(st, t, ExcludedGroups(concurrency, active), |t|))
    ensures rows == FirstRows(st, t, concurrency)
  {
    var active: map<nat, nat> :|
      && (forall g :: CountIn(active, g) == ActiveIn(st, t, g, |t|) && (g in active <==> ActiveIn(st, t, g, |t|) > 0))
      && rows == Limited(QueryRows(st, t, ExcludedGroups(concurrency, active), |t|));
    ExcludedIsFull(st, t, concurrency, active);
  }

  // ----- the counts -----

  predicate IsActiveMember(st: States, t: Table, g: nat, i: nat)
    requires i < |t|
  {
    t[i].status in st.active && g in t[i].groups
  }

  /** The number for a group is that of its active executions. */
  lemma {:induction false} ActiveInCounts(st: States, t: Table, g: nat, n: nat, members: set<nat>)
    requires n <= |t| && forall i: nat :: i in members <==> i < n && IsActiveMember(st, t, g, i)
    ensures ActiveIn(st, t, g, n) == |members|
  {
    if n == 0 {
      assert members == {};
    } else {
      ActiveInCounts(st, t, g, n - 1, members - {n - 1});
    }
  }

  /** A joined row: an active execution with the number of one of its groups, or with zero if it has none. */
  predicate IsJoined(st: States, t: Table, i: nat, k: nat)
    requires i < |t|
  {
    t[i].status in st.active && (k < |t[i].groups| || (k == 0 && t[i].groups == []))
  }

  function OneJoined(i: nat, n: nat): (r: set<(nat, nat)>)
    ensures |r| == n
    ensures forall e :: e in r <==> e.0 == i && e.1 < n
  {
    if n == 0 then {} else OneJoined(i, n - 1) + {(i, n - 1)}
  }

  /** The total is the number of joined rows, so an active execution of several groups counts several times. */
  lemma {:induction false} TotalCountsJoined(st: States, t: Table, n: nat, rows: set<(nat, nat)>)
    requires n <= |t| && forall e :: e in rows <==> e.0 < n && IsJoined(st, t, e.0, e.1)
    ensures CountedTotal(st, t, n) == |rows|
  {
    if n == 0 {
      assert rows == {};
    } else {
      var added := if t[n - 1].status in st.active then OneJoined(n - 1, RowsOf(t[n - 1])) else {};
      assert added <= rows;
      TotalCountsJoined(st, t, n - 1, rows - added);
    }
  }

  // ----- a pass that picks nothing -----

  lemma {:induction false} PickedInCovers(t: Table, g: nat, picked: seq<nat>, k: nat)
    requires k < |picked| && forall j :: 0 <= j < |picked| ==> picked[j] < |t|
    requires g in t[picked[k]].groups
    ensures PickedIn(t, g, picked) > 0
  {
    if k < |picked| - 1 {
      PickedInCovers(t, g, picked[..|picked| - 1], k);
    }
  }

  lemma PausedIsLeftOut(st: States, t: Table, concurrency: map<nat, nat>, picked: seq<nat>, k: nat)
    requires k < |picked| && forall j :: 0 <= j < |picked| ==> picked[j] < |t|
    requires WithinGroups(st, t, concurrency, picked)
    ensures !Paused(t, concurrency, picked[k])
  {
    forall g | g in t[picked[k]].groups ensures CountIn(concurrency, g) > 0 {
      PickedInCovers(t, g, picked, k);
    }
  }

  /** A listed row has no room only if it is paused. */
  lemma ListedHasRoom(st: States, t: Table, concurrency: map<nat, nat>, k: nat)
    requires k < |FirstRows(st, t, concurrency)|
    ensures var id := FirstRows(st, t, concurrency)[k];
            id < |t| && Waits(st, t, id) && (HasRoom(st, t, concurrency, id) <==> !Paused(t, concurrency, id))
  {
    var id := FirstRows(st, t, concurrency)[k];
    CandidateIff(st, t, FullGroups(st, t, concurrency), id);
    forall g | g in t[id].groups && CountIn(concurrency, g) > 0
      ensures ActiveIn(st, t, g, |t|) < CountIn(concurrency, g)
    {
      assert g !in FullGroups(st, t, concurrency);
    }
  }

  /** Without a queued system execution, nothing is picked exactly if the total is reached or all rows are paused. */
  lemma PickedNoneIff(st: States, t: Table, limit: nat, concurrency: map<nat, nat>, picked: seq<nat>)
    requires var rows := FirstRows(st, t, concurrency); Picking(st, t, limit, concurrency, rows, |rows|, picked)
    ensures var rows := FirstRows(st, t, concurrency);
            picked == [] <==>
            CountedTotal(st, t, |t|) >= limit || forall k :: 0 <= k < |rows| ==> Paused(t, concurrency, rows[k])
  {
    var rows := FirstRows(st, t, concurrency);
    if picked == [] {
      forall k: nat | k < |rows| && CountedTotal(st, t, |t|) < limit ensures Paused(t, concurrency, rows[k]) {
        ListedHasRoom(st, t, concurrency, k);
        assert Justified(st, t, limit, concurrency, picked, rows[k]);
      }
    } else {
      PausedIsLeftOut(st, t, concurrency, picked, 0);
      assert picked[0] in rows[..|rows|];
      var k :| 0 <= k < |rows| && rows[k] == picked[0];
    }
  }

  lemma CanStartIsListed(st: States, t: Table, concurrency: map<nat, nat>, id: nat)
    requires CanStart(st, t, concurrency, id) && |FirstRows(st, t, concurrency)| < BATCH
    ensures id in FirstRows(st, t, concurrency)
  {
    CandidateIff(st, t, FullGroups(st, t, concurrency), id);
    QueryHas(st, t, FullGroups(st, t, concurrency), id);
  }

  /** What can start is listed, unless rows before it use up the limit of the query. */
  lemma RowsPausedIff(st: States, t: Table, concurrency: map<nat, nat>)
    ensures var rows := FirstRows(st, t, concurrency);
            (forall k :: 0 <= k < |rows| ==> Paused(t, concurrency, rows[k])) <==>
            (forall id :: !CanStart(st, t, concurrency, id)) || HeldUp(st, t, concurrency)
  {
    var rows := FirstRows(st, t, concurrency);
    forall k: nat | k < |rows| ensures CanStart(st, t, concurrency, rows[k]) <==> !Paused(t, concurrency, rows[k]) {
      ListedHasRoom(st, t, concurrency, k);
    }
    if |rows| < BATCH {
      forall id | CanStart(st, t, concurrency, id) ensures exists k :: 0 <= k < |rows| && !Paused(t, concurrency, rows[k]) {
        CanStartIsListed(st, t, concurrency, id);
        var k :| 0 <= k < |rows| && rows[k] == id;
      }
    }
  }

  lemma PickedNothingIff(st: States, t: Table, limit: nat, concurrency: map<nat, nat>, picked: seq<nat>)
    requires !AnyQueuedSystem(t)
    requires var rows := FirstRows(st, t, concurrency); Picking(st, t, limit, concurrency, rows, |rows|, picked)
    ensures picked == [] <==> NothingToStart(st, t, limit, concurrency)
  {
    PickedNoneIff(st, t, limit, concurrency, picked);
    RowsPausedIff(st, t, concurrency);
  }

  /** If every group allows some execution, nothing is started only if nothing can start, or the total is reached. */
  lemma NothingStartsIff(st: States, t: Table, limit: nat, concurrency: map<nat, nat>)
    requires forall id: nat :: id < |t| ==> !Paused(t, concurrency, id)
    ensures NothingToStart(st, t, limit, concurrency) <==>
      && !AnyQueuedSystem(t)
      && (CountedTotal(st, t, |t|) >= limit || forall id :: !CanStart(st, t, concurrency, id))
  {
    var rows := FirstRows(st, t, concurrency);
    if |rows| == BATCH {
      assert !Paused(t, concurrency, rows[0]);
    }
  }

  // ----- a paused group holds up others -----

  function InQueue(deployment: nat, groups: seq<nat>): Execution {
    Execution(Some(deployment), false, "install", false, Queued, None, false, groups)
  }

  /** Five executions of a group that is paused, and one that is in no group. */
  function BehindPaused(): Table {
    [InQueue(0, [7]), InQueue(1, [7]), InQueue(2, [7]), InQueue(3, [7]), InQueue(4, [7]), InQueue(5, [])]
  }

  lemma NothingIsActive(st: States, t: Table, n: nat)
    requires n <= |t| && forall i: nat :: i < |t| ==> t[i].status !in st.active
    ensures CountedTotal(st, t, n) == 0 && forall g :: ActiveIn(st, t, g, n) == 0
  {
    if n > 0 {
      NothingIsActive(st, t, n - 1);
    }
  }

  /** The last one can start, and no limit is reached, but nothing is started. */
  lemma BehindPausedExample(st: States, limit: nat)
    requires st.Valid() && limit > 0
    ensures CanStart(st, BehindPaused(), map[7 := 0], 5) && CountedTotal(st, BehindPaused(), 6) < limit
    ensures HeldUp(st, BehindPaused(), map[7 := 0]) && NothingToStart(st, BehindPaused(), limit, map[7 := 0])
  {
    var t := BehindPaused();
    NothingIsActive(st, t, 6);
    var none := FullGroups(st, t, map[7 := 0]);
    assert none == {};
    forall id: nat | id < 6 ensures Candidate(st, t, none, id) {
      CandidateIff(st, t, none, id);
    }
    RowsOfCandidates(st, t, none);
    assert FirstRows(st, t, map[7 := 0]) == [0, 1, 2, 3, 4];
    forall id: nat | id < 5 ensures Paused(t, map[7 := 0], id) {
      assert 7 in t[id].groups && CountIn(map[7 := 0], 7) == 0;
    }
  }

  lemma RowsOfCandidates(st: States, t: Table, none: set<nat>)
    requires t == BehindPaused() && forall id: nat :: id < 6 ==> Candidate(st, t, none, id)
    ensures QueryRows(st, t, none, 6) == [0, 1, 2, 3, 4, 5]
  {
    assert QueryRows(st, t, none, 1) == [0];
    assert QueryRows(st, t, none, 2) == [0, 1];
    assert QueryRows(st, t, none, 3) == [0, 1, 2];
    assert QueryRows(st, t, none, 4) == [0, 1, 2, 3];
    assert QueryRows(st, t, none, 5) == [0, 1, 2, 3, 4];
  }
}
