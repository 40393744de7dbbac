/**
  Cached counts and statuses of a deployment's descendants, refreshed only for
  the deployments above a change, one after the other.
 */
module Recalculation {
  import opened Graph
  import opened Dependencies

  /** How bad a status is; 0 stands for a missing one. */
  type Severity = n: nat | n <= 3

  const GOOD: Severity := 1
  const IN_PROGRESS: Severity := 2
  const REQUIRE_ATTENTION: Severity := 3

  /** What a deployment knows of itself. */
  datatype Own = Own(environment: bool, latestInProgress: bool, latestFailed: bool, inactive: bool)

  /** What is cached: the deployment status, and counts and worst statuses of everything below. */
  datatype Record = Record(
    status: Severity,
    services: nat,
    environments: nat,
    servicesStatus: Severity,
    environmentsStatus: Severity)

  datatype Summary = Summary(services: nat, environments: nat, servicesStatus: Severity, environmentsStatus: Severity)

  function Worst(a: Severity, b: Severity): Severity {
    if a < b then b else a
  }

  function Decide(own: Own, servicesStatus: Severity, environmentsStatus: Severity): Severity {
    var alone :=
      if own.latestInProgress then IN_PROGRESS
      else if own.latestFailed || own.inactive then REQUIRE_ATTENTION
      else GOOD;
    Worst(environmentsStatus, Worst(servicesStatus, alone))
  }

  /** A direct child counts itself, with its own status, on the side it belongs to, and passes on its cached sums. */
  function Plus(sum: Summary, own: Own, child: Record): Summary {
    Summary(
      sum.services + child.services + (if own.environment then 0 else 1),
      sum.environments + child.environments + (if own.environment then 1 else 0),
      Worst(sum.servicesStatus, Worst(child.servicesStatus, if own.environment then 0 else child.status)),
      Worst(sum.environmentsStatus, Worst(child.environmentsStatus, if own.environment then child.status else 0)))
  }

  /** Summary over the direct children of `p` numbered below `n`. */
  function Summarize(edges: set<Edge>, own: seq<Own>, records: seq<Record>, p: nat, n: nat): Summary
    requires n <= |own| == |records|
  {
    if n == 0 then Summary(0, 0, 0, 0)
    else if (n - 1, p) in edges then Plus(Summarize(edges, own, records, p, n - 1), own[n - 1], records[n - 1])
    else Summarize(edges, own, records, p, n - 1)
  }

  function Refreshed(edges: set<Edge>, own: seq<Own>, records: seq<Record>, p: nat): Record
    requires p < |own| == |records|
  {
    var sum := Summarize(edges, own, records, p, |records|);
    Record(Decide(own[p], sum.servicesStatus, sum.environmentsStatus),
           sum.services, sum.environments, sum.servicesStatus, sum.environmentsStatus)
  }

  predicate ConsistentAt(edges: set<Edge>, own: seq<Own>, records: seq<Record>, p: nat)
    requires p < |own| == |records|
  {
    records[p] == Refreshed(edges, own, records, p)
  }

  ghost predicate AllConsistent(edges: set<Edge>, own: seq<Own>, records: seq<Record>)
    requires |own| == |records|
  {
    forall p: nat :: p < |own| ==> ConsistentAt(edges, own, records, p)
  }

  /** The records after the first `n` of `order` have been refreshed, one by one. */
  function Recalculated(edges: set<Edge>, own: seq<Own>, records: seq<Record>, order: seq<nat>, n: nat): (r: seq<Record>)
    requires |own| == |records| && n <= |order| && InRange(order, |own|)
    ensures |r| == |records|
  {
    if n == 0 then records
    else
      var r := Recalculated(edges, own, records, order, n - 1);
      r[order[n - 1] := Refreshed(edges, own, r, order[n - 1])]
  }

  predicate InRange(order: seq<nat>, n: nat) {
    forall k :: 0 <= k < |order| ==> order[k] < n
  }

  ghost predicate EdgesInRange(edges: set<Edge>, n: nat) {
    forall e :: e in edges ==> e.0 < n && e.1 < n
  }

  ghost predicate NoRepeats(order: seq<nat>) {
    forall i, j :: 0 <= i < j < |order| ==> order[i] != order[j]
  }

  ghost predicate ClosedUpwards(edges: set<Edge>, order: seq<nat>) {
    forall e :: e in edges && e.0 in order ==> e.1 in order
  }

  ghost predicate ChildrenFirst(edges: set<Edge>, order: seq<nat>) {
    forall i, j :: 0 <= i < |order| && 0 <= j < |order| && (order[i], order[j]) in edges ==> i < j
  }

  /** A list of deployments that may be recalculated: everything above it is in it, once. */
  ghost predicate IsUpperPart(edges: set<Edge>, order: seq<nat>, n: nat) {
    EdgesInRange(edges, n) && InRange(order, n) && NoRepeats(order) && ClosedUpwards(edges, order)
  }

  ghost predicate ConsistentOutside(edges: set<Edge>, own: seq<Own>, records: seq<Record>, order: seq<nat>)
    requires |own| == |records|
  {
    forall p: nat :: p < |own| && p !in order ==> ConsistentAt(edges, own, records, p)
  }

  /** Whatever the cached values were, recalculating in this order makes all of them right. */
  ghost predicate AlwaysRight(edges: set<Edge>, order: seq<nat>, n: nat)
    requires InRange(order, n)
  {
    forall own: seq<Own>, records: seq<Record> ::
      |own| == n && |records| == n && ConsistentOutside(edges, own, records, order) ==>
        AllConsistent(edges, own, Recalculated(edges, own, records, order, |order|))
  }

  // ----- children first is enough -----

  lemma {:induction false} SummaryLocal(edges: set<Edge>, own: seq<Own>, a: seq<Record>, b: seq<Record>, p: nat, n: nat)
    requires n <= |own| == |a| == |b|
    requires forall c: nat :: c < n && (c, p) in edges ==> a[c] == b[c]
    ensures Summarize(edges, own, a, p, n) == Summarize(edges, own, b, p, n)
  {
    if n > 0 {
      SummaryLocal(edges, own, a, b, p, n - 1);
    }
  }

  lemma RefreshedLocal(edges: set<Edge>, own: seq<Own>, a: seq<Record>, b: seq<Record>, p: nat)
    requires p < |own| == |a| == |b|
    requires forall c: nat :: c < |own| && (c, p) in edges ==> a[c] == b[c]
    ensures Refreshed(edges, own, a, p) == Refreshed(edges, own, b, p)
  {
    SummaryLocal(edges, own, a, b, p, |own|);
  }

  lemma {:induction false} UntouchedLater(edges: set<Edge>, own: seq<Own>, records: seq<Record>, order: seq<nat>, n: nat, m: nat, v: nat)
    requires |own| == |records| && n <= m <= |order| && InRange(order, |own|) && v < |own|
    requires forall k :: n <= k < m ==> order[k] != v
    ensures Recalculated(edges, own, records, order, m)[v] == Recalculated(edges, own, records, order, n)[v]
    decreases m
  {
    if n < m {
      UntouchedLater(edges, own, records, order, n, m - 1, v);
    }
  }

  lemma ParentIsLater(edges: set<Edge>, order: seq<nat>, size: nat, k: nat, p: nat)
    requires IsUpperPart(edges, order, size) && ChildrenFirst(edges, order)
    requires k < |order| && (order[k], p) in edges
    ensures p in order[k + 1..]
  {
    assert order[k] in order;
    assert p in order;
    var j :| 0 <= j < |order| && order[j] == p;
    assert order[k + 1..][j - k - 1] == p;
  }

  lemma {:induction false} RecalculatedUpTo(edges: set<Edge>, own: seq<Own>, records: seq<Record>, order: seq<nat>, n: nat)
    requires |own| == |records| && n <= |order| && IsUpperPart(edges, order, |own|) && ChildrenFirst(edges, order)
    requires ConsistentOutside(edges, own, records, order)
    ensures forall p: nat :: p < |own| && p !in order[n..] ==>
      ConsistentAt(edges, own, Recalculated(edges, own, records, order, n), p)
  {
    var r := Recalculated(edges, own, records, order, n);
    if n > 0 {
      RecalculatedUpTo(edges, own, records, order, n - 1);
      var d, before := order[n - 1], Recalculated(edges, own, records, order, n - 1);
      assert order[n - 1..] == [d] + order[n..];
      forall p: nat | p < |own| && p !in order[n..] ensures ConsistentAt(edges, own, r, p) {
        if (d, p) in edges {
          ParentIsLater(edges, order, |own|, n - 1, p);
        }
        RefreshedLocal(edges, own, r, before, p);
        if p != d {
          assert p !in order[n - 1..];
          assert ConsistentAt(edges, own, before, p);
        }
      }
    }
  }

  lemma ChildrenFirstIsRight(edges: set<Edge>, order: seq<nat>, n: nat)
    requires IsUpperPart(edges, order, n) && ChildrenFirst(edges, order)
    ensures AlwaysRight(edges, order, n)
  {
    forall own: seq<Own>, records: seq<Record> | |own| == n && |records| == n && ConsistentOutside(edges, own, records, order)
      ensures AllConsistent(edges, own, Recalculated(edges, own, records, order, |order|))
    {
      RecalculatedUpTo(edges, own, records, order, |order|);
      assert order[|order|..] == [];
    }
  }

  // ----- consistent values exist -----

  ghost function OfRank(edges: set<Edge>, n: nat, r: nat): (s: seq<nat>)
    ensures forall v: nat :: v in s <==> v < n && Rank(edges, v) == r
    ensures NoRepeats(s)
  {
    if n == 0 then []
    else if Rank(edges, n - 1) == r then OfRank(edges, n - 1, r) + [n - 1]
    else OfRank(edges, n - 1, r)
  }

  /** Deployments by falling rank: those whose rank is at least `top - k`. */
  ghost function ByRank(edges: set<Edge>, n: nat, top: nat, k: nat): seq<nat>
    requires k <= top + 1
  {
    if k == 0 then [] else ByRank(edges, n, top, k - 1) + OfRank(edges, n, top - (k - 1))
  }

  lemma {:induction false} ByRankMember(edges: set<Edge>, n: nat, top: nat, k: nat, v: nat)
    requires k <= top + 1
    ensures v in ByRank(edges, n, top, k) <==> v < n && Rank(edges, v) <= top && Rank(edges, v) + k > top
  {
    if k > 0 {
      ByRankMember(edges, n, top, k - 1, v);
    }
  }

  lemma {:induction false} ByRankIsSorted(edges: set<Edge>, n: nat, top: nat, k: nat)
    requires k <= top + 1 && Acyclic(edges)
    ensures NoRepeats(ByRank(edges, n, top, k)) && ChildrenFirst(edges, ByRank(edges, n, top, k))
  {
    if k > 0 {
      ByRankIsSorted(edges, n, top, k - 1);
      var a, b := ByRank(edges, n, top, k - 1), OfRank(edges, n, top - (k - 1));
      forall i | 0 <= i < |a| ensures Rank(edges, a[i]) > top - (k - 1) {
        ByRankMember(edges, n, top, k - 1, a[i]);
        assert a[i] in a;
      }
      forall i | 0 <= i < |b| ensures Rank(edges, b[i]) == top - (k - 1) {
        assert b[i] in b;
      }
      var all := a + b;
      forall i, j | 0 <= i < |all| && 0 <= j < |all| && (all[i], all[j]) in edges ensures i < j {
        RankDecreases(edges, all[i], all[j]);
      }
    }
  }

  /** On an acyclic graph there are consistent values for all deployments. */
  lemma ConsistentValues(edges: set<Edge>, own: seq<Own>) returns (records: seq<Record>)
    requires Acyclic(edges) && EdgesInRange(edges, |own|)
    ensures |records| == |own| && AllConsistent(edges, own, records)
  {
    var top := |Targets(edges)|;
    var order := ByRank(edges, |own|, top, top + 1);
    ByRankIsSorted(edges, |own|, top, top + 1);
    forall v: nat ensures v in order <==> v < |own| {
      ByRankMember(edges, |own|, top, top + 1, v);
      RankBound(edges, v);
    }
    forall k | 0 <= k < |order| ensures order[k] < |own| {
      assert order[k] in order;
    }
    var start := seq(|own|, _ => Record(0, 0, 0, 0, 0));
    ChildrenFirstIsRight(edges, order, |own|);
    assert ConsistentOutside(edges, own, start, order);
    records := Recalculated(edges, own, start, order, |order|);
  }

  // ----- children first is needed -----

  ghost predicate HasLaterChild(edges: set<Edge>, order: seq<nat>, w: nat) {
    w < |order| && exists j :: w < j < |order| && (order[j], order[w]) in edges
  }

  lemma {:induction false} FirstWithLaterChild(edges: set<Edge>, order: seq<nat>, w: nat) returns (first: nat)
    requires HasLaterChild(edges, order, w)
    ensures HasLaterChild(edges, order, first) && forall x: nat :: x < first ==> !HasLaterChild(edges, order, x)
  {
    if x: nat :| x < w && HasLaterChild(edges, order, x) {
      first := FirstWithLaterChild(edges, order, x);
    } else {
      first := w;
    }
  }

  /** Among the later children of `w`, one that no other later child is above. */
  lemma {:induction false} LowestLaterChild(edges: set<Edge>, order: seq<nat>, w: nat, j: nat) returns (u: nat)
    requires w < j < |order| && (order[j], order[w]) in edges
    ensures w < u < |order| && (order[u], order[w]) in edges
    ensures forall y :: w < y < |order| && (order[y], order[w]) in edges ==> Rank(edges, order[u]) <= Rank(edges, order[y])
    decreases Rank(edges, order[j])
  {
    if y: nat :| w < y < |order| && (order[y], order[w]) in edges && Rank(edges, order[y]) < Rank(edges, order[j]) {
      u := LowestLaterChild(edges, order, w, y);
    } else {
      u := j;
    }
  }

  /** Everything is right, except that the cached count of `u` is one too high. */
  function Bumped(records: seq<Record>, u: nat): (r: seq<Record>)
    requires u < |records|
    ensures |r| == |records|
  {
    records[u := records[u].(services := records[u].services + 1)]
  }

  lemma {:induction false} BumpedSummary(edges: set<Edge>, own: seq<Own>, records: seq<Record>, u: nat, p: nat, n: nat)
    requires n <= |own| == |records| && u < |own|
    ensures Summarize(edges, own, Bumped(records, u), p, n).services
         == Summarize(edges, own, records, p, n).services + (if (u, p) in edges && u < n then 1 else 0)
  {
    if n > 0 {
      BumpedSummary(edges, own, records, u, p, n - 1);
    }
  }

  /** Up to the first deployment with a later child, recalculation finds nothing to change. */
  lemma {:induction false} NothingToChange(edges: set<Edge>, own: seq<Own>, right: seq<Record>, order: seq<nat>, w: nat, u: nat, n: nat)
    requires |own| == |right| && AllConsistent(edges, own, right) && IsUpperPart(edges, order, |own|)
    requires n <= w < u < |order| && forall x: nat :: x < w ==> !HasLaterChild(edges, order, x)
    ensures Recalculated(edges, own, Bumped(right, order[u]), order, n) == Bumped(right, order[u])
  {
    if n > 0 {
      NothingToChange(edges, own, right, order, w, u, n - 1);
      var d, pre := order[n - 1], Bumped(right, order[u]);
      assert !HasLaterChild(edges, order, n - 1);
      assert (order[u], d) !in edges;
      RefreshedLocal(edges, own, pre, right, d);
      assert ConsistentAt(edges, own, right, d);
      assert pre[d := pre[d]] == pre;
    }
  }

  lemma AboveContinues(edges: set<Edge>, u: nat, c: nat, d: nat)
    requires (c, d) in edges && (c == u || c in Above(edges, {u}))
    ensures d in Above(edges, {u})
  {
    EdgeReaches(edges, c, d);
    if c != u {
      ReachesTransitive(edges, u, c, d);
    }
    AboveMember(edges, {u}, d);
  }

  /** Nothing outside of what is above `u` is affected, and `u` itself is right once it was recalculated. */
  lemma {:induction false} OnlyAboveAffected(edges: set<Edge>, own: seq<Own>, right: seq<Record>, order: seq<nat>, u: nat, n: nat)
    requires |own| == |right| && AllConsistent(edges, own, right) && IsUpperPart(edges, order, |own|) && Acyclic(edges)
    requires u < |order| && n <= |order|
    ensures var r := Recalculated(edges, own, Bumped(right, order[u]), order, n);
            && (forall v: nat :: v < |own| && v != order[u] && v !in Above(edges, {order[u]}) ==> r[v] == right[v])
            && (u < n ==> r[order[u]] == right[order[u]])
  {
    if n > 0 {
      OnlyAboveAffected(edges, own, right, order, u, n - 1);
      var d, before := order[n - 1], Recalculated(edges, own, Bumped(right, order[u]), order, n - 1);
      if d !in Above(edges, {order[u]}) {
        forall c: nat | c < |own| && (c, d) in edges ensures before[c] == right[c] {
          if c == order[u] || c in Above(edges, {order[u]}) {
            AboveContinues(edges, order[u], c, d);
          }
        }
        RefreshedLocal(edges, own, before, right, d);
        assert ConsistentAt(edges, own, right, d);
      } else {
        AboveMember(edges, {order[u]}, order[u]);
      }
    }
  }

  /** The children of `w` end with their right values, although `w` was computed from a wrong one. */
  lemma ChildrenEndRight(edges: set<Edge>, own: seq<Own>, right: seq<Record>, order: seq<nat>, w: nat, u: nat, c: nat)
    requires |own| == |right| && AllConsistent(edges, own, right) && IsUpperPart(edges, order, |own|) && Acyclic(edges)
    requires w < u < |order| && forall x: nat :: x < w ==> !HasLaterChild(edges, order, x)
    requires forall y :: w < y < |order| && (order[y], order[w]) in edges ==> Rank(edges, order[u]) <= Rank(edges, order[y])
    requires c < |own| && (c, order[w]) in edges
    ensures Recalculated(edges, own, Bumped(right, order[u]), order, |order|)[c] == right[c]
  {
    var pre := Bumped(right, order[u]);
    if c !in order {
      UntouchedLater(edges, own, pre, order, 0, |order|, c);
    } else {
      var k :| 0 <= k < |order| && order[k] == c;
      if k < w {
        NothingToChange(edges, own, right, order, w, u, w);
        UntouchedLater(edges, own, pre, order, w, |order|, c);
      } else if k == w {
        EdgeReaches(edges, c, c);
      } else {
        OnlyAboveAffected(edges, own, right, order, u, |order|);
        if c in Above(edges, {order[u]}) {
          RankDecreasesAlong(edges, order[u], c);
        }
      }
    }
  }

  lemma LaterChildIsWrong(edges: set<Edge>, order: seq<nat>, n: nat, w: nat, u: nat)
    requires IsUpperPart(edges, order, n) && Acyclic(edges)
    requires w < u < |order| && (order[u], order[w]) in edges
    requires forall x: nat :: x < w ==> !HasLaterChild(edges, order, x)
    requires forall y :: w < y < |order| && (order[y], order[w]) in edges ==> Rank(edges, order[u]) <= Rank(edges, order[y])
    ensures !AlwaysRight(edges, order, n)
  {
    var own := seq(n, _ => Own(false, false, false, false));
    var right := ConsistentValues(edges, own);
    var pre, p := Bumped(right, order[u]), order[w];
    forall q: nat | q < n && q !in order ensures ConsistentAt(edges, own, pre, q) {
      assert ConsistentAt(edges, own, right, q);
      RefreshedLocal(edges, own, pre, right, q);
    }
    var end := Recalculated(edges, own, pre, order, |order|);
    NothingToChange(edges, own, right, order, w, u, w);
    UntouchedLater(edges, own, pre, order, w + 1, |order|, p);
    BumpedSummary(edges, own, right, order[u], p, n);
    assert ConsistentAt(edges, own, right, p);
    assert end[p].services == right[p].services + 1;
    forall c: nat | c < n && (c, p) in edges ensures end[c] == right[c] {
      ChildrenEndRight(edges, own, right, order, w, u, c);
    }
    RefreshedLocal(edges, own, end, right, p);
    assert !ConsistentAt(edges, own, end, p);
  }

  /**
    The exact condition: recalculating in some order makes every cached value
    right, whatever the values were, if and only if no deployment comes before
    one of its children.
   */
  lemma RightIffChildrenFirst(edges: set<Edge>, order: seq<nat>, n: nat)
    requires IsUpperPart(edges, order, n) && Acyclic(edges)
    ensures AlwaysRight(edges, order, n) <==> ChildrenFirst(edges, order)
  {
    if ChildrenFirst(edges, order) {
      ChildrenFirstIsRight(edges, order, n);
    } else {
      var j, i :| 0 <= j < |order| && 0 <= i < |order| && (order[j], order[i]) in edges && j >= i;
      if i == j {
        EdgeReaches(edges, order[i], order[i]);
      }
      var w := FirstWithLaterChild(edges, order, i);
      var y :| w < y < |order| && (order[y], order[w]) in edges;
      var u := LowestLaterChild(edges, order, w, y);
      LaterChildIsWrong(edges, order, n, w, u);
    }
  }

  // ----- the order that is used -----

  /**
    The deployments to recalculate: the changed ones that the query did not
    return, in whatever order, and then what it returned.
   */
  ghost predicate IsRecalculationOrder(edges: seq<Edge>, changed: set<nat>, missing: seq<nat>, order: seq<nat>) {
    && IsAnswer(edges, changed, order)
    && NoRepeats(missing)
    && forall v :: v in missing <==> v in changed && v !in order
  }

  lemma RecalculatedMembers(edges: seq<Edge>, changed: set<nat>, missing: seq<nat>, order: seq<nat>)
    requires IsRecalculationOrder(edges, changed, missing, order)
    ensures forall v :: v in missing + order <==> v in changed || v in Above(EdgeSet(edges), changed)
    ensures forall v :: v in order <==> v in Above(EdgeSet(edges), changed)
    ensures NoRepeats(missing + order)
  {
    forall v { AnswerIsAbove(edges, changed, order, v); }
    forall v ensures v in missing + order <==> v in missing || v in order {}
    NoRepeatsTogether(missing, order);
  }

  lemma NoRepeatsTogether(missing: seq<nat>, order: seq<nat>)
    requires NoRepeats(missing) && NoRepeats(order) && forall v :: v in missing ==> v !in order
    ensures NoRepeats(missing + order)
  {
    forall i, j | 0 <= i < |missing| <= j < |missing + order| ensures (missing + order)[i] != (missing + order)[j] {
      assert missing[i] in missing && order[j - |missing|] in order;
    }
  }

  /** Putting the missing ones first breaks nothing: they are not above any deployment of the list. */
  lemma PrependingIsSafe(edges: seq<Edge>, changed: set<nat>, missing: seq<nat>, order: seq<nat>)
    requires IsRecalculationOrder(edges, changed, missing, order)
    ensures forall v :: v in missing + order <==> v in changed || v in Above(EdgeSet(edges), changed)
    ensures NoRepeats(missing + order) && ClosedUpwards(EdgeSet(edges), missing + order)
    ensures ChildrenFirst(EdgeSet(edges), missing + order) <==> ChildrenFirst(EdgeSet(edges), order)
  {
    var e := EdgeSet(edges);
    RecalculatedMembers(edges, changed, missing, order);
    forall c, p | (c, p) in e && c in missing + order ensures p in order {
      UpperContinues(e, changed, c, p);
    }
    ChildrenFirstAfter(e, missing, order);
  }

  /** Nothing put first is above anything, so only the order of the rest matters. */
  lemma ChildrenFirstAfter(edges: set<Edge>, missing: seq<nat>, order: seq<nat>)
    requires forall c, p :: (c, p) in edges && c in missing + order ==> p in order
    requires forall v :: v in missing ==> v !in order
    ensures ChildrenFirst(edges, missing + order) <==> ChildrenFirst(edges, order)
  {
    var all := missing + order;
    if ChildrenFirst(edges, order) {
      forall i, j | 0 <= i < |all| && 0 <= j < |all| && (all[i], all[j]) in edges ensures i < j {
        assert all[i] in all;
        InSecondPart(missing, order, j);
        if i >= |missing| {
          assert all[i] == order[i - |missing|] && all[j] == order[j - |missing|];
        }
      }
    }
    if ChildrenFirst(edges, all) {
      forall i, j | 0 <= i < |order| && 0 <= j < |order| && (order[i], order[j]) in edges ensures i < j {
        assert all[|missing| + i] == order[i] && all[|missing| + j] == order[j];
      }
    }
  }

  lemma InSecondPart(missing: seq<nat>, order: seq<nat>, j: nat)
    requires (forall v :: v in missing ==> v !in order) && j < |missing + order|
    ensures (missing + order)[j] in order ==> j >= |missing|
  {
    if j < |missing| {
      assert (missing + order)[j] in missing;
    }
  }

  lemma UpperContinues(edges: set<Edge>, changed: set<nat>, c: nat, p: nat)
    requires (c, p) in edges && (c in changed || c in Above(edges, changed))
    ensures p in Above(edges, changed)
  {
    EdgeReaches(edges, c, p);
    if c !in changed {
      var s :| s in changed && Reaches(edges, s, c);
      ReachesTransitive(edges, s, c, p);
    }
    AboveMember(edges, changed, p);
  }

  /**
    Read off the graph: every edge above the changed deployments leads to a deployment that the query meets later
    than the one it leaves, on a higher level, or on the same level by an edge that is stored later.
   */
  ghost predicate MetChildrenFirst(edges: seq<Edge>, changed: set<nat>) {
    forall e :: e in EdgeSet(edges) && e.0 in Above(EdgeSet(edges), changed) ==>
      EntersBefore(edges, changed, e.0, e.1)
  }

  lemma MetChildrenFirstIff(edges: seq<Edge>, changed: set<nat>, order: seq<nat>)
    requires IsAnswer(edges, changed, order)
    ensures ChildrenFirst(EdgeSet(edges), order) <==> MetChildrenFirst(edges, changed)
  {
    forall v { AnswerIsAbove(edges, changed, order, v); }
    if ChildrenFirst(EdgeSet(edges), order) {
      forall e | e in EdgeSet(edges) && e.0 in Above(EdgeSet(edges), changed)
        ensures EntersBefore(edges, changed, e.0, e.1)
      {
        UpperContinues(EdgeSet(edges), changed, e.0, e.1);
        var i: nat :| i < |order| && order[i] == e.0;
        var j: nat :| j < |order| && order[j] == e.1;
        AnswerIsInOrder(edges, changed, order, i, j);
      }
    }
    if MetChildrenFirst(edges, changed) {
      forall i: nat, j: nat | i < |order| && j < |order| && (order[i], order[j]) in EdgeSet(edges) ensures i < j {
        assert order[i] in order;
        MetOnce(edges, changed, order[i]);
        AnswerIsInOrder(edges, changed, order, i, j);
      }
    }
  }

  lemma MetOnce(edges: seq<Edge>, changed: set<nat>, v: nat)
    ensures !EntersBefore(edges, changed, v, v)
  {
  }

  /** Values that do not depend on a changed deployment are right. */
  ghost predicate RightExceptAbove(edges: seq<Edge>, own: seq<Own>, records: seq<Record>, changed: set<nat>)
    requires |own| == |records|
  {
    forall p: nat :: p < |own| && p !in changed && p !in Above(EdgeSet(edges), changed) ==>
      ConsistentAt(EdgeSet(edges), own, records, p)
  }

  /** The stored deployments with their cached values. */
  class DeploymentStore {
    var edges: seq<Edge>
    var own: seq<Own>
    var records: seq<Record>

    ghost predicate Valid()
      reads this
    {
      |own| == |records| && EdgesInRange(EdgeSet(edges), |own|) && Acyclic(EdgeSet(edges))
    }

    constructor (edges: seq<Edge>, own: seq<Own>, records: seq<Record>)
      ensures this.edges == edges && this.own == own && this.records == records
    {
      this.edges, this.own, this.records := edges, own, records;
    }

    /** Lists the members of a set in some order. */
    static method Listing(s: set<nat>) returns (r: seq<nat>)
      ensures NoRepeats(r) && forall v :: v in r <==> v in s
    {
      r := [];
      var todo := s;
      while todo != {}
        invariant todo <= s && NoRepeats(r)
        invariant forall v :: v in r <==> v in s - todo
        invariant forall i :: 0 <= i < |r| ==> r[i] !in todo
      {
        var v :| v in todo;
        r := r + [v];
        todo := todo - {v};
      }
    }

    method RefreshInOrder(order: seq<nat>)
      requires |own| == |records| && InRange(order, |own|)
      modifies this`records
      ensures records == Recalculated(EdgeSet(edges), own, old(records), order, |order|)
    {
      for k := 0 to |order|
        invariant records == Recalculated(EdgeSet(edges), own, old(records), order, k)
      {
        records := records[order[k] := Refreshed(EdgeSet(edges), own, records, order[k])];
      }
    }

    method RecalcAncestors(changed: set<nat>) returns (ghost missing: seq<nat>, ghost order: seq<nat>)
      requires Valid() && forall v :: v in changed ==> v < |own|
      modifies this`records
      ensures IsRecalculationOrder(edges, changed, missing, order)
      ensures InRange(missing + order, |own|)
      ensures records == Recalculated(EdgeSet(edges), own, old(records), missing + order, |missing + order|)
      ensures RightExceptAbove(edges, own, old(records), changed) && MetChildrenFirst(edges, changed) ==>
        AllConsistent(EdgeSet(edges), own, records)
    {
      var found := GetDependencies(edges, changed);
      var rest := Listing(changed - set v | v in found);
      missing, order := rest, found;
      OrderIsUpperPart(edges, changed, missing, order, |own|);
      RefreshInOrder(rest + found);
      if RightExceptAbove(edges, own, old(records), changed) && MetChildrenFirst(edges, changed) {
        RecalculationIsRight(edges, own, old(records), changed, missing, order);
      }
    }
  }

  lemma OrderIsUpperPart(edges: seq<Edge>, changed: set<nat>, missing: seq<nat>, order: seq<nat>, n: nat)
    requires IsRecalculationOrder(edges, changed, missing, order)
    requires EdgesInRange(EdgeSet(edges), n) && forall v :: v in changed ==> v < n
    ensures IsUpperPart(EdgeSet(edges), missing + order, n)
  {
    PrependingIsSafe(edges, changed, missing, order);
    var all := missing + order;
    forall k | 0 <= k < |all| ensures all[k] < n {
      assert all[k] in all;
      AboveInRange(EdgeSet(edges), changed, n, all[k]);
    }
  }

  /** The incremental recalculation equals a full one when the query puts children first. */
  lemma RecalculationIsRight(edges: seq<Edge>, own: seq<Own>, records: seq<Record>, changed: set<nat>, missing: seq<nat>, order: seq<nat>)
    requires |own| == |records| && EdgesInRange(EdgeSet(edges), |own|) && forall v :: v in changed ==> v < |own|
    requires IsRecalculationOrder(edges, changed, missing, order) && MetChildrenFirst(edges, changed)
    requires RightExceptAbove(edges, own, records, changed)
    ensures InRange(missing + order, |own|)
    ensures AllConsistent(EdgeSet(edges), own, Recalculated(EdgeSet(edges), own, records, missing + order, |missing + order|))
  {
    OrderIsUpperPart(edges, changed, missing, order, |own|);
    PrependingIsSafe(edges, changed, missing, order);
    MetChildrenFirstIff(edges, changed, order);
    ChildrenFirstIsRight(EdgeSet(edges), missing + order, |own|);
    assert ConsistentOutside(EdgeSet(edges), own, records, missing + order);
  }

  /**
    The exact condition, on the graph: recalculation makes everything right for all cached values, if and only
    if the query meets every deployment above the changed ones before its parents.
   */
  lemma RecalculationIsRightIff(edges: seq<Edge>, changed: set<nat>, missing: seq<nat>, order: seq<nat>, n: nat)
    requires Acyclic(EdgeSet(edges)) && EdgesInRange(EdgeSet(edges), n) && forall v :: v in changed ==> v < n
    requires IsRecalculationOrder(edges, changed, missing, order)
    ensures InRange(missing + order, n)
    ensures AlwaysRight(EdgeSet(edges), missing + order, n) <==> MetChildrenFirst(edges, changed)
  {
    OrderIsUpperPart(edges, changed, missing, order, n);
    PrependingIsSafe(edges, changed, missing, order);
    MetChildrenFirstIff(edges, changed, order);
    RightIffChildrenFirst(EdgeSet(edges), missing + order, n);
  }

  lemma AboveInRange(edges: set<Edge>, changed: set<nat>, n: nat, v: nat)
    requires EdgesInRange(edges, n) && (forall c :: c in changed ==> c < n) && (v in changed || v in Above(edges, changed))
    ensures v < n
  {
  }

  // ----- when the order is right, and when it is not -----

  /** Every deployment has at most one parent. */
  ghost predicate SingleParents(edges: seq<Edge>) {
    forall i, j :: 0 <= i < j < |edges| ==> edges[i].0 != edges[j].0
  }

  lemma LastHasOwnChild(edges: seq<Edge>, e: Edge)
    requires SingleParents(edges) && edges != []
    ensures e in edges[..|edges| - 1] ==> e.0 != edges[|edges| - 1].0
  {
    if e in edges[..|edges| - 1] {
      var i :| 0 <= i < |edges| - 1 && edges[i] == e;
    }
  }

  lemma {:induction false} RowsOfOne(edges: seq<Edge>, c: nat)
    requires SingleParents(edges)
    ensures |RowsAt(edges, {c})| <= 1
    ensures RowsAt(edges, {c}) == [] <==> forall e :: e in EdgeSet(edges) ==> e.0 != c
    ensures RowsAt(edges, {c}) != [] ==> (c, RowsAt(edges, {c})[0]) in EdgeSet(edges)
  {
    if edges != [] {
      var shorter, last := edges[..|edges| - 1], edges[|edges| - 1];
      RowsOfOne(shorter, c);
      assert edges == shorter + [last];
      assert EdgeSet(edges) == EdgeSet(shorter) + {last};
      forall e { LastHasOwnChild(edges, e); }
    }
  }

  /** With single parents, the rows from one deployment are its chain of ancestors. */
  ghost predicate IsChain(edges: set<Edge>, d: nat, rows: seq<nat>) {
    forall i :: 0 <= i < |rows| ==> (([d] + rows)[i], rows[i]) in edges
  }

  /** The level after a chain: the last deployment of the chain, or nothing when that has no parent. */
  ghost predicate EndsIn(edges: set<Edge>, d: nat, rows: seq<nat>, level: set<nat>) {
    var last := ([d] + rows)[|rows|];
    level == {last} || (level == {} && forall e :: e in edges ==> e.0 != last)
  }

  lemma ChainGrows(edges: seq<Edge>, d: nat, rows: seq<nat>, level: set<nat>)
    requires SingleParents(edges) && IsChain(EdgeSet(edges), d, rows) && EndsIn(EdgeSet(edges), d, rows, level)
    ensures IsChain(EdgeSet(edges), d, rows + RowsAt(edges, level))
    ensures EndsIn(EdgeSet(edges), d, rows + RowsAt(edges, level), NextLevel(edges, level))
  {
    var last, more := ([d] + rows)[|rows|], RowsAt(edges, level);
    if level == {} {
      NothingAboveNothing(edges);
      assert rows + more == rows;
    } else {
      RowsOfOne(edges, last);
      var longer := rows + more;
      if more == [] {
        assert longer == rows;
      } else {
        assert more == [more[0]] && NextLevel(edges, level) == {more[0]};
        assert forall i :: 0 <= i <= |rows| ==> ([d] + longer)[i] == ([d] + rows)[i];
      }
    }
  }

  lemma {:induction false} RowsAreAChain(edges: seq<Edge>, d: nat, n: nat)
    requires SingleParents(edges)
    ensures IsChain(EdgeSet(edges), d, Rows(edges, {d}, n))
    ensures EndsIn(EdgeSet(edges), d, Rows(edges, {d}, n), Level(edges, {d}, n))
  {
    if n > 0 {
      RowsAreAChain(edges, d, n - 1);
      ChainGrows(edges, d, Rows(edges, {d}, n - 1), Level(edges, {d}, n - 1));
    }
  }

  lemma {:induction false} ChainReaches(edges: set<Edge>, d: nat, rows: seq<nat>, i: nat, j: nat)
    requires IsChain(edges, d, rows) && i < j < |rows|
    ensures Reaches(edges, rows[i], rows[j])
    decreases j
  {
    assert ([d] + rows)[j] == rows[j - 1];
    EdgeReaches(edges, rows[j - 1], rows[j]);
    if i < j - 1 {
      ChainReaches(edges, d, rows, i, j - 1);
      ReachesTransitive(edges, rows[i], rows[j - 1], rows[j]);
    }
  }

  lemma {:induction false} FirstOnlyOfDistinct(rows: seq<nat>)
    requires NoRepeats(rows)
    ensures FirstOnly(rows) == rows
  {
    if rows != [] {
      FirstOnlyOfDistinct(rows[..|rows| - 1]);
      assert rows == rows[..|rows| - 1] + [rows[|rows| - 1]];
    }
  }

  lemma SameChild(edges: seq<Edge>, a: Edge, b: Edge)
    requires SingleParents(edges) && a in EdgeSet(edges) && b in EdgeSet(edges) && a.0 == b.0
    ensures a == b
  {
    var i :| 0 <= i < |edges| && edges[i] == a;
    var j :| 0 <= j < |edges| && edges[j] == b;
  }

  lemma ChainIsChildrenFirst(edges: seq<Edge>, d: nat, rows: seq<nat>)
    requires SingleParents(edges) && Acyclic(EdgeSet(edges))
    requires IsChain(EdgeSet(edges), d, rows) && EndsIn(EdgeSet(edges), d, rows, {})
    ensures NoRepeats(rows) && ChildrenFirst(EdgeSet(edges), rows)
  {
    var all := EdgeSet(edges);
    forall i, j | 0 <= i < j < |rows| ensures rows[i] != rows[j] {
      ChainReaches(all, d, rows, i, j);
    }
    forall i, j | 0 <= i < |rows| && 0 <= j < |rows| && (rows[i], rows[j]) in all ensures i < j {
      assert ([d] + rows)[i + 1] == rows[i];
      assert i < |rows| - 1;
      SameChild(edges, (rows[i], rows[j]), (rows[i], rows[i + 1]));
    }
  }

  /** One changed deployment, and single parents throughout: recalculation is always right. */
  lemma SingleParentsAreRight(edges: seq<Edge>, d: nat, missing: seq<nat>, order: seq<nat>, n: nat)
    requires SingleParents(edges) && Acyclic(EdgeSet(edges)) && EdgesInRange(EdgeSet(edges), n) && d < n
    requires IsRecalculationOrder(edges, {d}, missing, order)
    ensures InRange(missing + order, n) && AlwaysRight(EdgeSet(edges), missing + order, n)
  {
    var k: nat :| Level(edges, {d}, k) == {} && order == FirstOnly(Rows(edges, {d}, k));
    RowsAreAChain(edges, d, k);
    ChainIsChildrenFirst(edges, d, Rows(edges, {d}, k));
    FirstOnlyOfDistinct(Rows(edges, {d}, k));
    MetChildrenFirstIff(edges, {d}, order);
    RecalculationIsRightIff(edges, {d}, missing, order, n);
  }

  const UNEVEN: seq<Edge> := [(0, 2), (0, 1), (1, 2)]

  lemma UnevenRows(from: set<nat>)
    ensures RowsAt(UNEVEN, from) == (if 0 in from then [2, 1] else []) + (if 1 in from then [2] else [])
  {
    var one, two: seq<Edge> := [(0, 2)], [(0, 2), (0, 1)];
    RowsAtOneMore([], (0, 2), from);
    RowsAtOneMore(one, (0, 1), from);
    RowsAtOneMore(two, (1, 2), from);
    assert [] + [(0, 2)] == one && one + [(0, 1)] == two && two + [(1, 2)] == UNEVEN;
  }

  lemma UnevenLevels()
    ensures Level(UNEVEN, {0}, 1) == {1, 2} && Level(UNEVEN, {0}, 2) == {2} && Level(UNEVEN, {0}, 3) == {}
  {
    UnevenRows({0});
    assert Level(UNEVEN, {0}, 1) == NextLevel(UNEVEN, {0}) == {1, 2};
    UnevenRows({1, 2});
    assert Level(UNEVEN, {0}, 2) == NextLevel(UNEVEN, {1, 2}) == {2};
    UnevenRows({2});
    assert Level(UNEVEN, {0}, 3) == NextLevel(UNEVEN, {2}) == {};
  }

  lemma FirstOnlyOneMore(rows: seq<nat>, v: nat)
    ensures FirstOnly(rows + [v]) == if v in FirstOnly(rows) then FirstOnly(rows) else FirstOnly(rows) + [v]
  {
    assert (rows + [v])[..|rows|] == rows;
  }

  lemma ThreeLevels(edges: seq<Edge>, start: set<nat>, a: set<nat>, b: set<nat>)
    requires Level(edges, start, 1) == a && Level(edges, start, 2) == b
    ensures Rows(edges, start, 3) == RowsAt(edges, start) + RowsAt(edges, a) + RowsAt(edges, b)
  {
    assert Rows(edges, start, 1) == RowsAt(edges, start);
    assert Rows(edges, start, 2) == RowsAt(edges, start) + RowsAt(edges, a);
  }

  lemma FirstOnlyOfTwo(x: nat, y: nat)
    requires x != y
    ensures FirstOnly([x, y]) == [x, y]
  {
    FirstOnlyOneMore([], x);
    assert [] + [x] == [x] && FirstOnly([x]) == [x];
    FirstOnlyOneMore([x], y);
    assert [x] + [y] == [x, y];
  }

  lemma FirstOnlyOfThree(x: nat, y: nat)
    requires x != y
    ensures FirstOnly([x, y, x]) == [x, y]
  {
    FirstOnlyOfTwo(x, y);
    FirstOnlyOneMore([x, y], x);
    assert [x, y][0] == x;
    assert [x, y] + [x] == [x, y, x];
  }

  lemma UnevenAnswer()
    ensures FirstOnly(Rows(UNEVEN, {0}, 3)) == [2, 1]
  {
    UnevenLevels();
    ThreeLevels(UNEVEN, {0}, {1, 2}, {2});
    UnevenRows({0});
    UnevenRows({1, 2});
    UnevenRows({2});
    assert Rows(UNEVEN, {0}, 3) == [2, 1, 2];
    FirstOnlyOfThree(2, 1);
  }

  lemma UnevenGraph()
    ensures Acyclic(EdgeSet(UNEVEN)) && EdgesInRange(EdgeSet(UNEVEN), 3)
  {
    forall e | e in EdgeSet(UNEVEN) ensures e.0 < e.1 < 3 {
      var i :| 0 <= i < |UNEVEN| && UNEVEN[i] == e;
    }
    IncreasingIsAcyclic(EdgeSet(UNEVEN));
  }

  lemma UnevenOrder()
    ensures IsRecalculationOrder(UNEVEN, {0}, [0], [2, 1])
    ensures !ChildrenFirst(EdgeSet(UNEVEN), [2, 1])
  {
    UnevenLevels();
    UnevenAnswer();
    var order: seq<nat> := [2, 1];
    assert UNEVEN[2] == (1, 2);
    assert (order[1], order[0]) in EdgeSet(UNEVEN);
    assert IsAnswer(UNEVEN, {0}, order);
  }

  /**
    A deployment 0 with the parents 2 and 1, where 2 is also a parent of 1: the query returns 2 before 1, so the
    values of 2 are computed from stale ones, and for some values something is wrong after the recalculation.
   */
  lemma UnevenPathsExample()
    ensures IsRecalculationOrder(UNEVEN, {0}, [0], [2, 1])
    ensures InRange([0] + [2, 1], 3) && !AlwaysRight(EdgeSet(UNEVEN), [0] + [2, 1], 3)
  {
    UnevenGraph();
    UnevenOrder();
    MetChildrenFirstIff(UNEVEN, {0}, [2, 1]);
    RecalculationIsRightIff(UNEVEN, {0}, [0], [2, 1], 3);
  }
}
