/**
  Recalculation after a change: all cached values were right, then the changed deployments got another state, or
  gained or lost children.
 */
module ChangeRecalculation {
  import opened Graph
  import opened Dependencies
  import opened Recalculation
  import LabelGraph

  /** Only changed deployments know something else of themselves, or have other children. */
  ghost predicate IsChange(before: set<Edge>, ownBefore: seq<Own>, edges: set<Edge>, own: seq<Own>, changed: set<nat>) {
    && |ownBefore| == |own| && Acyclic(before) && EdgesInRange(before, |own|)
    && (forall v: nat :: v < |own| && v !in changed ==> own[v] == ownBefore[v])
    && (forall e: Edge :: e.1 !in changed ==> (e in edges <==> e in before))
  }

  /** After any such change, recalculating in this order makes all values right. */
  ghost predicate RightAfterChange(edges: set<Edge>, changed: set<nat>, order: seq<nat>, n: nat)
    requires InRange(order, n)
  {
    forall before: set<Edge>, ownBefore: seq<Own>, own: seq<Own>, records: seq<Record> ::
      |own| >= n && |records| == |own| && IsChange(before, ownBefore, edges, own, changed)
      && AllConsistent(before, ownBefore, records) ==>
        RightAfter(edges, own, records, order)
  }

  ghost predicate RightAfter(edges: set<Edge>, own: seq<Own>, records: seq<Record>, order: seq<nat>)
    requires |own| == |records| && InRange(order, |own|)
  {
    AllConsistent(edges, own, Recalculated(edges, own, records, order, |order|))
  }

  // ----- what a change leaves alone -----

  lemma {:induction false} SummaryAfterChange(before: set<Edge>, ownBefore: seq<Own>, edges: set<Edge>, own: seq<Own>,
      records: seq<Record>, p: nat, n: nat)
    requires n <= |own| == |ownBefore| == |records|
    requires forall c: nat :: c < n ==> ((c, p) in before <==> (c, p) in edges)
    requires forall c: nat :: c < n && (c, p) in edges ==> ownBefore[c] == own[c]
    ensures Summarize(before, ownBefore, records, p, n) == Summarize(edges, own, records, p, n)
  {
    if n > 0 {
      SummaryAfterChange(before, ownBefore, edges, own, records, p, n - 1);
    }
  }

  lemma OthersStayRight(before: set<Edge>, ownBefore: seq<Own>, edges: set<Edge>, own: seq<Own>, records: seq<Record>,
      changed: set<nat>, order: seq<nat>)
    requires |records| == |own| && IsChange(before, ownBefore, edges, own, changed) && AllConsistent(before, ownBefore, records)
    requires ClosedUpwards(edges, order) && forall v :: v in changed ==> v in order
    ensures ConsistentOutside(edges, own, records, order)
  {
    forall p: nat | p < |own| && p !in order ensures ConsistentAt(edges, own, records, p) {
      assert ConsistentAt(before, ownBefore, records, p);
      SummaryAfterChange(before, ownBefore, edges, own, records, p, |own|);
    }
  }

  // ----- more edges, higher counts -----

  /** Higher counts of the children and more children give no lower sum. */
  lemma {:induction false} SummaryGrows(more: set<Edge>, edges: set<Edge>, own: seq<Own>, a: seq<Record>, b: seq<Record>,
      p: nat, n: nat)
    requires n <= |own| == |a| == |b| && edges <= more
    requires forall c: nat :: c < n && (c, p) in edges ==> a[c].services >= b[c].services
    ensures Summarize(more, own, a, p, n).services >= Summarize(edges, own, b, p, n).services
  {
    if n > 0 {
      SummaryGrows(more, edges, own, a, b, p, n - 1);
    }
  }

  /** A child that is new and counts, or counts more than before. */
  ghost predicate AddsTo(more: set<Edge>, edges: set<Edge>, own: seq<Own>, a: seq<Record>, b: seq<Record>, p: nat, c: nat)
    requires c < |own| == |a| == |b|
  {
    if (c, p) in edges then a[c].services > b[c].services else (c, p) in more && !own[c].environment
  }

  lemma {:induction false} SummaryGrowsStrictly(more: set<Edge>, edges: set<Edge>, own: seq<Own>, a: seq<Record>,
      b: seq<Record>, p: nat, n: nat, c: nat)
    requires c < n <= |own| == |a| == |b| && edges <= more
    requires forall d: nat :: d < n && (d, p) in edges ==> a[d].services >= b[d].services
    requires AddsTo(more, edges, own, a, b, p, c)
    ensures Summarize(more, own, a, p, n).services > Summarize(edges, own, b, p, n).services
  {
    if c < n - 1 {
      SummaryGrowsStrictly(more, edges, own, a, b, p, n - 1, c);
    } else {
      SummaryGrows(more, edges, own, a, b, p, n - 1);
    }
  }

  /** Two graphs with consistent values, of which one has more edges. */
  ghost predicate Nested(more: set<Edge>, edges: set<Edge>, own: seq<Own>, a: seq<Record>, b: seq<Record>) {
    && |own| == |a| == |b| && edges <= more && Acyclic(more) && EdgesInRange(more, |own|)
    && AllConsistent(more, own, a) && AllConsistent(edges, own, b)
  }

  lemma {:induction false} CountsGrow(more: set<Edge>, edges: set<Edge>, own: seq<Own>, a: seq<Record>, b: seq<Record>, v: nat)
    requires Nested(more, edges, own, a, b) && v < |own|
    ensures a[v].services >= b[v].services
    decreases |Targets(more)| - Rank(more, v)
  {
    forall c: nat | c < |own| && (c, v) in edges ensures a[c].services >= b[c].services {
      RankDecreases(more, c, v);
      RankBound(more, c);
      CountsGrow(more, edges, own, a, b, c);
    }
    SummaryGrows(more, edges, own, a, b, v, |own|);
    assert ConsistentAt(more, own, a, v) && ConsistentAt(edges, own, b, v);
  }

  /** Where a changed deployment had one more child, its count was higher, and so were those of all above it. */
  lemma {:induction false} CountsWereHigher(more: set<Edge>, edges: set<Edge>, own: seq<Own>, a: seq<Record>, b: seq<Record>,
      changed: set<nat>, x: nat, v: nat)
    requires Nested(more, edges, own, a, b) && v < |own| && x < |own| && !own[x].environment
    requires forall d :: d in changed ==> (x, d) in more && (x, d) !in edges
    requires v in changed || v in Above(edges, changed)
    ensures a[v].services > b[v].services
    decreases |Targets(more)| - Rank(more, v)
  {
    forall c: nat | c < |own| && (c, v) in edges ensures a[c].services >= b[c].services {
      CountsGrow(more, edges, own, a, b, c);
    }
    var c := x;
    if v !in changed {
      AboveMember(edges, changed, v);
      var s :| s in changed && Reaches(edges, s, v);
      c := LastEdge(edges, s, v);
      if c != s {
        AboveMember(edges, changed, c);
      }
      RankDecreases(more, c, v);
      RankBound(more, c);
      CountsWereHigher(more, edges, own, a, b, changed, x, c);
    }
    SummaryGrowsStrictly(more, edges, own, a, b, v, |own|, c);
    assert ConsistentAt(more, own, a, v) && ConsistentAt(edges, own, b, v);
  }

  // ----- counts that are too high when they are read -----

  lemma {:induction false} StillTooHigh(edges: set<Edge>, own: seq<Own>, records: seq<Record>, right: seq<Record>,
      order: seq<nat>, k: nat, v: nat)
    requires |own| == |records| == |right| && InRange(order, |own|) && k <= |order| && v < |own|
    requires AllConsistent(edges, own, right)
    requires forall u: nat :: u < |own| ==> records[u].services >= right[u].services
    ensures Recalculated(edges, own, records, order, k)[v].services >= right[v].services
  {
    if k > 0 {
      forall u: nat | u < |own|
        ensures Recalculated(edges, own, records, order, k - 1)[u].services >= right[u].services
      {
        StillTooHigh(edges, own, records, right, order, k - 1, u);
      }
      SummaryGrows(edges, edges, own, Recalculated(edges, own, records, order, k - 1), right, order[k - 1], |own|);
      assert ConsistentAt(edges, own, right, order[k - 1]);
    }
  }

  lemma RefreshedTooHigh(edges: set<Edge>, own: seq<Own>, r: seq<Record>, right: seq<Record>, p: nat, c: nat)
    requires p < |own| == |r| == |right| && c < |own| && AllConsistent(edges, own, right) && (c, p) in edges
    requires (forall u: nat :: u < |own| ==> r[u].services >= right[u].services) && r[c].services > right[c].services
    ensures Refreshed(edges, own, r, p).services > right[p].services
  {
    SummaryGrowsStrictly(edges, edges, own, r, right, p, |own|, c);
    assert ConsistentAt(edges, own, right, p);
  }

  /** Each deployment keeps what its one refresh gave it. */
  lemma RefreshIsKept(edges: set<Edge>, own: seq<Own>, records: seq<Record>, order: seq<nat>, i: nat, next: nat)
    requires |own| == |records| && InRange(order, |own|) && NoRepeats(order) && next == i + 1 <= |order|
    ensures Recalculated(edges, own, records, order, |order|)[order[i]]
         == Refreshed(edges, own, Recalculated(edges, own, records, order, i), order[i])
  {
    UntouchedLater(edges, own, records, order, next, |order|, order[i]);
  }

  lemma NotYetRefreshed(edges: set<Edge>, own: seq<Own>, records: seq<Record>, order: seq<nat>, i: nat, j: nat)
    requires |own| == |records| && InRange(order, |own|) && NoRepeats(order) && i < j < |order|
    ensures Recalculated(edges, own, records, order, i)[order[j]] == records[order[j]]
  {
    UntouchedLater(edges, own, records, order, 0, i, order[j]);
  }

  /** A parent that is refreshed before a child whose count is too high gets a count that is too high, and keeps it. */
  lemma EarlyParentIsTooHigh(edges: set<Edge>, own: seq<Own>, records: seq<Record>, right: seq<Record>, order: seq<nat>,
      i: nat, j: nat)
    requires |own| == |records| == |right| && InRange(order, |own|) && NoRepeats(order) && AllConsistent(edges, own, right)
    requires forall u: nat :: u < |own| ==> records[u].services >= right[u].services
    requires i < j < |order| && (order[j], order[i]) in edges
    requires records[order[j]].services > right[order[j]].services
    ensures Recalculated(edges, own, records, order, |order|)[order[i]].services > right[order[i]].services
  {
    forall u: nat | u < |own| {
      StillTooHigh(edges, own, records, right, order, i, u);
    }
    NotYetRefreshed(edges, own, records, order, i, j);
    RefreshedTooHigh(edges, own, Recalculated(edges, own, records, order, i), right, order[i], order[j]);
    RefreshIsKept(edges, own, records, order, i, i + 1);
  }

  lemma EarlyParentIsWrong(edges: set<Edge>, own: seq<Own>, records: seq<Record>, right: seq<Record>, order: seq<nat>,
      i: nat, j: nat)
    requires |own| == |records| == |right| && InRange(order, |own|) && NoRepeats(order) && AllConsistent(edges, own, right)
    requires Acyclic(edges) && EdgesInRange(edges, |own|)
    requires forall u: nat :: u < |own| ==> records[u].services >= right[u].services
    requires i < j < |order| && (order[j], order[i]) in edges
    requires records[order[j]].services > right[order[j]].services
    ensures !RightAfter(edges, own, records, order)
  {
    EarlyParentIsTooHigh(edges, own, records, right, order, i, j);
    if RightAfter(edges, own, records, order) {
      CountsGrow(edges, edges, own, right, Recalculated(edges, own, records, order, |order|), order[i]);
    }
  }

  /** Before the change, each changed deployment had one child more. */
  function WithChild(edges: set<Edge>, changed: set<nat>, x: nat): set<Edge> {
    edges + set d | d in changed :: (x, d)
  }

  lemma WithChildIsAcyclic(edges: set<Edge>, changed: set<nat>, x: nat)
    requires Acyclic(edges) && EdgesInRange(edges, x) && forall d :: d in changed ==> d < x
    ensures Acyclic(WithChild(edges, changed, x)) && EdgesInRange(WithChild(edges, changed, x), x + 1)
  {
    assert x !in Above(edges, changed);
    forall e: Edge ensures e in WithChild(edges, changed, x) <==> e in edges || (e.0 in {x} && e.1 in changed) {
      assert e.0 == x ==> e == (x, e.1);
    }
    LabelGraph.AddingKeepsAcyclic(edges, {x}, changed, WithChild(edges, changed, x));
  }

  lemma EarlyParentFails(edges: set<Edge>, changed: set<nat>, order: seq<nat>, n: nat, i: nat, j: nat)
    requires IsUpperPart(edges, order, n) && Acyclic(edges) && (forall d :: d in changed ==> d < n)
    requires forall v :: v in order ==> v in changed || v in Above(edges, changed)
    requires i < j < |order| && (order[j], order[i]) in edges
    ensures !RightAfterChange(edges, changed, order, n)
  {
    var own := seq(n + 1, _ => Own(false, false, false, false));
    var before := WithChild(edges, changed, n);
    WithChildIsAcyclic(edges, changed, n);
    var records := ConsistentValues(before, own);
    var right := ConsistentValues(edges, own);
    forall u: nat | u < |own| ensures records[u].services >= right[u].services {
      CountsGrow(before, edges, own, records, right, u);
    }
    assert order[j] in order;
    CountsWereHigher(before, edges, own, records, right, changed, n, order[j]);
    EarlyParentIsWrong(edges, own, records, right, order, i, j);
    assert IsChange(before, own, edges, own, changed);
  }

  /** The exact condition on the list, also for values that were right before the change. */
  lemma RightAfterChangeIff(edges: set<Edge>, changed: set<nat>, order: seq<nat>, n: nat)
    requires IsUpperPart(edges, order, n) && Acyclic(edges) && (forall d :: d in changed ==> d < n)
    requires forall v :: v in order <==> v in changed || v in Above(edges, changed)
    ensures RightAfterChange(edges, changed, order, n) <==> ChildrenFirst(edges, order)
  {
    if ChildrenFirst(edges, order) {
      forall before: set<Edge>, ownBefore: seq<Own>, own: seq<Own>, records: seq<Record> |
        |own| >= n && |records| == |own| && IsChange(before, ownBefore, edges, own, changed)
        && AllConsistent(before, ownBefore, records)
        ensures RightAfter(edges, own, records, order)
      {
        OthersStayRight(before, ownBefore, edges, own, records, changed, order);
        ChildrenFirstIsRight(edges, order, |own|);
      }
    } else {
      var j: nat, i: nat :| j < |order| && i < |order| && (order[j], order[i]) in edges && j >= i;
      if i == j {
        EdgeReaches(edges, order[i], order[i]);
      }
      EarlyParentFails(edges, changed, order, n, i, j);
    }
  }

  /**
    The exact condition on the graph, for values that were right before: after every change of the changed
    deployments, recalculation makes all values right if and only if the query meets each deployment above them
    before its parents.
   */
  lemma ChangeIsRecalculatedIff(edges: seq<Edge>, changed: set<nat>, missing: seq<nat>, order: seq<nat>, n: nat)
    requires Acyclic(EdgeSet(edges)) && EdgesInRange(EdgeSet(edges), n) && forall v :: v in changed ==> v < n
    requires IsRecalculationOrder(edges, changed, missing, order)
    ensures InRange(missing + order, n)
    ensures RightAfterChange(EdgeSet(edges), changed, missing + order, n) <==> MetChildrenFirst(edges, changed)
  {
    OrderIsUpperPart(edges, changed, missing, order, n);
    PrependingIsSafe(edges, changed, missing, order);
    MetChildrenFirstIff(edges, changed, order);
    RightAfterChangeIff(EdgeSet(edges), changed, missing + order, n);
  }

  /** With parents on paths of different length, the loss of a child is not passed on to all above. */
  lemma LostChildExample()
    ensures IsRecalculationOrder(UNEVEN, {0}, [0], [2, 1])
    ensures InRange([0] + [2, 1], 3) && !RightAfterChange(EdgeSet(UNEVEN), {0}, [0] + [2, 1], 3)
  {
    UnevenGraph();
    UnevenOrder();
    MetChildrenFirstIff(UNEVEN, {0}, [2, 1]);
    ChangeIsRecalculatedIff(UNEVEN, {0}, [0], [2, 1], 3);
  }
}
