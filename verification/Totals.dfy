/**
  What the cached values mean once all of them are right: a deployment has the worst status of itself and everything
  below it, and its counts are numbers of paths.
 */
module Totals {
  import opened Graph
  import opened Dependencies
  import opened Recalculation

  /** All cached values are right. */
  ghost predicate AllRight(edges: set<Edge>, own: seq<Own>, records: seq<Record>) {
    |own| == |records| && Acyclic(edges) && EdgesInRange(edges, |own|) && AllConsistent(edges, own, records)
  }

  /** The status of a deployment with nothing below it. */
  function OwnStatus(own: Own): Severity {
    if own.latestInProgress then 2 else if own.latestFailed || own.inactive then 3 else 1
  }

  function CachedStatus(r: Record, environment: bool): Severity {
    if environment then r.environmentsStatus else r.servicesStatus
  }

  function CachedCount(r: Record, environment: bool): nat {
    if environment then r.environments else r.services
  }

  /** Deployment `d` is below `p`, and on the given side. */
  ghost predicate IsBelow(edges: set<Edge>, own: seq<Own>, environment: bool, d: nat, p: nat) {
    d < |own| && own[d].environment == environment && Reaches(edges, d, p)
  }

  // ----- statuses -----

  function SummaryStatus(s: Summary, environment: bool): Severity {
    if environment then s.environmentsStatus else s.servicesStatus
  }

  /** What a child contributes to one side. */
  predicate Contributes(own: seq<Own>, records: seq<Record>, environment: bool, c: nat, s: Severity)
    requires c < |own| == |records|
  {
    CachedStatus(records[c], environment) == s || (own[c].environment == environment && records[c].status == s)
  }

  lemma {:induction false} SummaryIsWorst(edges: set<Edge>, own: seq<Own>, records: seq<Record>, p: nat, n: nat, environment: bool)
    requires n <= |own| == |records|
    ensures var worst := SummaryStatus(Summarize(edges, own, records, p, n), environment);
            && (forall c: nat, s: Severity :: c < n && (c, p) in edges && Contributes(own, records, environment, c, s) ==> s <= worst)
            && (worst == 0 || exists c: nat :: c < n && (c, p) in edges && Contributes(own, records, environment, c, worst))
  {
    if n > 0 {
      SummaryIsWorst(edges, own, records, p, n - 1, environment);
    }
  }

  /** No descendant of the side is worse, and one is as bad, unless there is none. */
  ghost predicate IsWorstBelow(edges: set<Edge>, own: seq<Own>, records: seq<Record>, environment: bool, p: nat, worst: Severity)
    requires |own| == |records|
  {
    && (forall d: nat :: IsBelow(edges, own, environment, d, p) ==> records[d].status <= worst)
    && (worst == 0 || exists d: nat :: IsBelow(edges, own, environment, d, p) && records[d].status == worst)
  }

  /** The cached status of a side is the worst status of the descendants on it. */
  lemma {:induction false} SideIsWorst(edges: set<Edge>, own: seq<Own>, records: seq<Record>, p: nat, environment: bool)
    requires AllRight(edges, own, records) && p < |own|
    ensures IsWorstBelow(edges, own, records, environment, p, CachedStatus(records[p], environment))
    decreases |Targets(edges)| - Rank(edges, p)
  {
    var worst := CachedStatus(records[p], environment);
    assert ConsistentAt(edges, own, records, p);
    SummaryIsWorst(edges, own, records, p, |own|, environment);
    forall c: nat | c < |own| && (c, p) in edges
      ensures IsWorstBelow(edges, own, records, environment, c, CachedStatus(records[c], environment))
    {
      RankDecreases(edges, c, p);
      RankBound(edges, c);
      SideIsWorst(edges, own, records, c, environment);
    }
    forall d: nat | IsBelow(edges, own, environment, d, p) ensures records[d].status <= worst {
      var c := LastEdge(edges, d, p);
      assert Contributes(own, records, environment, c, CachedStatus(records[c], environment));
      assert c == d ==> Contributes(own, records, environment, c, records[c].status);
      assert c != d ==> IsBelow(edges, own, environment, d, c);
    }
    if worst != 0 {
      var c: nat :| c < |own| && (c, p) in edges && Contributes(own, records, environment, c, worst);
      WorstIsBelow(edges, own, records, p, environment, c, worst);
    }
  }

  lemma WorstIsBelow(edges: set<Edge>, own: seq<Own>, records: seq<Record>, p: nat, environment: bool, c: nat, worst: Severity)
    requires c < |own| == |records| && (c, p) in edges && worst != 0 && Contributes(own, records, environment, c, worst)
    requires IsWorstBelow(edges, own, records, environment, c, CachedStatus(records[c], environment))
    ensures exists d: nat :: IsBelow(edges, own, environment, d, p) && records[d].status == worst
  {
    EdgeReaches(edges, c, p);
    if CachedStatus(records[c], environment) == worst {
      var d: nat :| IsBelow(edges, own, environment, d, c) && records[d].status == worst;
      ReachesTransitive(edges, d, c, p);
      assert IsBelow(edges, own, environment, d, p);
    } else {
      assert IsBelow(edges, own, environment, c, p);
    }
  }

  ghost predicate SelfOrBelow(edges: set<Edge>, own: seq<Own>, d: nat, p: nat) {
    d < |own| && (d == p || Reaches(edges, d, p))
  }

  /** The status of a deployment, from its own and those of both sides. */
  lemma DecidedStatus(edges: set<Edge>, own: seq<Own>, records: seq<Record>, p: nat)
    requires AllRight(edges, own, records) && p < |own|
    ensures OwnStatus(own[p]) <= records[p].status && forall side :: CachedStatus(records[p], side) <= records[p].status
    ensures records[p].status == OwnStatus(own[p]) || exists side :: records[p].status == CachedStatus(records[p], side)
  {
    assert ConsistentAt(edges, own, records, p);
    assert CachedStatus(records[p], true) == records[p].environmentsStatus;
    assert CachedStatus(records[p], false) == records[p].servicesStatus;
  }

  /** The status of a deployment is the worst own status of itself and everything below it. */
  lemma {:induction false} StatusIsWorst(edges: set<Edge>, own: seq<Own>, records: seq<Record>, p: nat)
    requires AllRight(edges, own, records) && p < |own|
    ensures forall d: nat :: SelfOrBelow(edges, own, d, p) ==> OwnStatus(own[d]) <= records[p].status
    ensures exists d: nat :: SelfOrBelow(edges, own, d, p) && OwnStatus(own[d]) == records[p].status
    decreases |Targets(edges)| - Rank(edges, p)
  {
    DecidedStatus(edges, own, records, p);
    forall d: nat | SelfOrBelow(edges, own, d, p) ensures OwnStatus(own[d]) <= records[p].status {
      DecidedStatus(edges, own, records, d);
      if d != p {
        SideIsWorst(edges, own, records, p, own[d].environment);
        assert IsBelow(edges, own, own[d].environment, d, p);
      }
    }
    if records[p].status == OwnStatus(own[p]) {
      assert SelfOrBelow(edges, own, p, p);
    } else {
      var side :| records[p].status == CachedStatus(records[p], side);
      SideIsWorst(edges, own, records, p, side);
      var c: nat :| IsBelow(edges, own, side, c, p) && records[c].status == records[p].status;
      RankDecreasesAlong(edges, c, p);
      RankBound(edges, c);
      StatusIsWorst(edges, own, records, c);
      var d: nat :| SelfOrBelow(edges, own, d, c) && OwnStatus(own[d]) == records[c].status;
      if d != c {
        ReachesTransitive(edges, d, c, p);
      }
      assert SelfOrBelow(edges, own, d, p);
    }
  }

  // ----- counts -----

  function SummaryCount(s: Summary, environment: bool): nat {
    if environment then s.environments else s.services
  }

  /** A path from a deployment of the side up to `p`. */
  ghost predicate IsPathUp(edges: set<Edge>, own: seq<Own>, environment: bool, q: seq<nat>, p: nat) {
    |q| >= 2 && IsPath(edges, q) && q[|q| - 1] == p && q[0] < |own| && own[q[0]].environment == environment
  }

  ghost predicate ArePathsUp(edges: set<Edge>, own: seq<Own>, environment: bool, p: nat, paths: set<seq<nat>>) {
    forall q :: q in paths <==> IsPathUp(edges, own, environment, q, p)
  }

  /** The paths up to `p` through its children numbered below `n`. */
  ghost predicate ArePathsThrough(edges: set<Edge>, own: seq<Own>, environment: bool, p: nat, n: nat, paths: set<seq<nat>>) {
    forall q :: q in paths <==> IsPathUp(edges, own, environment, q, p) && q[|q| - 2] < n
  }

  ghost predicate AreLonger(paths: set<seq<nat>>, p: nat, longer: set<seq<nat>>) {
    forall q :: q in longer <==> q != [] && q[|q| - 1] == p && q[..|q| - 1] in paths
  }

  lemma {:induction false} OneMoreStep(paths: set<seq<nat>>, p: nat) returns (longer: set<seq<nat>>)
    ensures AreLonger(paths, p, longer) && |longer| == |paths|
    decreases |paths|
  {
    if paths == {} {
      longer := {};
    } else {
      var q :| q in paths;
      var most := OneMoreStep(paths - {q}, p);
      assert (q + [p])[..|q|] == q;
      forall r: seq<nat> | r != [] && r[|r| - 1] == p && r[..|r| - 1] == q ensures r == q + [p] {}
      longer := most + {q + [p]};
    }
  }

  lemma PathsThroughOne(edges: set<Edge>, own: seq<Own>, environment: bool, p: nat, c: nat, q: seq<nat>)
    requires c < |own| && (c, p) in edges
    ensures IsPathUp(edges, own, environment, q, p) && q[|q| - 2] == c <==>
      || (q == [c, p] && own[c].environment == environment)
      || (|q| >= 2 && q[|q| - 1] == p && IsPathUp(edges, own, environment, q[..|q| - 1], c))
  {
    if |q| > 2 {
      var front := q[..|q| - 1];
      assert q == front + [q[|q| - 1]];
      if IsPathUp(edges, own, environment, q, p) && q[|q| - 2] == c {
        forall i | 0 <= i < |front| - 1 ensures (front[i], front[i + 1]) in edges {
          assert (q[i], q[i + 1]) in edges;
        }
      }
      if q[|q| - 1] == p && IsPathUp(edges, own, environment, front, c) {
        forall i | 0 <= i < |q| - 1 ensures (q[i], q[i + 1]) in edges {
          assert i < |front| - 1 ==> (front[i], front[i + 1]) in edges;
        }
      }
    }
  }

  /** One more child: the path that is only its edge, and its own paths with one more step. */
  lemma OneMoreChild(edges: set<Edge>, own: seq<Own>, environment: bool, p: nat, c: nat, n: nat, through: set<seq<nat>>,
      below: set<seq<nat>>) returns (paths: set<seq<nat>>)
    requires c < |own| && n == c + 1 && (c, p) in edges
    requires ArePathsThrough(edges, own, environment, p, c, through) && ArePathsUp(edges, own, environment, c, below)
    ensures ArePathsThrough(edges, own, environment, p, n, paths)
    ensures |paths| == |through| + |below| + (if own[c].environment == environment then 1 else 0)
  {
    var longer := OneMoreStep(below, p);
    var edge: set<seq<nat>> := if own[c].environment == environment then {[c, p]} else {};
    var last := longer + edge;
    forall q: seq<nat> ensures q in last <==> IsPathUp(edges, own, environment, q, p) && q[|q| - 2] == c {
      PathsThroughOne(edges, own, environment, p, c, q);
    }
    assert [c, p][..1] == [c];
    assert longer !! edge;
    paths := ThroughOneMore(edges, own, environment, p, c, n, through, last);
  }

  lemma ThroughOneMore(edges: set<Edge>, own: seq<Own>, environment: bool, p: nat, c: nat, n: nat, through: set<seq<nat>>,
      last: set<seq<nat>>) returns (paths: set<seq<nat>>)
    requires n == c + 1 && ArePathsThrough(edges, own, environment, p, c, through)
    requires forall q :: q in last <==> IsPathUp(edges, own, environment, q, p) && q[|q| - 2] == c
    ensures ArePathsThrough(edges, own, environment, p, n, paths) && |paths| == |through| + |last|
  {
    paths := through + last;
    assert through !! last;
  }

  lemma {:induction false} SummaryCountsPaths(edges: set<Edge>, own: seq<Own>, records: seq<Record>, p: nat, n: nat, environment: bool)
    returns (paths: set<seq<nat>>)
    requires AllRight(edges, own, records) && p < |own| && n <= |own|
    ensures ArePathsThrough(edges, own, environment, p, n, paths)
    ensures |paths| == SummaryCount(Summarize(edges, own, records, p, n), environment)
    decreases |Targets(edges)| - Rank(edges, p), 0, n
  {
    if n == 0 {
      paths := {};
    } else {
      paths := SummaryCountsPaths(edges, own, records, p, n - 1, environment);
      if (n - 1, p) in edges {
        RankDecreases(edges, n - 1, p);
        RankBound(edges, n - 1);
        var below := CountIsPaths(edges, own, records, n - 1, environment);
        paths := OneMoreChild(edges, own, environment, p, n - 1, n, paths, below);
      } else {
        forall q | IsPathUp(edges, own, environment, q, p) ensures q[|q| - 2] != n - 1 {
          assert (q[|q| - 2], q[|q| - 1]) in edges;
        }
      }
    }
  }

  /** The cached count of a side is the number of paths up from the deployments on it. */
  lemma {:induction false} CountIsPaths(edges: set<Edge>, own: seq<Own>, records: seq<Record>, p: nat, environment: bool)
    returns (paths: set<seq<nat>>)
    requires AllRight(edges, own, records) && p < |own|
    ensures ArePathsUp(edges, own, environment, p, paths) && |paths| == CachedCount(records[p], environment)
    decreases |Targets(edges)| - Rank(edges, p), 1, 0
  {
    assert ConsistentAt(edges, own, records, p);
    paths := SummaryCountsPaths(edges, own, records, p, |own|, environment);
    forall q | IsPathUp(edges, own, environment, q, p) ensures q[|q| - 2] < |own| {
      assert (q[|q| - 2], q[|q| - 1]) in edges;
    }
  }

  // ----- when a count is the number of deployments -----

  ghost predicate OnePathEach(edges: set<Edge>, own: seq<Own>, environment: bool, p: nat) {
    forall q, r :: IsPathUp(edges, own, environment, q, p) && IsPathUp(edges, own, environment, r, p) && q[0] == r[0] ==> q == r
  }

  ghost predicate DifferentStarts(paths: set<seq<nat>>) {
    forall q, r :: q in paths && r in paths && q != [] && r != [] && q[0] == r[0] ==> q == r
  }

  ghost predicate AreStarts(paths: set<seq<nat>>, starts: set<nat>) {
    forall d: nat :: d in starts <==> exists q :: q in paths && q != [] && q[0] == d
  }

  lemma {:induction false} StartsCounted(paths: set<seq<nat>>, starts: set<nat>)
    requires (forall q :: q in paths ==> q != []) && AreStarts(paths, starts)
    ensures |starts| <= |paths| && (|starts| == |paths| <==> DifferentStarts(paths))
    decreases |paths|
  {
    if paths == {} {
      assert starts == {};
    } else {
      var q :| q in paths;
      var rest := paths - {q};
      if exists r :: r in rest && r[0] == q[0] {
        var r :| r in rest && r[0] == q[0];
        StartsCounted(rest, starts);
        assert !DifferentStarts(paths);
      } else {
        StartsCounted(rest, starts - {q[0]});
        assert q[0] in starts;
        assert DifferentStarts(paths) <==> DifferentStarts(rest);
      }
    }
  }

  /** The deployments below `p` on one side. */
  ghost predicate AreDescendants(edges: set<Edge>, own: seq<Own>, environment: bool, p: nat, below: set<nat>) {
    forall d: nat :: d in below <==> IsBelow(edges, own, environment, d, p)
  }

  /** A count is never too low; it is the number of descendants if and only if only one path leads up from each. */
  lemma CountIsRightIff(edges: set<Edge>, own: seq<Own>, records: seq<Record>, p: nat, environment: bool, below: set<nat>)
    requires AllRight(edges, own, records) && p < |own| && AreDescendants(edges, own, environment, p, below)
    ensures |below| <= CachedCount(records[p], environment)
    ensures |below| == CachedCount(records[p], environment) <==> OnePathEach(edges, own, environment, p)
  {
    var paths := CountIsPaths(edges, own, records, p, environment);
    forall d: nat ensures d in below <==> exists q :: q in paths && q != [] && q[0] == d {
      if d in below {
        var q :| IsPathFrom(edges, q, d, p);
        assert q in paths;
      }
      if q :| q in paths && q != [] && q[0] == d {
        assert IsPathFrom(edges, q, d, p);
      }
    }
    StartsCounted(paths, below);
    assert DifferentStarts(paths) <==> OnePathEach(edges, own, environment, p);
  }

  lemma ClosedReaches(edges: set<Edge>, q: seq<nat>)
    requires |q| >= 2 && IsPath(edges, q) && q[0] == q[|q| - 1]
    ensures Reaches(edges, q[0], q[0])
  {
    assert IsPathFrom(edges, q, q[0], q[0]);
  }

  lemma ClosedIsShort(edges: set<Edge>, q: seq<nat>)
    requires Acyclic(edges) && |q| >= 1 && IsPath(edges, q)
    ensures q[0] == q[|q| - 1] ==> |q| == 1
  {
    if |q| >= 2 && q[0] == q[|q| - 1] {
      ClosedReaches(edges, q);
    }
  }

  lemma {:induction false} OneWayUp(edges: seq<Edge>, q: seq<nat>, r: seq<nat>)
    requires SingleParents(edges) && Acyclic(EdgeSet(edges)) && |q| >= 1 && |r| >= 1
    requires IsPath(EdgeSet(edges), q) && IsPath(EdgeSet(edges), r) && q[0] == r[0] && q[|q| - 1] == r[|r| - 1]
    ensures q == r
    decreases |q|
  {
    if |q| == 1 || |r| == 1 {
      ClosedIsShort(EdgeSet(edges), q);
      ClosedIsShort(EdgeSet(edges), r);
      assert q == [q[0]] && r == [r[0]];
    } else {
      SameChild(edges, (q[0], q[1]), (r[0], r[1]));
      OneWayUp(edges, q[1..], r[1..]);
      assert q == [q[0]] + q[1..] && r == [r[0]] + r[1..];
    }
  }

  /** Where every deployment has at most one parent, counts are numbers of descendants. */
  lemma SingleParentsCount(edges: seq<Edge>, own: seq<Own>, records: seq<Record>, p: nat, environment: bool, below: set<nat>)
    requires AllRight(EdgeSet(edges), own, records) && p < |own| && SingleParents(edges)
    requires AreDescendants(EdgeSet(edges), own, environment, p, below)
    ensures CachedCount(records[p], environment) == |below|
  {
    forall q, r | IsPathUp(EdgeSet(edges), own, environment, q, p) && IsPathUp(EdgeSet(edges), own, environment, r, p)
        && q[0] == r[0]
      ensures q == r
    {
      OneWayUp(edges, q, r);
    }
    CountIsRightIff(EdgeSet(edges), own, records, p, environment, below);
  }

  const DIAMOND: set<Edge> := {(0, 1), (0, 2), (1, 3), (2, 3)}

  /** One service below two environments, which are below a third: the service is counted twice. */
  lemma DiamondExample(own: seq<Own>, records: seq<Record>)
    requires AllRight(DIAMOND, own, records) && |own| == 4
    requires !own[0].environment && own[1].environment && own[2].environment && own[3].environment
    ensures CachedCount(records[3], false) == 2 && AreDescendants(DIAMOND, own, false, 3, {0})
  {
    assert forall p: nat :: p < 4 ==> ConsistentAt(DIAMOND, own, records, p);
    CountsOf(own, records);
    EdgeReaches(DIAMOND, 0, 1);
    EdgeReaches(DIAMOND, 1, 3);
    ReachesTransitive(DIAMOND, 0, 1, 3);
    forall d: nat | IsBelow(DIAMOND, own, false, d, 3) ensures d == 0 {
      var c := FirstEdge(DIAMOND, d, 3);
    }
  }

  lemma CountsOf(own: seq<Own>, records: seq<Record>)
    requires |own| == |records| == 4 && forall p: nat :: p < 4 ==> ConsistentAt(DIAMOND, own, records, p)
    requires !own[0].environment && own[1].environment && own[2].environment && own[3].environment
    ensures records[3].services == 2
  {
    assert ConsistentAt(DIAMOND, own, records, 0) && ConsistentAt(DIAMOND, own, records, 1);
    assert ConsistentAt(DIAMOND, own, records, 2) && ConsistentAt(DIAMOND, own, records, 3);
    SummaryOf(own, records, 0);
    SummaryOf(own, records, 1);
    SummaryOf(own, records, 2);
    SummaryOf(own, records, 3);
  }

  /** The summary of a deployment of the diamond, child by child. */
  lemma SummaryOf(own: seq<Own>, records: seq<Record>, p: nat)
    requires |own| == |records| == 4 && p < 4
    requires !own[0].environment && own[1].environment && own[2].environment && own[3].environment
    ensures Summarize(DIAMOND, own, records, p, 4).services ==
      (if p == 1 || p == 2 then records[0].services + 1 else if p == 3 then records[1].services + records[2].services else 0)
  {
    assert Summarize(DIAMOND, own, records, p, 1).services == if (0, p) in DIAMOND then records[0].services + 1 else 0;
    assert Summarize(DIAMOND, own, records, p, 2).services
        == Summarize(DIAMOND, own, records, p, 1).services + if (1, p) in DIAMOND then records[1].services else 0;
    assert Summarize(DIAMOND, own, records, p, 3).services
        == Summarize(DIAMOND, own, records, p, 2).services + if (2, p) in DIAMOND then records[2].services else 0;
  }
}
