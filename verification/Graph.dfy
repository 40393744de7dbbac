/** Finite directed graphs over numbered nodes: paths, reachability, and a rank that decreases along edges. */
module Graph {

  type Edge = (nat, nat)

  ghost predicate IsPath(edges: set<Edge>, p: seq<nat>) {
    forall i :: 0 <= i < |p| - 1 ==> (p[i], p[i + 1]) in edges
  }

  ghost predicate IsPathFrom(edges: set<Edge>, p: seq<nat>, a: nat, b: nat) {
    |p| >= 2 && p[0] == a && p[|p| - 1] == b && IsPath(edges, p)
  }

  /** There is a path of at least one edge from `a` to `b`. */
  ghost predicate Reaches(edges: set<Edge>, a: nat, b: nat) {
    exists p :: IsPathFrom(edges, p, a, b)
  }

  ghost predicate Acyclic(edges: set<Edge>) {
    forall a :: !Reaches(edges, a, a)
  }

  lemma EdgeReaches(edges: set<Edge>, a: nat, b: nat)
    requires (a, b) in edges
    ensures Reaches(edges, a, b)
  {
    assert IsPathFrom(edges, [a, b], a, b);
  }

  lemma ReachesTransitive(edges: set<Edge>, a: nat, b: nat, c: nat)
    requires Reaches(edges, a, b) && Reaches(edges, b, c)
    ensures Reaches(edges, a, c)
  {
    var p :| IsPathFrom(edges, p, a, b);
    var q :| IsPathFrom(edges, q, b, c);
    assert IsPathFrom(edges, p + q[1..], a, c);
  }

  /** A path starts with an edge. */
  lemma FirstEdge(edges: set<Edge>, a: nat, b: nat) returns (c: nat)
    requires Reaches(edges, a, b)
    ensures (a, c) in edges && (c == b || Reaches(edges, c, b))
  {
    var p :| IsPathFrom(edges, p, a, b);
    c := p[1];
    if |p| > 2 {
      assert IsPathFrom(edges, p[1..], c, b);
    }
  }

  /** A path ends with an edge. */
  lemma LastEdge(edges: set<Edge>, s: nat, v: nat) returns (c: nat)
    requires Reaches(edges, s, v)
    ensures (c, v) in edges && (c == s || Reaches(edges, s, c))
  {
    var p :| IsPathFrom(edges, p, s, v);
    c := p[|p| - 2];
    assert (p[|p| - 2], p[|p| - 1]) in edges;
    if |p| > 2 {
      var front := p[..|p| - 1];
      forall i | 0 <= i < |front| - 1 ensures (front[i], front[i + 1]) in edges {
        assert (p[i], p[i + 1]) in edges;
      }
      assert IsPathFrom(edges, front, s, c);
    }
  }

  lemma {:induction false} PathIncreases(edges: set<Edge>, p: seq<nat>)
    requires |p| >= 2 && IsPath(edges, p) && forall e :: e in edges ==> e.0 < e.1
    ensures p[0] < p[|p| - 1]
  {
    assert (p[0], p[1]) in edges;
    if |p| > 2 {
      PathIncreases(edges, p[1..]);
    }
  }

  lemma IncreasingIsAcyclic(edges: set<Edge>)
    requires forall e :: e in edges ==> e.0 < e.1
    ensures Acyclic(edges)
  {
    forall a, p | IsPathFrom(edges, p, a, a) ensures false {
      PathIncreases(edges, p);
    }
  }

  lemma MoreEdges(some: set<Edge>, all: set<Edge>, a: nat, b: nat)
    requires some <= all && Reaches(some, a, b)
    ensures Reaches(all, a, b)
  {
    var p :| IsPathFrom(some, p, a, b);
    assert IsPathFrom(all, p, a, b);
  }

  ghost function Targets(edges: set<Edge>): set<nat> {
    set e | e in edges :: e.1
  }

  /** Everything reachable from `start`. */
  ghost function Above(edges: set<Edge>, start: set<nat>): set<nat> {
    set v | v in Targets(edges) && exists s :: s in start && Reaches(edges, s, v)
  }

  lemma ReachedIsTarget(edges: set<Edge>, a: nat, b: nat)
    requires Reaches(edges, a, b)
    ensures b in Targets(edges)
  {
    var p :| IsPathFrom(edges, p, a, b);
    assert (p[|p| - 2], p[|p| - 1]) in edges;
  }

  lemma AboveMember(edges: set<Edge>, start: set<nat>, v: nat)
    ensures v in Above(edges, start) <==> exists s :: s in start && Reaches(edges, s, v)
  {
    if s :| s in start && Reaches(edges, s, v) {
      ReachedIsTarget(edges, s, v);
    }
  }

  ghost function Rank(edges: set<Edge>, v: nat): nat {
    |Above(edges, {v})|
  }

  lemma ProperSubsetSize(a: set<nat>, b: set<nat>)
    requires a < b
    ensures |a| < |b|
  {
    assert |b| == |a| + |b - a|;
  }

  /** Without cycles, the rank decreases along every edge. */
  lemma RankDecreases(edges: set<Edge>, a: nat, b: nat)
    requires Acyclic(edges) && (a, b) in edges
    ensures Rank(edges, b) < Rank(edges, a)
  {
    EdgeReaches(edges, a, b);
    forall v | v in Above(edges, {b}) ensures v in Above(edges, {a}) {
      ReachesTransitive(edges, a, b, v);
    }
    assert b in Above(edges, {a}) && b !in Above(edges, {b});
    ProperSubsetSize(Above(edges, {b}), Above(edges, {a}));
  }

  lemma RankDecreasesAlong(edges: set<Edge>, a: nat, b: nat)
    requires Acyclic(edges) && Reaches(edges, a, b)
    ensures Rank(edges, b) < Rank(edges, a)
  {
    forall v | v in Above(edges, {b}) ensures v in Above(edges, {a}) {
      ReachesTransitive(edges, a, b, v);
    }
    AboveMember(edges, {a}, b);
    assert b in Above(edges, {a}) && b !in Above(edges, {b});
    ProperSubsetSize(Above(edges, {b}), Above(edges, {a}));
  }

  lemma RankBound(edges: set<Edge>, v: nat)
    ensures Rank(edges, v) <= |Targets(edges)|
  {
    assert Above(edges, {v}) <= Targets(edges);
    if Above(edges, {v}) != Targets(edges) {
      ProperSubsetSize(Above(edges, {v}), Targets(edges));
    }
  }

  // ----- adjacency lists, and how long a worklist over them lasts -----

  type Adjacency = seq<seq<nat>>

  ghost predicate IsAdjacency(adj: Adjacency) {
    forall i, k :: 0 <= i < |adj| && 0 <= k < |adj[i]| ==> adj[i][k] < |adj|
  }

  ghost function EdgesOf(adj: Adjacency): set<Edge> {
    set i: nat, k: nat | i < |adj| && k < |adj[i]| :: (i, adj[i][k])
  }

  ghost predicate Nodes(adj: Adjacency, work: seq<nat>) {
    forall k :: 0 <= k < |work| ==> work[k] < |adj|
  }

  /** Number of turns that a worklist entry gives rise to when each turn appends the entry's successors. */
  ghost function Turns(adj: Adjacency, v: nat): nat
    requires IsAdjacency(adj) && Acyclic(EdgesOf(adj)) && v < |adj|
    decreases Rank(EdgesOf(adj), v), 1, 0
  {
    1 + SuccessorTurns(adj, v, |adj[v]|)
  }

  ghost function SuccessorTurns(adj: Adjacency, v: nat, n: nat): nat
    requires IsAdjacency(adj) && Acyclic(EdgesOf(adj)) && v < |adj| && n <= |adj[v]|
    decreases Rank(EdgesOf(adj), v), 0, n
  {
    if n == 0 then 0
    else
      assert (v, adj[v][n - 1]) in EdgesOf(adj);
      RankDecreases(EdgesOf(adj), v, adj[v][n - 1]);
      SuccessorTurns(adj, v, n - 1) + Turns(adj, adj[v][n - 1])
  }

  ghost function WorkTurns(adj: Adjacency, work: seq<nat>): nat
    requires IsAdjacency(adj) && Acyclic(EdgesOf(adj)) && Nodes(adj, work)
  {
    if work == [] then 0 else WorkTurns(adj, work[..|work| - 1]) + Turns(adj, work[|work| - 1])
  }

  lemma {:induction false} WorkTurnsAppend(adj: Adjacency, work: seq<nat>, v: nat, n: nat)
    requires IsAdjacency(adj) && Acyclic(EdgesOf(adj)) && Nodes(adj, work) && v < |adj| && n <= |adj[v]|
    ensures Nodes(adj, work + adj[v][..n])
    ensures WorkTurns(adj, work + adj[v][..n]) == WorkTurns(adj, work) + SuccessorTurns(adj, v, n)
  {
    if n == 0 {
      assert work + adj[v][..0] == work;
    } else {
      WorkTurnsAppend(adj, work, v, n - 1);
      var shorter, longer := work + adj[v][..n - 1], work + adj[v][..n];
      assert longer == shorter + [adj[v][n - 1]];
      assert longer[..|longer| - 1] == shorter;
    }
  }

  /** A turn replaces the last entry by its successors, and shortens what remains by exactly one turn. */
  lemma TurnShortens(adj: Adjacency, work: seq<nat>)
    requires IsAdjacency(adj) && Acyclic(EdgesOf(adj)) && Nodes(adj, work) && work != []
    ensures var next := work[..|work| - 1] + adj[work[|work| - 1]];
            Nodes(adj, next) && WorkTurns(adj, next) == WorkTurns(adj, work) - 1
  {
    var v := work[|work| - 1];
    WorkTurnsAppend(adj, work[..|work| - 1], v, |adj[v]|);
    assert adj[v][..|adj[v]|] == adj[v];
  }
}
