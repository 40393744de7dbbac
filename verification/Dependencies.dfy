/**
  The recursive dependency query over the deployment label graph: levels of
  parents, one row per edge, in storage order within a level. The rows are
  reduced to deployments by keeping the first row of each.
 */
module Dependencies {
  import opened Graph

  /** Stored edges, as (child, parent), in storage order. */
  function EdgeSet(edges: seq<Edge>): set<Edge> {
    set e | e in edges
  }

  /** Targets of the edges that leave `from`, in storage order. */
  function RowsAt(edges: seq<Edge>, from: set<nat>): seq<nat> {
    if edges == [] then []
    else
      var e := edges[|edges| - 1];
      RowsAt(edges[..|edges| - 1], from) + (if e.0 in from then [e.1] else [])
  }

  lemma RowsAtOneMore(edges: seq<Edge>, e: Edge, from: set<nat>)
    ensures RowsAt(edges + [e], from) == RowsAt(edges, from) + (if e.0 in from then [e.1] else [])
  {
    assert (edges + [e])[..|edges|] == edges;
  }

  lemma {:induction false} RowsAtMember(edges: seq<Edge>, from: set<nat>, v: nat)
    ensures v in RowsAt(edges, from) <==> exists e :: e in EdgeSet(edges) && e.0 in from && e.1 == v
  {
    if edges != [] {
      RowsAtMember(edges[..|edges| - 1], from, v);
      assert edges == edges[..|edges| - 1] + [edges[|edges| - 1]];
      assert EdgeSet(edges) == EdgeSet(edges[..|edges| - 1]) + {edges[|edges| - 1]};
    }
  }

  function NextLevel(edges: seq<Edge>, from: set<nat>): set<nat> {
    set v | v in RowsAt(edges, from)
  }

  function Level(edges: seq<Edge>, start: set<nat>, k: nat): set<nat> {
    if k == 0 then start else NextLevel(edges, Level(edges, start, k - 1))
  }

  /** All rows of the first `n` levels, in the order of the query. */
  function Rows(edges: seq<Edge>, start: set<nat>, n: nat): seq<nat> {
    if n == 0 then [] else Rows(edges, start, n - 1) + RowsAt(edges, Level(edges, start, n - 1))
  }

  /** Each value once, where it occurred first. */
  function FirstOnly(rows: seq<nat>): (r: seq<nat>)
    ensures forall v :: v in r <==> v in rows
    ensures forall i, j :: 0 <= i < j < |r| ==> r[i] != r[j]
  {
    if rows == [] then []
    else
      var r := FirstOnly(rows[..|rows| - 1]);
      assert rows == rows[..|rows| - 1] + [rows[|rows| - 1]];
      if rows[|rows| - 1] in r then r else r + [rows[|rows| - 1]]
  }

  /** The answer of the query: there is a level without rows, and the rows before it are reduced. */
  ghost predicate IsAnswer(edges: seq<Edge>, start: set<nat>, order: seq<nat>) {
    exists n: nat :: Level(edges, start, n) == {} && order == FirstOnly(Rows(edges, start, n))
  }

  method Distinct(rows: seq<nat>) returns (r: seq<nat>)
    ensures r == FirstOnly(rows)
  {
    r := [];
    for i := 0 to |rows|
      invariant r == FirstOnly(rows[..i])
    {
      assert rows[..i + 1][..i] == rows[..i];
      if rows[i] !in r {
        r := r + [rows[i]];
      }
    }
    assert rows[..|rows|] == rows;
  }

  ghost predicate RanksBelow(edges: seq<Edge>, level: set<nat>, bound: nat) {
    forall v :: v in level ==> Rank(EdgeSet(edges), v) < bound
  }

  lemma NextLevelIsLower(edges: seq<Edge>, level: set<nat>, bound: nat)
    requires Acyclic(EdgeSet(edges)) && RanksBelow(edges, level, bound) && level != {}
    ensures bound > 0 && RanksBelow(edges, NextLevel(edges, level), bound - 1)
  {
    var one :| one in level;
    assert Rank(EdgeSet(edges), one) < bound;
    forall v | v in NextLevel(edges, level) ensures Rank(EdgeSet(edges), v) < bound - 1 {
      RowsAtMember(edges, level, v);
      var e :| e in EdgeSet(edges) && e.0 in level && e.1 == v;
      RankDecreases(EdgeSet(edges), e.0, e.1);
    }
  }

  /** The recursion ends on an acyclic graph, because the rank of every level is lower than that of the one before. */
  method GetDependencies(edges: seq<Edge>, start: set<nat>) returns (order: seq<nat>)
    requires Acyclic(EdgeSet(edges))
    ensures IsAnswer(edges, start, order)
    ensures forall v :: v in order <==> v in Above(EdgeSet(edges), start)
  {
    var rows, level := [], start;
    ghost var k: nat := 0;
    ghost var bound: nat := |Targets(EdgeSet(edges))| + 1;
    forall v | v in start { RankBound(EdgeSet(edges), v); }
    while level != {}
      invariant rows == Rows(edges, start, k) && level == Level(edges, start, k)
      invariant RanksBelow(edges, level, bound)
      decreases bound
    {
      NextLevelIsLower(edges, level, bound);
      rows := rows + RowsAt(edges, level);
      level := NextLevel(edges, level);
      k := k + 1;
      bound := bound - 1;
    }
    order := Distinct(rows);
    assert Level(edges, start, k) == {} && order == FirstOnly(Rows(edges, start, k));
    forall v { AnswerIsAbove(edges, start, order, v); }
  }

  lemma {:induction false} LevelsAreReached(edges: seq<Edge>, start: set<nat>, k: nat, v: nat)
    requires k > 0 && v in Level(edges, start, k)
    ensures exists s :: s in start && Reaches(EdgeSet(edges), s, v)
  {
    RowsAtMember(edges, Level(edges, start, k - 1), v);
    var e :| e in EdgeSet(edges) && e.0 in Level(edges, start, k - 1) && e.1 == v;
    EdgeReaches(EdgeSet(edges), e.0, v);
    if k > 1 {
      LevelsAreReached(edges, start, k - 1, e.0);
      var s :| s in start && Reaches(EdgeSet(edges), s, e.0);
      ReachesTransitive(EdgeSet(edges), s, e.0, v);
    }
  }

  lemma {:induction false} PathsAreLevels(edges: seq<Edge>, start: set<nat>, p: seq<nat>, k: nat, v: nat)
    requires |p| == k + 1 && p[0] in start && p[k] == v && IsPath(EdgeSet(edges), p)
    ensures v in Level(edges, start, k)
  {
    if k > 0 {
      var shorter := p[..k];
      forall i | 0 <= i < |shorter| - 1 ensures (shorter[i], shorter[i + 1]) in EdgeSet(edges) {
        assert (p[i], p[i + 1]) in EdgeSet(edges);
      }
      PathsAreLevels(edges, start, shorter, k - 1, p[k - 1]);
      assert (p[k - 1], p[k]) in EdgeSet(edges);
      RowsAtMember(edges, Level(edges, start, k - 1), v);
    }
  }

  lemma {:induction false} NothingAboveNothing(edges: seq<Edge>)
    ensures RowsAt(edges, {}) == []
    ensures NextLevel(edges, {}) == {}
  {
    if edges != [] {
      NothingAboveNothing(edges[..|edges| - 1]);
    }
  }

  lemma {:induction false} EmptyForever(edges: seq<Edge>, start: set<nat>, n: nat, m: nat)
    requires n <= m && Level(edges, start, n) == {}
    ensures Level(edges, start, m) == {}
    decreases m
  {
    if n < m {
      EmptyForever(edges, start, n, m - 1);
      NothingAboveNothing(edges);
      calc {
        Level(edges, start, m);
        NextLevel(edges, Level(edges, start, m - 1));
        NextLevel(edges, {});
      }
    }
  }

  lemma {:induction false} RowHasLevel(edges: seq<Edge>, start: set<nat>, n: nat, v: nat) returns (k: nat)
    requires v in Rows(edges, start, n)
    ensures 0 < k <= n && v in Level(edges, start, k)
  {
    if v in RowsAt(edges, Level(edges, start, n - 1)) {
      k := n;
    } else {
      k := RowHasLevel(edges, start, n - 1, v);
    }
  }

  lemma NextHasEdge(edges: seq<Edge>, level: set<nat>, v: nat)
    requires v in NextLevel(edges, level)
    ensures v in RowsAt(edges, level)
  {
  }

  lemma RowsMember(edges: seq<Edge>, start: set<nat>, n: nat, v: nat)
    requires n > 0
    ensures v in Rows(edges, start, n) <==>
            v in Rows(edges, start, n - 1) || v in RowsAt(edges, Level(edges, start, n - 1))
  {
    EitherPart(Rows(edges, start, n - 1), RowsAt(edges, Level(edges, start, n - 1)), v);
  }

  lemma {:induction false} RowsGrow(edges: seq<Edge>, start: set<nat>, k: nat, n: nat, v: nat)
    requires k <= n && v in Rows(edges, start, k)
    ensures v in Rows(edges, start, n)
    decreases n
  {
    if k < n {
      RowsGrow(edges, start, k, n - 1, v);
      RowsMember(edges, start, n, v);
    }
  }

  lemma LevelHasRow(edges: seq<Edge>, start: set<nat>, n: nat, k: nat, v: nat)
    requires 0 < k <= n && v in Level(edges, start, k)
    ensures v in Rows(edges, start, n)
  {
    NextHasEdge(edges, Level(edges, start, k - 1), v);
    RowsMember(edges, start, k, v);
    RowsGrow(edges, start, k, n, v);
  }

  lemma EitherPart(a: seq<nat>, b: seq<nat>, v: nat)
    ensures v in a + b <==> v in a || v in b
  {
  }

  lemma RowIsReached(edges: seq<Edge>, start: set<nat>, n: nat, v: nat)
    requires v in Rows(edges, start, n)
    ensures exists s :: s in start && Reaches(EdgeSet(edges), s, v)
  {
    var k := RowHasLevel(edges, start, n, v);
    LevelsAreReached(edges, start, k, v);
  }

  lemma ReachedHasRow(edges: seq<Edge>, start: set<nat>, n: nat, s: nat, v: nat)
    requires Level(edges, start, n) == {} && s in start && Reaches(EdgeSet(edges), s, v)
    ensures v in Rows(edges, start, n)
  {
    var p :| IsPathFrom(EdgeSet(edges), p, s, v);
    var k := |p| - 1;
    PathsAreLevels(edges, start, p, k, v);
    if n <= k {
      EmptyForever(edges, start, n, k);
    }
    LevelHasRow(edges, start, n, k, v);
  }

  /** The query returns exactly what is reachable, each once. */
  lemma AnswerIsAbove(edges: seq<Edge>, start: set<nat>, order: seq<nat>, v: nat)
    requires IsAnswer(edges, start, order)
    ensures v in order <==> v in Above(EdgeSet(edges), start)
  {
    var n: nat :| Level(edges, start, n) == {} && order == FirstOnly(Rows(edges, start, n));
    AboveMember(EdgeSet(edges), start, v);
    if v in order {
      RowIsReached(edges, start, n, v);
    }
    if s :| s in start && Reaches(EdgeSet(edges), s, v) {
      ReachedHasRow(edges, start, n, s, v);
    }
  }

  // ----- the order of the answer -----

  /** The stored edge number `m` leads from level `k` to `v`: the query meets `v` there. */
  ghost predicate EntersAt(edges: seq<Edge>, start: set<nat>, k: nat, m: nat, v: nat) {
    m < |edges| && edges[m].0 in Level(edges, start, k) && edges[m].1 == v
  }

  predicate Sooner(k: nat, m: nat, k': nat, m': nat) {
    k < k' || (k == k' && m < m')
  }

  /** The lowest level, and the first edge stored, by which the query meets `v`. */
  ghost predicate FirstEntersAt(edges: seq<Edge>, start: set<nat>, k: nat, m: nat, v: nat) {
    EntersAt(edges, start, k, m, v) &&
    forall k': nat, m': nat :: EntersAt(edges, start, k', m', v) ==> !Sooner(k', m', k, m)
  }

  /** The query meets `x` on a lower level than `y`, or on the same level by an edge stored earlier. */
  ghost predicate EntersBefore(edges: seq<Edge>, start: set<nat>, x: nat, y: nat) {
    exists k: nat, m: nat, k': nat, m': nat ::
      FirstEntersAt(edges, start, k, m, x) && FirstEntersAt(edges, start, k', m', y) && Sooner(k, m, k', m')
  }

  lemma {:induction false} FirstEntry(edges: seq<Edge>, start: set<nat>, k: nat, m: nat, v: nat)
    returns (k': nat, m': nat)
    requires EntersAt(edges, start, k, m, v)
    ensures FirstEntersAt(edges, start, k', m', v)
    decreases k, m
  {
    if i: nat, j: nat :| EntersAt(edges, start, i, j, v) && Sooner(i, j, k, m) {
      k', m' := FirstEntry(edges, start, i, j, v);
    } else {
      k', m' := k, m;
    }
  }

  /** The rows of the levels below `k`, and those of the first `m` edges on level `k`. */
  function RowsUpTo(edges: seq<Edge>, start: set<nat>, k: nat, m: nat): seq<nat>
    requires m <= |edges|
  {
    Rows(edges, start, k) + RowsAt(edges[..m], Level(edges, start, k))
  }

  ghost predicate EntersByEdge(edges: seq<Edge>, start: set<nat>, k: nat, m: nat, v: nat) {
    exists j: nat :: j < m && EntersAt(edges, start, k, j, v)
  }

  ghost predicate EntersByLevel(edges: seq<Edge>, start: set<nat>, n: nat, v: nat) {
    exists i: nat, j: nat :: i < n && EntersAt(edges, start, i, j, v)
  }

  ghost predicate EntersSooner(edges: seq<Edge>, start: set<nat>, k: nat, m: nat, v: nat) {
    exists i: nat, j: nat :: EntersAt(edges, start, i, j, v) && Sooner(i, j, k, m)
  }

  lemma OneMoreEdge(edges: seq<Edge>, start: set<nat>, k: nat, m: nat, v: nat)
    requires 0 < m <= |edges|
    ensures EntersByEdge(edges, start, k, m, v) <==>
            EntersByEdge(edges, start, k, m - 1, v) || EntersAt(edges, start, k, m - 1, v)
  {
  }

  lemma OneMoreRow(edges: seq<Edge>, from: set<nat>, m: nat, v: nat)
    requires 0 < m <= |edges|
    ensures v in RowsAt(edges[..m], from) <==>
            v in RowsAt(edges[..m - 1], from) || (edges[m - 1].0 in from && edges[m - 1].1 == v)
  {
    assert edges[..m] == edges[..m - 1] + [edges[m - 1]];
    RowsAtOneMore(edges[..m - 1], edges[m - 1], from);
  }

  lemma {:induction false} RowsAtEntered(edges: seq<Edge>, start: set<nat>, k: nat, m: nat, v: nat)
    requires m <= |edges|
    ensures v in RowsAt(edges[..m], Level(edges, start, k)) <==> EntersByEdge(edges, start, k, m, v)
  {
    if m > 0 {
      RowsAtEntered(edges, start, k, m - 1, v);
      OneMoreRow(edges, Level(edges, start, k), m, v);
      OneMoreEdge(edges, start, k, m, v);
    }
  }

  lemma AllEdges(edges: seq<Edge>, start: set<nat>, k: nat, v: nat)
    ensures v in RowsAt(edges, Level(edges, start, k)) <==> EntersByEdge(edges, start, k, |edges|, v)
  {
    RowsAtEntered(edges, start, k, |edges|, v);
    assert edges[..|edges|] == edges;
  }

  lemma LevelEnters(edges: seq<Edge>, start: set<nat>, k: nat, n: nat, v: nat) returns (m: nat)
    requires n == k + 1 && v in Level(edges, start, n)
    ensures EntersAt(edges, start, k, m, v)
  {
    NextHasEdge(edges, Level(edges, start, n - 1), v);
    AllEdges(edges, start, k, v);
    m :| m < |edges| && EntersAt(edges, start, k, m, v);
  }

  lemma RowEnters(edges: seq<Edge>, start: set<nat>, n: nat, v: nat) returns (k: nat, m: nat)
    requires v in Rows(edges, start, n)
    ensures k < n && EntersAt(edges, start, k, m, v)
  {
    var above := RowHasLevel(edges, start, n, v);
    k := above - 1;
    m := LevelEnters(edges, start, k, above, v);
  }

  lemma EntryHasRow(edges: seq<Edge>, start: set<nat>, n: nat, k: nat, m: nat, v: nat)
    requires k < n && EntersAt(edges, start, k, m, v)
    ensures v in Rows(edges, start, n)
  {
    AllEdges(edges, start, k, v);
    RowsMember(edges, start, k + 1, v);
    RowsGrow(edges, start, k + 1, n, v);
  }

  lemma RowsEntered(edges: seq<Edge>, start: set<nat>, n: nat, v: nat)
    ensures v in Rows(edges, start, n) <==> EntersByLevel(edges, start, n, v)
  {
    if v in Rows(edges, start, n) {
      var k, m := RowEnters(edges, start, n, v);
    } else if k: nat, m: nat :| k < n && EntersAt(edges, start, k, m, v) {
      EntryHasRow(edges, start, n, k, m, v);
    }
  }

  lemma SoonerMeans(edges: seq<Edge>, start: set<nat>, k: nat, m: nat, v: nat)
    ensures EntersSooner(edges, start, k, m, v) <==>
            EntersByLevel(edges, start, k, v) || EntersByEdge(edges, start, k, m, v)
  {
    if i: nat, j: nat :| i < k && EntersAt(edges, start, i, j, v) {
      assert Sooner(i, j, k, m);
    }
    if j: nat :| j < m && EntersAt(edges, start, k, j, v) {
      assert Sooner(k, j, k, m);
    }
  }

  lemma RowsUpToEntered(edges: seq<Edge>, start: set<nat>, k: nat, m: nat, v: nat)
    requires m <= |edges|
    ensures v in RowsUpTo(edges, start, k, m) <==> EntersSooner(edges, start, k, m, v)
  {
    RowsEntered(edges, start, k, v);
    RowsAtEntered(edges, start, k, m, v);
    EitherPart(Rows(edges, start, k), RowsAt(edges[..m], Level(edges, start, k)), v);
    SoonerMeans(edges, start, k, m, v);
  }

  lemma {:induction false} RowsAtPrefix(edges: seq<Edge>, from: set<nat>, m: nat)
    requires m <= |edges|
    ensures RowsAt(edges[..m], from) <= RowsAt(edges, from)
  {
    if m < |edges| {
      var front := edges[..|edges| - 1];
      RowsAtPrefix(front, from, m);
      assert front[..m] == edges[..m];
    } else {
      assert edges[..m] == edges;
    }
  }

  lemma {:induction false} RowsPrefix(edges: seq<Edge>, start: set<nat>, k: nat, n: nat)
    requires k <= n
    ensures Rows(edges, start, k) <= Rows(edges, start, n)
    decreases n
  {
    if k < n {
      RowsPrefix(edges, start, k, n - 1);
      LongerIsPrefix(Rows(edges, start, k), Rows(edges, start, n - 1), RowsAt(edges, Level(edges, start, n - 1)));
    }
  }

  lemma LongerIsPrefix(a: seq<nat>, b: seq<nat>, more: seq<nat>)
    requires a <= b
    ensures a <= b + more
  {
  }

  lemma JoinedIsPrefix(a: seq<nat>, b: seq<nat>, c: seq<nat>)
    requires b <= c
    ensures a + b <= a + c
  {
  }

  lemma RowsUpToIsPrefix(edges: seq<Edge>, start: set<nat>, k: nat, m: nat, n: nat)
    requires m <= |edges| && k < n
    ensures RowsUpTo(edges, start, k, m) <= Rows(edges, start, n)
  {
    var from := Level(edges, start, k);
    RowsAtPrefix(edges, from, m);
    JoinedIsPrefix(Rows(edges, start, k), RowsAt(edges[..m], from), RowsAt(edges, from));
    RowsPrefix(edges, start, k + 1, n);
    assert Rows(edges, start, k + 1) == Rows(edges, start, k) + RowsAt(edges, from);
  }

  /** The first `x` comes before any `y`. */
  ghost predicate OccursBefore(rows: seq<nat>, x: nat, y: nat) {
    exists p :: p <= rows && x in p && y !in p
  }

  lemma OccursBeforeIsStrict(rows: seq<nat>, x: nat, y: nat)
    ensures !(OccursBefore(rows, x, y) && OccursBefore(rows, y, x))
  {
    forall p, q | p <= rows && q <= rows && x in p && y in q ensures y in p || x in q {
      if |p| <= |q| {
        assert p <= q;
      } else {
        assert q <= p;
      }
    }
  }

  lemma {:induction false} FirstOnlyInOrder(rows: seq<nat>, i: nat, j: nat)
    requires i < j < |FirstOnly(rows)|
    ensures OccursBefore(rows, FirstOnly(rows)[i], FirstOnly(rows)[j])
  {
    var front := rows[..|rows| - 1];
    var r := FirstOnly(front);
    if j < |r| {
      FirstOnlyInOrder(front, i, j);
      var p :| p <= front && r[i] in p && r[j] !in p;
      assert p <= rows;
    } else {
      assert r[i] in r;
      assert front <= rows && FirstOnly(rows)[j] !in front;
    }
  }

  /** The rows up to the first edge into `x` hold no row of a `y` met later. */
  lemma FirstIsLast(edges: seq<Edge>, start: set<nat>, k: nat, m: nat, k': nat, m': nat, x: nat, y: nat)
    requires FirstEntersAt(edges, start, k, m, x) && FirstEntersAt(edges, start, k', m', y) && Sooner(k, m, k', m')
    ensures x in RowsUpTo(edges, start, k, m + 1) && y !in RowsUpTo(edges, start, k, m + 1)
  {
    RowsUpToEntered(edges, start, k, m + 1, x);
    RowsUpToEntered(edges, start, k, m + 1, y);
    assert Sooner(k, m, k, m + 1);
    forall i: nat, j: nat | EntersAt(edges, start, i, j, y) ensures !Sooner(i, j, k, m + 1) {
      assert !Sooner(i, j, k', m');
    }
  }

  lemma SoonerOccursBefore(edges: seq<Edge>, start: set<nat>, n: nat, x: nat, y: nat)
    requires EntersBefore(edges, start, x, y) && x in Rows(edges, start, n)
    ensures OccursBefore(Rows(edges, start, n), x, y)
  {
    var k: nat, m: nat, k': nat, m': nat :| FirstEntersAt(edges, start, k, m, x)
      && FirstEntersAt(edges, start, k', m', y) && Sooner(k, m, k', m');
    LevelOfFirst(edges, start, n, k, m, x);
    RowsUpToIsPrefix(edges, start, k, m + 1, n);
    FirstIsLast(edges, start, k, m, k', m', x, y);
  }

  lemma LevelOfFirst(edges: seq<Edge>, start: set<nat>, n: nat, k: nat, m: nat, v: nat)
    requires FirstEntersAt(edges, start, k, m, v) && v in Rows(edges, start, n)
    ensures k < n
  {
    RowsEntered(edges, start, n, v);
    var i: nat, j: nat :| i < n && EntersAt(edges, start, i, j, v);
    assert !Sooner(i, j, k, m);
  }

  /** The answer is in the order in which the query first meets its deployments. */
  lemma AnswerIsInOrder(edges: seq<Edge>, start: set<nat>, order: seq<nat>, i: nat, j: nat)
    requires IsAnswer(edges, start, order) && i < |order| && j < |order| && i != j
    ensures i < j <==> EntersBefore(edges, start, order[i], order[j])
  {
    var n: nat :| Level(edges, start, n) == {} && order == FirstOnly(Rows(edges, start, n));
    var x, y, rows := order[i], order[j], Rows(edges, start, n);
    assert x in order && y in order;
    EitherEntersFirst(edges, start, n, x, y);
    if i < j {
      FirstOnlyInOrder(rows, i, j);
    } else {
      FirstOnlyInOrder(rows, j, i);
    }
    OccursBeforeIsStrict(rows, x, y);
    if EntersBefore(edges, start, x, y) {
      SoonerOccursBefore(edges, start, n, x, y);
    } else {
      SoonerOccursBefore(edges, start, n, y, x);
    }
  }

  lemma EitherEntersFirst(edges: seq<Edge>, start: set<nat>, n: nat, x: nat, y: nat)
    requires x in Rows(edges, start, n) && y in Rows(edges, start, n) && x != y
    ensures EntersBefore(edges, start, x, y) || EntersBefore(edges, start, y, x)
  {
    RowsEntered(edges, start, n, x);
    RowsEntered(edges, start, n, y);
    var i: nat, j: nat :| i < n && EntersAt(edges, start, i, j, x);
    var i': nat, j': nat :| i' < n && EntersAt(edges, start, i', j', y);
    var k, m := FirstEntry(edges, start, i, j, x);
    var k', m' := FirstEntry(edges, start, i', j', y);
    assert Sooner(k, m, k', m') || Sooner(k', m', k, m);
  }
}
