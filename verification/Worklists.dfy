/**
  A loop that takes the last entry of a worklist, stops if it is one of a given set, and otherwise replaces it by
  its successors. Entries are not remembered, so the loop need not end.
 */
module Worklists {
  import opened Options
  import opened Graph

  function Next(adj: Adjacency, v: nat): seq<nat> {
    if v < |adj| then adj[v] else []
  }

  /** The worklist after `n` turns; `None` if it was empty before, or a turn stopped. */
  function After(adj: Adjacency, stop: set<nat>, work: seq<nat>, n: nat): Option<seq<nat>>
    decreases n
  {
    if n == 0 then Some(work)
    else if work == [] || work[|work| - 1] in stop then None
    else After(adj, stop, work[..|work| - 1] + Next(adj, work[|work| - 1]), n - 1)
  }

  ghost predicate Empties(adj: Adjacency, stop: set<nat>, work: seq<nat>, n: nat) {
    After(adj, stop, work, n) == Some([])
  }

  /** After `n` turns, the next one stops. */
  ghost predicate Halts(adj: Adjacency, stop: set<nat>, work: seq<nat>, n: nat) {
    var r := After(adj, stop, work, n);
    r.Some? && r.value != [] && r.value[|r.value| - 1] in stop
  }

  lemma Turn(adj: Adjacency, stop: set<nat>, rest: seq<nat>, v: nat, n: nat)
    requires v !in stop
    ensures After(adj, stop, rest + [v], n + 1) == After(adj, stop, rest + Next(adj, v), n)
  {
    assert (rest + [v])[..|rest|] == rest;
  }

  lemma LastOf(work: seq<nat>) returns (rest: seq<nat>, v: nat)
    requires work != []
    ensures work == rest + [v] && |rest| == |work| - 1 && v == work[|work| - 1]
  {
    rest, v := work[..|work| - 1], work[|work| - 1];
  }

  lemma Regroup(a: seq<nat>, b: seq<nat>, c: seq<nat>)
    ensures a + (b + c) == a + b + c
  {
  }

  lemma BehindOne(adj: Adjacency, stop: set<nat>, front: seq<nat>, rest: seq<nat>, v: nat, left: seq<nat>, n: nat)
    requires v !in stop && After(adj, stop, front + (rest + Next(adj, v)), n) == Some(left)
    ensures After(adj, stop, front + (rest + [v]), n + 1) == Some(left)
  {
    Regroup(front, rest, Next(adj, v));
    Regroup(front, rest, [v]);
    Turn(adj, stop, front + rest, v, n);
  }

  /** Entries in front of a worklist are not touched while it is not empty. */
  lemma {:induction false} Behind(adj: Adjacency, stop: set<nat>, front: seq<nat>, work: seq<nat>, left: seq<nat>, n: nat)
    requires After(adj, stop, work, n) == Some(left)
    ensures After(adj, stop, front + work, n) == Some(front + left)
    decreases n
  {
    if n > 0 {
      var rest, v := LastOf(work);
      Turn(adj, stop, rest, v, n - 1);
      Behind(adj, stop, front, rest + Next(adj, v), left, n - 1);
      BehindOne(adj, stop, front, rest, v, front + left, n - 1);
    }
  }

  lemma {:induction false} Continues(adj: Adjacency, stop: set<nat>, work: seq<nat>, middle: seq<nat>, m: nat, n: nat)
    requires After(adj, stop, work, m) == Some(middle)
    ensures After(adj, stop, work, m + n) == After(adj, stop, middle, n)
    decreases m
  {
    if m > 0 {
      var rest, v := LastOf(work);
      Turn(adj, stop, rest, v, m - 1);
      Turn(adj, stop, rest, v, m - 1 + n);
      Continues(adj, stop, rest + Next(adj, v), middle, m - 1, n);
    }
  }

  // ----- harmless entries -----

  /** The loop does not stop at `v` or below, nor does a cycle keep it there. */
  ghost predicate Harmless(adj: Adjacency, stop: set<nat>, v: nat) {
    forall x :: x == v || Reaches(EdgesOf(adj), v, x) ==> x !in stop && !Reaches(EdgesOf(adj), x, x)
  }

  ghost predicate AllHarmless(adj: Adjacency, stop: set<nat>, work: seq<nat>) {
    forall v :: v in work ==> Harmless(adj, stop, v)
  }

  lemma NextIsEdge(adj: Adjacency, v: nat, w: nat)
    ensures w in Next(adj, v) <==> (v, w) in EdgesOf(adj)
  {
    if w in Next(adj, v) {
      var k :| 0 <= k < |adj[v]| && adj[v][k] == w;
    }
  }

  lemma HarmlessBelow(adj: Adjacency, stop: set<nat>, v: nat)
    requires Harmless(adj, stop, v)
    ensures AllHarmless(adj, stop, Next(adj, v))
  {
    var edges := EdgesOf(adj);
    forall w, x | w in Next(adj, v) && (x == w || Reaches(edges, w, x)) ensures Reaches(edges, v, x) {
      NextIsEdge(adj, v, w);
      EdgeReaches(edges, v, w);
      if x != w {
        ReachesTransitive(edges, v, w, x);
      }
    }
  }

  lemma HarmlessAbove(adj: Adjacency, stop: set<nat>, v: nat)
    requires v !in stop && AllHarmless(adj, stop, Next(adj, v))
    ensures Harmless(adj, stop, v)
  {
    var edges := EdgesOf(adj);
    forall x | Reaches(edges, v, x) ensures x !in stop && !Reaches(edges, x, x) {
      var w := FirstEdge(edges, v, x);
      NextIsEdge(adj, v, w);
      assert Harmless(adj, stop, w);
    }
  }

  lemma HarmlessParts(adj: Adjacency, stop: set<nat>, a: seq<nat>, b: seq<nat>)
    ensures AllHarmless(adj, stop, a + b) <==> AllHarmless(adj, stop, a) && AllHarmless(adj, stop, b)
  {
    assert forall v :: v in a + b <==> v in a || v in b;
  }

  /** Before a turn all entries are harmless if and only if they are afterwards. */
  lemma HarmlessTurn(adj: Adjacency, stop: set<nat>, rest: seq<nat>, v: nat)
    requires v !in stop
    ensures AllHarmless(adj, stop, rest + [v]) <==> AllHarmless(adj, stop, rest + Next(adj, v))
  {
    HarmlessParts(adj, stop, rest, [v]);
    HarmlessParts(adj, stop, rest, Next(adj, v));
    if Harmless(adj, stop, v) {
      HarmlessBelow(adj, stop, v);
    } else if AllHarmless(adj, stop, Next(adj, v)) {
      HarmlessAbove(adj, stop, v);
    }
  }

  /** The successor lists, cut down to what is harmless. */
  ghost function HarmlessPart(adj: Adjacency, stop: set<nat>): (part: Adjacency)
    ensures |part| == |adj|
    ensures forall i: nat :: i < |adj| ==> part[i] == if Harmless(adj, stop, i) then adj[i] else []
  {
    seq(|adj|, i requires 0 <= i < |adj| => if Harmless(adj, stop, i) then adj[i] else [])
  }

  lemma HarmlessPartIsAcyclic(adj: Adjacency, stop: set<nat>)
    ensures Acyclic(EdgesOf(HarmlessPart(adj, stop)))
  {
    var part, all := EdgesOf(HarmlessPart(adj, stop)), EdgesOf(adj);
    forall e | e in part ensures e in all && Harmless(adj, stop, e.0) {
      NextIsEdge(HarmlessPart(adj, stop), e.0, e.1);
      NextIsEdge(adj, e.0, e.1);
    }
    forall a ensures !Reaches(part, a, a) {
      if Reaches(part, a, a) {
        var next := FirstEdge(part, a, a);
        MoreEdges(part, all, a, a);
      }
    }
  }

  lemma {:induction false} Drains(adj: Adjacency, stop: set<nat>, work: seq<nat>) returns (n: nat)
    requires IsAdjacency(adj) && Nodes(adj, work) && AllHarmless(adj, stop, work)
    requires IsAdjacency(HarmlessPart(adj, stop)) && Acyclic(EdgesOf(HarmlessPart(adj, stop)))
    ensures Empties(adj, stop, work, n)
    decreases WorkTurns(HarmlessPart(adj, stop), work)
  {
    if work == [] {
      n := 0;
    } else {
      var rest, v := LastOf(work);
      assert v in work;
      TurnShortens(HarmlessPart(adj, stop), work);
      HarmlessTurn(adj, stop, rest, v);
      n := Drains(adj, stop, rest + Next(adj, v));
      Turn(adj, stop, rest, v, n);
      n := n + 1;
    }
  }

  lemma {:induction false} DrainedIsHarmless(adj: Adjacency, stop: set<nat>, work: seq<nat>, n: nat)
    requires Empties(adj, stop, work, n)
    ensures AllHarmless(adj, stop, work)
    decreases n
  {
    if work != [] {
      var rest, v := LastOf(work);
      Turn(adj, stop, rest, v, n - 1);
      DrainedIsHarmless(adj, stop, rest + Next(adj, v), n - 1);
      HarmlessTurn(adj, stop, rest, v);
    }
  }

  /** The loop empties its worklist if and only if all entries are harmless. */
  lemma EmptiesIff(adj: Adjacency, stop: set<nat>, work: seq<nat>)
    requires IsAdjacency(adj) && Nodes(adj, work)
    ensures (exists n :: Empties(adj, stop, work, n)) <==> AllHarmless(adj, stop, work)
  {
    if AllHarmless(adj, stop, work) {
      HarmlessPartIsAcyclic(adj, stop);
      var n := Drains(adj, stop, work);
    }
    if n :| Empties(adj, stop, work, n) {
      DrainedIsHarmless(adj, stop, work, n);
    }
  }

  // ----- where the loop stops -----

  /** The entry `v` at `k`, with only harmless ones after it, which are taken before it. */
  ghost predicate ComesAt(adj: Adjacency, stop: set<nat>, listed: seq<nat>, v: nat, k: nat) {
    k < |listed| && listed[k] == v && AllHarmless(adj, stop, listed[k + 1..])
  }

  ghost predicate Comes(adj: Adjacency, stop: set<nat>, listed: seq<nat>, v: nat) {
    exists k: nat :: ComesAt(adj, stop, listed, v, k)
  }

  /** A path down to where the loop stops: each next node comes among the successors of the one before. */
  ghost predicate Descends(adj: Adjacency, stop: set<nat>, p: seq<nat>)
    decreases |p|
  {
    && p != []
    && (if |p| == 1 then p[0] in stop else Comes(adj, stop, Next(adj, p[0]), p[1]) && Descends(adj, stop, p[1..]))
  }

  ghost predicate ComesToStop(adj: Adjacency, stop: set<nat>, work: seq<nat>) {
    exists p :: Descends(adj, stop, p) && Comes(adj, stop, work, p[0])
  }

  lemma Around(work: seq<nat>, k: nat) returns (front: seq<nat>)
    requires k < |work|
    ensures work == (front + [work[k]]) + work[k + 1..]
  {
    front := work[..k];
  }

  lemma BehindAll(adj: Adjacency, stop: set<nat>, front: seq<nat>, work: seq<nat>, n: nat)
    requires Empties(adj, stop, work, n)
    ensures After(adj, stop, front + work, n) == Some(front)
  {
    Behind(adj, stop, front, work, [], n);
    assert front + [] == front;
  }

  lemma Arrives(adj: Adjacency, stop: set<nat>, work: seq<nat>, v: nat) returns (front: seq<nat>, n: nat)
    requires IsAdjacency(adj) && Nodes(adj, work) && Comes(adj, stop, work, v)
    ensures v < |adj| && After(adj, stop, work, n) == Some(front + [v])
  {
    var k: nat :| ComesAt(adj, stop, work, v, k);
    front := Around(work, k);
    EmptiesIff(adj, stop, work[k + 1..]);
    n :| Empties(adj, stop, work[k + 1..], n);
    BehindAll(adj, stop, front + [v], work[k + 1..], n);
  }

  lemma HaltsBehind(adj: Adjacency, stop: set<nat>, front: seq<nat>, work: seq<nat>, n: nat)
    requires Halts(adj, stop, work, n)
    ensures Halts(adj, stop, front + work, n)
  {
    Behind(adj, stop, front, work, After(adj, stop, work, n).value, n);
  }

  lemma HaltsLater(adj: Adjacency, stop: set<nat>, work: seq<nat>, front: seq<nat>, v: nat, m: nat, n: nat)
    requires After(adj, stop, work, m) == Some(front + [v]) && v !in stop
    requires Halts(adj, stop, Next(adj, v), n)
    ensures Halts(adj, stop, work, m + (n + 1))
  {
    HaltsBehind(adj, stop, front, Next(adj, v), n);
    Turn(adj, stop, front, v, n);
    Continues(adj, stop, work, front + [v], m, n + 1);
  }

  lemma {:induction false} DescentHalts(adj: Adjacency, stop: set<nat>, work: seq<nat>, p: seq<nat>) returns (n: nat)
    requires IsAdjacency(adj) && Nodes(adj, work)
    requires Descends(adj, stop, p) && Comes(adj, stop, work, p[0])
    ensures Halts(adj, stop, work, n)
    decreases |p|
  {
    var front, m := Arrives(adj, stop, work, p[0]);
    if p[0] in stop {
      n := m;
    } else {
      var more := DescentHalts(adj, stop, Next(adj, p[0]), p[1..]);
      HaltsLater(adj, stop, work, front, p[0], m, more);
      n := m + (more + 1);
    }
  }

  lemma ComesLast(adj: Adjacency, stop: set<nat>, rest: seq<nat>, v: nat)
    ensures Comes(adj, stop, rest + [v], v)
  {
    assert ComesAt(adj, stop, rest + [v], v, |rest|);
  }

  /** What comes after a turn comes among the new entries, or came before it. */
  lemma ComesBeforeTurn(adj: Adjacency, stop: set<nat>, rest: seq<nat>, v: nat, w: nat)
    requires v !in stop && Comes(adj, stop, rest + Next(adj, v), w)
    ensures Comes(adj, stop, Next(adj, v), w) || Comes(adj, stop, rest + [v], w)
  {
    var below := Next(adj, v);
    var k: nat :| ComesAt(adj, stop, rest + below, w, k);
    if k < |rest| {
      assert (rest + below)[k + 1..] == rest[k + 1..] + below;
      HarmlessTurn(adj, stop, rest[k + 1..], v);
      assert (rest + [v])[k + 1..] == rest[k + 1..] + [v];
      assert ComesAt(adj, stop, rest + [v], w, k);
    } else {
      assert (rest + below)[k + 1..] == below[k - |rest| + 1..];
      assert ComesAt(adj, stop, below, w, k - |rest|);
    }
  }

  lemma {:induction false} HaltHasDescent(adj: Adjacency, stop: set<nat>, work: seq<nat>, n: nat) returns (p: seq<nat>)
    requires Halts(adj, stop, work, n)
    ensures Descends(adj, stop, p) && Comes(adj, stop, work, p[0])
    decreases n
  {
    var rest, v := LastOf(work);
    ComesLast(adj, stop, rest, v);
    if v in stop {
      p := [v];
    } else {
      Turn(adj, stop, rest, v, n - 1);
      p := HaltHasDescent(adj, stop, rest + Next(adj, v), n - 1);
      ComesBeforeTurn(adj, stop, rest, v, p[0]);
      if !Comes(adj, stop, work, p[0]) {
        assert ([v] + p)[1..] == p;
        p := [v] + p;
      }
    }
  }

  /** The loop stops at an entry of the set if and only if a path leads down to one past harmless ones only. */
  lemma HaltsIff(adj: Adjacency, stop: set<nat>, work: seq<nat>)
    requires IsAdjacency(adj) && Nodes(adj, work)
    ensures (exists n :: Halts(adj, stop, work, n)) <==> ComesToStop(adj, stop, work)
  {
    if p :| Descends(adj, stop, p) && Comes(adj, stop, work, p[0]) {
      var n := DescentHalts(adj, stop, work, p);
    }
    if n :| Halts(adj, stop, work, n) {
      var p := HaltHasDescent(adj, stop, work, n);
    }
  }
  // ----- cycles -----

  /** On a cycle, or above one. */
  ghost predicate LeadsToCycle(edges: set<Edge>, v: nat) {
    exists x :: Reaches(edges, x, x) && (v == x || Reaches(edges, v, x))
  }

  lemma StillLeadsToCycle(edges: set<Edge>, v: nat) returns (w: nat)
    requires LeadsToCycle(edges, v)
    ensures (v, w) in edges && LeadsToCycle(edges, w)
  {
    var x :| Reaches(edges, x, x) && (v == x || Reaches(edges, v, x));
    w := FirstEdge(edges, v, x);
  }

  /** The loop does not stop at an entry or below. */
  ghost predicate NeverStops(adj: Adjacency, stop: set<nat>, work: seq<nat>) {
    forall v, x :: v in work && (x == v || Reaches(EdgesOf(adj), v, x)) ==> x !in stop
  }

  lemma StillNeverStops(adj: Adjacency, stop: set<nat>, rest: seq<nat>, v: nat)
    requires NeverStops(adj, stop, rest + [v])
    ensures v !in stop && NeverStops(adj, stop, rest + Next(adj, v))
  {
    var edges := EdgesOf(adj);
    assert v in rest + [v] && forall w :: w in rest ==> w in rest + [v];
    forall w, x | w in Next(adj, v) && (x == w || Reaches(edges, w, x)) ensures x !in stop {
      NextIsEdge(adj, v, w);
      EdgeReaches(edges, v, w);
      if x != w {
        ReachesTransitive(edges, v, w, x);
      }
    }
  }

  /** After a turn there still is an entry from which a cycle can be reached. */
  lemma CycleStays(adj: Adjacency, rest: seq<nat>, v: nat, id: nat) returns (onward: nat)
    requires id in rest + [v] && LeadsToCycle(EdgesOf(adj), id)
    ensures onward in rest + Next(adj, v) && LeadsToCycle(EdgesOf(adj), onward)
  {
    onward := id;
    if id == v {
      onward := StillLeadsToCycle(EdgesOf(adj), id);
      NextIsEdge(adj, v, onward);
    }
  }

  lemma {:induction false} NeverEmpties(adj: Adjacency, stop: set<nat>, work: seq<nat>, id: nat, n: nat)
    requires NeverStops(adj, stop, work) && id in work && LeadsToCycle(EdgesOf(adj), id)
    ensures After(adj, stop, work, n).Some? && After(adj, stop, work, n).value != []
    decreases n
  {
    if n > 0 {
      var rest, v := LastOf(work);
      StillNeverStops(adj, stop, rest, v);
      var onward := CycleStays(adj, rest, v, id);
      NeverEmpties(adj, stop, rest + Next(adj, v), onward, n - 1);
      Turn(adj, stop, rest, v, n - 1);
    }
  }

  // ----- whether the loop ends -----

  ghost predicate EndsIn(adj: Adjacency, stop: set<nat>, work: seq<nat>, n: nat) {
    Empties(adj, stop, work, n) || Halts(adj, stop, work, n)
  }

  lemma EndsSooner(adj: Adjacency, stop: set<nat>, rest: seq<nat>, v: nat, n: nat) returns (fewer: nat)
    requires v !in stop && EndsIn(adj, stop, rest + [v], n)
    ensures fewer < n && EndsIn(adj, stop, rest + Next(adj, v), fewer)
  {
    fewer := n - 1;
    Turn(adj, stop, rest, v, fewer);
  }

  lemma EndsIff(adj: Adjacency, stop: set<nat>, work: seq<nat>)
    requires IsAdjacency(adj) && Nodes(adj, work)
    ensures (exists n :: EndsIn(adj, stop, work, n)) <==> AllHarmless(adj, stop, work) || ComesToStop(adj, stop, work)
  {
    EmptiesIff(adj, stop, work);
    HaltsIff(adj, stop, work);
    if n :| Empties(adj, stop, work, n) {
      assert EndsIn(adj, stop, work, n);
    }
    if n :| Halts(adj, stop, work, n) {
      assert EndsIn(adj, stop, work, n);
    }
  }
}
