/**
  The deployment label graph: which deployment is a parent of which, and the
  labels by which a parent names its consumers.
 */
module LabelGraph {
  import opened Graph
  import opened Dependencies

  const CONSUMER := "csys-consumer-id"
  const OBJECT_TYPE := "csys-obj-type"

  datatype Label = Label(key: string, value: string)

  /** Deployments are numbered by storage order; `names` are their identifiers. */
  datatype State = State(names: seq<string>, edges: seq<Edge>, labels: map<nat, set<Label>>)

  ghost predicate WellFormed(s: State) {
    && (forall i, j :: 0 <= i < j < |s.names| ==> s.names[i] != s.names[j])
    && (forall k :: 0 <= k < |s.edges| ==> s.edges[k].0 < |s.names| && s.edges[k].1 < |s.names|)
    && (forall i: nat :: i in s.labels <==> i < |s.names|)
  }

  predicate IdsOf(s: State, ids: set<nat>) {
    forall i :: i in ids ==> i < |s.names|
  }

  function ConsumerLabel(s: State, child: nat): Label
    requires child < |s.names|
  {
    Label(CONSUMER, s.names[child])
  }

  /** The consumer labels of a parent name exactly its direct children. */
  ghost predicate NamesItsChildren(s: State, parent: nat)
    requires WellFormed(s) && parent < |s.names|
  {
    && (forall l :: l in s.labels[parent] && l.key == CONSUMER ==>
          exists child: nat :: child < |s.names| && l == ConsumerLabel(s, child))
    && (forall child: nat :: child < |s.names| ==>
          (ConsumerLabel(s, child) in s.labels[parent] <==> (child, parent) in EdgeSet(s.edges)))
  }

  ghost predicate Consistent(s: State) {
    && WellFormed(s)
    && Acyclic(EdgeSet(s.edges))
    && forall p: nat :: p < |s.names| ==> NamesItsChildren(s, p)
  }

  // ----- adding -----

  /** Child and parent pairs, parents first, both in storage order. */
  function PairsOf(children: set<nat>, parent: nat, n: nat): (r: seq<Edge>)
    ensures forall e :: e in r <==> e.0 in children && e.0 < n && e.1 == parent
  {
    if n == 0 then []
    else if n - 1 in children then PairsOf(children, parent, n - 1) + [(n - 1, parent)]
    else PairsOf(children, parent, n - 1)
  }

  function Pairs(children: set<nat>, parents: set<nat>, size: nat, n: nat): (r: seq<Edge>)
    ensures forall e :: e in r <==> e.0 in children && e.0 < size && e.1 in parents && e.1 < n
  {
    if n == 0 then []
    else if n - 1 in parents then Pairs(children, parents, size, n - 1) + PairsOf(children, n - 1, size)
    else Pairs(children, parents, size, n - 1)
  }

  function ConsumerLabels(s: State, children: set<nat>): set<Label> {
    set c | c in children && c < |s.names| :: Label(CONSUMER, s.names[c])
  }

  /** The labels with `more` added on the parents below `n`. */
  function Extended(labels: map<nat, set<Label>>, parents: set<nat>, n: nat, more: set<Label>): map<nat, set<Label>> {
    map p | p in labels :: if p in parents && p < n then labels[p] + more else labels[p]
  }

  lemma ExtendedOneMore(labels: map<nat, set<Label>>, parents: set<nat>, n: nat, more: set<Label>)
    requires n in labels
    ensures Extended(labels, parents, n + 1, more)
         == if n in parents then Extended(labels, parents, n, more)[n := labels[n] + more] else Extended(labels, parents, n, more)
    ensures Extended(labels, parents, n, more)[n] == labels[n]
  {
  }

  lemma ExtendedByNone(labels: map<nat, set<Label>>, parents: set<nat>, more: set<Label>)
    ensures Extended(labels, parents, 0, more) == labels
  {
  }

  function Added(s: State, children: set<nat>, parents: set<nat>): State {
    s.(edges := s.edges + Pairs(children, parents, |s.names|, |s.names|),
       labels := Extended(s.labels, parents, |s.names|, ConsumerLabels(s, children)))
  }

  /** Parents of the batch that a child of the batch is above or equal to. */
  ghost predicate WouldBeCyclic(s: State, children: set<nat>, parents: set<nat>) {
    exists d :: d in children && d in parents + Above(EdgeSet(s.edges), parents)
  }

  /** A node that a path goes through, after having been in a closed set, is in that set. */
  lemma PathStays(edges: set<Edge>, s: set<nat>, p: seq<nat>, i: nat, j: nat)
    requires forall e :: e in edges && e.0 in s ==> e.1 in s
    requires i <= j < |p| && p[i] in s && IsPath(edges, p)
    ensures p[j] in s
    decreases j - i
  {
    if i < j {
      assert (p[i], p[i + 1]) in edges;
      PathStays(edges, s, p, i + 1, j);
    }
  }

  /** A closed walk in the larger graph uses no new edge, because the edge would lead out of a closed set. */
  lemma ClosedWalkIsOld(edges: set<Edge>, children: set<nat>, parents: set<nat>, all: set<Edge>, p: seq<nat>, a: nat, i: nat)
    requires children !! parents + Above(edges, parents)
    requires forall e :: e in all <==> e in edges || (e.0 in children && e.1 in parents)
    requires IsPathFrom(all, p, a, a) && i < |p| - 1
    ensures (p[i], p[i + 1]) in edges
  {
    var safe := parents + Above(edges, parents);
    forall e | e in all && e.0 in safe ensures e.1 in safe {
      SafeIsClosed(edges, parents, e);
    }
    assert (p[i], p[i + 1]) in all;
    if p[i + 1] in parents {
      PathStays(all, safe, p, i + 1, |p| - 1);
      PathStays(all, safe, p, 0, i);
    }
  }

  /** Adding all pairs makes no cycle when no child is a parent of the batch, or above one. */
  lemma AddingKeepsAcyclic(edges: set<Edge>, children: set<nat>, parents: set<nat>, all: set<Edge>)
    requires Acyclic(edges) && children !! parents + Above(edges, parents)
    requires forall e :: e in all <==> e in edges || (e.0 in children && e.1 in parents)
    ensures Acyclic(all)
  {
    forall a ensures !Reaches(all, a, a) {
      if p :| IsPathFrom(all, p, a, a) {
        forall i | 0 <= i < |p| - 1 ensures (p[i], p[i + 1]) in edges {
          ClosedWalkIsOld(edges, children, parents, all, p, a, i);
        }
        assert IsPathFrom(edges, p, a, a);
        assert Reaches(edges, a, a);
      }
    }
  }

  lemma SafeIsClosed(edges: set<Edge>, parents: set<nat>, e: Edge)
    requires e.0 in parents + Above(edges, parents)
    ensures e in edges ==> e.1 in Above(edges, parents)
  {
    if e in edges {
      EdgeReaches(edges, e.0, e.1);
      if e.0 !in parents {
        var s :| s in parents && Reaches(edges, s, e.0);
        ReachesTransitive(edges, s, e.0, e.1);
      }
    }
  }

  /** Conversely, a batch that fails the check would close a cycle. */
  lemma FailedCheckWouldCycle(edges: set<Edge>, children: set<nat>, parents: set<nat>, all: set<Edge>)
    requires exists d :: d in children && d in parents + Above(edges, parents)
    requires forall e :: e in all <==> e in edges || (e.0 in children && e.1 in parents)
    ensures !Acyclic(all)
  {
    var d :| d in children && d in parents + Above(edges, parents);
    if d in parents {
      EdgeReaches(all, d, d);
    } else {
      var p :| p in parents && Reaches(edges, p, d);
      MoreEdges(edges, all, p, d);
      EdgeReaches(all, d, p);
      ReachesTransitive(all, d, p, d);
    }
  }

  // ----- deleting -----

  /** The stored edges that are not between a child and a parent of the batch. */
  function Without(edges: seq<Edge>, children: set<nat>, parents: set<nat>): (r: seq<Edge>)
    ensures forall e :: e in r <==> e in edges && !(e.0 in children && e.1 in parents)
  {
    if edges == [] then []
    else
      var last := edges[|edges| - 1];
      assert edges == edges[..|edges| - 1] + [last];
      Without(edges[..|edges| - 1], children, parents)
        + (if last.0 in children && last.1 in parents then [] else [last])
  }

  function Deleted(s: State, children: set<nat>, parents: set<nat>): State {
    s.(edges := Without(s.edges, children, parents),
       labels := map p | p in s.labels :: if p in parents then s.labels[p] - ConsumerLabels(s, children) else s.labels[p])
  }

  // ----- labels set by the user -----

  function LowerChar(c: char): char {
    if 'A' <= c <= 'Z' then ((c as int - 'A' as int + 'a' as int) as char) else c
  }

  function Lower(s: string): (r: string)
    ensures |r| == |s|
    ensures forall i :: 0 <= i < |s| ==> r[i] == LowerChar(s[i])
  {
    seq(|s|, i requires 0 <= i < |s| => LowerChar(s[i]))
  }

  /** A label as it is stored: the object type is written in lower case. */
  function Stored(l: Label): Label {
    if Lower(l.key) == OBJECT_TYPE then Label(Lower(l.key), Lower(l.value)) else l
  }

  function LabelsToCreate(existing: set<Label>, wanted: set<Label>): set<Label> {
    (set l | l in wanted && l.key != CONSUMER) - existing
  }

  function LabelsToDelete(existing: set<Label>, wanted: set<Label>): set<Label> {
    set l | l in existing && l.key != CONSUMER && l !in wanted
  }

  function ReplacedLabels(existing: set<Label>, wanted: set<Label>): set<Label> {
    existing - LabelsToDelete(existing, wanted) + set l | l in LabelsToCreate(existing, wanted) :: Stored(l)
  }

  function Relabelled(s: State, d: nat, wanted: set<Label>): State
    requires d in s.labels
  {
    s.(labels := s.labels[d := ReplacedLabels(s.labels[d], wanted)])
  }

  /** A user's label update neither adds nor removes a consumer label. */
  lemma ConsumerLabelsAreProtected(existing: set<Label>, wanted: set<Label>, l: Label)
    requires l.key == CONSUMER
    ensures l in ReplacedLabels(existing, wanted) <==> l in existing
  {
    forall c | c in LabelsToCreate(existing, wanted) ensures Stored(c).key != CONSUMER {
      assert |CONSUMER| == 16 && |OBJECT_TYPE| == 13;
    }
  }

  // ----- every operation keeps the graph consistent -----

  lemma AddingIsConsistent(s: State, children: set<nat>, parents: set<nat>)
    requires Consistent(s) && !WouldBeCyclic(s, children, parents)
    requires IdsOf(s, children) && IdsOf(s, parents)
    ensures Consistent(Added(s, children, parents))
  {
    var r := Added(s, children, parents);
    forall e ensures e in EdgeSet(r.edges) <==> e in EdgeSet(s.edges) || (e.0 in children && e.1 in parents) {
      assert e in Pairs(children, parents, |s.names|, |s.names|) <==> e.0 in children && e.1 in parents;
    }
    AddingKeepsAcyclic(EdgeSet(s.edges), children, parents, EdgeSet(r.edges));
    forall p: nat | p < |s.names| ensures NamesItsChildren(r, p) {
      assert NamesItsChildren(s, p);
      forall child: nat | child < |s.names|
        ensures ConsumerLabel(r, child) in r.labels[p] <==> (child, p) in EdgeSet(r.edges)
      {
        assert ConsumerLabel(s, child) in ConsumerLabels(s, children) <==> child in children;
      }
      forall l | l in r.labels[p] && l.key == CONSUMER
        ensures exists child: nat :: child < |s.names| && l == ConsumerLabel(r, child)
      {
        if l in s.labels[p] {
          var child: nat :| child < |s.names| && l == ConsumerLabel(s, child);
          assert l == ConsumerLabel(r, child);
        } else {
          var child :| child in children && child < |s.names| && l == Label(CONSUMER, s.names[child]);
          assert l == ConsumerLabel(r, child);
        }
      }
    }
  }

  lemma FewerEdges(some: set<Edge>, all: set<Edge>)
    requires some <= all && Acyclic(all)
    ensures Acyclic(some)
  {
    forall a ensures !Reaches(some, a, a) {
      if Reaches(some, a, a) {
        MoreEdges(some, all, a, a);
      }
    }
  }

  lemma DeletingIsConsistent(s: State, children: set<nat>, parents: set<nat>)
    requires Consistent(s)
    requires IdsOf(s, children) && IdsOf(s, parents)
    ensures Consistent(Deleted(s, children, parents))
  {
    var r := Deleted(s, children, parents);
    FewerEdges(EdgeSet(r.edges), EdgeSet(s.edges));
    forall p: nat | p < |s.names| ensures NamesItsChildren(r, p) {
      assert NamesItsChildren(s, p);
      forall child: nat | child < |s.names|
        ensures ConsumerLabel(r, child) in r.labels[p] <==> (child, p) in EdgeSet(r.edges)
      {
        assert ConsumerLabel(s, child) in ConsumerLabels(s, children) <==> child in children;
      }
      forall l | l in r.labels[p] && l.key == CONSUMER
        ensures exists child: nat :: child < |s.names| && l == ConsumerLabel(r, child)
      {
        var child: nat :| child < |s.names| && l == ConsumerLabel(s, child);
        assert l == ConsumerLabel(r, child);
      }
    }
  }

  lemma RelabellingIsConsistent(s: State, d: nat, wanted: set<Label>)
    requires Consistent(s) && d < |s.names|
    ensures Consistent(Relabelled(s, d, wanted))
  {
    var r := Relabelled(s, d, wanted);
    forall p: nat | p < |s.names| ensures NamesItsChildren(r, p) {
      assert NamesItsChildren(s, p);
      forall l: Label | l.key == CONSUMER ensures l in r.labels[p] <==> l in s.labels[p] {
        ConsumerLabelsAreProtected(s.labels[d], wanted, l);
      }
      forall child: nat | child < |s.names|
        ensures ConsumerLabel(r, child) in r.labels[p] <==> (child, p) in EdgeSet(r.edges)
      {
        assert ConsumerLabel(r, child) == ConsumerLabel(s, child);
      }
      forall l | l in r.labels[p] && l.key == CONSUMER
        ensures exists child: nat :: child < |s.names| && l == ConsumerLabel(r, child)
      {
        var child: nat :| child < |s.names| && l == ConsumerLabel(s, child);
        assert l == ConsumerLabel(r, child);
      }
    }
  }

  // ----- runs -----

  datatype Outcome = Nothing | ParentNotFound(missing: set<string>) | Cyclic | Duplicate | Done

  function Named(s: State, ids: set<string>): set<nat> {
    set i: nat | i < |s.names| && s.names[i] in ids
  }

  function MissingNames(s: State, ids: set<string>): set<string> {
    set n | n in ids && n !in s.names
  }

  /** Some pair of the batch is already stored, which the unique constraint refuses. */
  predicate StoredPair(s: State, children: set<nat>, parent: nat) {
    exists c :: c in children && (c, parent) in s.edges
  }

  predicate AlreadyStored(s: State, children: set<nat>, parents: set<nat>) {
    exists p :: p in parents && StoredPair(s, children, p)
  }

  ghost function AddOutcome(s: State, children: set<nat>, parentIds: set<string>): Outcome {
    if children == {} || parentIds == {} then Nothing
    else if MissingNames(s, parentIds) != {} then ParentNotFound(MissingNames(s, parentIds))
    else if WouldBeCyclic(s, children, Named(s, parentIds)) then Cyclic
    else if AlreadyStored(s, children, Named(s, parentIds)) then Duplicate
    else Done
  }

  datatype Step =
    | Add(children: set<nat>, parentIds: set<string>)
    | Delete(children: set<nat>, parents: set<nat>)
    | Relabel(deployment: nat, wanted: set<Label>)

  ghost function Apply(s: State, step: Step): State {
    match step
    case Add(children, parentIds) =>
      if IdsOf(s, children) && AddOutcome(s, children, parentIds) == Done then Added(s, children, Named(s, parentIds)) else s
    case Delete(children, parents) =>
      if IdsOf(s, children) && IdsOf(s, parents) then Deleted(s, children, parents) else s
    case Relabel(d, wanted) => if d in s.labels then Relabelled(s, d, wanted) else s
  }

  ghost function Run(s: State, steps: seq<Step>): State
    decreases |steps|
  {
    if steps == [] then s else Run(Apply(s, steps[0]), steps[1..])
  }

  /** Over every run: the graph stays acyclic, and consumer labels name exactly the direct children. */
  lemma {:induction false} RunsKeepTheGraph(s: State, steps: seq<Step>)
    requires Consistent(s)
    ensures Consistent(Run(s, steps))
    decreases |steps|
  {
    if steps != [] {
      match steps[0] {
        case Add(children, parentIds) =>
          if IdsOf(s, children) && AddOutcome(s, children, parentIds) == Done {
            AddingIsConsistent(s, children, Named(s, parentIds));
          }
        case Delete(children, parents) =>
          if IdsOf(s, children) && IdsOf(s, parents) {
            DeletingIsConsistent(s, children, parents);
          }
        case Relabel(d, wanted) =>
          if d in s.labels {
            RelabellingIsConsistent(s, d, wanted);
          }
      }
      RunsKeepTheGraph(Apply(s, steps[0]), steps[1..]);
    }
  }

  // ----- what each operation stores -----

  /** The label names a child of the batch. */
  ghost predicate NamesOneOf(s: State, children: set<nat>, l: Label) {
    exists c: nat :: c in children && c < |s.names| && l == Label(CONSUMER, s.names[c])
  }

  /** By parent and then by child, so no pair comes twice. */
  predicate InStorageOrder(pairs: seq<Edge>) {
    forall j, k :: 0 <= j < k < |pairs| ==>
      pairs[j].1 < pairs[k].1 || (pairs[j].1 == pairs[k].1 && pairs[j].0 < pairs[k].0)
  }

  /** Every child below every parent: the edges come after the stored ones, and the labels beside the stored ones. */
  ghost predicate BatchAdded(s: State, children: set<nat>, parents: set<nat>, r: State) {
    && r.names == s.names && s.edges <= r.edges && InStorageOrder(r.edges[|s.edges|..])
    && (forall e :: e in r.edges <==> e in s.edges || (e.0 in children && e.1 in parents))
    && r.labels.Keys == s.labels.Keys
    && forall p, l :: p in s.labels && p in r.labels ==>
         (l in r.labels[p] <==> l in s.labels[p] || (p in parents && NamesOneOf(s, children, l)))
  }

  /** The pairs and their labels are gone, however often a pair was stored; all other edges keep their order. */
  ghost predicate BatchDeleted(s: State, children: set<nat>, parents: set<nat>, r: State) {
    && r.names == s.names && (exists picks :: ArePicked(r.edges, s.edges, picks))
    && (forall e :: multiset(r.edges)[e] == if e.0 in children && e.1 in parents then 0 else multiset(s.edges)[e])
    && r.labels.Keys == s.labels.Keys
    && forall p, l :: p in s.labels && p in r.labels ==>
         (l in r.labels[p] <==> l in s.labels[p] && !(p in parents && NamesOneOf(s, children, l)))
  }

  predicate ArePicked(some: seq<Edge>, all: seq<Edge>, picks: seq<nat>) {
    && |picks| == |some|
    && (forall k :: 0 <= k < |picks| ==> picks[k] < |all| && some[k] == all[picks[k]])
    && forall j, k :: 0 <= j < k < |picks| ==> picks[j] < picks[k]
  }

  /** A wanted label as it is stored: the object type, however it is written, in lower case; others as they are. */
  predicate IsStoredAs(w: Label, l: Label) {
    if |w.key| == |OBJECT_TYPE| && forall i :: 0 <= i < |w.key| ==> LowerChar(w.key[i]) == OBJECT_TYPE[i]
    then l.key == OBJECT_TYPE && |l.value| == |w.value| && forall i :: 0 <= i < |w.value| ==> l.value[i] == LowerChar(w.value[i])
    else l == w
  }

  /** A stored label stays if it is wanted or a consumer label; a wanted one that was not stored is created, unless it is one. */
  ghost predicate LabelsReplaced(existing: set<Label>, wanted: set<Label>, r: set<Label>) {
    forall l :: l in r <==>
      || (l in existing && (l in wanted || l.key == CONSUMER))
      || exists w :: w in wanted && w !in existing && w.key != CONSUMER && IsStoredAs(w, l)
  }

  ghost predicate UserRelabelled(s: State, d: nat, wanted: set<Label>, r: State) {
    && r.names == s.names && r.edges == s.edges && r.labels.Keys == s.labels.Keys
    && (forall p :: p in s.labels && p in r.labels && p != d ==> r.labels[p] == s.labels[p])
    && (d in s.labels && d in r.labels ==> LabelsReplaced(s.labels[d], wanted, r.labels[d]))
  }

  lemma {:induction false} PairsOfInOrder(children: set<nat>, parent: nat, n: nat)
    ensures InStorageOrder(PairsOf(children, parent, n))
  {
    if n > 0 {
      PairsOfInOrder(children, parent, n - 1);
      forall e | e in PairsOf(children, parent, n - 1) ensures e.0 < n - 1 && e.1 == parent {}
    }
  }

  lemma JoinedInOrder(a: seq<Edge>, b: seq<Edge>, n: nat)
    requires InStorageOrder(a) && InStorageOrder(b)
    requires (forall e :: e in a ==> e.1 < n) && forall e :: e in b ==> e.1 == n
    ensures InStorageOrder(a + b)
  {
    forall j, k | 0 <= j < |a| && |a| <= k < |a + b| ensures (a + b)[j].1 < (a + b)[k].1 {
      assert a[j] in a && b[k - |a|] in b;
    }
  }

  lemma {:induction false} PairsInOrder(children: set<nat>, parents: set<nat>, size: nat, n: nat)
    ensures InStorageOrder(Pairs(children, parents, size, n))
  {
    if n > 0 {
      PairsInOrder(children, parents, size, n - 1);
      if n - 1 in parents {
        PairsOfInOrder(children, n - 1, size);
        JoinedInOrder(Pairs(children, parents, size, n - 1), PairsOf(children, n - 1, size), n - 1);
      }
    }
  }

  lemma ConsumerLabelsIff(s: State, children: set<nat>, l: Label)
    ensures l in ConsumerLabels(s, children) <==> NamesOneOf(s, children, l)
  {
  }

  lemma AddedIsStored(s: State, children: set<nat>, parents: set<nat>)
    requires WellFormed(s) && IdsOf(s, children) && IdsOf(s, parents)
    ensures BatchAdded(s, children, parents, Added(s, children, parents))
  {
    var r, pairs := Added(s, children, parents), Pairs(children, parents, |s.names|, |s.names|);
    PairsInOrder(children, parents, |s.names|, |s.names|);
    assert r.edges[|s.edges|..] == pairs;
    forall l ensures l in ConsumerLabels(s, children) <==> NamesOneOf(s, children, l) {
      ConsumerLabelsIff(s, children, l);
    }
  }

  lemma {:induction false} WithoutCounts(edges: seq<Edge>, children: set<nat>, parents: set<nat>, e: Edge)
    ensures multiset(Without(edges, children, parents))[e]
         == if e.0 in children && e.1 in parents then 0 else multiset(edges)[e]
  {
    if edges != [] {
      WithoutCounts(edges[..|edges| - 1], children, parents, e);
      assert edges == edges[..|edges| - 1] + [edges[|edges| - 1]];
    }
  }

  lemma {:induction false} WithoutIsPicked(edges: seq<Edge>, children: set<nat>, parents: set<nat>) returns (picks: seq<nat>)
    ensures ArePicked(Without(edges, children, parents), edges, picks)
  {
    if edges == [] {
      picks := [];
    } else {
      var n := |edges| - 1;
      picks := WithoutIsPicked(edges[..n], children, parents);
      picks := PickedOneMore(Without(edges[..n], children, parents), edges, n, picks,
                             !(edges[n].0 in children && edges[n].1 in parents));
    }
  }

  lemma PickedOneMore(some: seq<Edge>, all: seq<Edge>, n: nat, picks: seq<nat>, kept: bool) returns (more: seq<nat>)
    requires |all| == n + 1 && ArePicked(some, all[..n], picks)
    ensures ArePicked(some + if kept then [all[n]] else [], all, more)
  {
    more := picks + if kept then [n] else [];
  }

  lemma DeletedIsStored(s: State, children: set<nat>, parents: set<nat>)
    ensures BatchDeleted(s, children, parents, Deleted(s, children, parents))
  {
    var picks := WithoutIsPicked(s.edges, children, parents);
    forall e { WithoutCounts(s.edges, children, parents, e); }
    forall l ensures l in ConsumerLabels(s, children) <==> NamesOneOf(s, children, l) {
      ConsumerLabelsIff(s, children, l);
    }
  }

  lemma StoredAsIff(w: Label, l: Label)
    ensures l == Stored(w) <==> IsStoredAs(w, l)
  {
    assert Lower(w.key) == OBJECT_TYPE <==>
      |w.key| == |OBJECT_TYPE| && forall i :: 0 <= i < |w.key| ==> LowerChar(w.key[i]) == OBJECT_TYPE[i];
    assert l.value == Lower(w.value) <==>
      |l.value| == |w.value| && forall i :: 0 <= i < |w.value| ==> l.value[i] == LowerChar(w.value[i]);
  }

  lemma RelabelledIsStored(s: State, d: nat, wanted: set<Label>)
    requires d in s.labels
    ensures UserRelabelled(s, d, wanted, Relabelled(s, d, wanted))
  {
    var existing := s.labels[d];
    forall l ensures l in ReplacedLabels(existing, wanted) <==>
      || (l in existing && (l in wanted || l.key == CONSUMER))
      || exists w :: w in wanted && w !in existing && w.key != CONSUMER && IsStoredAs(w, l)
    {
      forall w: Label ensures l == Stored(w) <==> IsStoredAs(w, l) {
        StoredAsIff(w, l);
      }
      if l in ReplacedLabels(existing, wanted) && !(l in existing && (l in wanted || l.key == CONSUMER)) {
        var w :| w in LabelsToCreate(existing, wanted) && l == Stored(w);
      }
      if w :| w in wanted && w !in existing && w.key != CONSUMER && IsStoredAs(w, l) {
        assert w in LabelsToCreate(existing, wanted);
      }
    }
  }

  predicate IsNamed(s: State, ids: set<string>, p: nat) {
    p < |s.names| && s.names[p] in ids
  }

  /** A child of the batch is one of the named parents, or above one. */
  ghost predicate ComesAround(s: State, children: set<nat>, ids: set<string>) {
    exists c: nat, p: nat :: c in children && IsNamed(s, ids, p) && (c == p || Reaches(EdgeSet(s.edges), p, c))
  }

  predicate IsStoredPair(s: State, children: set<nat>, ids: set<string>, e: Edge) {
    e in s.edges && e.0 in children && IsNamed(s, ids, e.1)
  }

  lemma ComesAroundIff(s: State, children: set<nat>, ids: set<string>)
    ensures WouldBeCyclic(s, children, Named(s, ids)) <==> ComesAround(s, children, ids)
  {
    var parents, edges := Named(s, ids), EdgeSet(s.edges);
    if WouldBeCyclic(s, children, parents) {
      var c :| c in children && c in parents + Above(edges, parents);
      var p :| p in parents && (c == p || Reaches(edges, p, c));
      assert IsNamed(s, ids, p);
    }
    if ComesAround(s, children, ids) {
      var c: nat, p: nat :| c in children && IsNamed(s, ids, p) && (c == p || Reaches(edges, p, c));
      assert p in parents;
      if c != p {
        ReachedIsTarget(edges, p, c);
      }
      assert c in parents + Above(edges, parents);
    }
  }

  lemma IsStoredPairIff(s: State, children: set<nat>, ids: set<string>)
    ensures AlreadyStored(s, children, Named(s, ids)) <==> exists e :: IsStoredPair(s, children, ids, e)
  {
    var parents := Named(s, ids);
    if AlreadyStored(s, children, parents) {
      var p :| p in parents && StoredPair(s, children, p);
      var c :| c in children && (c, p) in s.edges;
      assert IsStoredPair(s, children, ids, (c, p));
    }
    if e :| IsStoredPair(s, children, ids, e) {
      assert e == (e.0, e.1) && e.1 in parents;
      assert StoredPair(s, children, e.1);
    }
  }

  lemma MissingIff(s: State, ids: set<string>)
    ensures MissingNames(s, ids) != {} <==> exists n :: n in ids && n !in s.names
  {
    if n :| n in ids && n !in s.names {
      assert n in MissingNames(s, ids);
    }
    if n :| n in MissingNames(s, ids) {
      assert n in ids && n !in s.names;
    }
  }

  /** What a request to add comes to: unknown parents are reported first, then a cycle, then a pair that is stored already. */
  lemma AddOutcomeIff(s: State, children: set<nat>, parentIds: set<string>)
    ensures var r := AddOutcome(s, children, parentIds);
            if children == {} || parentIds == {} then r == Nothing
            else if exists n :: n in parentIds && n !in s.names
            then r.ParentNotFound? && forall n :: n in r.missing <==> n in parentIds && n !in s.names
            else if ComesAround(s, children, parentIds) then r == Cyclic
            else if exists e :: IsStoredPair(s, children, parentIds, e) then r == Duplicate
            else r == Done
  {
    MissingIff(s, parentIds);
    ComesAroundIff(s, children, parentIds);
    IsStoredPairIff(s, children, parentIds);
  }

  /** The stored graph and labels. An exception in a request leaves them as they were. */
  class LabelStore {
    var state: State

    constructor (initial: State)
      ensures state == initial
    {
      state := initial;
    }

    method AddToGraph(children: set<nat>, parentIds: set<string>) returns (r: Outcome)
      requires Consistent(state) && IdsOf(state, children)
      modifies this
      ensures r == AddOutcome(old(state), children, parentIds)
      ensures state == Apply(old(state), Add(children, parentIds))
      ensures Consistent(state)
      ensures if r.Done? then BatchAdded(old(state), children, Named(old(state), parentIds), state) else state == old(state)
    {
      if children == {} || parentIds == {} {
        return Nothing;
      }
      var parents := Named(state, parentIds);
      var missing := MissingNames(state, parentIds);
      if missing != {} {
        return ParentNotFound(missing);
      }
      var cyclic := ClosesACycle(children, parents);
      if cyclic {
        return Cyclic;
      }
      AddingIsConsistent(state, children, parents);
      AddedIsStored(state, children, parents);
      var duplicate := PutAll(children, parents);
      r := if duplicate then Duplicate else Done;
    }

    method ClosesACycle(children: set<nat>, parents: set<nat>) returns (cyclic: bool)
      requires Consistent(state)
      ensures cyclic <==> WouldBeCyclic(state, children, parents)
    {
      var ancestors := GetDependencies(state.edges, parents);
      cyclic := exists d :: d in children && (d in ancestors || d in parents);
    }

    /** The pairs of one parent; a pair that is already stored raises. */
    method PairsOfParent(children: set<nat>, p: nat) returns (duplicate: bool, pairs: seq<Edge>)
      requires IdsOf(state, children)
      ensures duplicate <==> StoredPair(state, children, p)
      ensures !duplicate ==> pairs == PairsOf(children, p, |state.names|)
    {
      pairs := [];
      for c := 0 to |state.names|
        invariant pairs == PairsOf(children, p, c)
        invariant forall d :: d in children && d < c ==> (d, p) !in state.edges
      {
        if c in children {
          if (c, p) in state.edges {
            return true, pairs;
          }
          pairs := pairs + [(c, p)];
        }
      }
      duplicate := false;
    }

    /** The pairs and labels of one more parent. */
    method PutParent(children: set<nat>, parents: set<nat>, p: nat, added: seq<Edge>, labels: map<nat, set<Label>>)
      returns (duplicate: bool, pairs: seq<Edge>, labelled: map<nat, set<Label>>)
      requires WellFormed(state) && IdsOf(state, children) && p < |state.names|
      requires added == Pairs(children, parents, |state.names|, p)
      requires labels == Extended(state.labels, parents, p, ConsumerLabels(state, children))
      ensures duplicate <==> p in parents && StoredPair(state, children, p)
      ensures !duplicate ==> pairs == Pairs(children, parents, |state.names|, p + 1)
      ensures !duplicate ==> labelled == Extended(state.labels, parents, p + 1, ConsumerLabels(state, children))
    {
      var more := ConsumerLabels(state, children);
      ExtendedOneMore(state.labels, parents, p, more);
      duplicate, pairs, labelled := false, added, labels;
      if p in parents {
        duplicate, pairs := PairsOfParent(children, p);
        pairs, labelled := added + pairs, labels[p := labels[p] + more];
      }
    }

    /** Stores every pair and its label, parent by parent. */
    method PutAll(children: set<nat>, parents: set<nat>) returns (duplicate: bool)
      requires WellFormed(state) && IdsOf(state, children) && IdsOf(state, parents)
      modifies this
      ensures duplicate <==> AlreadyStored(old(state), children, parents)
      ensures duplicate ==> state == old(state)
      ensures !duplicate ==> state == Added(old(state), children, parents)
    {
      var added: seq<Edge> := [];
      var labels := state.labels;
      ExtendedByNone(labels, parents, ConsumerLabels(state, children));
      for p := 0 to |state.names|
        invariant state == old(state)
        invariant added == Pairs(children, parents, |state.names|, p)
        invariant labels == Extended(state.labels, parents, p, ConsumerLabels(state, children))
        invariant forall q: nat :: q in parents && q < p ==> !StoredPair(state, children, q)
      {
        duplicate, added, labels := PutParent(children, parents, p, added, labels);
        if duplicate {
          return;
        }
      }
      state := state.(edges := state.edges + added, labels := labels);
      duplicate := false;
    }

    method DeleteFromGraph(children: set<nat>, parents: set<nat>)
      requires Consistent(state) && IdsOf(state, children) && IdsOf(state, parents)
      modifies this
      ensures state == Deleted(old(state), children, parents) && Consistent(state)
      ensures BatchDeleted(old(state), children, parents, state)
    {
      DeletingIsConsistent(state, children, parents);
      var labels := state.labels;
      for p := 0 to |state.names|
        invariant state == old(state)
        invariant labels.Keys == state.labels.Keys
        invariant forall i :: i in labels ==>
          labels[i] == if i in parents && i < p then state.labels[i] - ConsumerLabels(state, children) else state.labels[i]
      {
        if p in parents {
          labels := labels[p := labels[p] - ConsumerLabels(state, children)];
        }
      }
      state := state.(edges := Without(state.edges, children, parents), labels := labels);
      DeletedIsStored(old(state), children, parents);
    }

    method UpdateResourceLabels(d: nat, wanted: set<Label>)
      requires Consistent(state) && d < |state.names|
      modifies this
      ensures state == Relabelled(old(state), d, wanted) && Consistent(state)
      ensures UserRelabelled(old(state), d, wanted, state)
    {
      RelabelledIsStored(state, d, wanted);
      RelabellingIsConsistent(state, d, wanted);
      var create := LabelsToCreate(state.labels[d], wanted);
      var delete := LabelsToDelete(state.labels[d], wanted);
      var kept := state.labels[d] - delete;
      state := state.(labels := state.labels[d := kept + set l | l in create :: Stored(l)]);
    }
  }
}
