/**
  Positions of repeated keys in a list.

  Both the step extractor and the instance-relationship reordering identify an
  entry of a list by its key together with the number of earlier entries that
  carry the same key. This module gives that pairing a name and proves that it
  is a matching between two lists.
 */
module Occurrences {
  import opened Options

  /** Number of entries equal to `x` among the first `i` entries of `s`. */
  function Before<K(==)>(s: seq<K>, i: nat, x: K): (n: nat)
    requires i <= |s|
    ensures n <= i
  {
    if i == 0 then 0 else Before(s, i - 1, x) + (if s[i - 1] == x then 1 else 0)
  }

  function Total<K(==)>(s: seq<K>, x: K): nat {
    Before(s, |s|, x)
  }

  /** Index `i` holds the occurrence of `x` that has exactly `k` earlier ones. */
  predicate IsKth<K(==)>(s: seq<K>, x: K, k: nat, i: nat) {
    i < |s| && s[i] == x && Before(s, i, x) == k
  }

  lemma {:induction false} BeforeMonotone<K>(s: seq<K>, x: K, i: nat, j: nat)
    requires i <= j <= |s|
    ensures Before(s, i, x) <= Before(s, j, x)
    ensures i < j && s[i] == x ==> Before(s, i, x) < Before(s, j, x)
    decreases j - i
  {
    if i < j {
      BeforeMonotone(s, x, i, j - 1);
    }
  }

  lemma {:induction false} BeforeExtensional<K>(s: seq<K>, t: seq<K>, i: nat, x: K)
    requires i <= |s| && i <= |t| && s[..i] == t[..i]
    ensures Before(s, i, x) == Before(t, i, x)
  {
    if i > 0 {
      assert s[..i][i - 1] == s[i - 1] && t[..i][i - 1] == t[i - 1];
      assert s[..i - 1] == s[..i][..i - 1] && t[..i - 1] == t[..i][..i - 1];
      BeforeExtensional(s, t, i - 1, x);
    }
  }

  lemma KthUnique<K>(s: seq<K>, x: K, k: nat, i: nat, j: nat)
    requires IsKth(s, x, k, i) && IsKth(s, x, k, j)
    ensures i == j
  {
    if i < j {
      BeforeMonotone(s, x, i, j);
    } else if j < i {
      BeforeMonotone(s, x, j, i);
    }
  }

  /** The occurrence numbered `k`, searched for among the first `n` entries. */
  function KthWithin<K(==)>(s: seq<K>, x: K, k: nat, n: nat): (r: Option<nat>)
    requires n <= |s|
    ensures r.Some? ==> r.value < n && IsKth(s, x, k, r.value)
    ensures r.Some? <==> k < Before(s, n, x)
  {
    if n == 0 then None
    else if s[n - 1] == x && Before(s, n - 1, x) == k then Some(n - 1)
    else KthWithin(s, x, k, n - 1)
  }

  /** The entry of `t` that carries the same key and occurrence number as `s[i]`. */
  function Match<K(==)>(s: seq<K>, i: nat, t: seq<K>): (r: Option<nat>)
    requires i < |s|
    ensures r.Some? ==> IsKth(t, s[i], Before(s, i, s[i]), r.value)
    ensures r.Some? <==> Before(s, i, s[i]) < Total(t, s[i])
  {
    KthWithin(t, s[i], Before(s, i, s[i]), |t|)
  }

  lemma KthIsFound<K>(s: seq<K>, x: K, k: nat, i: nat)
    requires IsKth(s, x, k, i)
    ensures KthWithin(s, x, k, |s|) == Some(i)
  {
    BeforeMonotone(s, x, i, |s|);
    KthUnique(s, x, k, i, KthWithin(s, x, k, |s|).value);
  }

  /** Matching is a partial bijection: it reads the same from either list. */
  lemma MatchIsSymmetric<K>(s: seq<K>, t: seq<K>, i: nat, j: nat)
    requires i < |s| && j < |t|
    ensures Match(s, i, t) == Some(j) <==> Match(t, j, s) == Some(i)
  {
    if Match(s, i, t) == Some(j) {
      KthIsFound(s, t[j], Before(t, j, t[j]), i);
    }
    if Match(t, j, s) == Some(i) {
      KthIsFound(t, s[i], Before(s, i, s[i]), j);
    }
  }

  lemma MatchIsInjective<K>(s: seq<K>, t: seq<K>, i: nat, i': nat)
    requires i < |s| && i' < |s|
    requires Match(s, i, t).Some? && Match(s, i, t) == Match(s, i', t)
    ensures i == i'
  {
    var j := Match(s, i, t).value;
    MatchIsSymmetric(s, t, i, j);
    MatchIsSymmetric(s, t, i', j);
  }

  lemma MatchSelf<K>(s: seq<K>, i: nat)
    requires i < |s|
    ensures Match(s, i, s) == Some(i)
  {
    KthIsFound(s, s[i], Before(s, i, s[i]), i);
  }

  /** Indices of `s` that have a partner in `t`. */
  function Matched<K(==)>(s: seq<K>, t: seq<K>): set<nat> {
    set i: nat | i < |s| && Match(s, i, t).Some?
  }

  /** Sets in one-to-one correspondence have the same size. */
  lemma {:induction false} InjectionSize(a: set<nat>, b: set<nat>, f: map<nat, nat>)
    requires f.Keys == a
    requires forall x :: x in a ==> f[x] in b
    requires forall x, y :: x in a && y in a && f[x] == f[y] ==> x == y
    ensures |a| <= |b|
    decreases |a|
  {
    if a != {} {
      var x :| x in a;
      InjectionSize(a - {x}, b - {f[x]}, map y | y in a - {x} :: f[y]);
    }
  }

  lemma MatchedNotLarger<K>(s: seq<K>, t: seq<K>)
    ensures |Matched(s, t)| <= |Matched(t, s)|
  {
    var f := map i | i in Matched(s, t) :: Match(s, i, t).value;
    forall i | i in Matched(s, t) ensures f[i] in Matched(t, s) {
      MatchIsSymmetric(s, t, i, f[i]);
    }
    forall i, i' | i in Matched(s, t) && i' in Matched(s, t) && f[i] == f[i'] ensures i == i' {
      MatchIsInjective(s, t, i, i');
    }
    InjectionSize(Matched(s, t), Matched(t, s), f);
  }

  lemma MatchedSameSize<K>(s: seq<K>, t: seq<K>)
    ensures |Matched(s, t)| == |Matched(t, s)|
  {
    MatchedNotLarger(s, t);
    MatchedNotLarger(t, s);
  }

  function Range(n: nat): (r: set<nat>)
    ensures forall i: nat :: i in r <==> i < n
    ensures |r| == n
  {
    if n == 0 then {} else Range(n - 1) + {n - 1}
  }

  /** What is left unmatched on either side accounts for the difference in length. */
  lemma UnmatchedBalance<K>(s: seq<K>, t: seq<K>)
    ensures |s| - |Range(|s|) - Matched(s, t)| == |t| - |Range(|t|) - Matched(t, s)|
  {
    MatchedSameSize(s, t);
    assert Matched(s, t) <= Range(|s|) && Matched(t, s) <= Range(|t|);
  }
}
