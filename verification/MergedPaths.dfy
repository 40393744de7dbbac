/** What the deep merge of two configurations has at a path of keys, read off the two at the same path and on its way. */
module MergedPaths {
  import opened DictMerge

  datatype Entry = Nothing | Here(value: Value) {
    predicate IsMapping() { Here? && value.Mapping? }
  }

  /** What a value has at the end of a path of keys. */
  function At(v: Value, path: seq<string>): Entry {
    if path == [] then Here(v)
    else if v.Mapping? && path[0] in v.entries then At(v.entries[path[0]], path[1..])
    else Nothing
  }

  /** On its way, the second value has nothing, or mappings. */
  predicate LeavesOpen(b: Value, path: seq<string>, n: nat)
    requires n <= |path|
  {
    forall i: nat :: 0 < i <= n ==> At(b, path[..i]) == Nothing || At(b, path[..i]).IsMapping()
  }

  lemma LeavesOpenBelow(b: Value, path: seq<string>, n: nat)
    requires 0 < n <= |path| && b.Mapping? && path[0] in b.entries
    ensures LeavesOpen(b, path, n) <==> b.entries[path[0]].Mapping? && LeavesOpen(b.entries[path[0]], path[1..], n - 1)
  {
    var child := b.entries[path[0]];
    forall i: nat | 0 < i <= n ensures At(b, path[..i]) == At(child, path[1..][..i - 1]) {
      assert path[..i][0] == path[0] && path[..i][1..] == path[1..][..i - 1];
    }
    assert At(b, path[..1]) == Here(child);
    if LeavesOpen(b, path, n) {
      forall i: nat | 0 < i <= n - 1 ensures At(child, path[1..][..i]) == Nothing || At(child, path[1..][..i]).IsMapping() {
        assert At(b, path[..i + 1]) == At(child, path[1..][..i]);
      }
    }
  }

  lemma NothingBelow(b: Value, path: seq<string>, n: nat)
    requires n <= |path| && b.Mapping? && path != [] && path[0] !in b.entries
    ensures LeavesOpen(b, path, n)
  {
    forall i: nat | 0 < i <= n ensures At(b, path[..i]) == Nothing {
      assert path[..i][0] == path[0];
    }
  }

  /** A mapping at a path of the merge comes from either value; one of the first is not overridden on the way. */
  lemma {:induction false} MappingIff(a: Value, b: Value, path: seq<string>)
    requires a.Mapping? && b.Mapping?
    ensures At(DeepMerge(a, b), path).IsMapping() <==>
      At(b, path).IsMapping() || (At(a, path).IsMapping() && LeavesOpen(b, path, |path|))
    decreases b
  {
    if path != [] {
      var k := path[0];
      if k !in b.entries {
        NothingBelow(b, path, |path|);
      } else {
        LeavesOpenBelow(b, path, |path|);
        if k in a.entries && a.entries[k].Mapping? && b.entries[k].Mapping? {
          MappingIff(a.entries[k], b.entries[k], path[1..]);
        } else if k in a.entries && a.entries[k].Scalar? {
          NoMappingIn(a.entries[k], path[1..]);
        }
      }
    }
  }

  lemma NoMappingIn(v: Value, path: seq<string>)
    requires v.Scalar?
    ensures !At(v, path).IsMapping() && (path != [] ==> At(v, path) == Nothing)
  {
  }

  /** A scalar of the merge is the second value's, or one of the first that is neither replaced nor overridden on the way. */
  lemma {:induction false} ScalarIff(a: Value, b: Value, path: seq<string>, x: string)
    requires a.Mapping? && b.Mapping? && path != []
    ensures At(DeepMerge(a, b), path) == Here(Scalar(x)) <==>
      || At(b, path) == Here(Scalar(x))
      || (At(a, path) == Here(Scalar(x)) && At(b, path) == Nothing && LeavesOpen(b, path, |path| - 1))
    decreases b
  {
    var k := path[0];
    if k !in b.entries {
      NothingBelow(b, path, |path| - 1);
    } else {
      if |path| > 1 {
        LeavesOpenBelow(b, path, |path| - 1);
      }
      if k in a.entries && a.entries[k].Mapping? && b.entries[k].Mapping? {
        if |path| > 1 {
          ScalarIff(a.entries[k], b.entries[k], path[1..], x);
        }
      } else if k in a.entries && a.entries[k].Scalar? {
        NoMappingIn(a.entries[k], path[1..]);
      }
    }
  }
}
