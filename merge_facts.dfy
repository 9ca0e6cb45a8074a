/**
 * Properties of the merge engine: what deep copy preserves, how a shared key
 * is resolved, how the in-place, copying and shallow variants relate, and
 * what a left-to-right fold of several maps yields.
 */
module MergeFacts {
  import opened Values
  import opened Merge

  // ---------------------------------------------------------------------------
  // Deep copy
  // ---------------------------------------------------------------------------

  /** A value with no `[]bool` or `[]int64` inside is copied to an equal value. */
  lemma {:induction false} CopyOfNative(v: Value)
    requires Native(v)
    ensures Copy(v) == v
    decreases v, 1
  {
    match v {
      case VMap(m) =>
        CopyTreeOfNative(m);
      case VList(items) =>
        forall i | 0 <= i < |items|
          ensures CopyList(items)[i] == items[i]
        {
          CopyOfNative(items[i]);
        }
        assert CopyList(items) == items;
      case _ =>
    }
  }

  lemma {:induction false} CopyTreeOfNative(m: Tree)
    requires NativeTree(m)
    ensures CopyTree(m) == m
    decreases VMap(m), 0
  {
    forall k | k in m
      ensures CopyTree(m)[k] == m[k]
    {
      CopyOfNative(m[k]);
    }
  }

  /** Copying a copy changes nothing. */
  lemma CopyIdempotent(v: Value)
    ensures Copy(Copy(v)) == Copy(v)
  {
    CopyOfNative(Copy(v));
  }

  lemma CopyTreeIdempotent(m: Tree)
    ensures CopyTree(CopyTree(m)) == CopyTree(m)
  {
    CopyTreeOfNative(CopyTree(m));
  }

  /** The reflective fallback turns a `[]bool` into a `[]any`: the copy is not of the same type. */
  lemma CopyRebuildsBoolSlice()
    ensures Copy(VBools([true, false])) == VList([VBool(true), VBool(false)])
    ensures Copy(VInt64s([7])) == VList([VInt(7, Int64)])
  {
  }

  // ---------------------------------------------------------------------------
  // Deep merge
  // ---------------------------------------------------------------------------

  /** `mergeValues` gives the same result on a value and on its copy. */
  lemma MergeValueOfCopy(x: Value, n: Value)
    ensures MergeValue(Copy(x), n) == MergeValue(x, n)
  {
    if x.VMap? && n.VMap? && !n.VNull? {
      MergeOfCopy(x.m, n.m);
    }
  }

  /** Deep merge reads `existing` through a copy, so copying it first changes nothing. */
  lemma MergeOfCopy(a: Tree, b: Tree)
    ensures MergeTrees(CopyTree(a), b) == MergeTrees(a, b)
  {
    forall k | k in a.Keys + b.Keys
      ensures MergeTrees(CopyTree(a), b)[k] == MergeTrees(a, b)[k]
    {
      if k in a {
        CopyIdempotent(a[k]);
      }
    }
  }

  /**
   * How a key of the result is resolved: a key only in `existing` keeps a
   * copy of its value; an incoming nil is kept as nil; two maps merge
   * recursively; in every other case the incoming value replaces the
   * existing one wholesale.
   */
  lemma MergeTreesAt(e: Tree, n: Tree, k: string)
    ensures k in MergeTrees(e, n) <==> k in e || k in n
    ensures k in e && k !in n ==> MergeTrees(e, n)[k] == Copy(e[k])
    ensures k in n && n[k].VNull? ==> MergeTrees(e, n)[k] == VNull
    ensures k in n && !(k in e && e[k].VMap? && n[k].VMap?) ==> MergeTrees(e, n)[k] == Copy(n[k])
    ensures k in e && k in n && e[k].VMap? && n[k].VMap? ==>
      MergeTrees(e, n)[k] == VMap(MergeTrees(e[k].m, n[k].m))
  {
    if k in e && k in n {
      var x := Copy(e[k]);
      assert MergeTrees(e, n)[k] == MergeValue(x, n[k]);
      if e[k].VMap? && n[k].VMap? {
        assert x.m == CopyTree(e[k].m);
        MergeOfCopy(e[k].m, n[k].m);
      }
    }
  }

  /** Merging an empty map over a map copies it. */
  lemma MergeEmptyOver(a: Tree)
    ensures MergeTrees(a, map[]) == CopyTree(a)
  {
    forall k | k in a
      ensures MergeTrees(a, map[])[k] == CopyTree(a)[k]
    {
      assert MergeTrees(a, map[])[k] == MergedEntry(a, map[], k);
    }
  }

  /** Merging a map over an empty one copies it. */
  lemma MergeOverEmpty(a: Tree)
    ensures MergeTrees(map[], a) == CopyTree(a)
  {
    forall k | k in a
      ensures MergeTrees(map[], a)[k] == CopyTree(a)[k]
    {
      assert MergeTrees(map[], a)[k] == MergedEntry(map[], a, k);
    }
  }

  /** A value merged over its own copy is its copy. */
  lemma {:induction false} MergeValueSelf(n: Value)
    ensures MergeValue(Copy(n), n) == Copy(n)
    decreases n, 1
  {
    if n.VMap? {
      MergeOfCopy(n.m, n.m);
      MergeSelf(n.m);
    }
  }

  /** A map merged over itself is its copy. */
  lemma {:induction false} MergeSelf(a: Tree)
    ensures MergeTrees(a, a) == CopyTree(a)
    decreases VMap(a), 0
  {
    forall k | k in a
      ensures MergeTrees(a, a)[k] == CopyTree(a)[k]
    {
      MergeValueSelf(a[k]);
    }
  }

  /** Merging the same incoming value a second time changes nothing. */
  lemma {:induction false} MergeValueTwice(x: Value, n: Value)
    ensures MergeValue(MergeValue(x, n), n) == MergeValue(x, n)
    decreases n, 1
  {
    if n.VNull? {
    } else if x.VNull? {
      MergeValueSelf(n);
    } else if x.VMap? && n.VMap? {
      MergeIdempotent(x.m, n.m);
    } else {
      MergeValueSelf(n);
    }
  }

  /** Deep merge is idempotent in its incoming map: merging `b` twice is merging it once. */
  lemma {:induction false} MergeIdempotent(a: Tree, b: Tree)
    ensures MergeTrees(MergeTrees(a, b), b) == MergeTrees(a, b)
    decreases VMap(b), 0
  {
    var ab := MergeTrees(a, b);
    forall k | k in ab
      ensures MergeTrees(ab, b)[k] == ab[k]
    {
      CopyOfNative(ab[k]);
      if k in b {
        if k in a {
          MergeValueTwice(Copy(a[k]), b[k]);
        } else {
          MergeValueSelf(b[k]);
        }
      }
    }
  }

  /**
   * Deep merge is not associative: an explicit nil in the middle map replaces
   * the first map's value by nil (the key stays), so the map after it no
   * longer merges with the first.
   */
  lemma NotAssociative()
    ensures
      var a := map["x" := VMap(map["y" := VInt(1, Int)])];
      var b := map["x" := VNull];
      var c := map["x" := VMap(map["z" := VInt(2, Int)])];
      MergeTrees(MergeTrees(a, b), c) != MergeTrees(a, MergeTrees(b, c))
  {
    var a := map["x" := VMap(map["y" := VInt(1, Int)])];
    var b := map["x" := VNull];
    var c := map["x" := VMap(map["z" := VInt(2, Int)])];
    MergeTreesAt(a, b, "x");
    var ab := MergeTrees(a, b);
    assert ab["x"] == VNull;
    MergeTreesAt(ab, c, "x");
    var lhs := MergeTrees(ab, c);
    assert lhs["x"] == Copy(c["x"]);
    assert "y" !in lhs["x"].m;
    MergeTreesAt(b, c, "x");
    var bc := MergeTrees(b, c);
    MergeTreesAt(a, bc, "x");
    var rhs := MergeTrees(a, bc);
    assert rhs["x"] == VMap(MergeTrees(a["x"].m, bc["x"].m));
    assert "y" in rhs["x"].m;
  }

  // ---------------------------------------------------------------------------
  // In-place against copying merge
  // ---------------------------------------------------------------------------

  /** Every value `MergeInPlace` writes is native; values it does not touch stay as they were. */
  lemma MergeIntoNative(e: Tree, n: Tree)
    requires NativeTree(e)
    ensures NativeTree(MergeInto(e, n))
  {
  }

  /** `DeepMerge` returns a deep copy of what `MergeInPlace` leaves in `existing`. */
  lemma DeepMergeCopiesInPlace(e: Tree, n: Tree)
    ensures MergeTrees(e, n) == CopyTree(MergeInto(e, n))
  {
    var inPlace := MergeInto(e, n);
    forall k | k in e.Keys + n.Keys
      ensures MergeTrees(e, n)[k] == CopyTree(inPlace)[k]
    {
      if k in n {
        if k in e {
          CopyOfNative(MergeValue(e[k], n[k]));
          MergeValueOfCopy(e[k], n[k]);
        } else {
          CopyIdempotent(n[k]);
        }
      }
    }
  }

  /** On a map with no `[]bool` or `[]int64` value, the in-place and copying merges agree. */
  lemma InPlaceIsDeepMerge(e: Tree, n: Tree)
    requires NativeTree(e)
    ensures MergeInto(e, n) == MergeTrees(e, n)
  {
    DeepMergeCopiesInPlace(e, n);
    MergeIntoNative(e, n);
    CopyTreeOfNative(MergeInto(e, n));
  }

  /** Otherwise they differ: the copying merge rebuilds an untouched `[]bool`, in place it stays. */
  lemma InPlaceKeepsBoolSlice()
    ensures
      var e := map["flags" := VBools([true])];
      MergeInto(e, map[]) != MergeTrees(e, map[])
  {
    var e := map["flags" := VBools([true])];
    assert MergeInto(e, map[])["flags"] == VBools([true]);
    assert MergeTrees(e, map[])["flags"] == VList([VBool(true)]);
  }

  // ---------------------------------------------------------------------------
  // Shallow overlay
  // ---------------------------------------------------------------------------

  /** When no shared key holds a map on both sides, deep merge is a copy of the overlay. */
  lemma OverlayAgreesWithDeepMerge(e: Tree, n: Tree)
    requires forall k | k in e && k in n :: !(e[k].VMap? && n[k].VMap?)
    ensures MergeTrees(e, n) == CopyTree(Overlay(Some(e), Some(n)))
  {
    forall k | k in e.Keys + n.Keys
      ensures MergeTrees(e, n)[k] == CopyTree(Overlay(Some(e), Some(n)))[k]
    {
      MergeTreesAt(e, n, k);
    }
  }

  /** The overlay does not recurse: a nested map in `new` replaces the whole nested map. */
  lemma OverlayReplacesNestedMaps()
    ensures
      var e := map["db" := VMap(map["host" := VStr("a"), "port" := VInt(1, Int)])];
      var n := map["db" := VMap(map["port" := VInt(2, Int)])];
      && Overlay(Some(e), Some(n))["db"] == VMap(map["port" := VInt(2, Int)])
      && "host" in MergeTrees(e, n)["db"].m
  {
    var e := map["db" := VMap(map["host" := VStr("a"), "port" := VInt(1, Int)])];
    var n := map["db" := VMap(map["port" := VInt(2, Int)])];
    MergeTreesAt(e, n, "db");
  }

  /** Nil maps count as empty, and the overlay is associative (unlike deep merge). */
  lemma OverlayLaws(a: Option<Tree>, b: Option<Tree>, c: Option<Tree>)
    ensures Overlay(None, None) == map[]
    ensures a.Some? ==> Overlay(a, None) == a.value && Overlay(None, a) == a.value
    ensures Overlay(Some(Overlay(a, b)), c) == Overlay(a, Some(Overlay(b, c)))
  {
  }

  // ---------------------------------------------------------------------------
  // MergeMaps
  // ---------------------------------------------------------------------------

  /** The fold only ever holds native values. */
  lemma {:induction false} FoldNative(maps: seq<Option<Tree>>)
    ensures NativeTree(Fold(maps))
  {
    if |maps| > 0 {
      FoldNative(maps[..|maps| - 1]);
    }
  }

  /** Each step of the fold is a deep merge of the accumulated map and the next map. */
  lemma FoldStep(maps: seq<Option<Tree>>, m: Tree)
    ensures Fold(maps + [Some(m)]) == MergeTrees(Fold(maps), m)
    ensures Fold(maps + [None]) == Fold(maps)
  {
    assert (maps + [Some(m)])[..|maps|] == maps;
    assert (maps + [None])[..|maps|] == maps;
    FoldNative(maps);
    InPlaceIsDeepMerge(Fold(maps), m);
  }

  /** `MergeMaps(a)` copies `a`; `MergeMaps(a, b)` is `DeepMerge(a, b)`. */
  lemma FoldOfOneOrTwo(a: Tree, b: Tree)
    ensures Fold([Some(a)]) == CopyTree(a)
    ensures Fold([Some(a), Some(b)]) == MergeTrees(a, b)
  {
    FoldStep([], a);
    MergeOverEmpty(a);
    FoldStep([Some(a)], b);
    MergeOfCopy(a, b);
  }

  /** The keys of the result are the keys of the non-nil maps. */
  lemma {:induction false} FoldKeys(maps: seq<Option<Tree>>, k: string)
    ensures k in Fold(maps) <==> InSomeMap(maps, k)
  {
    if |maps| > 0 {
      var init := maps[..|maps| - 1];
      FoldKeys(init, k);
      if InSomeMap(init, k) {
        var i :| 0 <= i < |init| && init[i].Some? && k in init[i].value;
        assert maps[i] == init[i];
      }
      assert forall j | 0 <= j < |init| :: init[j] == maps[j];
    }
  }

  /**
   * Later maps win: a non-map value that map `i` holds under `k`, and that
   * no later map overrides, is (a copy of) the value of `k` in the result.
   */
  lemma {:induction false} FoldLaterWins(maps: seq<Option<Tree>>, i: nat, k: string)
    requires i < |maps| && maps[i].Some? && k in maps[i].value && !maps[i].value[k].VMap?
    requires forall j | i < j < |maps| :: maps[j].None? || k !in maps[j].value
    ensures k in Fold(maps) && Fold(maps)[k] == Copy(maps[i].value[k])
  {
    var init := maps[..|maps| - 1];
    if i < |maps| - 1 {
      FoldLaterWins(init, i, k);
    } else {
      assert maps[i] == maps[|maps| - 1];
      var acc := Fold(init);
      var m := maps[i].value;
      if k in acc && !m[k].VNull? && !acc[k].VNull? {
        assert MergeInto(acc, m)[k] == MergeValue(acc[k], m[k]);
      }
    }
  }
}
