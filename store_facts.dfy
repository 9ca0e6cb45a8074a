/**
 * Properties of the key-path store: reading a path after writing it, what a
 * write leaves alone, which names `getAllKeys` emits, and how `IsSet`,
 * `HasKey` and the typed getter treat what they find.
 */
module StoreFacts {
  import opened Values
  import opened Text
  import opened Store

  // ---------------------------------------------------------------------------
  // getValue after setValue
  // ---------------------------------------------------------------------------

  /** Reading a path just written yields the value written. */
  lemma {:induction false} GetAfterSet(t: Tree, path: seq<string>, value: Value)
    requires |path| >= 1
    ensures Lookup(VMap(SetPath(t, path, value)), path) == value
    decreases |path|
  {
    if |path| > 1 {
      GetAfterSet(Child(t, path[0]), path[1..], value);
    }
  }

  /**
   * A write leaves every path that leaves the written one at some segment
   * `i` as it was: siblings of each node on the path keep their values.
   */
  lemma {:induction false} SetLeavesOtherPaths(t: Tree, p: seq<string>, q: seq<string>, value: Value, i: nat)
    requires i < |p| && i < |q| && p[..i] == q[..i] && p[i] != q[i]
    ensures Lookup(VMap(SetPath(t, p, value)), q) == Lookup(VMap(t), q)
    decreases i
  {
    if i > 0 {
      assert p[0] == p[..i][0] == q[..i][0] == q[0];
      assert p[1..][..i - 1] == p[..i][1..] && q[1..][..i - 1] == q[..i][1..];
      var c := Child(t, p[0]);
      SetLeavesOtherPaths(c, p[1..], q[1..], value, i - 1);
      if !(q[0] in t && t[q[0]].VMap?) {
        assert Lookup(VMap(map[]), q[1..]) == VNull;
      }
    }
  }

  /** `Set` through the manager: `Get` of the same key returns the value. */
  lemma SetThenGet(t: Tree, key: string, value: Value)
    ensures Lookup(VMap(SetPath(t, Split(key, '.'), value)), Split(key, '.')) == value
  {
    GetAfterSet(t, Split(key, '.'), value);
  }

  /** A key without a dot names a top-level entry, which `Set` simply overwrites. */
  lemma SetTopLevel(t: Tree, key: string, value: Value)
    requires '.' !in key
    ensures SetPath(t, Split(key, '.'), value) == t[key := value]
  {
  }

  /** `Set("a.b", v)` on a tree where "a" holds a string replaces the string by a map. */
  lemma SetReplacesScalar()
    ensures SetPath(map["a" := VStr("x")], ["a", "b"], VInt(1, Int)) == map["a" := VMap(map["b" := VInt(1, Int)])]
  {
  }

  // ---------------------------------------------------------------------------
  // IsSet, HasKey, GetInt
  // ---------------------------------------------------------------------------

  /**
   * `IsSet` implies `HasKey`; 0 and false count as set, while "", an empty
   * `[]any` and an empty map do not. The emptiness test is made only for
   * `[]any`, so an empty `[]string` counts as set.
   */
  lemma IsSetCases(v: Value)
    ensures IsSetValue(v) ==> v != VNull
    ensures IsSetValue(VInt(0, Int)) && IsSetValue(VBool(false))
    ensures !IsSetValue(VStr("")) && !IsSetValue(VList([])) && !IsSetValue(VMap(map[]))
    ensures IsSetValue(VStrs([]))
  {
  }

  /** The typed getter returns the stored integer, and the first default when the key is missing or unreadable. */
  lemma GetIntCases(t: Tree, key: string, n: int, d: int)
    requires InSigned(n, Int)
    ensures IntOrDefault(Lookup(VMap(SetPath(t, Split(key, '.'), VInt(n, Int))), Split(key, '.')), []) == n
    ensures IntOrDefault(VNull, [d]) == d && IntOrDefault(VNull, []) == 0
    ensures IntOrDefault(VMap(map[]), [d, 0]) == d
  {
    SetThenGet(t, key, VInt(n, Int));
  }

  // ---------------------------------------------------------------------------
  // getAllKeys
  // ---------------------------------------------------------------------------

  /** Keys are non-empty and dot-free at every level, so dotted names are unambiguous. */
  ghost predicate DotFree(v: Value) {
    v.VMap? ==> forall k | k in v.m :: k != "" && '.' !in k && DotFree(v.m[k])
  }

  /** `p` names an entry of the tree: every segment is a key of the map reached so far. */
  ghost predicate IsNodePath(v: Value, p: seq<string>)
    decreases |p|
  {
    |p| >= 1 && v.VMap? && p[0] in v.m && (|p| == 1 || IsNodePath(v.m[p[0]], p[1..]))
  }

  predicate NonEmptySegments(q: seq<string>) {
    forall i | 0 <= i < |q| :: q[i] != ""
  }

  lemma {:induction false} JoinAppend(q: seq<string>, key: string)
    requires |q| >= 1
    ensures Join(q + [key], '.') == Join(q, '.') + "." + key
  {
    if |q| > 1 {
      assert (q + [key])[1..] == q[1..] + [key];
      JoinAppend(q[1..], key);
    }
  }

  /** The name `getAllKeys` gives a key under the name of the path `q` is the joined path. */
  lemma QualifiedIsJoin(q: seq<string>, key: string)
    requires NonEmptySegments(q)
    ensures Qualified(Join(q, '.'), key) == Join(q + [key], '.')
  {
    if |q| >= 1 {
      JoinAppend(q, key);
      assert |Join(q, '.')| >= |q[0]| by {
        if |q| > 1 {
          assert Join(q, '.') == q[0] + "." + Join(q[1..], '.');
        }
      }
    } else {
      assert q + [key] == [key];
    }
  }

  lemma AppendAssoc(a: seq<string>, b: seq<string>, c: seq<string>)
    ensures a + (b + c) == a + b + c
  {
  }

  lemma ExtendSegments(q: seq<string>, key: string)
    requires NonEmptySegments(q) && key != ""
    ensures NonEmptySegments(q + [key])
  {
    assert forall i | 0 <= i < |q| :: (q + [key])[i] == q[i];
  }

  /** Each name emitted for the keys `ks` is the name of one of them or a name below it. */
  lemma {:induction false} KeysFromWitness(m: Tree, ks: seq<string>, pre: string, k: string) returns (i: nat)
    requires forall j | 0 <= j < |ks| :: ks[j] in m
    requires k in KeysFrom(m, ks, pre)
    ensures i < |ks| && (k == Qualified(pre, ks[i]) || k in AllKeys(m[ks[i]], Qualified(pre, ks[i])))
    decreases |ks|
  {
    var init := ks[..|ks| - 1];
    var last := ks[|ks| - 1];
    var full := Qualified(pre, last);
    assert KeysFrom(m, ks, pre) == KeysFrom(m, init, pre) + [full] + AllKeys(m[last], full);
    if k in KeysFrom(m, init, pre) {
      i := KeysFromWitness(m, init, pre, k);
      assert init[i] == ks[i];
    } else {
      i := |ks| - 1;
    }
  }

  /** The name of each of the keys `ks`, and every name below it, is emitted. */
  lemma {:induction false} KeysFromIncludes(m: Tree, ks: seq<string>, pre: string, i: nat, k: string)
    requires forall j | 0 <= j < |ks| :: ks[j] in m
    requires i < |ks| && (k == Qualified(pre, ks[i]) || k in AllKeys(m[ks[i]], Qualified(pre, ks[i])))
    ensures k in KeysFrom(m, ks, pre)
    decreases |ks|
  {
    var init := ks[..|ks| - 1];
    var last := ks[|ks| - 1];
    var full := Qualified(pre, last);
    assert KeysFrom(m, ks, pre) == KeysFrom(m, init, pre) + [full] + AllKeys(m[last], full);
    if i < |ks| - 1 {
      assert init[i] == ks[i];
      KeysFromIncludes(m, init, pre, i, k);
    } else {
      assert k in [full] + AllKeys(m[last], full);
    }
  }

  /** Each name emitted under the name of `q` continues `q` to an entry. */
  lemma {:induction false} EmittedNameIsPath(v: Value, q: seq<string>, k: string) returns (p: seq<string>)
    requires DotFree(v) && NonEmptySegments(q)
    requires k in AllKeys(v, Join(q, '.'))
    ensures IsNodePath(v, p) && k == Join(q + p, '.')
    decreases v
  {
    var m := v.m;
    var pre := Join(q, '.');
    var ks := SortedKeys(m.Keys);
    var i := KeysFromWitness(m, ks, pre, k);
    var key := ks[i];
    QualifiedIsJoin(q, key);
    if k == Qualified(pre, key) {
      p := [key];
    } else {
      ExtendSegments(q, key);
      var p' := EmittedNameIsPath(m[key], q + [key], k);
      p := [key] + p';
      assert p[1..] == p';
      AppendAssoc(q, [key], p');
    }
  }

  /** The name of every entry below `q` is emitted under the name of `q`. */
  lemma {:induction false} PathNameIsEmitted(v: Value, q: seq<string>, p: seq<string>)
    requires DotFree(v) && NonEmptySegments(q)
    requires IsNodePath(v, p)
    ensures Join(q + p, '.') in AllKeys(v, Join(q, '.'))
    decreases |p|
  {
    var m := v.m;
    var pre := Join(q, '.');
    var ks := SortedKeys(m.Keys);
    var key := p[0];
    var k := Join(q + p, '.');
    assert key in ks;
    var i :| 0 <= i < |ks| && ks[i] == key;
    QualifiedIsJoin(q, key);
    if |p| == 1 {
      assert p == [key];
    } else {
      var p' := p[1..];
      assert p == [key] + p';
      AppendAssoc(q, [key], p');
      ExtendSegments(q, key);
      PathNameIsEmitted(m[key], q + [key], p');
    }
    KeysFromIncludes(m, ks, pre, i, k);
  }

  /** Every segment of an entry's path in a dot-free tree is a non-empty dot-free string. */
  lemma {:induction false} NodePathSegments(v: Value, p: seq<string>)
    requires DotFree(v) && IsNodePath(v, p)
    ensures forall i | 0 <= i < |p| :: '.' !in p[i]
    decreases |p|
  {
    if |p| > 1 {
      NodePathSegments(v.m[p[0]], p[1..]);
      assert forall i | 1 <= i < |p| :: p[i] == p[1..][i - 1];
    }
  }

  /**
   * `GetKeys` of a dot-free tree emits exactly the dotted names of its
   * entries, intermediate maps included, and each name splits back into
   * the path of an entry, the path `Get` walks.
   */
  lemma GetKeysNamesEntries(t: Tree, k: string)
    requires DotFree(VMap(t))
    ensures k in AllKeys(VMap(t), "") <==> exists p :: IsNodePath(VMap(t), p) && k == Join(p, '.')
    ensures k in AllKeys(VMap(t), "") ==> IsNodePath(VMap(t), Split(k, '.'))
  {
    var q: seq<string> := [];
    assert Join(q, '.') == "";
    if k in AllKeys(VMap(t), "") {
      var p := EmittedNameIsPath(VMap(t), q, k);
      assert q + p == p;
      NodePathSegments(VMap(t), p);
      SplitJoin(p, '.');
    }
    if exists p :: IsNodePath(VMap(t), p) && k == Join(p, '.') {
      var p :| IsNodePath(VMap(t), p) && k == Join(p, '.');
      assert q + p == p;
      PathNameIsEmitted(VMap(t), q, p);
    }
  }

  /** The names emitted for keys whose values are not maps are the names of those keys alone. */
  lemma {:induction false} FlatKeysFrom(m: Tree, ks: seq<string>, pre: string)
    requires forall i | 0 <= i < |ks| :: ks[i] in m && !m[ks[i]].VMap?
    ensures |KeysFrom(m, ks, pre)| == |ks|
    decreases |ks|
  {
    if |ks| > 0 {
      FlatKeysFrom(m, ks[..|ks| - 1], pre);
    }
  }

  /** `Size` of a map without nested maps is its number of keys. */
  lemma FlatSize(t: Tree)
    requires forall k | k in t :: !t[k].VMap?
    ensures |AllKeys(VMap(t), "")| == |t|
  {
    FlatKeysFrom(t, SortedKeys(t.Keys), "");
  }
}
