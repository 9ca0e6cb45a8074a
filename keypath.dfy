/**
 * The key-path store of `ConfyImpl`: dotted keys such as "database.host"
 * address a node of the configuration tree, one map level per segment.
 * `Lookup` and `SetPath` state what reading and writing a path do;
 * the class `Confy` holds the tree and follows the Go loops.
 */
module Store {
  import opened Values
  import opened Text
  import Converter

  // ---------------------------------------------------------------------------
  // Reading and writing a path
  // ---------------------------------------------------------------------------

  /**
   * `getValue` from node `v`: each segment selects a key of the current map;
   * a missing key, a nil node or a node that is not a map ends the walk with nil.
   */
  function Lookup(v: Value, path: seq<string>): (r: Value)
    ensures |path| > 0 && !v.VMap? ==> r == VNull
    decreases |path|
  {
    if |path| == 0 then v
    else if v.VMap? then Lookup(if path[0] in v.m then v.m[path[0]] else VNull, path[1..])
    else VNull
  }

  /** The map `setValue` descends into under `k`: the map stored there, or a fresh one. */
  function Child(t: Tree, k: string): Tree {
    if k in t && t[k].VMap? then t[k].m else map[]
  }

  /**
   * `setValue`: the last segment is assigned `value`; on the way down a
   * missing or nil node becomes a fresh map and so does a node that is not
   * a map.
   */
  function SetPath(t: Tree, path: seq<string>, value: Value): (r: Tree)
    requires |path| >= 1
    ensures r.Keys == t.Keys + {path[0]}
    decreases |path|
  {
    if |path| == 1 then t[path[0] := value]
    else t[path[0] := VMap(SetPath(Child(t, path[0]), path[1..], value))]
  }

  /** The map the descent of `setValue` has reached after `i` segments. */
  function Descend(t: Tree, path: seq<string>, i: nat): Tree
    requires i <= |path|
  {
    if i == 0 then t else Child(Descend(t, path, i - 1), path[i - 1])
  }

  /** The maps the descent of `setValue` passes through before segment `i`. */
  function Levels(t: Tree, path: seq<string>, i: nat): (r: seq<Tree>)
    requires i <= |path|
    ensures |r| == i
  {
    if i == 0 then [] else Levels(t, path, i - 1) + [Descend(t, path, i - 1)]
  }

  lemma {:induction false} LevelsAt(t: Tree, path: seq<string>, i: nat, j: nat)
    requires j < i <= |path|
    ensures Levels(t, path, i)[j] == Descend(t, path, j)
  {
    if j < i - 1 {
      LevelsAt(t, path, i - 1, j);
    }
  }

  /** One level of the rebuild that ends `setValue`: the rebuilt child goes back into its parent. */
  lemma SetPathStep(t: Tree, path: seq<string>, i: nat, value: Value, acc: Tree)
    requires 0 < i < |path|
    requires acc == SetPath(Descend(t, path, i), path[i..], value)
    ensures Descend(t, path, i - 1)[path[i - 1] := VMap(acc)] == SetPath(Descend(t, path, i - 1), path[i - 1..], value)
  {
    assert path[i - 1..][1..] == path[i..];
  }

  // ---------------------------------------------------------------------------
  // Introspection
  // ---------------------------------------------------------------------------

  /** `IsSet` on the value found: nil, "", an empty `[]any` and an empty map are not set. */
  predicate IsSetValue(v: Value) {
    match v
    case VNull => false
    case VStr(s) => s != ""
    case VList(items) => |items| > 0
    case VMap(m) => |m| > 0
    case _ => true
  }

  /** The dotted name `getAllKeys` gives `key` under `prefix`. */
  function Qualified(prefix: string, key: string): string {
    if prefix == "" then key else prefix + "." + key
  }

  /**
   * `getAllKeys`: for each key of a map, its dotted name followed by the
   * names below it (pre-order). Go visits the keys in map order; this model
   * visits them in ascending order, one of the orders Go may take.
   */
  function AllKeys(v: Value, prefix: string): seq<string>
    decreases v, 1, 0
  {
    if v.VMap? then KeysFrom(v.m, SortedKeys(v.m.Keys), prefix) else []
  }

  /** The names `getAllKeys` emits for the keys `ks` of `m`, in that order. */
  function KeysFrom(m: Tree, ks: seq<string>, prefix: string): seq<string>
    requires forall i | 0 <= i < |ks| :: ks[i] in m
    decreases VMap(m), 0, |ks|
  {
    if |ks| == 0 then []
    else
      var k := ks[|ks| - 1];
      var full := Qualified(prefix, k);
      KeysFrom(m, ks[..|ks| - 1], prefix) + [full] + AllKeys(m[k], full)
  }

  /** The result of a typed getter (`GetInt`): the first default on a nil value or a failed conversion. */
  function IntOrDefault(v: Value, defaults: seq<int>): (r: int)
    ensures v.VNull? ==> r == (if |defaults| > 0 then defaults[0] else 0)
    ensures InSigned(r, Int) || (|defaults| > 0 && r == defaults[0])
  {
    var fallback := if |defaults| > 0 then defaults[0] else 0;
    if v.VNull? then fallback
    else
      match Converter.ConvertToInt(v, Int)
      case Ok(n) => n
      case Err(_) => fallback
  }

  // ---------------------------------------------------------------------------
  // The configuration manager
  // ---------------------------------------------------------------------------

  /** The data of `ConfyImpl` and the operations of it that read and write paths. */
  class Confy {
    var data: Tree

    constructor()
      ensures data == map[]
    {
      data := map[];
    }

    /** `Get` / `getValue`. */
    method Get(key: string) returns (r: Value)
      ensures r == Lookup(VMap(data), Split(key, '.'))
    {
      var keys := Split(key, '.');
      var current := VMap(data);
      for i := 0 to |keys|
        invariant Lookup(current, keys[i..]) == Lookup(VMap(data), keys)
      {
        assert keys[i..][1..] == keys[i + 1..];
        if current.VNull? {
          return VNull;
        }
        match current {
          case VMap(m) =>
            current := if keys[i] in m then m[keys[i]] else VNull;
          case _ =>
            return VNull;
        }
      }
      assert keys[|keys|..] == [];
      r := current;
    }

    /**
     * `Set` / `setValue`: walk down the path, remembering each map passed,
     * then write the leaf and store every rebuilt map back into its parent.
     */
    method Set(key: string, value: Value)
      modifies this
      ensures data == SetPath(old(data), Split(key, '.'), value)
    {
      var keys := Split(key, '.');
      var n := |keys|;
      var root := data;
      var stack: seq<Tree> := [];
      var current := root;
      for i := 0 to n - 1
        invariant |stack| == i
        invariant stack == Levels(root, keys, i)
        invariant current == Descend(root, keys, i)
      {
        var k := keys[i];
        var next: Tree;
        if k !in current || current[k].VNull? {
          next := map[];
        } else if current[k].VMap? {
          next := current[k].m;
        } else {
          next := map[];
        }
        assert next == Child(current, k);
        stack := stack + [current];
        current := next;
      }
      var acc := current[keys[n - 1] := value];
      assert keys[n - 1..] == [keys[n - 1]];
      var i := n - 1;
      while i > 0
        invariant 0 <= i <= n - 1
        invariant acc == SetPath(Descend(root, keys, i), keys[i..], value)
      {
        SetPathStep(root, keys, i, value, acc);
        LevelsAt(root, keys, n - 1, i - 1);
        acc := stack[i - 1][keys[i - 1] := VMap(acc)];
        i := i - 1;
      }
      assert keys[0..] == keys;
      data := acc;
    }

    /** `HasKey`: the path leads to a non-nil value. */
    method HasKey(key: string) returns (b: bool)
      ensures b <==> Lookup(VMap(data), Split(key, '.')) != VNull
    {
      var v := Get(key);
      b := v != VNull;
    }

    /** `IsSet`. */
    method IsSet(key: string) returns (b: bool)
      ensures b == IsSetValue(Lookup(VMap(data), Split(key, '.')))
    {
      var v := Get(key);
      match v {
        case VNull => b := false;
        case VStr(s) => b := s != "";
        case VList(items) => b := |items| > 0;
        case VMap(m) => b := |m| > 0;
        case _ => b := true;
      }
    }

    /** `GetKeys`. */
    method GetKeys() returns (keys: seq<string>)
      ensures keys == AllKeys(VMap(data), "")
    {
      keys := CollectKeys(VMap(data), "");
    }

    /** `Size`: the number of names `getAllKeys` emits. */
    method Size() returns (n: nat)
      ensures n == |AllKeys(VMap(data), "")|
    {
      var keys := CollectKeys(VMap(data), "");
      n := |keys|;
    }

    /** `GetInt`. */
    method GetInt(key: string, defaults: seq<int>) returns (r: int)
      ensures r == IntOrDefault(Lookup(VMap(data), Split(key, '.')), defaults)
    {
      var v := Get(key);
      if v.VNull? {
        if |defaults| > 0 {
          return defaults[0];
        }
        return 0;
      }
      var c := Converter.ConvertToInt(v, Int);
      if c.Err? {
        if |defaults| > 0 {
          return defaults[0];
        }
        return 0;
      }
      r := c.value;
    }
  }

  /** `getAllKeys`: the loop over one map, recursing into each value. */
  method CollectKeys(data: Value, prefix: string) returns (keys: seq<string>)
    ensures keys == AllKeys(data, prefix)
    decreases data, 1, 0
  {
    keys := [];
    if data.VMap? {
      var m := data.m;
      var ks := SortedKeys(m.Keys);
      for i := 0 to |ks|
        invariant keys == KeysFrom(m, ks[..i], prefix)
      {
        var key := ks[i];
        var fullKey := if prefix != "" then prefix + "." + key else key;
        var nested := CollectKeys(m[key], fullKey);
        assert ks[..i + 1][..i] == ks[..i];
        keys := keys + [fullKey] + nested;
      }
      assert ks[..|ks|] == ks;
    }
  }
}
