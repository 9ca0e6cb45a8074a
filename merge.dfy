/**
 * The merge engine of `internal/merge.go`: a right-biased structural merge
 * of configuration trees, its in-place variant, a shallow overlay, a
 * left-to-right fold over several maps, and deep copy.
 *
 * The specification functions (Copy, MergeValue, MergeTrees, MergeInto,
 * Overlay, Fold) state what each operation computes; the methods below them
 * follow the Go code loop by loop and are proved to compute exactly that.
 * A Go map argument that may be nil is an `Option<Tree>`; a map that the
 * code updates in place is a `MapRef`, whose null reference is the nil map.
 */
module Merge {
  import opened Values

  // ---------------------------------------------------------------------------
  // Deep copy
  // ---------------------------------------------------------------------------

  /**
   * No `[]bool` or `[]int64` slice anywhere in the value. Deep copy yields
   * such values and leaves them unchanged.
   */
  predicate Native(v: Value) {
    match v
    case VBools(_) => false
    case VInt64s(_) => false
    case VMap(m) => forall k | k in m :: Native(m[k])
    case VList(items) => forall i | 0 <= i < |items| :: Native(items[i])
    case _ => true
  }

  predicate NativeTree(m: Tree) {
    forall k | k in m :: Native(m[k])
  }

  /**
   * `DeepCopyValue`: maps and `[]any` are copied recursively, `[]string` and
   * `[]int` element by element. Every other type goes through the reflective
   * copy, which returns scalars as they are and rebuilds any other slice
   * (`[]bool`, `[]int64`) as a `[]any` of its elements.
   */
  function Copy(v: Value): (r: Value)
    ensures Native(r)
    ensures r.VNull? <==> v.VNull?
    ensures r.VMap? <==> v.VMap?
    ensures r.VMap? ==> r.m.Keys == v.m.Keys
    decreases v, 1
  {
    match v
    case VMap(m) => VMap(CopyTree(m))
    case VList(items) => VList(CopyList(items))
    case VBools(bs) => VList(seq(|bs|, i requires 0 <= i < |bs| => VBool(bs[i])))
    case VInt64s(xs) => VList(seq(|xs|, i requires 0 <= i < |xs| => VInt(xs[i], Int64)))
    case _ => v
  }

  /** `DeepCopy` of a non-nil map: the same keys, each value copied. */
  function CopyTree(m: Tree): (r: Tree)
    ensures r.Keys == m.Keys
    ensures NativeTree(r)
    decreases VMap(m), 0
  {
    map k | k in m :: Copy(m[k])
  }

  /** `deepCopySlice`: the same length, each element copied. */
  function CopyList(items: seq<Value>): (r: seq<Value>)
    ensures |r| == |items|
    ensures forall i | 0 <= i < |r| :: Native(r[i])
    decreases VList(items), 0
  {
    seq(|items|, i requires 0 <= i < |items| => Copy(items[i]))
  }

  // ---------------------------------------------------------------------------
  // Deep merge
  // ---------------------------------------------------------------------------

  /**
   * `mergeValues`: an incoming nil is kept as an explicit nil, an existing
   * nil takes a copy of the incoming value, two maps are merged
   * recursively, and anything else is replaced by a copy of the incoming value.
   */
  function MergeValue(existing: Value, incoming: Value): (r: Value)
    ensures Native(r)
    ensures r.VNull? <==> incoming.VNull?
    decreases incoming, 2
  {
    if incoming.VNull? then VNull
    else if existing.VNull? then Copy(incoming)
    else if existing.VMap? && incoming.VMap? then VMap(MergeTrees(existing.m, incoming.m))
    else Copy(incoming)
  }

  /** The value `DeepMerge` stores under key `k`, which one of the maps holds. */
  function MergedEntry(existing: Tree, incoming: Tree, k: string): (r: Value)
    requires k in existing || k in incoming
    ensures Native(r)
    decreases VMap(incoming), 0
  {
    if k in incoming then
      if k in existing then MergeValue(Copy(existing[k]), incoming[k]) else Copy(incoming[k])
    else Copy(existing[k])
  }

  /** `DeepMerge` of two non-nil maps. */
  function MergeTrees(existing: Tree, incoming: Tree): (r: Tree)
    ensures r.Keys == existing.Keys + incoming.Keys
    ensures NativeTree(r)
    decreases VMap(incoming), 1
  {
    map k | k in existing.Keys + incoming.Keys :: MergedEntry(existing, incoming, k)
  }

  /** `DeepMerge` with either map possibly nil. */
  function DeepMergeSpec(existing: Option<Tree>, incoming: Option<Tree>): Option<Tree> {
    if existing.None? then
      if incoming.None? then None else Some(CopyTree(incoming.value))
    else if incoming.None? then Some(CopyTree(existing.value))
    else Some(MergeTrees(existing.value, incoming.value))
  }

  // ---------------------------------------------------------------------------
  // In-place merge, shallow overlay, fold
  // ---------------------------------------------------------------------------

  /**
   * What `MergeInPlace` leaves in a non-nil `existing`: untouched values
   * are not copied, and a shared key goes through `mergeValues` on the value
   * stored in place.
   */
  function MergeInto(existing: Tree, incoming: Tree): (r: Tree)
    ensures r.Keys == existing.Keys + incoming.Keys
  {
    map k | k in existing.Keys + incoming.Keys ::
      if k in incoming then
        if k in existing then MergeValue(existing[k], incoming[k]) else Copy(incoming[k])
      else existing[k]
  }

  /** `ShallowMerge`: the top-level keys of `incoming` override those of `existing`; nil counts as empty. */
  function Overlay(existing: Option<Tree>, incoming: Option<Tree>): Tree {
    var e := if existing.Some? then existing.value else map[];
    var n := if incoming.Some? then incoming.value else map[];
    map k | k in e.Keys + n.Keys :: if k in n then n[k] else e[k]
  }

  /** `MergeMaps`: `MergeInPlace` of each non-nil map in turn, into an initially empty map. */
  function Fold(maps: seq<Option<Tree>>): (r: Tree)
    ensures |maps| == 0 ==> r == map[]
  {
    if |maps| == 0 then map[]
    else
      var acc := Fold(maps[..|maps| - 1]);
      var last := maps[|maps| - 1];
      if last.Some? then MergeInto(acc, last.value) else acc
  }

  /** A key of any of the non-nil maps. */
  ghost predicate InSomeMap(maps: seq<Option<Tree>>, k: string) {
    exists i | 0 <= i < |maps| :: maps[i].Some? && k in maps[i].value
  }

  // ---------------------------------------------------------------------------
  // The Go code, operation by operation
  // ---------------------------------------------------------------------------

  /** `DeepCopyValue`. */
  method DeepCopyValue(value: Value) returns (r: Value)
    ensures r == Copy(value)
    decreases value, 1
  {
    match value {
      case VMap(m) =>
        var c := CopyEntries(m);
        r := VMap(c);
      case VList(items) =>
        var c := DeepCopySlice(items);
        r := VList(c);
      case VBools(bs) =>
        r := VList(seq(|bs|, i requires 0 <= i < |bs| => VBool(bs[i])));
      case VInt64s(xs) =>
        r := VList(seq(|xs|, i requires 0 <= i < |xs| => VInt(xs[i], Int64)));
      case _ =>
        r := value;
    }
  }

  /** The loop of `DeepCopy` over a non-nil map, in whatever order the keys come. */
  method CopyEntries(src: Tree) returns (result: Tree)
    ensures result == CopyTree(src)
    decreases VMap(src), 0
  {
    result := map[];
    var todo := src.Keys;
    while todo != {}
      invariant todo <= src.Keys
      invariant result.Keys == src.Keys - todo
      invariant forall k | k in result :: result[k] == Copy(src[k])
      decreases todo
    {
      var key :| key in todo;
      var c := DeepCopyValue(src[key]);
      result := result[key := c];
      todo := todo - {key};
    }
  }

  /** `DeepCopy`: nil stays nil. */
  method DeepCopy(src: Option<Tree>) returns (r: Option<Tree>)
    ensures src.None? ==> r.None?
    ensures src.Some? ==> r == Some(CopyTree(src.value))
  {
    if src.None? {
      return None;
    }
    var c := CopyEntries(src.value);
    r := Some(c);
  }

  /** `deepCopySlice`, filling a fresh slice of the same length. */
  method DeepCopySlice(src: seq<Value>) returns (r: seq<Value>)
    ensures r == CopyList(src)
    decreases VList(src), 0
  {
    var result := new Value[|src|](_ => VNull);
    for i := 0 to |src|
      invariant forall j | 0 <= j < i :: result[j] == Copy(src[j])
    {
      var c := DeepCopyValue(src[i]);
      result[i] := c;
    }
    r := result[..];
  }

  /** `mergeValues`. */
  method MergeValues(existing: Value, incoming: Value) returns (r: Value)
    ensures r == MergeValue(existing, incoming)
    decreases incoming, 2
  {
    if incoming.VNull? {
      return VNull;
    }
    if existing.VNull? {
      r := DeepCopyValue(incoming);
      return;
    }
    if existing.VMap? && incoming.VMap? {
      var m := MergeEntries(existing.m, incoming.m);
      return VMap(m);
    }
    r := DeepCopyValue(incoming);
  }

  /** The body of `DeepMerge` once both maps are non-nil: copy `existing`, then fold `incoming` in. */
  method MergeEntries(existing: Tree, incoming: Tree) returns (result: Tree)
    ensures result == MergeTrees(existing, incoming)
    decreases VMap(incoming), 1
  {
    result := CopyEntries(existing);
    var todo := incoming.Keys;
    while todo != {}
      invariant todo <= incoming.Keys
      invariant result.Keys == existing.Keys + (incoming.Keys - todo)
      invariant forall k | k in result && (k in todo || k !in incoming) :: result[k] == Copy(existing[k])
      invariant forall k | k in result && k !in todo && k in incoming :: result[k] == MergedEntry(existing, incoming, k)
      decreases todo
    {
      var key :| key in todo;
      var v := MergeEntry(result, existing, incoming, key);
      result := result[key := v];
      todo := todo - {key};
    }
    MergeTreesFromEntries(existing, incoming, result);
  }

  /** A map with the keys of both maps and the entries `MergedEntry` gives is their deep merge. */
  lemma MergeTreesFromEntries(existing: Tree, incoming: Tree, result: Tree)
    requires result.Keys == existing.Keys + incoming.Keys
    requires forall k | k in result :: result[k] == MergedEntry(existing, incoming, k)
    ensures result == MergeTrees(existing, incoming)
  {
  }

  /** One turn of the loop of `DeepMerge`: merge into the copied value, or copy the new one. */
  method MergeEntry(result: Tree, existing: Tree, incoming: Tree, key: string) returns (v: Value)
    requires key in incoming
    requires key in result <==> key in existing
    requires key in result ==> result[key] == Copy(existing[key])
    ensures v == MergedEntry(existing, incoming, key)
    decreases VMap(incoming), 0
  {
    if key in result {
      v := MergeValues(result[key], incoming[key]);
    } else {
      v := DeepCopyValue(incoming[key]);
    }
  }

  /** `DeepMerge`. */
  method DeepMerge(existing: Option<Tree>, incoming: Option<Tree>) returns (r: Option<Tree>)
    ensures existing.None? ==> r == (if incoming.None? then None else Some(CopyTree(incoming.value)))
    ensures existing.Some? && incoming.None? ==> r == Some(CopyTree(existing.value))
    ensures existing.Some? && incoming.Some? ==> r == Some(MergeTrees(existing.value, incoming.value))
  {
    if existing.None? {
      r := DeepCopy(incoming);
      return;
    }
    if incoming.None? {
      r := DeepCopy(existing);
      return;
    }
    var m := MergeEntries(existing.value, incoming.value);
    r := Some(m);
  }

  /** A Go map header: the map that `MergeInPlace` updates for its caller. */
  class MapRef {
    var contents: Tree

    constructor(m: Tree)
      ensures contents == m
    {
      contents := m;
    }
  }

  /** `MergeInPlace`: a nil argument leaves everything as it was. */
  method MergeInPlace(existing: MapRef?, incoming: Option<Tree>)
    modifies existing
    ensures existing != null && incoming.Some? ==>
      existing.contents == MergeInto(old(existing.contents), incoming.value)
    ensures existing != null && incoming.None? ==> existing.contents == old(existing.contents)
  {
    if existing == null || incoming.None? {
      return;
    }
    var n := incoming.value;
    ghost var start := existing.contents;
    var todo := n.Keys;
    while todo != {}
      invariant todo <= n.Keys
      invariant existing.contents.Keys == start.Keys + (n.Keys - todo)
      invariant forall k | k in existing.contents ::
        existing.contents[k] == if k in todo || k !in n then start[k] else MergeInto(start, n)[k]
      decreases todo
    {
      var key :| key in todo;
      if key in existing.contents {
        var v := MergeValues(existing.contents[key], n[key]);
        existing.contents := existing.contents[key := v];
      } else {
        var v := DeepCopyValue(n[key]);
        existing.contents := existing.contents[key := v];
      }
      todo := todo - {key};
    }
    assert forall k | k in existing.contents :: existing.contents[k] == MergeInto(start, n)[k];
  }

  /** `ShallowMerge`: copy the top level of `existing`, then write every entry of `incoming` over it. */
  method ShallowMerge(existing: Option<Tree>, incoming: Option<Tree>) returns (result: Tree)
    ensures result == Overlay(existing, incoming)
  {
    var e := if existing.Some? then existing.value else map[];
    var n := if incoming.Some? then incoming.value else map[];
    result := map[];
    var todo := e.Keys;
    while todo != {}
      invariant todo <= e.Keys
      invariant result.Keys == e.Keys - todo
      invariant forall k | k in result :: result[k] == e[k]
      decreases todo
    {
      var key :| key in todo;
      result := result[key := e[key]];
      todo := todo - {key};
    }
    todo := n.Keys;
    while todo != {}
      invariant todo <= n.Keys
      invariant result.Keys == e.Keys + (n.Keys - todo)
      invariant forall k | k in result :: result[k] == if k in n && k !in todo then n[k] else e[k]
      decreases todo
    {
      var key :| key in todo;
      result := result[key := n[key]];
      todo := todo - {key};
    }
    assert forall k | k in result :: result[k] == Overlay(existing, incoming)[k];
  }

  /** `MergeMaps`: an empty result, then `MergeInPlace` of every non-nil map from left to right. */
  method MergeMaps(maps: seq<Option<Tree>>) returns (r: Tree)
    ensures r == Fold(maps)
  {
    if |maps| == 0 {
      return map[];
    }
    var result := new MapRef(map[]);
    for i := 0 to |maps|
      invariant result.contents == Fold(maps[..i])
    {
      assert maps[..i + 1][..i] == maps[..i];
      if maps[i].Some? {
        MergeInPlace(result, maps[i]);
      }
    }
    assert maps[..|maps|] == maps;
    r := result.contents;
  }
}
