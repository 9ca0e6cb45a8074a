/**
 * The binding loops of `ConfyImpl`: each method walks the fields of a
 * struct one at a time, as the Go code does with `reflect`, and is proved
 * to compute the function of `Binding` that specifies it. A `Target` is the
 * pointer handed to `Bind`; a null `Target` stands for an argument that is
 * not a pointer (a struct value, or nil).
 */
module Binder {
  import opened Values
  import opened Text
  import opened Binding
  import Converter
  import Merge
  import Store

  /** The variable a bind target points to: its kind and its present value. */
  class Target {
    const kind: Kind
    var value: Datum

    /** The present value has the target's type, as a Go variable always does. */
    ghost predicate Valid()
      reads this
    {
      Conforms(kind, value)
    }

    constructor(kind: Kind, value: Datum)
      requires Conforms(kind, value)
      ensures this.kind == kind && this.value == value
      ensures Valid()
    {
      this.kind := kind;
      this.value := value;
    }
  }

  // ---------------------------------------------------------------------------
  // Defaults
  // ---------------------------------------------------------------------------

  /** `applyStructDefaults`. */
  method ApplyStructDefaults(fs: seq<FieldDesc>, vals: seq<Datum>) returns (out: seq<Datum>, err: Option<Error>)
    ensures Written(out, err) == DefaultsFrom(fs, vals, 0)
    decreases KStruct(fs)
  {
    out := vals;
    var i := 0;
    while i < |fs| && i < |out|
      invariant i <= |fs| && |out| == |vals|
      invariant DefaultsFrom(fs, vals, 0) == DefaultsFrom(fs, out, i)
    {
      ghost var before := out;
      ghost var w := DefaultField(fs[i], out[i]);
      assert DefaultsFrom(fs, before, i) ==
        if w.err.Some? then Written(before[i := w.state], w.err) else DefaultsFrom(fs, before[i := w.state], i + 1);
      var f := fs[i];
      var tag := Tag(f, "default");
      if !f.exported {
      } else if tag == "" || tag == "-" {
        if f.kind.KStruct? && out[i].DStruct? {
          var nested, e := ApplyStructDefaults(f.kind.fields, out[i].vals);
          out := out[i := DStruct(nested)];
          if e.Some? {
            return out, e;
          }
        }
      } else if out[i] == Zero(f.kind) {
        var d := DefaultDatum(f.kind, out[i], tag);
        if d.Err? {
          assert before[i := w.state] == out;
          return out, Some(DefaultFailed(f.name, d.error));
        }
        out := out[i := d.value];
      }
      assert w.err.None?;
      assert out == before[i := w.state];
      i := i + 1;
    }
    err := None;
  }

  // ---------------------------------------------------------------------------
  // Plain binding
  // ---------------------------------------------------------------------------

  /** `setFieldValue`. */
  method SetFieldValue(k: Kind, d: Datum, v: Value) returns (out: Datum, err: Option<Error>)
    ensures Written(out, err) == SetField(k, d, v)
    decreases k, 2
  {
    out, err := d, None;
    match k {
      case KSlice(e) =>
        if v.VList? {
          var items := SetSliceValue(e, v.items);
          if items.Ok? {
            out := DSlice(items.value);
          } else {
            err := Some(items.error);
          }
        }
      case KAnyMap =>
        if v.VMap? {
          out, err := SetMapValue(d, v.m);
        }
      case KAny =>
      case KStruct(fs) =>
        if v.VMap? && d.DStruct? {
          var vals, e := BindMapToStruct(fs, d.vals, v.m);
          out, err := DStruct(vals), e;
        }
      case _ =>
        out := SetScalarValue(k, d, v);
    }
  }

  /** The scalar cases of `setFieldValue`: a value that does not convert leaves the field as it is. */
  method SetScalarValue(k: Kind, d: Datum, v: Value) returns (out: Datum)
    requires k.KString? || k.KInt? || k.KDuration? || k.KUint? || k.KBool?
    ensures Written(out, None) == SetField(k, d, v)
  {
    var c: Option<Datum>;
    match k {
      case KString =>
        return DStr(Converter.ToString(v));
      case KInt(ik) =>
        var n := Converter.ConvertToInt(v, Int64);
        c := if n.Ok? then Some(DInt(NarrowSigned(n.value, ik))) else None;
      case KDuration =>
        var n := Converter.ToDuration(v);
        c := if n.Ok? then Some(DInt(Wrap64(n.value))) else None;
      case KUint(uk) =>
        var n := Converter.ConvertToUint(v, Uint64);
        c := if n.Ok? then Some(DUint(NarrowUnsigned(n.value, uk))) else None;
      case KBool =>
        var b := Converter.ToBool(v);
        c := if b.Ok? then Some(DBool(b.value)) else None;
    }
    assert SetField(k, d, v) == Written(if c.Some? then c.value else d, None);
    out := if c.Some? then c.value else d;
  }

  /** `setMapValue` for a `map[string]any` field: each entry is stored; a nil one panics. */
  method SetMapValue(d: Datum, m: Tree) returns (out: Datum, err: Option<Error>)
    ensures Written(out, err) == Binding.SetMapValue(d, m)
  {
    var result: Tree := map[];
    var todo := m.Keys;
    while todo != {}
      invariant todo <= m.Keys
      invariant forall key | key in result :: key in m && m[key] == result[key]
      invariant result.Keys == m.Keys - todo
      invariant forall key | key in m.Keys - todo :: !m[key].VNull?
      decreases todo
    {
      var key :| key in todo;
      if m[key].VNull? {
        return d, Some(Panic);
      }
      result := result[key := m[key]];
      todo := todo - {key};
    }
    assert result == m;
    out, err := DMap(result), None;
  }

  /** `setSliceValue`: a fresh slice of zero elements, filled item by item. */
  method SetSliceValue(e: Kind, items: seq<Value>) returns (r: Result<seq<Datum>>)
    ensures r == SliceFrom(e, items, 0, seq(|items|, _ => Zero(e)))
    decreases KSlice(e), 1
  {
    var out := seq(|items|, _ => Zero(e));
    ghost var start := out;
    for i := 0 to |items|
      invariant |out| == |items|
      invariant SliceFrom(e, items, 0, start) == SliceFrom(e, items, i, out)
    {
      if !items[i].VNull? {
        var x, err := SetFieldValue(e, out[i], items[i]);
        if err.Some? {
          return Err(err.value);
        }
        out := out[i := x];
      }
    }
    r := Ok(out);
  }

  /** `bindMapToStruct`: tag defaults, then each field from the map. */
  method BindMapToStruct(fs: seq<FieldDesc>, vals: seq<Datum>, m: Tree) returns (out: seq<Datum>, err: Option<Error>)
    ensures Written(out, err) == Binding.BindMapToStruct(fs, vals, m)
    decreases KStruct(fs), 1
  {
    out, err := ApplyStructDefaults(fs, vals);
    if err.Some? {
      return;
    }
    ghost var start := out;
    var i := 0;
    while i < |fs| && i < |out|
      invariant i <= |fs| && |out| == |start|
      invariant BindFrom(fs, start, m, 0) == BindFrom(fs, out, m, i)
    {
      var f := fs[i];
      var name := FieldName(f);
      if f.exported && name != "" {
        if name !in m {
          if Tag(f, "required") == "true" {
            return out, Some(RequiredMissing(name));
          }
        } else {
          var x, e := SetFieldValue(f.kind, out[i], m[name]);
          out := out[i := x];
          if e.Some? {
            return out, e;
          }
        }
      }
      i := i + 1;
    }
    err := None;
  }

  /** `bindValue`: a target that is not a pointer is an error. */
  method BindValue(v: Value, target: Target?) returns (err: Option<Error>)
    modifies target
    ensures target == null ==> err == Some(NotPointer)
    ensures target != null ==> Written(target.value, err) == Binding.BindValue(v, target.kind, old(target.value))
    ensures target != null && target.kind.KStruct? && old(target.Valid()) ==> target.Valid()
  {
    if target == null {
      return Some(NotPointer);
    }
    var k := target.kind;
    if !k.KStruct? {
      if v.VNull? {
        return Some(Panic);
      }
      var d := Assign(v, k);
      if d.None? {
        return Some(CannotConvert);
      }
      target.value := d.value;
      return None;
    }
    if v.VMap? && target.value.DStruct? {
      var vals, e := BindMapToStruct(k.fields, target.value.vals, v.m);
      target.value := DStruct(vals);
      return e;
    }
    err := Some(UnsupportedBinding);
  }

  /** `Bind`: the value at the key, bound into the target. */
  method Bind(c: Store.Confy, key: string, target: Target?) returns (err: Option<Error>)
    modifies target
    ensures target == null && DataAt(c.data, key).VNull? ==> err == Some(NoConfiguration(key))
    ensures target == null && !DataAt(c.data, key).VNull? ==> err == Some(NotPointer)
    ensures target != null ==> Written(target.value, err) == Binding.Bind(c.data, key, target.kind, old(target.value))
    ensures target != null && target.kind.KStruct? && old(target.Valid()) ==> target.Valid()
  {
    var data: Value;
    if key == "" {
      data := VMap(c.data);
    } else {
      data := c.Get(key);
    }
    if data.VNull? {
      return Some(NoConfiguration(key));
    }
    err := BindValue(data, target);
  }

  // ---------------------------------------------------------------------------
  // structToMap
  // ---------------------------------------------------------------------------

  /** `structToMap` on a struct value. */
  method StructToMap(fs: seq<FieldDesc>, vals: seq<Datum>, tagName: string) returns (result: Tree)
    ensures result == Binding.StructToMap(fs, vals, tagName)
    decreases KStruct(fs)
  {
    result := map[];
    var i := 0;
    while i < |fs| && i < |vals|
      invariant i <= |fs|
      invariant StructFrom(fs, vals, tagName, 0, map[]) == StructFrom(fs, vals, tagName, i, result)
    {
      var f := fs[i];
      var key := MapKey(f, tagName);
      if f.exported && key.Some? {
        var v: Value;
        if f.kind.KStruct? && vals[i].DStruct? {
          var nested := StructToMap(f.kind.fields, vals[i].vals, tagName);
          v := VMap(nested);
        } else {
          v := ToValue(f.kind, vals[i]);
        }
        assert v == EntryValue(f, vals[i], tagName);
        result := result[key.value := v];
      }
      i := i + 1;
    }
  }

  /** `structToMap` on any argument: a nil pointer and a value that is not a struct are errors. */
  method StructToMapOf(src: Source, tagName: string) returns (r: Result<Tree>)
    ensures r == Binding.StructToMapOf(src, tagName)
  {
    match src {
      case StructValue(fs, vals) =>
        var m := StructToMap(fs, vals, tagName);
        r := Ok(m);
      case StructPointer(fs, vals) =>
        var m := StructToMap(fs, vals, tagName);
        r := Ok(m);
      case NilStructPointer =>
        r := Err(NilPointer);
      case OtherValue(_) =>
        r := Err(NotAStruct);
    }
  }

  // ---------------------------------------------------------------------------
  // Binding with options
  // ---------------------------------------------------------------------------

  /** `deepMergeValues`, with the merge engine's `DeepMerge` for two maps. */
  method DeepMergeValues(dflt: Value, config: Value) returns (r: Value)
    ensures r == Binding.DeepMergeValues(dflt, config)
  {
    if config.VNull? {
      return dflt;
    }
    if dflt.VNull? {
      return config;
    }
    if dflt.VMap? && config.VMap? {
      var merged := Merge.DeepMerge(Some(dflt.m), Some(config.m));
      return VMap(merged.value);
    }
    r := config;
  }

  /** `findMapValueIgnoreCase`, scanning the keys in ascending order. */
  method FindIgnoreCase(m: Tree, name: string) returns (r: Option<Value>)
    ensures r == Find(m, name, true)
  {
    var lower := ToLower(name);
    var ks := SortedKeys(m.Keys);
    for i := 0 to |ks|
      invariant MatchFold(m, ks, lower, 0) == MatchFold(m, ks, lower, i)
    {
      if ToLower(ks[i]) == lower {
        return Some(m[ks[i]]);
      }
    }
    r := None;
  }

  /** `bindMapToStructWithOptions`: the field loop, then the check that every required name was met. */
  method BindMapToStructWithOptions(fs: seq<FieldDesc>, vals: seq<Datum>, m: Tree, opts: BindOptions)
    returns (out: seq<Datum>, err: Option<Error>)
    ensures Written(out, err) == BindOptsFrom(fs, vals, m, opts, 0)
    decreases KStruct(fs), 1
  {
    var found: set<string> := {};
    out := vals;
    var i := 0;
    while i < |fs| && i < |out|
      invariant i <= |fs| && |out| == |vals|
      invariant BindOptsFrom(fs, vals, m, opts, 0) == BindOptsFrom(fs, out, m, opts, i)
      invariant forall r | r in opts.required :: r in found <==> r in FieldNames(fs[..i], opts.tagName)
    {
      var name := FieldNameWithOptions(fs[i], opts.tagName);
      if fs[i].exported && name != "" && name in opts.required {
        found := found + {name};
      }
      FieldNamesStep(fs, i, opts.tagName);
      var e;
      out, e := BindFieldWithOptions(fs, out, m, opts, i);
      if e.Some? {
        return out, e;
      }
      i := i + 1;
    }
    err := MissingRequired(opts, found);
    RequiredCheckOfFound(fs[..i], opts, found);
  }

  lemma FieldNamesStep(fs: seq<FieldDesc>, i: nat, tagName: string)
    requires i < |fs|
    ensures FieldNames(fs[..i + 1], tagName) == FieldNames(fs[..i], tagName) +
      (if fs[i].exported && FieldNameWithOptions(fs[i], tagName) != "" then {FieldNameWithOptions(fs[i], tagName)} else {})
  {
    assert fs[..i + 1][..i] == fs[..i];
  }

  /** One pass of the field loop of `bindMapToStructWithOptions`: field `i` looked up and set. */
  method BindFieldWithOptions(fs: seq<FieldDesc>, vals: seq<Datum>, m: Tree, opts: BindOptions, i: nat)
    returns (out: seq<Datum>, err: Option<Error>)
    requires i < |fs| && i < |vals|
    ensures |out| == |vals|
    ensures err.Some? ==> Written(out, err) == BindOptsFrom(fs, vals, m, opts, i)
    ensures err.None? ==> BindOptsFrom(fs, vals, m, opts, i) == BindOptsFrom(fs, out, m, opts, i + 1)
    decreases KStruct(fs), 0
  {
    out, err := vals, None;
    var f := fs[i];
    var name := FieldNameWithOptions(f, opts.tagName);
    if !f.exported || name == "" {
      return;
    }
    var v: Option<Value>;
    if opts.ignoreCase {
      v := FindIgnoreCase(m, name);
    } else {
      v := if name in m then Some(m[name]) else None;
    }
    assert v == Find(m, name, opts.ignoreCase);
    if v.None? {
      if name in opts.required && opts.errorOnMissing {
        err := Some(RequiredMissing(name));
      }
      return;
    }
    var x, e := SetFieldValueWithDeepMerge(f.kind, vals[i], v.value, opts);
    out, err := vals[i := x], e;
  }

  /** The closing loop: with `ErrorOnMissing`, the first required name not met is the error. */
  method MissingRequired(opts: BindOptions, found: set<string>) returns (err: Option<Error>)
    ensures err == (if !opts.errorOnMissing then None
                    else match FirstMissing(opts.required, found)
                      case Some(name) => Some(RequiredMissing(name))
                      case None => None)
  {
    for j := 0 to |opts.required|
      invariant opts.errorOnMissing ==> FirstMissing(opts.required, found) == FirstMissing(opts.required[j..], found)
    {
      assert opts.required[j..][1..] == opts.required[j + 1..];
      var name := opts.required[j];
      if name !in found && opts.errorOnMissing {
        return Some(RequiredMissing(name));
      }
    }
    err := None;
  }

  /** Any set agreeing with the field names on the required ones gives the same closing check. */
  lemma {:induction false} FirstMissingOnRequired(required: seq<string>, a: set<string>, b: set<string>)
    requires forall r | r in required :: r in a <==> r in b
    ensures FirstMissing(required, a) == FirstMissing(required, b)
    decreases |required|
  {
    if |required| > 0 {
      FirstMissingOnRequired(required[1..], a, b);
    }
  }

  lemma RequiredCheckOfFound(fs: seq<FieldDesc>, opts: BindOptions, found: set<string>)
    requires forall r | r in opts.required :: r in found <==> r in FieldNames(fs, opts.tagName)
    ensures RequiredCheck(fs, opts) ==
      (if !opts.errorOnMissing then None
       else match FirstMissing(opts.required, found)
         case Some(name) => Some(RequiredMissing(name))
         case None => None)
  {
    FirstMissingOnRequired(opts.required, found, FieldNames(fs, opts.tagName));
  }

  /** `setFieldValueWithDeepMerge`. */
  method SetFieldValueWithDeepMerge(k: Kind, d: Datum, v: Value, opts: BindOptions) returns (out: Datum, err: Option<Error>)
    ensures Written(out, err) == SetFieldDeep(k, d, v, opts)
    decreases k, 3
  {
    out, err := d, None;
    match k {
      case KSlice(_) =>
        out, err := SetFieldValue(k, d, v);
      case KAnyMap =>
        if v.VMap? && d.DMap? {
          if opts.deepMerge && d != Zero(k) {
            out, err := MergeMapValue(d, v.m);
          } else {
            out, err := SetMapValue(d, v.m);
          }
        }
      case KAny =>
      case KStruct(fs) =>
        if v.VMap? && d.DStruct? {
          var vals, e;
          if opts.deepMerge && d != Zero(k) {
            vals, e := MergeStructValue(fs, d.vals, v.m, opts);
          } else {
            vals, e := BindMapToStructWithOptions(fs, d.vals, v.m, opts);
          }
          out, err := DStruct(vals), e;
        }
      case _ =>
        out, err := SetScalarWithDeepMerge(k, d, v, opts);
    }
  }

  /** The scalar cases of `setFieldValueWithDeepMerge`: a failed conversion is an error only under `ErrorOnMissing`. */
  method SetScalarWithDeepMerge(k: Kind, d: Datum, v: Value, opts: BindOptions) returns (out: Datum, err: Option<Error>)
    requires k.KString? || k.KInt? || k.KDuration? || k.KUint? || k.KBool?
    ensures Written(out, err) == SetFieldDeep(k, d, v, opts)
  {
    var c: Result<Datum>;
    match k {
      case KString =>
        return DStr(Converter.ToString(v)), None;
      case KInt(ik) =>
        var n := Converter.ConvertToInt(v, Int64);
        c := if n.Ok? then Ok(DInt(NarrowSigned(n.value, ik))) else Err(n.error);
      case KDuration =>
        var n := Converter.ConvertToInt(v, Int64);
        c := if n.Ok? then Ok(DInt(n.value)) else Err(n.error);
      case KUint(uk) =>
        var n := Converter.ConvertToUint(v, Uint64);
        c := if n.Ok? then Ok(DUint(NarrowUnsigned(n.value, uk))) else Err(n.error);
      case KBool =>
        var b := Converter.ToBool(v);
        c := if b.Ok? then Ok(DBool(b.value)) else Err(b.error);
    }
    assert SetFieldDeep(k, d, v, opts) == if c.Ok? then Written(c.value, None) else Failed(d, c.error, opts);
    if c.Ok? {
      out, err := c.value, None;
    } else {
      out, err := d, if opts.errorOnMissing then Some(c.error) else None;
    }
  }

  /** `mergeMapValue` on a non-nil field: the present entries, then the incoming ones over them. */
  method MergeMapValue(d: Datum, m: Tree) returns (out: Datum, err: Option<Error>)
    requires d.DMap?
    ensures Written(out, err) == Binding.MergeMapValue(d, m)
  {
    var merged := d.m;
    var todo := m.Keys;
    while todo != {}
      invariant todo <= m.Keys
      invariant merged.Keys == d.m.Keys + (m.Keys - todo)
      invariant forall key | key in merged :: merged[key] == if key in m.Keys - todo then m[key] else d.m[key]
      invariant forall key | key in m.Keys - todo :: !m[key].VNull?
      decreases todo
    {
      var key :| key in todo;
      if m[key].VNull? {
        return d, Some(Panic);
      }
      merged := merged[key := m[key]];
      todo := todo - {key};
    }
    assert merged == d.m + m;
    out, err := DMap(merged), None;
  }

  /** `mergeStructValue`: the present non-zero fields as a map, merged under the incoming one, bound back. */
  method MergeStructValue(fs: seq<FieldDesc>, vals: seq<Datum>, m: Tree, opts: BindOptions)
    returns (out: seq<Datum>, err: Option<Error>)
    ensures Written(out, err) == Binding.MergeStructValue(fs, vals, m, opts)
    decreases KStruct(fs), 2
  {
    var current: Tree := map[];
    var i := 0;
    while i < |fs| && i < |vals|
      invariant i <= |fs|
      invariant CurrentFrom(fs, vals, opts.tagName, 0, map[]) == CurrentFrom(fs, vals, opts.tagName, i, current)
    {
      var name := FieldNameWithOptions(fs[i], opts.tagName);
      if fs[i].exported && name != "" && vals[i] != Zero(fs[i].kind) {
        current := current[name := ToValue(fs[i].kind, vals[i])];
      }
      i := i + 1;
    }
    var merged := DeepMergeValues(VMap(current), VMap(m));
    out, err := BindMapToStructWithOptions(fs, vals, merged.m, opts);
  }

  /** `bindValueWithOptions`. */
  method BindValueWithOptions(v: Value, target: Target?, dflt: Value, opts: BindOptions) returns (err: Option<Error>)
    modifies target
    ensures target == null ==> err == Some(NotPointer)
    ensures target != null ==> Written(target.value, err) == Binding.BindValueWithOptions(v, target.kind, old(target.value), dflt, opts)
    ensures target != null && target.kind.KStruct? && old(target.Valid()) ==> target.Valid()
  {
    if target == null {
      return Some(NotPointer);
    }
    var k := target.kind;
    if !k.KStruct? {
      err := BindValue(v, target);
      return;
    }
    if !target.value.DStruct? {
      return Some(UnsupportedBinding);
    }
    var vals, e := BindStructWithOptions(k.fields, target.value.vals, v, dflt, opts);
    target.value := DStruct(vals);
    err := e;
  }

  /** The struct case of `bindValueWithOptions`: defaults, then the data merged over the default, then the fields. */
  method BindStructWithOptions(fs: seq<FieldDesc>, vals: seq<Datum>, v: Value, dflt: Value, opts: BindOptions)
    returns (out: seq<Datum>, err: Option<Error>)
    ensures Written(DStruct(out), err) == Binding.BindValueWithOptions(v, KStruct(fs), DStruct(vals), dflt, opts)
  {
    var e;
    out, e := ApplyStructDefaults(fs, vals);
    if e.Some? {
      return out, e;
    }
    var data := v;
    if dflt.VMap? && opts.deepMerge {
      data := DeepMergeValues(dflt, v);
    }
    if !data.VMap? {
      return out, Some(UnsupportedBinding);
    }
    out, err := BindMapToStructWithOptions(fs, out, data.m, opts);
  }

  /** `BindWithOptions`: a struct default is flattened first; a missing value falls back to the default or to an empty map. */
  method BindWithOptions(c: Store.Confy, key: string, target: Target?, opts: BindOptions) returns (err: Option<Error>)
    modifies target
    ensures target == null && DataAt(c.data, key).VNull? && DefaultAsValue(opts.defaultValue, opts.tagName).VNull? && !opts.useDefaults && opts.errorOnMissing
      ==> err == Some(NoConfiguration(key))
    ensures target == null && !(DataAt(c.data, key).VNull? && DefaultAsValue(opts.defaultValue, opts.tagName).VNull? && !opts.useDefaults && opts.errorOnMissing)
      ==> err == Some(NotPointer)
    ensures target != null ==> Written(target.value, err) == Binding.BindWithOptions(c.data, key, target.kind, old(target.value), opts)
    ensures target != null && target.kind.KStruct? && old(target.Valid()) ==> target.Valid()
  {
    var data: Value;
    if key == "" {
      data := VMap(c.data);
    } else {
      data := c.Get(key);
    }
    var dflt: Value;
    match opts.defaultValue {
      case StructValue(fs, vals) =>
        var m := StructToMap(fs, vals, opts.tagName);
        dflt := VMap(m);
      case StructPointer(fs, vals) =>
        var m := StructToMap(fs, vals, opts.tagName);
        dflt := VMap(m);
      case NilStructPointer =>
        dflt := VOpaque("*struct", "<nil>");
      case OtherValue(x) =>
        dflt := x;
    }
    if data.VNull? {
      if !dflt.VNull? {
        data := dflt;
      } else if opts.useDefaults {
        data := VMap(map[]);
      } else if opts.errorOnMissing {
        return Some(NoConfiguration(key));
      } else {
        data := VMap(map[]);
      }
    }
    err := BindValueWithOptions(data, target, dflt, opts);
  }

  /** `BindWithDefault`: `BindWithOptions` with a default, tag defaults on, yaml names and deep merge. */
  method BindWithDefault(c: Store.Confy, key: string, target: Target?, defaultValue: Source) returns (err: Option<Error>)
    modifies target
    ensures target == null ==> err == Some(NotPointer)
    ensures target != null ==> Written(target.value, err) == Binding.BindWithOptions(c.data, key, target.kind, old(target.value), WithDefault(defaultValue))
    ensures target != null && target.kind.KStruct? && old(target.Valid()) ==> target.Valid()
  {
    err := BindWithOptions(c, key, target, WithDefault(defaultValue));
  }
}
