/**
 * The binding engine of `ConfyImpl`: copying a configuration subtree into a
 * Go struct. Reflection is replaced by a descriptor table: a struct type is
 * the sequence of its fields (`FieldDesc`: Go name, struct tags, whether it
 * is exported, its kind), and a struct value is the sequence of its field
 * values (`Datum`), one per descriptor.
 *
 * Every binding operation may fail half-way; Go has by then already written
 * the fields before the failing one. A `Written` pairs the state reached with
 * the error, so partial writes are part of the model.
 *
 * The functions here specify the operations; `Binder` holds the loops.
 */
module Binding {
  import opened Values
  import opened Text
  import opened Durations
  import Converter
  import Merge
  import Store

  // ---------------------------------------------------------------------------
  // Types, values, descriptors
  // ---------------------------------------------------------------------------

  /**
   * The kinds of field the binder distinguishes: strings, signed integers of
   * each width, `time.Duration` (an `int64` that the plain binder converts
   * specially), unsigned integers, bool, slices, `map[string]any`, `any`, and
   * nested structs.
   */
  datatype Kind =
    | KString
    | KInt(ik: IntKind)
    | KDuration
    | KUint(uk: UintKind)
    | KBool
    | KSlice(elem: Kind)
    | KAnyMap
    | KAny
    | KStruct(fields: seq<FieldDesc>)

  /** A struct field: its Go name, its tags (`Tag.Get` yields "" for a missing key), whether it is exported, its kind. */
  datatype FieldDesc = FieldDesc(name: string, tags: map<string, string>, exported: bool, kind: Kind)

  /** The value held by a field of a given kind (see `Conforms`). */
  datatype Datum =
    | DStr(s: string)
    | DInt(i: int)
    | DUint(u: nat)
    | DBool(b: bool)
    | DSlice(items: seq<Datum>)
    | DMap(m: Tree)
    | DAny(v: Value)
    | DStruct(vals: seq<Datum>)

  /** The state an operation leaves behind and the error it returns, if any. */
  datatype Written<T> = Written(state: T, err: Option<Error>)

  /** `StructField.Tag.Get(key)`. */
  function Tag(f: FieldDesc, key: string): string {
    if key in f.tags then f.tags[key] else ""
  }

  /** The datum fits the kind: the right constructor, integers within the width, a struct with one value per field. */
  predicate Conforms(k: Kind, d: Datum)
    decreases k
  {
    match k
    case KString => d.DStr?
    case KInt(ik) => d.DInt? && InSigned(d.i, ik)
    case KDuration => d.DInt? && InSigned(d.i, Int64)
    case KUint(uk) => d.DUint? && InUnsigned(d.u, uk)
    case KBool => d.DBool?
    case KSlice(e) => d.DSlice? && forall j | 0 <= j < |d.items| :: Conforms(e, d.items[j])
    case KAnyMap => d.DMap?
    case KAny => d.DAny?
    case KStruct(fs) => d.DStruct? && |d.vals| == |fs| && forall j | 0 <= j < |fs| :: Conforms(fs[j].kind, d.vals[j])
  }

  /** The field values fit the fields of a struct type. */
  predicate ConformsAll(fs: seq<FieldDesc>, vals: seq<Datum>) {
    |vals| == |fs| && forall j | 0 <= j < |fs| :: Conforms(fs[j].kind, vals[j])
  }

  /**
   * The zero value of a kind. A nil slice or map is not told apart from an
   * empty one.
   */
  function Zero(k: Kind): (d: Datum)
    ensures Conforms(k, d)
    decreases k
  {
    match k
    case KString => DStr("")
    case KInt(_) => DInt(0)
    case KDuration => DInt(0)
    case KUint(_) => DUint(0)
    case KBool => DBool(false)
    case KSlice(_) => DSlice([])
    case KAnyMap => DMap(map[])
    case KAny => DAny(VNull)
    case KStruct(fs) => DStruct(ZeroFields(fs))
  }

  function ZeroFields(fs: seq<FieldDesc>): (vals: seq<Datum>)
    ensures ConformsAll(fs, vals)
    decreases KStruct(fs), 0
  {
    seq(|fs|, j requires 0 <= j < |fs| => Zero(fs[j].kind))
  }

  /** `reflect.Value.IsZero`. */
  predicate IsZero(k: Kind, d: Datum) {
    d == Zero(k)
  }

  /** `reflect.Value.Interface()` on a field: the dynamic value Go sees. */
  function ToValue(k: Kind, d: Datum): Value {
    match (k, d)
    case (KString, DStr(s)) => VStr(s)
    case (KInt(ik), DInt(i)) => VInt(i, ik)
    case (KDuration, DInt(i)) => VDur(i)
    case (KUint(uk), DUint(u)) => VUint(u, uk)
    case (KBool, DBool(b)) => VBool(b)
    case (KSlice(e), DSlice(items)) => SliceToValue(e, items)
    case (KAnyMap, DMap(m)) => VMap(m)
    case (KAny, DAny(v)) => v
    case (KStruct(_), _) => VOpaque("struct", "")
    case _ => VNull
  }

  /** A slice as Go's `any`: `[]string`, `[]int`, `[]bool`, `[]int64` and `[]any` have their own shapes. */
  function SliceToValue(e: Kind, items: seq<Datum>): Value {
    match e
    case KString => VStrs(seq(|items|, j requires 0 <= j < |items| => if items[j].DStr? then items[j].s else ""))
    case KInt(Int) => VInts(seq(|items|, j requires 0 <= j < |items| => if items[j].DInt? then items[j].i else 0))
    case KInt(Int64) => VInt64s(seq(|items|, j requires 0 <= j < |items| => if items[j].DInt? then items[j].i else 0))
    case KBool => VBools(seq(|items|, j requires 0 <= j < |items| => items[j].DBool? && items[j].b))
    case KAny => VList(seq(|items|, j requires 0 <= j < |items| => if items[j].DAny? then items[j].v else VNull))
    case _ => VOpaque("slice", "")
  }

  // ---------------------------------------------------------------------------
  // Field names
  // ---------------------------------------------------------------------------

  predicate Usable(tag: string) {
    tag != "" && tag != "-"
  }

  /**
   * `getFieldName`: the first of the yaml, json and config tags that is
   * neither empty nor "-", cut at its first comma; otherwise the Go name.
   * A "-" tag does not skip the field: the next tag is consulted instead.
   */
  function FieldName(f: FieldDesc): string {
    if Usable(Tag(f, "yaml")) then TagName(Tag(f, "yaml"))
    else if Usable(Tag(f, "json")) then TagName(Tag(f, "json"))
    else if Usable(Tag(f, "config")) then TagName(Tag(f, "config"))
    else f.name
  }

  /**
   * `getFieldNameWithOptions`: the tag namespace of the options (yaml when
   * empty) first, then yaml, then json, with the same rule; otherwise the Go
   * name.
   */
  function FieldNameWithOptions(f: FieldDesc, tagName: string): string {
    var t := if tagName == "" then "yaml" else tagName;
    if Usable(Tag(f, t)) then TagName(Tag(f, t))
    else if t != "yaml" && Usable(Tag(f, "yaml")) then TagName(Tag(f, "yaml"))
    else if t != "json" && Usable(Tag(f, "json")) then TagName(Tag(f, "json"))
    else f.name
  }

  /** A tag as `structToMap` reads it: its name up to the first comma, or None when that name is "-". */
  function TagKey(tag: string): Option<string> {
    if TagName(tag) == "-" then None else Some(TagName(tag))
  }

  /**
   * The key `structToMap` gives a field, or None when the field is skipped:
   * the yaml tag, else the json tag, else the Go name; a custom tag
   * namespace (neither yaml nor json) overrides them when the field carries
   * it. A "-" skips the field at either step.
   */
  function MapKey(f: FieldDesc, tagName: string): Option<string> {
    var base :=
      if Tag(f, "yaml") != "" then TagKey(Tag(f, "yaml"))
      else if Tag(f, "json") != "" then TagKey(Tag(f, "json"))
      else Some(f.name);
    if base.None? then None
    else if tagName != "" && tagName != "yaml" && tagName != "json" && Tag(f, tagName) != "" then TagKey(Tag(f, tagName))
    else base
  }

  // ---------------------------------------------------------------------------
  // structToMap
  // ---------------------------------------------------------------------------

  /**
   * The loop of `structToMap` from field `i` on, adding to `acc`: every
   * exported, unskipped field under its key.
   */
  function StructFrom(fs: seq<FieldDesc>, vals: seq<Datum>, tagName: string, i: nat, acc: Tree): Tree
    requires i <= |fs|
    decreases KStruct(fs), 0, |fs| - i
  {
    if i == |fs| || i >= |vals| then acc
    else if !fs[i].exported || MapKey(fs[i], tagName).None? then StructFrom(fs, vals, tagName, i + 1, acc)
    else StructFrom(fs, vals, tagName, i + 1, acc[MapKey(fs[i], tagName).value := EntryValue(fs[i], vals[i], tagName)])
  }

  /** The value `structToMap` stores for a field: a nested struct as a nested map, anything else as itself. */
  function EntryValue(f: FieldDesc, d: Datum, tagName: string): Value
    decreases f.kind, 1
  {
    if f.kind.KStruct? && d.DStruct? then VMap(StructFrom(f.kind.fields, d.vals, tagName, 0, map[]))
    else ToValue(f.kind, d)
  }

  /** `structToMap` on a struct value. */
  function StructToMap(fs: seq<FieldDesc>, vals: seq<Datum>, tagName: string): Tree {
    StructFrom(fs, vals, tagName, 0, map[])
  }

  /** The argument of `structToMap` (and of a bind default): a struct, a pointer to one, a nil pointer to one, or another value. */
  datatype Source =
    | StructValue(fields: seq<FieldDesc>, vals: seq<Datum>)
    | StructPointer(fields: seq<FieldDesc>, vals: seq<Datum>)
    | NilStructPointer
    | OtherValue(v: Value)

  /** `structToMap`: a nil pointer and a value that is not a struct are errors. */
  function StructToMapOf(src: Source, tagName: string): (r: Result<Tree>)
    ensures r.Err? <==> src.NilStructPointer? || src.OtherValue?
  {
    match src
    case StructValue(fs, vals) => Ok(StructToMap(fs, vals, tagName))
    case StructPointer(fs, vals) => Ok(StructToMap(fs, vals, tagName))
    case NilStructPointer => Err(NilPointer)
    case OtherValue(_) => Err(NotAStruct)
  }

  // ---------------------------------------------------------------------------
  // Struct-tag defaults
  // ---------------------------------------------------------------------------

  /**
   * `setDefaultValue`: the `default` tag read for the kind of the field. A
   * `[]string` default is split at commas and each part trimmed; a nested
   * struct is left as it is; a map, `any` or a slice of another element type
   * has no default.
   */
  function DefaultDatum(k: Kind, d: Datum, tag: string): (r: Result<Datum>)
    ensures Conforms(k, d) && r.Ok? ==> Conforms(k, r.value)
  {
    match k
    case KString => Ok(DStr(tag))
    case KInt(ik) =>
      (match ParseInt(tag)
       case Ok(i) => Ok(DInt(NarrowSigned(i, ik)))
       case Err(_) => Err(InvalidDefault(tag)))
    case KDuration =>
      (match ParseDuration(tag)
       case Ok(ns) => Ok(DInt(ns))
       case Err(_) => Err(InvalidDefault(tag)))
    case KUint(uk) =>
      (match ParseUint(tag)
       case Ok(u) => Ok(DUint(NarrowUnsigned(u, uk)))
       case Err(_) => Err(InvalidDefault(tag)))
    case KBool =>
      (match ParseBool(tag)
       case Ok(b) => Ok(DBool(b))
       case Err(_) => Err(InvalidDefault(tag)))
    case KSlice(e) =>
      if e.KString? then
        var parts := Split(tag, ',');
        Ok(DSlice(seq(|parts|, j requires 0 <= j < |parts| => DStr(TrimSpace(parts[j])))))
      else Err(UnsupportedDefault)
    case KStruct(_) => Ok(d)
    case KAnyMap => Err(UnsupportedDefault)
    case KAny => Err(UnsupportedDefault)
  }

  /**
   * One field of `applyStructDefaults`: an unexported field is skipped; with
   * no usable `default` tag a nested struct gets its own defaults; otherwise
   * the default is applied to a zero field only, and a failure is wrapped
   * with the field's Go name.
   */
  function DefaultField(f: FieldDesc, d: Datum): (r: Written<Datum>)
    ensures Conforms(f.kind, d) ==> Conforms(f.kind, r.state)
    decreases f.kind, 1
  {
    if !f.exported then Written(d, None)
    else
      var tag := Tag(f, "default");
      if !Usable(tag) then
        if f.kind.KStruct? && d.DStruct? then
          var w := DefaultsFrom(f.kind.fields, d.vals, 0);
          Written(DStruct(w.state), w.err)
        else Written(d, None)
      else if !IsZero(f.kind, d) then Written(d, None)
      else match DefaultDatum(f.kind, d, tag)
        case Ok(nd) => Written(nd, None)
        case Err(e) => Written(d, Some(DefaultFailed(f.name, e)))
  }

  /** The loop of `applyStructDefaults` from field `i` on; it stops at the first error. */
  function DefaultsFrom(fs: seq<FieldDesc>, vals: seq<Datum>, i: nat): (r: Written<seq<Datum>>)
    requires i <= |fs|
    ensures |r.state| == |vals|
    ensures ConformsAll(fs, vals) ==> ConformsAll(fs, r.state)
    decreases KStruct(fs), 0, |fs| - i
  {
    if i == |fs| || i >= |vals| then Written(vals, None)
    else
      var w := DefaultField(fs[i], vals[i]);
      if w.err.Some? then Written(vals[i := w.state], w.err)
      else DefaultsFrom(fs, vals[i := w.state], i + 1)
  }

  // ---------------------------------------------------------------------------
  // Plain binding: bindValue, bindMapToStruct, setFieldValue
  // ---------------------------------------------------------------------------

  /** True when some key of the map holds nil: `setMapValue` panics on it (`reflect.ValueOf(nil).Type()`). */
  predicate HasNil(m: Tree) {
    exists k | k in m :: m[k].VNull?
  }

  /**
   * `setFieldValue`: the value converted to the field's kind. A failed
   * scalar conversion leaves the field as it was and is not an error; a
   * slice needs a `[]any`, a map or a struct needs a `map[string]any`, and
   * a value of another shape leaves the field alone.
   */
  function SetField(k: Kind, d: Datum, v: Value): (r: Written<Datum>)
    ensures Conforms(k, d) ==> Conforms(k, r.state)
    decreases k, 2
  {
    match k
    case KString => Written(DStr(Converter.ToString(v)), None)
    case KInt(ik) =>
      (match Converter.ConvertToInt(v, Int64)
       case Ok(i) => Written(DInt(NarrowSigned(i, ik)), None)
       case Err(_) => Written(d, None))
    case KDuration =>
      (match Converter.ToDuration(v)
       case Ok(ns) => Written(DInt(Wrap64(ns)), None)
       case Err(_) => Written(d, None))
    case KUint(uk) =>
      (match Converter.ConvertToUint(v, Uint64)
       case Ok(u) => Written(DUint(NarrowUnsigned(u, uk)), None)
       case Err(_) => Written(d, None))
    case KBool =>
      (match Converter.ToBool(v)
       case Ok(b) => Written(DBool(b), None)
       case Err(_) => Written(d, None))
    case KSlice(e) =>
      if v.VList? then
        match SliceFrom(e, v.items, 0, seq(|v.items|, _ => Zero(e)))
        case Ok(items) => Written(DSlice(items), None)
        case Err(x) => Written(d, Some(x))
      else Written(d, None)
    case KAnyMap => if v.VMap? then SetMapValue(d, v.m) else Written(d, None)
    case KAny => Written(d, None)
    case KStruct(fs) =>
      if v.VMap? && d.DStruct? then
        var w := BindMapToStruct(fs, d.vals, v.m);
        Written(DStruct(w.state), w.err)
      else Written(d, None)
  }

  /** `setMapValue` for a `map[string]any` field: the map itself, unless one of its values is nil. */
  function SetMapValue(d: Datum, m: Tree): (r: Written<Datum>)
    ensures r.err.None? ==> r.state == DMap(m)
    ensures r.err.Some? ==> r.state == d
  {
    if HasNil(m) then Written(d, Some(Panic)) else Written(DMap(m), None)
  }

  /**
   * The loop of `setSliceValue` from element `i` on, filling `out` (a fresh
   * slice of zero elements): nil items stay zero, the others go through
   * `setFieldValue`; the first error abandons the slice.
   */
  function SliceFrom(e: Kind, items: seq<Value>, i: nat, out: seq<Datum>): (r: Result<seq<Datum>>)
    requires i <= |items|
    ensures (forall j | 0 <= j < |out| :: Conforms(e, out[j])) && r.Ok? ==>
      forall j | 0 <= j < |r.value| :: Conforms(e, r.value[j])
    decreases KSlice(e), 1, |items| - i
  {
    if i == |items| || i >= |out| then Ok(out)
    else if items[i].VNull? then SliceFrom(e, items, i + 1, out)
    else
      var w := SetField(e, out[i], items[i]);
      if w.err.Some? then Err(w.err.value)
      else SliceFrom(e, items, i + 1, out[i := w.state])
  }

  /** `bindMapToStruct`: the struct-tag defaults first, then the map entries field by field. */
  function BindMapToStruct(fs: seq<FieldDesc>, vals: seq<Datum>, m: Tree): (r: Written<seq<Datum>>)
    ensures ConformsAll(fs, vals) ==> ConformsAll(fs, r.state)
    decreases KStruct(fs), 1
  {
    var w := DefaultsFrom(fs, vals, 0);
    if w.err.Some? then w else BindFrom(fs, w.state, m, 0)
  }

  /**
   * The field loop of `bindMapToStruct` from field `i` on: unexported fields
   * and fields whose name is "" are skipped; a field missing from the map is
   * an error when tagged `required:"true"` and is left alone otherwise.
   */
  function BindFrom(fs: seq<FieldDesc>, vals: seq<Datum>, m: Tree, i: nat): (r: Written<seq<Datum>>)
    requires i <= |fs|
    ensures |r.state| == |vals|
    ensures ConformsAll(fs, vals) ==> ConformsAll(fs, r.state)
    decreases KStruct(fs), 0, |fs| - i
  {
    if i == |fs| || i >= |vals| then Written(vals, None)
    else if !fs[i].exported || FieldName(fs[i]) == "" then BindFrom(fs, vals, m, i + 1)
    else
      var name := FieldName(fs[i]);
      if name !in m then
        if Tag(fs[i], "required") == "true" then Written(vals, Some(RequiredMissing(name)))
        else BindFrom(fs, vals, m, i + 1)
      else
        var w := SetField(fs[i].kind, vals[i], m[name]);
        if w.err.Some? then Written(vals[i := w.state], w.err)
        else BindFrom(fs, vals[i := w.state], m, i + 1)
  }

  /** Go's `string(rune(x))` for an integer `x`: its code point, or U+FFFD when `x` is not a Unicode scalar value. */
  function RuneString(x: int): string {
    if 0 <= x < 0xD800 || 0xE000 <= x < 0x11_0000 then [x as char] else "�"
  }

  /** The integer a value of integer type holds (its Go type is an integer type or `time.Duration`). */
  function IntegerOf(v: Value): Option<int> {
    match v
    case VInt(i, _) => Some(i)
    case VUint(u, _) => Some(u)
    case VDur(ns) => Some(ns)
    case _ => None
  }

  /**
   * Assignment or conversion of a value to a target that is not a struct
   * (`AssignableTo`, then `ConvertibleTo` and `Convert`): anything goes into
   * `any`; integers convert among all integer kinds by wrapping and into a
   * string as a code point; a string goes into a string, into `[]byte` as
   * its UTF-8 bytes and into `[]rune` as its code points; a bool, a map and
   * a slice go only into their own type. None when neither applies.
   */
  function Assign(v: Value, k: Kind): Option<Datum> {
    match k
    case KAny => Some(DAny(v))
    case KString =>
      if v.VStr? then Some(DStr(v.s))
      else if IntegerOf(v).Some? then Some(DStr(RuneString(IntegerOf(v).value)))
      else None
    case KInt(ik) => if IntegerOf(v).Some? then Some(DInt(NarrowSigned(IntegerOf(v).value, ik))) else None
    case KDuration => if IntegerOf(v).Some? then Some(DInt(NarrowSigned(IntegerOf(v).value, Int64))) else None
    case KUint(uk) => if IntegerOf(v).Some? then Some(DUint(NarrowUnsigned(IntegerOf(v).value, uk))) else None
    case KBool => if v.VBool? then Some(DBool(v.b)) else None
    case KSlice(e) =>
      (match v
       case VStrs(xs) => if e.KString? then Some(DSlice(seq(|xs|, j requires 0 <= j < |xs| => DStr(xs[j])))) else None
       case VInts(xs) => if e == KInt(Int) then Some(DSlice(seq(|xs|, j requires 0 <= j < |xs| => DInt(xs[j])))) else None
       case VInt64s(xs) => if e == KInt(Int64) then Some(DSlice(seq(|xs|, j requires 0 <= j < |xs| => DInt(xs[j])))) else None
       case VBools(xs) => if e.KBool? then Some(DSlice(seq(|xs|, j requires 0 <= j < |xs| => DBool(xs[j])))) else None
       case VList(xs) => if e.KAny? then Some(DSlice(seq(|xs|, j requires 0 <= j < |xs| => DAny(xs[j])))) else None
       case VStr(str) =>
         if e == KUint(Uint8) then
           var bs := Utf8Bytes(str);
           Some(DSlice(seq(|bs|, j requires 0 <= j < |bs| => DUint(bs[j]))))
         else if e == KInt(Int32) then Some(DSlice(seq(|str|, j requires 0 <= j < |str| => DInt(str[j] as int))))
         else None
       case _ => None)
    case KAnyMap => if v.VMap? then Some(DMap(v.m)) else None
    case KStruct(_) => None
  }

  /**
   * `bindValue` into a pointer to a field of kind `k` holding `current`: a
   * target that is not a struct takes the value by assignment or conversion
   * (a nil value panics in `reflect`); a struct needs a map.
   */
  function BindValue(v: Value, k: Kind, current: Datum): (r: Written<Datum>)
    ensures !k.KStruct? && !v.VNull? ==> (r.err.None? <==> Assign(v, k).Some?)
    ensures k.KStruct? && !v.VMap? ==> r == Written(current, Some(UnsupportedBinding))
    ensures k.KStruct? && Conforms(k, current) ==> Conforms(k, r.state)
  {
    if !k.KStruct? then
      if v.VNull? then Written(current, Some(Panic))
      else match Assign(v, k)
        case Some(d) => Written(d, None)
        case None => Written(current, Some(CannotConvert))
    else if v.VMap? && current.DStruct? then
      var w := BindMapToStruct(k.fields, current.vals, v.m);
      Written(DStruct(w.state), w.err)
    else Written(current, Some(UnsupportedBinding))
  }

  /** The value `Bind` and `BindWithOptions` start from: the whole tree for the empty key, else `getValue(key)`. */
  function DataAt(t: Tree, key: string): Value {
    if key == "" then VMap(t) else Store.Lookup(VMap(t), Split(key, '.'))
  }

  /** `Bind`: a key with no value is "no configuration found". */
  function Bind(t: Tree, key: string, k: Kind, current: Datum): (r: Written<Datum>)
    ensures DataAt(t, key).VNull? ==> r == Written(current, Some(NoConfiguration(key)))
    ensures k.KStruct? && Conforms(k, current) ==> Conforms(k, r.state)
  {
    var data := DataAt(t, key);
    if data.VNull? then Written(current, Some(NoConfiguration(key)))
    else BindValue(data, k, current)
  }

  // ---------------------------------------------------------------------------
  // Binding with options
  // ---------------------------------------------------------------------------

  /** `configcore.BindOptions`; a `DefaultValue` of `OtherValue(VNull)` is no default. */
  datatype BindOptions = BindOptions(
    defaultValue: Source,
    useDefaults: bool,
    tagName: string,
    deepMerge: bool,
    errorOnMissing: bool,
    ignoreCase: bool,
    required: seq<string>)

  /** The options `BindWithDefault` passes. */
  function WithDefault(defaultValue: Source): BindOptions {
    BindOptions(defaultValue, true, "yaml", true, false, false, [])
  }

  /**
   * `deepMergeValues`: the default when the configuration value is nil, the
   * configuration value when the default is nil, the deep merge of the two
   * when both are maps, and the configuration value otherwise.
   */
  function DeepMergeValues(dflt: Value, config: Value): (r: Value)
    ensures config.VNull? ==> r == dflt
    ensures !config.VNull? && !(dflt.VMap? && config.VMap?) ==> r == config
    ensures dflt.VMap? && config.VMap? ==> r == VMap(Merge.MergeTrees(dflt.m, config.m))
  {
    if config.VNull? then dflt
    else if dflt.VNull? then config
    else if dflt.VMap? && config.VMap? then VMap(Merge.MergeTrees(dflt.m, config.m))
    else config
  }

  /** The first key of `ks`, from index `i` on, whose lower-case form is `lower`. */
  function MatchFold(m: Tree, ks: seq<string>, lower: string, i: nat): (r: Option<Value>)
    requires i <= |ks|
    requires forall j | 0 <= j < |ks| :: ks[j] in m
    ensures r.Some? ==> exists j | i <= j < |ks| :: ToLower(ks[j]) == lower && r.value == m[ks[j]]
    ensures r.None? ==> forall j | i <= j < |ks| :: ToLower(ks[j]) != lower
    decreases |ks| - i
  {
    if i == |ks| then None
    else if ToLower(ks[i]) == lower then Some(m[ks[i]])
    else MatchFold(m, ks, lower, i + 1)
  }

  /**
   * The map lookup of `bindMapToStructWithOptions`: the exact key, or with
   * `IgnoreCase` a key equal to it in lower case (`findMapValueIgnoreCase`;
   * when several keys qualify this model takes the least of them).
   */
  function Find(m: Tree, name: string, ignoreCase: bool): Option<Value> {
    if !ignoreCase then (if name in m then Some(m[name]) else None)
    else MatchFold(m, SortedKeys(m.Keys), ToLower(name), 0)
  }

  /** The names `bindMapToStructWithOptions` marks as found: those of the exported fields, "" aside. */
  function FieldNames(fs: seq<FieldDesc>, tagName: string): set<string> {
    if |fs| == 0 then {}
    else
      var f := fs[|fs| - 1];
      var name := FieldNameWithOptions(f, tagName);
      FieldNames(fs[..|fs| - 1], tagName) + (if f.exported && name != "" then {name} else {})
  }

  /** The first required name that no field carries. */
  function FirstMissing(required: seq<string>, found: set<string>): (r: Option<string>)
    ensures r.Some? ==> r.value in required && r.value !in found
    ensures r.None? ==> forall j | 0 <= j < |required| :: required[j] in found
  {
    if |required| == 0 then None
    else if required[0] !in found then Some(required[0])
    else FirstMissing(required[1..], found)
  }

  /**
   * The closing check of `bindMapToStructWithOptions` over the fields `fs`
   * it went through: with `ErrorOnMissing`, a required name that none of
   * them carries is an error.
   */
  function RequiredCheck(fs: seq<FieldDesc>, opts: BindOptions): Option<Error> {
    if !opts.errorOnMissing then None
    else match FirstMissing(opts.required, FieldNames(fs, opts.tagName))
      case Some(name) => Some(RequiredMissing(name))
      case None => None
  }

  /**
   * The field loop of `bindMapToStructWithOptions` from field `i` on. A field
   * missing from the map is an error only when it is required and
   * `ErrorOnMissing` is set; otherwise it keeps what the defaults gave it.
   */
  function BindOptsFrom(fs: seq<FieldDesc>, vals: seq<Datum>, m: Tree, opts: BindOptions, i: nat): (r: Written<seq<Datum>>)
    requires i <= |fs|
    ensures |r.state| == |vals|
    ensures ConformsAll(fs, vals) ==> ConformsAll(fs, r.state)
    decreases KStruct(fs), 0, |fs| - i
  {
    if i == |fs| || i >= |vals| then Written(vals, RequiredCheck(fs[..i], opts))
    else if !fs[i].exported || FieldNameWithOptions(fs[i], opts.tagName) == "" then BindOptsFrom(fs, vals, m, opts, i + 1)
    else
      var name := FieldNameWithOptions(fs[i], opts.tagName);
      match Find(m, name, opts.ignoreCase)
      case None =>
        if name in opts.required && opts.errorOnMissing then Written(vals, Some(RequiredMissing(name)))
        else BindOptsFrom(fs, vals, m, opts, i + 1)
      case Some(v) =>
        var w := SetFieldDeep(fs[i].kind, vals[i], v, opts);
        if w.err.Some? then Written(vals[i := w.state], w.err)
        else BindOptsFrom(fs, vals[i := w.state], m, opts, i + 1)
  }

  /** A conversion failure of `setFieldValueWithDeepMerge`: ignored unless `ErrorOnMissing` is set. */
  function Failed(d: Datum, e: Error, opts: BindOptions): Written<Datum> {
    Written(d, if opts.errorOnMissing then Some(e) else None)
  }

  /**
   * `setFieldValueWithDeepMerge`: like `setFieldValue`, except that every
   * integer field (a Duration too) goes through `ToInt64`, a failed scalar
   * conversion is an error under `ErrorOnMissing`, and with `DeepMerge` a
   * non-zero map or struct field is merged with the incoming map instead of
   * being replaced.
   */
  function SetFieldDeep(k: Kind, d: Datum, v: Value, opts: BindOptions): (r: Written<Datum>)
    ensures Conforms(k, d) ==> Conforms(k, r.state)
    decreases k, 2
  {
    match k
    case KString => Written(DStr(Converter.ToString(v)), None)
    case KInt(ik) =>
      (match Converter.ConvertToInt(v, Int64)
       case Ok(i) => Written(DInt(NarrowSigned(i, ik)), None)
       case Err(e) => Failed(d, e, opts))
    case KDuration =>
      (match Converter.ConvertToInt(v, Int64)
       case Ok(i) => Written(DInt(i), None)
       case Err(e) => Failed(d, e, opts))
    case KUint(uk) =>
      (match Converter.ConvertToUint(v, Uint64)
       case Ok(u) => Written(DUint(NarrowUnsigned(u, uk)), None)
       case Err(e) => Failed(d, e, opts))
    case KBool =>
      (match Converter.ToBool(v)
       case Ok(b) => Written(DBool(b), None)
       case Err(e) => Failed(d, e, opts))
    case KSlice(e) => SetField(k, d, v)
    case KAnyMap =>
      if v.VMap? && d.DMap? then
        if opts.deepMerge && !IsZero(k, d) then MergeMapValue(d, v.m) else SetMapValue(d, v.m)
      else Written(d, None)
    case KAny => Written(d, None)
    case KStruct(fs) =>
      if v.VMap? && d.DStruct? then
        var w :=
          if opts.deepMerge && !IsZero(k, d) then MergeStructValue(fs, d.vals, v.m, opts)
          else BindOptsFrom(fs, d.vals, v.m, opts, 0);
        Written(DStruct(w.state), w.err)
      else Written(d, None)
  }

  /** `mergeMapValue` on a non-nil `map[string]any` field: the incoming entries over the present ones, unless one of them is nil. */
  function MergeMapValue(d: Datum, m: Tree): (r: Written<Datum>)
    requires d.DMap?
    ensures r.err.None? ==> r.state == DMap(d.m + m)
  {
    if HasNil(m) then Written(d, Some(Panic)) else Written(DMap(d.m + m), None)
  }

  /**
   * The loop of `mergeStructValue` that extracts the present struct as a
   * map: each exported field with a name and a non-zero value, under its name.
   */
  function CurrentFrom(fs: seq<FieldDesc>, vals: seq<Datum>, tagName: string, i: nat, acc: Tree): Tree
    requires i <= |fs|
    decreases |fs| - i
  {
    if i == |fs| || i >= |vals| then acc
    else
      var name := FieldNameWithOptions(fs[i], tagName);
      if fs[i].exported && name != "" && !IsZero(fs[i].kind, vals[i])
      then CurrentFrom(fs, vals, tagName, i + 1, acc[name := ToValue(fs[i].kind, vals[i])])
      else CurrentFrom(fs, vals, tagName, i + 1, acc)
  }

  /**
   * `mergeStructValue`: the present non-zero fields as a map, deep-merged
   * under the incoming map (`deepMergeValues` of two maps), bound back.
   */
  function MergeStructValue(fs: seq<FieldDesc>, vals: seq<Datum>, m: Tree, opts: BindOptions): (r: Written<seq<Datum>>)
    ensures ConformsAll(fs, vals) ==> ConformsAll(fs, r.state)
    decreases KStruct(fs), 1
  {
    var current := CurrentFrom(fs, vals, opts.tagName, 0, map[]);
    BindOptsFrom(fs, vals, Merge.MergeTrees(current, m), opts, 0)
  }

  /**
   * `bindValueWithOptions`: a target that is not a struct is bound as by
   * `bindValue`; a struct gets its tag defaults, then (with `DeepMerge` and a
   * map default) the data deep-merged over the default, then the fields.
   */
  function BindValueWithOptions(v: Value, k: Kind, current: Datum, dflt: Value, opts: BindOptions): (r: Written<Datum>)
    ensures !k.KStruct? ==> r == BindValue(v, k, current)
    ensures k.KStruct? && Conforms(k, current) ==> Conforms(k, r.state)
  {
    if !k.KStruct? then BindValue(v, k, current)
    else if !current.DStruct? then Written(current, Some(UnsupportedBinding))
    else
      var w := DefaultsFrom(k.fields, current.vals, 0);
      if w.err.Some? then Written(DStruct(w.state), w.err)
      else
        var data := if dflt.VMap? && opts.deepMerge then DeepMergeValues(dflt, v) else v;
        if data.VMap? then
          var b := BindOptsFrom(k.fields, w.state, data.m, opts, 0);
          Written(DStruct(b.state), b.err)
        else Written(DStruct(w.state), Some(UnsupportedBinding))
  }

  /**
   * The default of the options as a value: a struct (or a pointer to one) is
   * flattened by `structToMap`; a nil struct pointer stays a non-nil `any`
   * that is not a map.
   */
  function DefaultAsValue(src: Source, tagName: string): Value {
    match src
    case StructValue(fs, vals) => VMap(StructToMap(fs, vals, tagName))
    case StructPointer(fs, vals) => VMap(StructToMap(fs, vals, tagName))
    case NilStructPointer => VOpaque("*struct", "<nil>")
    case OtherValue(v) => v
  }

  /**
   * `BindWithOptions`: when the key has no value the default becomes the
   * data; with no default either, an empty map, or "no configuration found"
   * when `ErrorOnMissing` is set and `UseDefaults` is not.
   */
  function BindWithOptions(t: Tree, key: string, k: Kind, current: Datum, opts: BindOptions): (r: Written<Datum>)
    ensures DataAt(t, key).VNull? && DefaultAsValue(opts.defaultValue, opts.tagName).VNull? && !opts.useDefaults && opts.errorOnMissing
      ==> r == Written(current, Some(NoConfiguration(key)))
    ensures k.KStruct? && Conforms(k, current) ==> Conforms(k, r.state)
  {
    var data := DataAt(t, key);
    var dflt := DefaultAsValue(opts.defaultValue, opts.tagName);
    if !data.VNull? then BindValueWithOptions(data, k, current, dflt, opts)
    else if !dflt.VNull? then BindValueWithOptions(dflt, k, current, dflt, opts)
    else if !opts.useDefaults && opts.errorOnMissing then Written(current, Some(NoConfiguration(key)))
    else BindValueWithOptions(VMap(map[]), k, current, dflt, opts)
  }
}
