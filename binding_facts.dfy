/**
 * Properties of the binding engine: how the two naming rules relate, what
 * the struct-tag defaults do to each field, what the field loop of
 * `bindMapToStruct` leaves in each field, that a struct flattened by
 * `structToMap` binds back to itself, and the order of precedence between
 * tag defaults, a supplied default and the configuration data.
 */
module BindingFacts {
  import opened Values
  import opened Text
  import opened Binding
  import Converter
  import Merge
  import MergeFacts
  import ConverterFacts

  // ---------------------------------------------------------------------------
  // Field names
  // ---------------------------------------------------------------------------

  /** The yaml and json tags, when present, do not name "-", and there is no config tag. */
  predicate PlainTags(f: FieldDesc) {
    TagName(Tag(f, "yaml")) != "-" && TagName(Tag(f, "json")) != "-" && Tag(f, "config") == ""
  }

  /**
   * With plain tags, the name `bindMapToStruct` looks a field up by, the
   * name the options binder uses for the yaml namespace, and the key
   * `structToMap` stores the field under all agree.
   */
  lemma NamesAgree(f: FieldDesc)
    requires PlainTags(f)
    ensures MapKey(f, "") == Some(FieldName(f)) && MapKey(f, "yaml") == Some(FieldName(f))
    ensures FieldNameWithOptions(f, "") == FieldName(f) && FieldNameWithOptions(f, "yaml") == FieldName(f)
  {
    assert TagName("-") == "-";
  }

  /**
   * The two naming rules part ways on "-": `structToMap` skips a field
   * tagged `yaml:"-"`, while `getFieldName` passes over that tag and takes
   * the json one; and a tag "-," names the field "-".
   */
  lemma DashTags()
    ensures var f := FieldDesc("Port", map["yaml" := "-", "json" := "port"], true, KInt(Int));
      FieldName(f) == "port" && MapKey(f, "") == None
    ensures FieldName(FieldDesc("X", map["yaml" := "-,"], true, KString)) == "-"
  {
    assert TagName("port") == "port" && TagName("-") == "-";
    assert IndexOf("-,", ',') == 1;
    assert TagName("-,") == "-";
  }

  // ---------------------------------------------------------------------------
  // Struct-tag defaults
  // ---------------------------------------------------------------------------

  /**
   * The loop of `applyStructDefaults` touches each field once: when it
   * succeeds, the fields before `i` are as they were and every later field
   * holds what `DefaultField` makes of it; it succeeds exactly when every
   * field from `i` on does.
   */
  lemma {:induction false} DefaultsFromAt(fs: seq<FieldDesc>, vals: seq<Datum>, i: nat)
    requires i <= |fs| == |vals|
    ensures |DefaultsFrom(fs, vals, i).state| == |vals|
    ensures DefaultsFrom(fs, vals, i).err.None? <==> forall j | i <= j < |fs| :: DefaultField(fs[j], vals[j]).err.None?
    ensures DefaultsFrom(fs, vals, i).err.None? ==>
      forall j | 0 <= j < |fs| :: DefaultsFrom(fs, vals, i).state[j] == if j < i then vals[j] else DefaultField(fs[j], vals[j]).state
    decreases |fs| - i
  {
    if i < |fs| {
      var w := DefaultField(fs[i], vals[i]);
      if w.err.None? {
        DefaultsFromAt(fs, vals[i := w.state], i + 1);
      }
    }
  }

  /** A field the defaults have been applied to is left as it is by a second application. */
  lemma {:induction false} DefaultFieldIdempotent(f: FieldDesc, d: Datum)
    requires Conforms(f.kind, d) && DefaultField(f, d).err.None?
    ensures DefaultField(f, DefaultField(f, d).state) == DefaultField(f, d)
    decreases f.kind, 1
  {
    var tag := Tag(f, "default");
    if f.exported && !Usable(tag) && f.kind.KStruct? && d.DStruct? {
      DefaultsIdempotent(f.kind.fields, d.vals, 0);
    }
  }

  /**
   * Applying the defaults twice is applying them once. `bindMapToStruct`
   * applies the defaults of a nested struct field when it visits the
   * outer struct and again when it binds that field, so this is what makes
   * the repetition harmless.
   */
  lemma {:induction false} DefaultsIdempotent(fs: seq<FieldDesc>, vals: seq<Datum>, i: nat)
    requires i <= |fs| && ConformsAll(fs, vals)
    requires DefaultsFrom(fs, vals, i).err.None?
    ensures DefaultsFrom(fs, DefaultsFrom(fs, vals, i).state, i) == DefaultsFrom(fs, vals, i)
    decreases KStruct(fs), 0, |fs| - i
  {
    if i < |fs| {
      var w := DefaultField(fs[i], vals[i]);
      var next := vals[i := w.state];
      var s := DefaultsFrom(fs, next, i + 1).state;
      DefaultsFromAt(fs, next, i + 1);
      assert s[i] == w.state;
      DefaultFieldIdempotent(fs[i], vals[i]);
      DefaultsIdempotent(fs, next, i + 1);
      assert s[i := w.state] == s;
    }
  }

  /**
   * After successful defaults, a field that was set (non-zero, not a
   * struct) or unexported keeps its value, and a zero exported string
   * field with a usable `default` tag holds the tag.
   */
  lemma DefaultsKeepSetFields(fs: seq<FieldDesc>, vals: seq<Datum>, j: nat)
    requires |fs| == |vals| && j < |fs|
    requires DefaultsFrom(fs, vals, 0).err.None?
    ensures !fs[j].exported ==> DefaultsFrom(fs, vals, 0).state[j] == vals[j]
    ensures !IsZero(fs[j].kind, vals[j]) && !fs[j].kind.KStruct? ==> DefaultsFrom(fs, vals, 0).state[j] == vals[j]
    ensures fs[j].exported && fs[j].kind.KString? && vals[j] == DStr("") && Usable(Tag(fs[j], "default")) ==>
      DefaultsFrom(fs, vals, 0).state[j] == DStr(Tag(fs[j], "default"))
  {
    DefaultsFromAt(fs, vals, 0);
  }

  // ---------------------------------------------------------------------------
  // The field loop of bindMapToStruct
  // ---------------------------------------------------------------------------

  /** What the field loop of `bindMapToStruct` does to one field. */
  function FieldStep(f: FieldDesc, d: Datum, m: Tree): Written<Datum> {
    var name := FieldName(f);
    if !f.exported || name == "" then Written(d, None)
    else if name in m then SetField(f.kind, d, m[name])
    else Written(d, if Tag(f, "required") == "true" then Some(RequiredMissing(name)) else None)
  }

  /**
   * The field loop of `bindMapToStruct` succeeds exactly when every field
   * from `i` on does, and then every such field holds what its own step
   * makes of it, and the fields before `i` are as they were.
   */
  lemma {:induction false} BindFromAt(fs: seq<FieldDesc>, vals: seq<Datum>, m: Tree, i: nat)
    requires i <= |fs| == |vals|
    ensures |BindFrom(fs, vals, m, i).state| == |vals|
    ensures BindFrom(fs, vals, m, i).err.None? <==> forall j | i <= j < |fs| :: FieldStep(fs[j], vals[j], m).err.None?
    ensures BindFrom(fs, vals, m, i).err.None? ==>
      forall j | 0 <= j < |fs| :: BindFrom(fs, vals, m, i).state[j] == if j < i then vals[j] else FieldStep(fs[j], vals[j], m).state
    decreases |fs| - i
  {
    if i < |fs| {
      var w := FieldStep(fs[i], vals[i], m);
      if w.err.None? {
        BindFromAt(fs, vals[i := w.state], m, i + 1);
        if !fs[i].exported || FieldName(fs[i]) == "" || FieldName(fs[i]) !in m {
          assert vals[i := w.state] == vals;
        }
      }
    }
  }

  /**
   * `bindMapToStruct` reports a missing required field: when the defaults
   * succeed and every field before `j` binds, an exported field tagged
   * `required:"true"` whose name is not in the map is the error.
   */
  lemma RequiredFieldMissing(fs: seq<FieldDesc>, vals: seq<Datum>, m: Tree, j: nat)
    requires |fs| == |vals| && j < |fs|
    requires DefaultsFrom(fs, vals, 0).err.None?
    requires forall l | 0 <= l < j :: FieldStep(fs[l], DefaultsFrom(fs, vals, 0).state[l], m).err.None?
    requires fs[j].exported && FieldName(fs[j]) != "" && FieldName(fs[j]) !in m && Tag(fs[j], "required") == "true"
    ensures BindMapToStruct(fs, vals, m).err == Some(RequiredMissing(FieldName(fs[j])))
  {
    var s := DefaultsFrom(fs, vals, 0).state;
    DefaultsFromAt(fs, vals, 0);
    RequiredStops(fs, s, m, 0, j);
  }

  lemma {:induction false} RequiredStops(fs: seq<FieldDesc>, vals: seq<Datum>, m: Tree, i: nat, j: nat)
    requires i <= j < |fs| == |vals|
    requires forall l | i <= l < j :: FieldStep(fs[l], vals[l], m).err.None?
    requires fs[j].exported && FieldName(fs[j]) != "" && FieldName(fs[j]) !in m && Tag(fs[j], "required") == "true"
    ensures BindFrom(fs, vals, m, i).err == Some(RequiredMissing(FieldName(fs[j])))
    decreases j - i
  {
    if i < j {
      var w := FieldStep(fs[i], vals[i], m);
      var next := vals[i := w.state];
      if !fs[i].exported || FieldName(fs[i]) == "" || FieldName(fs[i]) !in m {
        assert next == vals;
      }
      RequiredStops(fs, next, m, i + 1, j);
    }
  }

  // ---------------------------------------------------------------------------
  // structToMap, and binding its result back
  // ---------------------------------------------------------------------------

  /** No field from `i` on stores an entry under `key`. */
  predicate NoneUnder(fs: seq<FieldDesc>, tagName: string, i: nat, key: string) {
    forall l | i <= l < |fs| :: !(fs[l].exported && MapKey(fs[l], tagName) == Some(key))
  }

  /** A key no remaining field stores is left as the accumulator has it. */
  lemma {:induction false} StructFromKeeps(fs: seq<FieldDesc>, vals: seq<Datum>, tagName: string, i: nat, acc: Tree, key: string)
    requires i <= |fs| == |vals|
    requires NoneUnder(fs, tagName, i, key)
    ensures key in StructFrom(fs, vals, tagName, i, acc) <==> key in acc
    ensures key in acc ==> StructFrom(fs, vals, tagName, i, acc)[key] == acc[key]
    decreases |fs| - i
  {
    if i < |fs| {
      if !fs[i].exported || MapKey(fs[i], tagName).None? {
        StructFromKeeps(fs, vals, tagName, i + 1, acc, key);
      } else {
        StructFromKeeps(fs, vals, tagName, i + 1, acc[MapKey(fs[i], tagName).value := EntryValue(fs[i], vals[i], tagName)], key);
      }
    }
  }

  /** The keys of `structToMap`: one per exported field that is not skipped. */
  lemma {:induction false} StructFromKeys(fs: seq<FieldDesc>, vals: seq<Datum>, tagName: string, i: nat, acc: Tree, key: string)
    requires i <= |fs| == |vals|
    ensures key in StructFrom(fs, vals, tagName, i, acc) <==> key in acc || !NoneUnder(fs, tagName, i, key)
    decreases |fs| - i
  {
    if i < |fs| {
      if !fs[i].exported || MapKey(fs[i], tagName).None? {
        StructFromKeys(fs, vals, tagName, i + 1, acc, key);
      } else {
        StructFromKeys(fs, vals, tagName, i + 1, acc[MapKey(fs[i], tagName).value := EntryValue(fs[i], vals[i], tagName)], key);
      }
    }
  }

  /** The entry of a field whose key no other field shares is the field's value. */
  lemma {:induction false} StructFromEntry(fs: seq<FieldDesc>, vals: seq<Datum>, tagName: string, i: nat, acc: Tree, j: nat)
    requires i <= j < |fs| == |vals|
    requires fs[j].exported && MapKey(fs[j], tagName).Some?
    requires forall l | i <= l < |fs| && l != j && fs[l].exported :: MapKey(fs[l], tagName) != MapKey(fs[j], tagName)
    ensures MapKey(fs[j], tagName).value in StructFrom(fs, vals, tagName, i, acc)
    ensures StructFrom(fs, vals, tagName, i, acc)[MapKey(fs[j], tagName).value] == EntryValue(fs[j], vals[j], tagName)
    decreases |fs| - i
  {
    var key := MapKey(fs[j], tagName).value;
    if i == j {
      var acc' := acc[key := EntryValue(fs[j], vals[j], tagName)];
      StructFromKeeps(fs, vals, tagName, i + 1, acc', key);
    } else if !fs[i].exported || MapKey(fs[i], tagName).None? {
      StructFromEntry(fs, vals, tagName, i + 1, acc, j);
    } else {
      StructFromEntry(fs, vals, tagName, i + 1, acc[MapKey(fs[i], tagName).value := EntryValue(fs[i], vals[i], tagName)], j);
    }
  }

  /**
   * `structToMap` holds exactly one key per exported field that is not
   * skipped; a field whose key is its own holds its value there, a nested
   * struct as a nested map.
   */
  lemma StructToMapEntries(fs: seq<FieldDesc>, vals: seq<Datum>, tagName: string, key: string)
    requires |fs| == |vals|
    ensures key in StructToMap(fs, vals, tagName) <==> exists j | 0 <= j < |fs| :: fs[j].exported && MapKey(fs[j], tagName) == Some(key)
    ensures forall j | 0 <= j < |fs| && fs[j].exported && MapKey(fs[j], tagName) == Some(key) &&
        (forall l | 0 <= l < |fs| && l != j && fs[l].exported :: MapKey(fs[l], tagName) != Some(key)) ::
      StructToMap(fs, vals, tagName)[key] == EntryValue(fs[j], vals[j], tagName)
  {
    StructFromKeys(fs, vals, tagName, 0, map[], key);
    forall j | 0 <= j < |fs| && fs[j].exported && MapKey(fs[j], tagName) == Some(key) &&
        (forall l | 0 <= l < |fs| && l != j && fs[l].exported :: MapKey(fs[l], tagName) != Some(key))
      ensures StructToMap(fs, vals, tagName)[key] == EntryValue(fs[j], vals[j], tagName)
    {
      StructFromEntry(fs, vals, tagName, 0, map[], j);
    }
  }

  /** The kinds the converters handle. */
  predicate Scalar(k: Kind) {
    k.KString? || k.KInt? || k.KDuration? || k.KUint? || k.KBool?
  }

  /** `setFieldValue` given a field's own value as Go sees it stores that value, whatever the field held. */
  lemma SetFieldOfOwnValue(k: Kind, d: Datum, current: Datum)
    requires Scalar(k) && Conforms(k, d)
    ensures SetField(k, current, ToValue(k, d)) == Written(d, None)
  {
    match k
    case KInt(ik) =>
      assert InSigned(d.i, Int64);
    case KUint(uk) =>
      assert InUnsigned(d.u, Uint64);
    case _ =>
  }

  /** One field of the round trip: its step finds its own value under its name. */
  lemma RoundTripField(fs: seq<FieldDesc>, vals: seq<Datum>, current: Datum, j: nat)
    requires ConformsAll(fs, vals) && j < |fs|
    requires forall l | 0 <= l < |fs| :: fs[l].exported && PlainTags(fs[l])
    requires Scalar(fs[j].kind) && FieldName(fs[j]) != ""
    requires forall l | 0 <= l < |fs| && l != j :: FieldName(fs[l]) != FieldName(fs[j])
    ensures FieldStep(fs[j], current, StructToMap(fs, vals, "")) == Written(vals[j], None)
  {
    NamesAgree(fs[j]);
    forall l | 0 <= l < |fs| && l != j && fs[l].exported
      ensures MapKey(fs[l], "") != MapKey(fs[j], "")
    {
      NamesAgree(fs[l]);
    }
    StructToMapEntries(fs, vals, "", FieldName(fs[j]));
    SetFieldOfOwnValue(fs[j].kind, vals[j], current);
  }

  /**
   * Round trip: a struct of scalar fields with plain tags and distinct
   * names, flattened by `structToMap` and bound back by `bindMapToStruct`
   * over any starting value whose defaults apply, is itself again.
   */
  lemma BindStructToMapRoundTrip(fs: seq<FieldDesc>, vals: seq<Datum>, start: seq<Datum>)
    requires ConformsAll(fs, vals) && |start| == |fs|
    requires forall j | 0 <= j < |fs| :: fs[j].exported && Scalar(fs[j].kind) && PlainTags(fs[j]) && FieldName(fs[j]) != ""
    requires forall j, l | 0 <= j < l < |fs| :: FieldName(fs[j]) != FieldName(fs[l])
    requires DefaultsFrom(fs, start, 0).err.None?
    ensures BindMapToStruct(fs, start, StructToMap(fs, vals, "")) == Written(vals, None)
  {
    var m := StructToMap(fs, vals, "");
    var s := DefaultsFrom(fs, start, 0).state;
    forall j | 0 <= j < |fs|
      ensures FieldStep(fs[j], s[j], m) == Written(vals[j], None)
    {
      RoundTripField(fs, vals, s[j], j);
    }
    BindFromAt(fs, s, m, 0);
    assert BindFrom(fs, s, m, 0).state == vals;
  }

  // ---------------------------------------------------------------------------
  // bindValue: assignment
  // ---------------------------------------------------------------------------

  /** The slice element kinds whose slices Go shows as a typed slice the binder assigns back. */
  predicate AssignableElem(e: Kind) {
    e.KString? || e == KInt(Int) || e == KInt(Int64) || e.KBool? || e.KAny?
  }

  /**
   * A field's value, as Go sees it, assigns back to a field of the same
   * kind unchanged: `bindValue` of it into a non-struct target is that value.
   */
  lemma AssignOwnValue(k: Kind, d: Datum, current: Datum)
    requires !k.KStruct? && Conforms(k, d)
    requires k.KSlice? ==> AssignableElem(k.elem)
    requires !ToValue(k, d).VNull?
    ensures Assign(ToValue(k, d), k) == Some(d)
    ensures BindValue(ToValue(k, d), k, current) == Written(d, None)
  {
    match k
    case KSlice(e) =>
      var items := d.items;
      var back := Assign(ToValue(k, d), k).value;
      assert back.items == items;
    case KInt(ik) =>
      assert InSigned(d.i, ik);
    case _ =>
  }

  /**
   * Go's conversions of a string into a slice: `[]byte(s)` holds the UTF-8
   * bytes of `s`, which are its characters when `s` is ASCII, and `[]rune(s)`
   * its code points; no other slice takes a string.
   */
  lemma StringIntoSlices(s: string, e: Kind)
    ensures Assign(VStr(s), KSlice(KUint(Uint8))).Some?
    ensures Conforms(KSlice(KUint(Uint8)), Assign(VStr(s), KSlice(KUint(Uint8))).value)
    ensures |Assign(VStr(s), KSlice(KUint(Uint8))).value.items| >= |s|
    ensures (forall i | 0 <= i < |s| :: s[i] as int < 0x80) ==>
      Assign(VStr(s), KSlice(KUint(Uint8))) == Some(DSlice(seq(|s|, j requires 0 <= j < |s| => DUint(s[j] as int))))
    ensures Assign(VStr(s), KSlice(KInt(Int32))) == Some(DSlice(seq(|s|, j requires 0 <= j < |s| => DInt(s[j] as int))))
    ensures Conforms(KSlice(KInt(Int32)), Assign(VStr(s), KSlice(KInt(Int32))).value)
    ensures e != KUint(Uint8) && e != KInt(Int32) ==> Assign(VStr(s), KSlice(e)).None?
  {
    if forall i | 0 <= i < |s| :: s[i] as int < 0x80 {
      AsciiBytes(s);
      var bs := Utf8Bytes(s);
      assert seq(|bs|, j requires 0 <= j < |bs| => DUint(bs[j])) == seq(|s|, j requires 0 <= j < |s| => DUint(s[j] as int));
    }
  }

  /** "ab" converts to the bytes 97, 98. */
  lemma StringToBytesExample()
    ensures Assign(VStr("ab"), KSlice(KUint(Uint8))) == Some(DSlice([DUint(97), DUint(98)]))
  {
    StringIntoSlices("ab", KString);
    assert seq(|"ab"|, j requires 0 <= j < |"ab"| => DUint("ab"[j] as int)) == [DUint(97), DUint(98)];
  }

  /** "\U{00E9}" converts to its two UTF-8 bytes, and to the one rune U+00E9. */
  lemma StringToBytesAccentExample()
    ensures Assign(VStr("\U{00E9}"), KSlice(KUint(Uint8))) == Some(DSlice([DUint(0xC3), DUint(0xA9)]))
    ensures Assign(VStr("\U{00E9}"), KSlice(KInt(Int32))) == Some(DSlice([DInt(0xE9)]))
  {
    var e := "\U{00E9}";
    assert Utf8Bytes(e) == Utf8(e[0]) + Utf8Bytes("");
    assert Utf8(e[0]) == [0xC3, 0xA9];
    var bs := Utf8Bytes(e);
    assert bs == [0xC3, 0xA9];
    assert seq(|bs|, j requires 0 <= j < |bs| => DUint(bs[j])) == [DUint(0xC3), DUint(0xA9)];
    assert seq(|e|, j requires 0 <= j < |e| => DInt(e[j] as int)) == [DInt(0xE9)];
  }

  /**
   * The error cases of `bindValue`: a map cannot go into a string, a nil
   * value into a non-struct panics, a struct target needs a map, and a
   * missing key is "no configuration found".
   */
  lemma BindValueErrors(t: Tree, key: string, m: Tree, fs: seq<FieldDesc>, vals: seq<Datum>, current: Datum)
    ensures BindValue(VMap(m), KString, current) == Written(current, Some(CannotConvert))
    ensures BindValue(VNull, KInt(Int), current) == Written(current, Some(Panic))
    ensures BindValue(VStr("x"), KStruct(fs), DStruct(vals)) == Written(DStruct(vals), Some(UnsupportedBinding))
    ensures key != "" && Store.Lookup(VMap(t), Split(key, '.')) == VNull ==>
      Bind(t, key, KStruct(fs), DStruct(vals)) == Written(DStruct(vals), Some(NoConfiguration(key)))
  {
  }

  // ---------------------------------------------------------------------------
  // Precedence: tag defaults, a supplied default, the configuration
  // ---------------------------------------------------------------------------

  /** Every entry of the map is a string. */
  predicate StringEntries(m: Tree) {
    forall k | k in m :: m[k].VStr?
  }

  /** A struct of exported string fields with names. */
  predicate StringFields(fs: seq<FieldDesc>, tagName: string) {
    forall j | 0 <= j < |fs| :: fs[j].exported && fs[j].kind.KString? && FieldNameWithOptions(fs[j], tagName) != ""
  }

  /** The defaults of string fields never fail. */
  lemma StringDefaults(fs: seq<FieldDesc>, vals: seq<Datum>)
    requires |fs| == |vals| && forall j | 0 <= j < |fs| :: fs[j].kind.KString?
    ensures DefaultsFrom(fs, vals, 0).err.None?
    ensures forall j | 0 <= j < |fs| :: DefaultsFrom(fs, vals, 0).state[j] == DefaultField(fs[j], vals[j]).state
  {
    DefaultsFromAt(fs, vals, 0);
  }

  /**
   * Plain `Bind` of a map of strings into a struct of string fields: a
   * field named in the configuration takes the configured string, any
   * other field keeps what its `default` tag gave it; a missing required
   * field is the error, and without one there is none.
   */
  lemma BindPrecedence(cfg: Tree, fs: seq<FieldDesc>, vals: seq<Datum>)
    requires ConformsAll(fs, vals) && StringEntries(cfg)
    requires forall j | 0 <= j < |fs| :: fs[j].exported && fs[j].kind.KString? && FieldName(fs[j]) != ""
    requires forall j | 0 <= j < |fs| :: Tag(fs[j], "required") != "true"
    ensures BindValue(VMap(cfg), KStruct(fs), DStruct(vals)).err.None?
    ensures forall j | 0 <= j < |fs| ::
      BindValue(VMap(cfg), KStruct(fs), DStruct(vals)).state.vals[j] ==
        (if FieldName(fs[j]) in cfg then DStr(cfg[FieldName(fs[j])].s) else DefaultField(fs[j], vals[j]).state)
  {
    StringDefaults(fs, vals);
    var s := DefaultsFrom(fs, vals, 0).state;
    BindFromAt(fs, s, cfg, 0);
  }

  /** What a field of the options binder ends up holding after one step. */
  function OptsStep(f: FieldDesc, d: Datum, m: Tree, opts: BindOptions): Written<Datum> {
    var name := FieldNameWithOptions(f, opts.tagName);
    if !f.exported || name == "" then Written(d, None)
    else match Find(m, name, opts.ignoreCase)
      case None => Written(d, if name in opts.required && opts.errorOnMissing then Some(RequiredMissing(name)) else None)
      case Some(v) => SetFieldDeep(f.kind, d, v, opts)
  }

  /**
   * The field loop of `bindMapToStructWithOptions` succeeds exactly when
   * every field from `i` on does and the required names are met; every
   * such field then holds what its own step makes of it.
   */
  lemma {:induction false} BindOptsFromAt(fs: seq<FieldDesc>, vals: seq<Datum>, m: Tree, opts: BindOptions, i: nat)
    requires i <= |fs| == |vals|
    ensures BindOptsFrom(fs, vals, m, opts, i).err.None? <==>
      (forall j | i <= j < |fs| :: OptsStep(fs[j], vals[j], m, opts).err.None?) && RequiredCheck(fs, opts).None?
    ensures BindOptsFrom(fs, vals, m, opts, i).err.None? ==>
      forall j | 0 <= j < |fs| :: BindOptsFrom(fs, vals, m, opts, i).state[j] ==
        if j < i then vals[j] else OptsStep(fs[j], vals[j], m, opts).state
    decreases |fs| - i
  {
    if i == |fs| {
      assert fs[..i] == fs;
    } else {
      var w := OptsStep(fs[i], vals[i], m, opts);
      OptsFromStep(fs, vals, m, opts, i);
      BindOptsFromAt(fs, vals[i := w.state], m, opts, i + 1);
      assert forall j | i < j < |fs| :: vals[i := w.state][j] == vals[j];
    }
  }

  /** One field of the loop: its own step, then the rest of the loop unless the step failed. */
  lemma OptsFromStep(fs: seq<FieldDesc>, vals: seq<Datum>, m: Tree, opts: BindOptions, i: nat)
    requires i < |fs| == |vals|
    ensures var w := OptsStep(fs[i], vals[i], m, opts);
      BindOptsFrom(fs, vals, m, opts, i) ==
        if w.err.Some? then Written(vals[i := w.state], w.err) else BindOptsFrom(fs, vals[i := w.state], m, opts, i + 1)
  {
    var w := OptsStep(fs[i], vals[i], m, opts);
    var name := FieldNameWithOptions(fs[i], opts.tagName);
    if !fs[i].exported || name == "" || Find(m, name, opts.ignoreCase).None? {
      assert vals[i := w.state] == vals;
    }
  }

  /** A merged entry of two maps of strings: the configured string if any, else the default one. */
  lemma MergedString(dflt: Tree, cfg: Tree, name: string)
    requires StringEntries(dflt) && StringEntries(cfg)
    ensures name in Merge.MergeTrees(dflt, cfg) <==> name in cfg || name in dflt
    ensures name in cfg ==> Merge.MergeTrees(dflt, cfg)[name] == cfg[name]
    ensures name !in cfg && name in dflt ==> Merge.MergeTrees(dflt, cfg)[name] == dflt[name]
  {
    MergeFacts.MergeTreesAt(dflt, cfg, name);
  }

  /** What a string field holds after `BindWithDefault`: the configuration, else the supplied default, else its tag default. */
  function Preferred(f: FieldDesc, d: Datum, cfg: Tree, dflt: Tree): Datum
    requires StringEntries(cfg) && StringEntries(dflt)
  {
    var name := FieldNameWithOptions(f, "yaml");
    if name in cfg then DStr(cfg[name].s)
    else if name in dflt then DStr(dflt[name].s)
    else DefaultField(f, d).state
  }

  /** The struct case of `bindValueWithOptions` with a map default and `DeepMerge`, for string fields. */
  lemma BindOptsPrecedence(cfg: Tree, fs: seq<FieldDesc>, vals: seq<Datum>, dflt: Tree)
    requires ConformsAll(fs, vals) && StringEntries(cfg) && StringEntries(dflt) && StringFields(fs, "yaml")
    ensures var r := BindValueWithOptions(VMap(cfg), KStruct(fs), DStruct(vals), VMap(dflt), WithDefault(OtherValue(VMap(dflt))));
      r.err.None? && r.state.DStruct? && |r.state.vals| == |fs| &&
      forall j | 0 <= j < |fs| :: r.state.vals[j] == Preferred(fs[j], vals[j], cfg, dflt)
  {
    var opts := WithDefault(OtherValue(VMap(dflt)));
    StringDefaults(fs, vals);
    var s := DefaultsFrom(fs, vals, 0).state;
    var merged := Merge.MergeTrees(dflt, cfg);
    forall j | 0 <= j < |fs|
      ensures OptsStep(fs[j], s[j], merged, opts) == Written(Preferred(fs[j], vals[j], cfg, dflt), None)
    {
      MergedString(dflt, cfg, FieldNameWithOptions(fs[j], "yaml"));
    }
    BindOptsFromAt(fs, s, merged, opts, 0);
  }

  /**
   * `BindWithDefault` with a map of strings as the default, into a struct
   * of string fields: the configuration wins over the supplied default,
   * which wins over the `default` tags; a key with nothing under it binds
   * the supplied default alone.
   */
  lemma BindWithDefaultPrecedence(t: Tree, key: string, fs: seq<FieldDesc>, vals: seq<Datum>, dflt: Tree)
    requires ConformsAll(fs, vals) && StringEntries(dflt) && StringFields(fs, "yaml")
    requires DataAt(t, key).VNull? || (DataAt(t, key).VMap? && StringEntries(DataAt(t, key).m))
    ensures var cfg := if DataAt(t, key).VMap? then DataAt(t, key).m else map[];
      var r := BindWithOptions(t, key, KStruct(fs), DStruct(vals), WithDefault(OtherValue(VMap(dflt))));
      r.err.None? && r.state.DStruct? && |r.state.vals| == |fs| &&
      forall j | 0 <= j < |fs| :: r.state.vals[j] == Preferred(fs[j], vals[j], cfg, dflt)
  {
    var data := DataAt(t, key);
    if data.VMap? {
      BindOptsPrecedence(data.m, fs, vals, dflt);
    } else {
      BindOptsPrecedence(dflt, fs, vals, dflt);
      forall j | 0 <= j < |fs|
        ensures Preferred(fs[j], vals[j], dflt, dflt) == Preferred(fs[j], vals[j], map[], dflt)
      {
      }
    }
  }

  /** The scalar kinds `setFieldValueWithDeepMerge` converts into; a Duration field is not one (see `DurationDefaultDropped`). */
  predicate DeepScalar(k: Kind) {
    k.KString? || k.KInt? || k.KUint? || k.KBool?
  }

  /**
   * The value a scalar field takes from `v` under the options binder: the
   * string form, the `ToInt64` result narrowed to the field's width, the
   * `ToUint64` result narrowed likewise, or the bool; None when the
   * converter fails.
   */
  function Converted(k: Kind, v: Value): Option<Datum>
    requires DeepScalar(k)
  {
    match k
    case KString => Some(DStr(Converter.ToString(v)))
    case KInt(ik) =>
      (match Converter.ConvertToInt(v, Int64)
       case Ok(i) => Some(DInt(NarrowSigned(i, ik)))
       case Err(_) => None)
    case KUint(uk) =>
      (match Converter.ConvertToUint(v, Uint64)
       case Ok(u) => Some(DUint(NarrowUnsigned(u, uk)))
       case Err(_) => None)
    case KBool =>
      (match Converter.ToBool(v)
       case Ok(b) => Some(DBool(b))
       case Err(_) => None)
  }

  /** A scalar field's own value, as `structToMap` renders it, converts back to that value. */
  lemma ConvertedOwnValue(k: Kind, d: Datum)
    requires DeepScalar(k) && Conforms(k, d)
    ensures Converted(k, ToValue(k, d)) == Some(d)
  {
    match k
    case KInt(ik) =>
      assert InSigned(d.i, Int64);
    case KUint(uk) =>
      assert InUnsigned(d.u, Uint64);
    case _ =>
  }

  /** Exported scalar fields with plain tags and distinct, non-empty names. */
  predicate DistinctScalarFields(fs: seq<FieldDesc>) {
    (forall j | 0 <= j < |fs| :: fs[j].exported && DeepScalar(fs[j].kind) && PlainTags(fs[j]) && FieldName(fs[j]) != "") &&
    (forall j, l | 0 <= j < l < |fs| :: FieldName(fs[j]) != FieldName(fs[l]))
  }

  /**
   * A struct default flattened by `structToMap` holds each field's own
   * value under its name; with the data `src` deep-merged over it, the name
   * holds a copy of the data's value when the data has one, and the
   * default's value otherwise.
   */
  lemma StructDefaultEntry(fs: seq<FieldDesc>, dv: seq<Datum>, src: Tree, j: nat)
    requires ConformsAll(fs, dv) && DistinctScalarFields(fs) && j < |fs|
    ensures var dm := StructToMap(fs, dv, "yaml"); var name := FieldName(fs[j]);
      name in dm && dm[name] == ToValue(fs[j].kind, dv[j])
    ensures var M := Merge.MergeTrees(StructToMap(fs, dv, "yaml"), src); var name := FieldName(fs[j]);
      name in M && M[name] == if name in src then Merge.Copy(src[name]) else ToValue(fs[j].kind, dv[j])
  {
    var name := FieldName(fs[j]);
    var dm := StructToMap(fs, dv, "yaml");
    NamesAgree(fs[j]);
    forall l | 0 <= l < |fs| && l != j && fs[l].exported
      ensures MapKey(fs[l], "yaml") != Some(name)
    {
      NamesAgree(fs[l]);
    }
    assert fs[j].exported && MapKey(fs[j], "yaml") == Some(name);
    StructToMapEntries(fs, dv, "yaml", name);
    MergeFacts.MergeTreesAt(dm, src, name);
    MergeFacts.CopyOfNative(ToValue(fs[j].kind, dv[j]));
  }

  /** One field of the options loop under `BindWithDefault`: the converted value, or the field as it was. */
  lemma StructDefaultStep(f: FieldDesc, d: Datum, M: Tree, src: Source)
    requires f.exported && DeepScalar(f.kind) && PlainTags(f) && FieldName(f) != "" && FieldName(f) in M
    ensures var c := Converted(f.kind, M[FieldName(f)]);
      OptsStep(f, d, M, WithDefault(src)) == Written(if c.Some? then c.value else d, None)
  {
    NamesAgree(f);
  }

  /**
   * What a scalar field holds after `BindWithDefault` with a struct default
   * whose field holds `dd`: the configured value when it converts (as the
   * deep merge copies it; a scalar is copied as itself), `tagged` (what the
   * field's `default` tag made of it) when the configured value does not
   * convert, and the supplied default when nothing is configured.
   */
  function DefaultedField(f: FieldDesc, tagged: Datum, cfg: Tree, dd: Datum): Datum
    requires DeepScalar(f.kind)
  {
    var name := FieldName(f);
    if name in cfg then
      match Converted(f.kind, Merge.Copy(cfg[name]))
      case Some(x) => x
      case None => tagged
    else dd
  }

  /**
   * `BindWithDefault` with a struct (by value) as the default, into a struct
   * of the same scalar fields: a failing `default` tag is the error; data
   * that is not a map is `UnsupportedBinding`; otherwise each field takes
   * the configured value, else the supplied default, else its tag default.
   */
  lemma BindWithStructDefault(t: Tree, key: string, fs: seq<FieldDesc>, vals: seq<Datum>, dv: seq<Datum>)
    requires ConformsAll(fs, vals) && ConformsAll(fs, dv) && DistinctScalarFields(fs)
    ensures var w := DefaultsFrom(fs, vals, 0);
      w.err.Some? ==>
        BindWithOptions(t, key, KStruct(fs), DStruct(vals), WithDefault(StructValue(fs, dv))) == Written(DStruct(w.state), w.err)
    ensures var w := DefaultsFrom(fs, vals, 0); var data := DataAt(t, key);
      w.err.None? && !data.VNull? && !data.VMap? ==>
        BindWithOptions(t, key, KStruct(fs), DStruct(vals), WithDefault(StructValue(fs, dv))) == Written(DStruct(w.state), Some(UnsupportedBinding))
    ensures var data := DataAt(t, key); var cfg := if data.VMap? then data.m else map[];
      var r := BindWithOptions(t, key, KStruct(fs), DStruct(vals), WithDefault(StructValue(fs, dv)));
      DefaultsFrom(fs, vals, 0).err.None? && (data.VNull? || data.VMap?) ==>
        r.err.None? && r.state.DStruct? && |r.state.vals| == |fs| &&
        forall j | 0 <= j < |fs| :: r.state.vals[j] == DefaultedField(fs[j], DefaultField(fs[j], vals[j]).state, cfg, dv[j])
  {
    var opts := WithDefault(StructValue(fs, dv));
    var dm := StructToMap(fs, dv, "yaml");
    var data := DataAt(t, key);
    var w := DefaultsFrom(fs, vals, 0);
    WithStructDefaultUnfold(t, key, fs, vals, dv);
    if w.err.None? && (data.VNull? || data.VMap?) {
      DefaultsFromAt(fs, vals, 0);
      var cfg := if data.VMap? then data.m else map[];
      var src := if data.VMap? then data.m else dm;
      var M := Merge.MergeTrees(dm, src);
      StructDefaultFields(fs, dv, src, cfg, w.state);
      BindOptsFromAt(fs, w.state, M, opts, 0);
    }
  }

  /** `BindWithOptions` with a struct default, unfolded: the tag defaults, the data merged over the flattened default, the field loop. */
  lemma WithStructDefaultUnfold(t: Tree, key: string, fs: seq<FieldDesc>, vals: seq<Datum>, dv: seq<Datum>)
    ensures var opts := WithDefault(StructValue(fs, dv)); var dm := StructToMap(fs, dv, "yaml");
      var data := DataAt(t, key); var w := DefaultsFrom(fs, vals, 0);
      BindWithOptions(t, key, KStruct(fs), DStruct(vals), opts) ==
        if w.err.Some? then Written(DStruct(w.state), w.err)
        else if !data.VNull? && !data.VMap? then Written(DStruct(w.state), Some(UnsupportedBinding))
        else
          var b := BindOptsFrom(fs, w.state, Merge.MergeTrees(dm, if data.VMap? then data.m else dm), opts, 0);
          Written(DStruct(b.state), b.err)
  {
  }

  /** Every field step of `BindWithStructDefault`, over the tag defaults `s`. */
  lemma StructDefaultFields(fs: seq<FieldDesc>, dv: seq<Datum>, src: Tree, cfg: Tree, s: seq<Datum>)
    requires ConformsAll(fs, dv) && DistinctScalarFields(fs) && |s| == |fs|
    requires src == cfg || (cfg == map[] && src == StructToMap(fs, dv, "yaml"))
    ensures forall j | 0 <= j < |fs| ::
      OptsStep(fs[j], s[j], Merge.MergeTrees(StructToMap(fs, dv, "yaml"), src), WithDefault(StructValue(fs, dv)))
        == Written(DefaultedField(fs[j], s[j], cfg, dv[j]), None)
  {
    var M := Merge.MergeTrees(StructToMap(fs, dv, "yaml"), src);
    forall j | 0 <= j < |fs|
      ensures OptsStep(fs[j], s[j], M, WithDefault(StructValue(fs, dv))) == Written(DefaultedField(fs[j], s[j], cfg, dv[j]), None)
    {
      StructDefaultEntry(fs, dv, src, j);
      if FieldName(fs[j]) !in cfg {
        MergeFacts.CopyOfNative(ToValue(fs[j].kind, dv[j]));
      }
      StructDefaultFieldAt(fs[j], s[j], M, cfg, dv[j], StructValue(fs, dv));
    }
  }

  /** One field of `StructDefaultFields`, given what the merged map holds under its name. */
  lemma StructDefaultFieldAt(f: FieldDesc, t: Datum, M: Tree, cfg: Tree, dd: Datum, src: Source)
    requires f.exported && DeepScalar(f.kind) && PlainTags(f) && FieldName(f) != "" && Conforms(f.kind, dd)
    requires FieldName(f) in M
    requires M[FieldName(f)] == if FieldName(f) in cfg then Merge.Copy(cfg[FieldName(f)]) else ToValue(f.kind, dd)
    ensures OptsStep(f, t, M, WithDefault(src)) == Written(DefaultedField(f, t, cfg, dd), None)
  {
    StructDefaultStep(f, t, M, src);
    if FieldName(f) !in cfg {
      ConvertedOwnValue(f.kind, dd);
    }
  }

  /** The struct default of `StringSliceDefaultDropped` as `structToMap` and the deep copy see it. */
  lemma TagsDefaultFlattened(fs: seq<FieldDesc>, vals: seq<Datum>)
    requires fs == [FieldDesc("Tags", map["yaml" := "tags"], true, KSlice(KString))] && vals == [DSlice([DStr("a")])]
    ensures StructToMap(fs, vals, "yaml") == map["tags" := VStrs(["a"])]
    ensures Merge.MergeTrees(map["tags" := VStrs(["a"])], map[]) == map["tags" := VStrs(["a"])]
  {
    assert TagName("tags") == "tags";
    assert MapKey(fs[0], "yaml") == Some("tags");
    assert SliceToValue(KString, [DStr("a")]) == VStrs(["a"]);
    assert EntryValue(fs[0], vals[0], "yaml") == VStrs(["a"]);
    assert StructToMap(fs, vals, "yaml") == StructFrom(fs, vals, "yaml", 1, map["tags" := VStrs(["a"])]);
    var dm := map["tags" := VStrs(["a"])];
    MergeFacts.MergeEmptyOver(dm);
    assert Merge.CopyTree(dm)["tags"] == Merge.Copy(VStrs(["a"])) == VStrs(["a"]);
  }

  /** The field loop in `StringSliceDefaultDropped`: the field is found, and its `[]string` value is not taken. */
  lemma TagsFieldLoop(fs: seq<FieldDesc>, start: seq<Datum>, opts: BindOptions)
    requires fs == [FieldDesc("Tags", map["yaml" := "tags"], true, KSlice(KString))] && start == [DSlice([])]
    requires opts.tagName == "yaml" && !opts.errorOnMissing && !opts.ignoreCase
    ensures BindOptsFrom(fs, start, map["tags" := VStrs(["a"])], opts, 0) == Written(start, None)
  {
    assert TagName("tags") == "tags";
    assert start[0 := start[0]] == start;
    assert SetFieldDeep(fs[0].kind, start[0], VStrs(["a"]), opts) == Written(start[0], None);
  }

  /** The struct case of `bindValueWithOptions` in `StringSliceDefaultDropped`: no tag default, the merge, the field loop. */
  lemma TagsNotSet(fs: seq<FieldDesc>, start: seq<Datum>, opts: BindOptions)
    requires fs == [FieldDesc("Tags", map["yaml" := "tags"], true, KSlice(KString))] && start == [DSlice([])]
    requires opts.tagName == "yaml" && opts.deepMerge && !opts.errorOnMissing && !opts.ignoreCase
    ensures BindValueWithOptions(VMap(map[]), KStruct(fs), DStruct(start), VMap(map["tags" := VStrs(["a"])]), opts)
      == Written(DStruct(start), None)
  {
    var merged := map["tags" := VStrs(["a"])];
    assert Merge.MergeTrees(merged, map[]) == merged by {
      TagsDefaultFlattened(fs, [DSlice([DStr("a")])]);
    }
    assert start[0 := start[0]] == start;
    assert DefaultsFrom(fs, start, 0) == Written(start, None);
    TagsFieldLoop(fs, start, opts);
  }

  /**
   * A struct given as the default has its `[]string` fields dropped:
   * `structToMap` stores them as `[]string`, the deep copy keeps that type,
   * and the slice case of `setFieldValueWithDeepMerge` accepts only `[]any`.
   */
  lemma StringSliceDefaultDropped()
    ensures var fs := [FieldDesc("Tags", map["yaml" := "tags"], true, KSlice(KString))];
      BindWithOptions(map[], "", KStruct(fs), DStruct([DSlice([])]), WithDefault(StructValue(fs, [DSlice([DStr("a")])])))
        == Written(DStruct([DSlice([])]), None)
  {
    var fs := [FieldDesc("Tags", map["yaml" := "tags"], true, KSlice(KString))];
    var vals := [DSlice([DStr("a")])];
    TagsDefaultFlattened(fs, vals);
    TagsNotSet(fs, [DSlice([])], WithDefault(StructValue(fs, vals)));
  }

  /**
   * A `time.Duration` field: `setFieldValue` parses a duration string, while
   * `setFieldValueWithDeepMerge` reads the field as a plain integer, so the
   * same string leaves the field as it was, or is an error under
   * `ErrorOnMissing`.
   */
  lemma DurationStringUnderOptions(d: Datum, opts: BindOptions)
    ensures SetField(KDuration, d, VStr("45s")) == Written(DInt(45 * Durations.SECOND), None)
    ensures SetFieldDeep(KDuration, d, VStr("45s"), opts).state == d
    ensures SetFieldDeep(KDuration, d, VStr("45s"), opts).err.Some? <==> opts.errorOnMissing
  {
    ConverterFacts.ToDurationExamples();
    assert Wrap64(45 * Durations.SECOND) == 45 * Durations.SECOND;
    assert !IsDigit('s');
    assert Converter.ConvertToInt(VStr("45s"), Int64).Err?;
  }

  /**
   * A `time.Duration` value reaching `setFieldValueWithDeepMerge`: it is read
   * through `convertToInt`, which has no `time.Duration` case, so the field
   * keeps what it held, or the conversion error is returned under
   * `ErrorOnMissing`; `setFieldValue` takes the same value as it is.
   */
  lemma DurationValueUnderOptions(d: Datum, ns: int, opts: BindOptions)
    ensures SetField(KDuration, d, VDur(ns)) == Written(DInt(Wrap64(ns)), None)
    ensures SetFieldDeep(KDuration, d, VDur(ns), opts).state == d
    ensures SetFieldDeep(KDuration, d, VDur(ns), opts).err.Some? <==> opts.errorOnMissing
  {
    assert Converter.ConvertToInt(VDur(ns), Int64) == Err(UnsupportedType);
  }

  /** The struct default of `DurationDefaultDropped` as `structToMap` and the deep copy see it. */
  lemma TimeoutDefaultFlattened(fs: seq<FieldDesc>, vals: seq<Datum>, ns: int)
    requires fs == [FieldDesc("Timeout", map["yaml" := "timeout"], true, KDuration)] && vals == [DInt(ns)]
    ensures StructToMap(fs, vals, "yaml") == map["timeout" := VDur(ns)]
    ensures Merge.MergeTrees(map["timeout" := VDur(ns)], map[]) == map["timeout" := VDur(ns)]
  {
    assert TagName("timeout") == "timeout";
    assert MapKey(fs[0], "yaml") == Some("timeout");
    assert EntryValue(fs[0], vals[0], "yaml") == VDur(ns);
    assert StructToMap(fs, vals, "yaml") == StructFrom(fs, vals, "yaml", 1, map["timeout" := VDur(ns)]);
    var dm := map["timeout" := VDur(ns)];
    MergeFacts.MergeEmptyOver(dm);
    assert Merge.CopyTree(dm)["timeout"] == Merge.Copy(VDur(ns)) == VDur(ns);
  }

  /** The field loop in `DurationDefaultDropped`: the field is found, and its `time.Duration` value is not taken. */
  lemma TimeoutFieldLoop(fs: seq<FieldDesc>, start: seq<Datum>, ns: int, opts: BindOptions)
    requires fs == [FieldDesc("Timeout", map["yaml" := "timeout"], true, KDuration)] && start == [DInt(0)]
    requires opts.tagName == "yaml" && !opts.errorOnMissing && !opts.ignoreCase
    ensures BindOptsFrom(fs, start, map["timeout" := VDur(ns)], opts, 0) == Written(start, None)
  {
    assert TagName("timeout") == "timeout";
    assert start[0 := start[0]] == start;
    DurationValueUnderOptions(start[0], ns, opts);
  }

  /** The struct case of `bindValueWithOptions` in `DurationDefaultDropped`: no tag default, the merge, the field loop. */
  lemma TimeoutNotSet(fs: seq<FieldDesc>, start: seq<Datum>, ns: int, opts: BindOptions)
    requires fs == [FieldDesc("Timeout", map["yaml" := "timeout"], true, KDuration)] && start == [DInt(0)]
    requires opts.tagName == "yaml" && opts.deepMerge && !opts.errorOnMissing && !opts.ignoreCase
    ensures BindValueWithOptions(VMap(map[]), KStruct(fs), DStruct(start), VMap(map["timeout" := VDur(ns)]), opts)
      == Written(DStruct(start), None)
  {
    var merged := map["timeout" := VDur(ns)];
    assert Merge.MergeTrees(merged, map[]) == merged by {
      TimeoutDefaultFlattened(fs, [DInt(ns)], ns);
    }
    assert start[0 := start[0]] == start;
    assert DefaultsFrom(fs, start, 0) == Written(start, None);
    assert DeepMergeValues(VMap(merged), VMap(map[])) == VMap(merged);
    TimeoutFieldLoop(fs, start, ns, opts);
  }

  /**
   * A struct given as the default has its `time.Duration` fields dropped:
   * `structToMap` stores a `time.Duration`, the deep copy keeps it, and
   * `convertToInt` in `setFieldValueWithDeepMerge` does not accept it, so a
   * 30-second default timeout leaves the field at zero, with no error.
   */
  lemma DurationDefaultDropped()
    ensures var fs := [FieldDesc("Timeout", map["yaml" := "timeout"], true, KDuration)];
      BindWithOptions(map[], "", KStruct(fs), DStruct([DInt(0)]), WithDefault(StructValue(fs, [DInt(30 * Durations.SECOND)])))
        == Written(DStruct([DInt(0)]), None)
  {
    var fs := [FieldDesc("Timeout", map["yaml" := "timeout"], true, KDuration)];
    var vals := [DInt(30 * Durations.SECOND)];
    TimeoutDefaultFlattened(fs, vals, 30 * Durations.SECOND);
    TimeoutNotSet(fs, [DInt(0)], 30 * Durations.SECOND, WithDefault(StructValue(fs, vals)));
  }
}
