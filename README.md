# confy core in Dafny

A model of the core of `confy`, a configuration manager written in Go, with proofs about it. The model covers four parts:

- **Merge engine** (`internal/merge.go`). It deep-merges configuration trees (`map[string]any`), where later sources win. Nested maps merge recursively, and a `nil` incoming value is stored as `nil` under its key. It also does deep copies, a shallow one-level merge, and a fold of many maps.
- **Type converter** (`internal/converter.go`). It turns a dynamically typed value into Go's integer types (with Go's truncating conversions), `string`, `bool`, `time.Duration`, the four slice types, and byte sizes such as `"10MB"`.
- **Key-path store** (`confy.go`). Dotted keys (`"database.host"`) address the nested tree. The model covers `Get` and `Set`, `HasKey`, `IsSet`, `GetKeys`, `Size` and the typed getter `GetInt`.
- **Binding engine** (`confy.go`). It copies a subtree into a Go struct. Covered: `Bind`, `BindWithDefault` and `BindWithOptions`; `structToMap`; struct tags (`yaml`, `json`, `config`, `default`, `required`); `default` tags; deep-merged defaults; case-insensitive lookup; and required-field errors.

The files are:

- `values.dfy` (module `Values`): the value type `Value`, which mirrors the dynamic types the tree can hold. It also holds Go's integer widths with explicit wrap-around, and the shared `Error`, `Option` and `Result` types.
- `text.dfy` (module `Text`): the parts of Go's `strings` and `strconv` packages the core calls, on `seq<char>`.
- `durations.dfy` (module `Durations`): Go's `time.ParseDuration` and `Duration.String`.
- `converter.dfy` and `converter_facts.dfy`: the converter, and lemmas about it.
- `merge.dfy` and `merge_facts.dfy`: the merge engine. Specification functions (`Copy`, `MergeTrees`, `MergeInto`, `Overlay`, `Fold`) sit beside the methods with loops (`DeepCopy`, `DeepMerge`, `MergeInPlace`, `ShallowMerge`, `MergeMaps`). Each method is proved equal to its function, and the lemmas are about the functions.
- `keypath.dfy` (module `Store`) and `store_facts.dfy`: the store. `Store.Confy` is a class whose `data` field is the tree that `Set` reassigns.
- `binding.dfy`, `binder.dfy` and `binding_facts.dfy`: the binding engine.
  - Go reflection is replaced by a field table. A struct type is a sequence of `FieldDesc` (name, tags, exported, kind), and a struct value is a `DStruct` of one `Datum` per field.
  - `Written(state, err)` records the state Go has reached when an error stops it, so partial writes are modelled.
  - `Binding` holds the specification functions. `Binder` holds the methods with loops: a `Target` object stands for the pointer passed to `Bind`, and each method is proved equal to its function.

## Model

| member | source | states |
|---|---|---|
| Values.NarrowSigned | internal/converter.go:96-131 | Go's truncating conversion to a signed width: the result is in range for the width, and a value already in range is unchanged |
| ConverterFacts.NarrowSignedCongruent | internal/converter.go:96-131 | the signed conversion keeps the input's residue modulo 2^width: it keeps the low bits |
| Values.NarrowUnsigned | internal/converter.go:145-218 | the conversion to an unsigned width gives a result in range for the width, and a value that fits is unchanged |
| Text.JoinSplit | confy.go:1524 | joining the pieces that `strings.Split` yields with the separator gives back the key |
| Text.SplitJoin | confy.go:1524 | splitting a join of separator-free segments gives back the segments, so a dotted key names one path |
| Text.TagName | confy.go:1734-1748 | the tag name is the prefix of the tag before its first comma, so it contains no comma and is the whole tag when there is none |
| Text.SortedKeys | confy.go:2384-2401 | the key listing holds exactly the keys of the map, once each |
| Text.ParseUint | internal/converter.go:202 | accepts exactly non-empty digit strings below 2^64, with their decimal value |
| Text.FormatIntParses | internal/converter.go:127 | `ParseInt` of a formatted int64 returns it |
| Text.ParseBool | internal/converter.go:314 | true for exactly 1, t, T, TRUE, true, True; false for exactly 0, f, F, FALSE, false, False; an error otherwise |
| Durations.ParseDuration | internal/converter.go:354 | a successful parse lies in int64 range; the empty string is rejected |
| Durations.ComponentOf | internal/converter.go:354 | a decimal count followed by a known unit, in front of the rest of the string, is read as one component of count times the unit's length |
| Durations.ParseCountAndUnit | internal/converter.go:354 | for every count and known unit, "count unit" parses to count times the unit below 2^63, and is an overflow error at 2^63 |
| Durations.ParseSignedCountAndUnit | internal/converter.go:354 | with a leading "-" the same string parses to the negation, down to -2^63, and with a leading "+" to the product itself |
| Durations.ParseHourAndHalf | internal/converter.go:354 | "1h30m" is 5400 seconds; "2m" and "45s" are covered by `ParseTwoMinutes` and `ParseFortyFiveSeconds` |
| Durations.ParseFractionAndSign | internal/converter.go:354 | "1.5s" is 1500 ms and "-1.5s" its negation |
| Durations.ParseRejects | internal/converter.go:354-357 | "2x", "" and a unitless "5" are errors; "0" and "-0" are zero |
| Durations.FormatExamples | internal/converter.go:288 | `Duration.String` of 0 is "0s" and of 90 seconds is "1m30s" |
| Converter.ConvertToInt | internal/converter.go:91-143 | an int result is in range for the target width; nil is an error; a signed or unsigned input gives its value narrowed to the width; a bool gives 1 or 0 |
| Converter.ConvertToUint | internal/converter.go:145-218 | an unsigned result is in range; nil is an error; a negative signed input is `NegativeValue`, and any other integer gives its value narrowed to the width; a bool gives 1 or 0 |
| Converter.ToString | internal/converter.go:271-292 | nil gives "", a string is returned unchanged, and anything else is formatted as `%v` |
| Converter.ToBool | internal/converter.go:295-329 | nil is an error and a bool is returned unchanged |
| Converter.ToDuration | internal/converter.go:332-362 | nil is an error, a Duration is returned unchanged, and any other success is in int64 range |
| Converter.ConvertPrefix | internal/converter.go:392-413 | an element-wise conversion succeeds if and only if every element converts, element by element, and otherwise reports a failing index |
| Converter.ToStringSlice | internal/converter.go:369-389 | nil is an error, a `[]string` comes back unchanged, a string becomes a one-element slice, and `[]any` is converted element by element |
| Converter.ToIntSlice | internal/converter.go:392-413 | nil is an error, `[]int` comes back unchanged, and `[]any` converts element by element |
| Converter.ToInt64Slice | internal/converter.go:416-437 | nil is an error, `[]int64` comes back unchanged, and `[]any` converts element by element |
| Converter.ToBoolSlice | internal/converter.go:464-485 | nil is an error, `[]bool` comes back unchanged, and `[]any` converts element by element |
| Converter.FirstSuffix | internal/converter.go:568-578 | the unit chosen is the first unit in iteration order that ends the string; none is chosen only when no unit ends it |
| Converter.Scaled | internal/converter.go:570-576 | the number part converts if and only if it is non-empty decimal digits whose scaled value fits in uint64, and the result is the scaled value |
| Converter.ParseSizeString | internal/converter.go:548-586 | an empty (after trimming) size is `EmptySize`, and every result fits in uint64 |
| Converter.ParseSizeStringAsWritten | internal/converter.go:548-586 | the same parse with the unit iteration order as a parameter; an empty size is `EmptySize` |
| Converter.ToSizeInBytes | internal/converter.go:523-545 | a string is parsed as a size; an int or int64 converts if and only if it is not negative; nil is an error |
| ConverterFacts.IntStringRoundTrip | internal/converter.go:127 | converting the string form of an in-range integer back to the same width returns it |
| ConverterFacts.UintStringRoundTrip | internal/converter.go:202 | the same round trip for unsigned integers |
| ConverterFacts.IntFromString | internal/converter.go:126-131 | a string converts to an integer if and only if `strconv.ParseInt` accepts it, and the result is that value narrowed to the target width |
| ConverterFacts.IntegerConversionWraps | internal/converter.go:96-218 | every integer converts to every signed width keeping its residue modulo 2^w, and unchanged when it fits; it converts to an unsigned width if and only if it is not negative, and then to its residue |
| ConverterFacts.Int16ToInt8Wraps | internal/converter.go:101-102 | int16(1000) converts to int8 -24 and to uint8 232: the conversion wraps |
| ConverterFacts.ToBoolOfInteger | internal/converter.go:300-312 | integers convert to "is non-zero" |
| ConverterFacts.ToBoolOfString | internal/converter.go:313-326 | a string is true exactly for the strconv and extra true spellings, false exactly for the false ones, and an error otherwise |
| ConverterFacts.ToBoolAliasesCaseSensitive | internal/converter.go:317-324 | the extra aliases are case-sensitive: "YES" and "Off" are errors |
| ConverterFacts.BoolStringRoundTrip | internal/converter.go:286 | `ToBool(ToString(b)) == b` |
| ConverterFacts.ToDurationOfSeconds | internal/converter.go:337-341 | a signed integer n converts to n seconds, whenever n seconds fit in int64 |
| ConverterFacts.ToDurationOfUnsignedSeconds | internal/converter.go:346-348 | an unsigned integer n converts to n seconds, whenever n seconds fit in int64 |
| ConverterFacts.ToDurationExamples | internal/converter.go:353-358 | "2m", "45s", "1h30m" and "1.5s" convert to their durations; "2x", "" and "5" are errors |
| ConverterFacts.StringSliceDoesNotSplit | internal/converter.go:375-376 | "one,two,three" becomes a single-element slice: commas are not split |
| ConverterFacts.IntSliceAllOrNothing | internal/converter.go:392-413 | a `[]any` converts if and only if every element converts, and then element by element |
| ConverterFacts.FirstSuffixIsLongest | internal/converter.go:568-578 | when every binary unit comes before "B" in the iteration order, the first matching unit is the longest matching unit |
| ConverterFacts.AsWrittenAgreesWhenBinaryFirst | internal/converter.go:548-586 | under such an order the parse as written equals the corrected parse |
| ConverterFacts.AsWrittenFailsWhenBFirst | internal/converter.go:568-578 | when "B" comes before a binary unit, "digits + unit" is rejected as written although its value fits |
| ConverterFacts.TenKilobytesOrderDependent | internal/converter.go:554-578 | with the declared table and "B" first, "10KB" is rejected as written, while the corrected parse gives 10240 |
| ConverterFacts.SizeRoundTrip | internal/converter.go:548-586 | parsing the decimal form of n followed by a unit gives n times the unit's multiplier, for products up to 2^53 |
| ConverterFacts.PlainSize | internal/converter.go:581-585 | a plain number of bytes parses to itself |
| ConverterFacts.SizeOfIntegers | internal/converter.go:526-544 | int and int64 give their value or `NegativeValue`; uint and uint64 give their value; other integer widths are unsupported |
| Merge.Copy | internal/merge.go:96-123 | a deep copy keeps nil, map-ness and the key set, and its result is built only of the types the copier produces |
| Merge.MergeValue | internal/merge.go:58-79 | a merged value is nil exactly when the incoming value is nil |
| Merge.MergeTrees | internal/merge.go:20-39 | the merged map has the union of the keys of both maps |
| Merge.MergeInto | internal/merge.go:43-79 | the in-place merge leaves the target with the union of the keys |
| Merge.DeepCopyValue | internal/merge.go:96-123 | the loop-based copy equals the copy function |
| Merge.DeepCopy | internal/merge.go:82-93 | nil gives nil; otherwise the result is the deep copy of the tree |
| Merge.DeepCopySlice | internal/merge.go:126-137 | element-wise deep copy of a `[]any` |
| Merge.MergeValues | internal/merge.go:58-79 | the loop-based merge of two values equals the merge function |
| Merge.MergeEntries | internal/merge.go:25-37 | the loop over both maps builds exactly `MergeTrees` |
| Merge.DeepMerge | internal/merge.go:20-39 | a nil side gives the copy of the other side (nil and nil give nil), and otherwise the result is `MergeTrees` |
| Merge.MergeInPlace | internal/merge.go:43-55 | the target map becomes `MergeInto(target, source)`; a nil source or target leaves it unchanged |
| Merge.ShallowMerge | internal/merge.go:205-223 | the result is the one-level overlay of source on target |
| Merge.MergeMaps | internal/merge.go:227-241 | the result is the left-to-right deep-merge fold of the maps, skipping nil ones |
| MergeFacts.CopyOfNative | internal/merge.go:96-123 | copying a value already in copier form returns it unchanged |
| MergeFacts.CopyIdempotent | internal/merge.go:96-123 | copying twice equals copying once |
| MergeFacts.CopyRebuildsBoolSlice | internal/merge.go:117-121 | a `[]bool` or `[]int64` is rebuilt as a `[]any` by the reflective fallback |
| MergeFacts.MergeOfCopy | internal/merge.go:20-39 | merging a copy of a map equals merging the map |
| MergeFacts.MergeTreesAt | internal/merge.go:25-37 | per key: keys of either side are present; a key only in the target is copied; a nil incoming value is stored as nil; the incoming value replaces unless both sides are maps, which merge recursively |
| MergeFacts.MergeEmptyOver | internal/merge.go:20-39 | merging an empty map in gives a copy of the target |
| MergeFacts.MergeOverEmpty | internal/merge.go:20-39 | merging into an empty map gives a copy of the source |
| MergeFacts.MergeSelf | internal/merge.go:20-39 | merging a map with itself gives its copy |
| MergeFacts.MergeIdempotent | internal/merge.go:20-39 | merging the same source a second time changes nothing |
| MergeFacts.NotAssociative | internal/merge.go:58-79 | merging is not associative: a nil in the middle map replaces the first map's nested map by nil when merged first, so the third map no longer merges with it, but not when the middle and third maps merge first |
| MergeFacts.DeepMergeCopiesInPlace | internal/merge.go:20-55 | the copying merge is the copy of the in-place merge |
| MergeFacts.InPlaceIsDeepMerge | internal/merge.go:43-55 | on a target without `[]bool` or `[]int64` values, the in-place merge equals the copying merge |
| MergeFacts.InPlaceKeepsBoolSlice | internal/merge.go:43-79 | the in-place merge leaves an untouched `[]bool` as it is, while the copying merge rebuilds it as `[]any` |
| MergeFacts.OverlayAgreesWithDeepMerge | internal/merge.go:205-223 | when no shared key holds a map on both sides, the deep merge is the copy of the shallow merge |
| MergeFacts.OverlayReplacesNestedMaps | internal/merge.go:205-223 | the shallow merge replaces a nested map whole, where the deep merge would merge it |
| MergeFacts.OverlayLaws | internal/merge.go:205-223 | the shallow merge has nil as identity and is associative |
| MergeFacts.FoldStep | internal/merge.go:227-241 | folding one more map deep-merges it into the fold so far, and a nil map is skipped |
| MergeFacts.FoldOfOneOrTwo | internal/merge.go:227-241 | the fold of one map is its copy, and of two is their deep merge |
| MergeFacts.FoldKeys | internal/merge.go:227-241 | a key is in the fold if and only if some non-nil map holds it |
| MergeFacts.FoldLaterWins | internal/merge.go:227-241 | a non-map value held by the last map that has the key ends in the fold as a copy of that value: later maps win |
| Store.Lookup | confy.go:1523-1543 | a non-empty path through a non-map value is nil |
| Store.SetPath | confy.go:1545-1565 | a write keeps every top-level key and adds the path's first segment |
| Store.Confy.Get | confy.go:137-142 | returns the value at the dotted path of the key |
| Store.Confy.Set | confy.go:1062-1079 | the tree becomes the old tree with the path written |
| Store.Confy.HasKey | confy.go:1216-1221 | true if and only if the value at the key is not nil |
| Store.Confy.IsSet | confy.go:1224-1240 | true if and only if the value at the key is set: not nil, not "", not an empty `[]any` or map |
| Store.Confy.GetKeys | confy.go:1194-1199 | returns the dotted names of every entry, in the order `getAllKeys` visits them |
| Store.Confy.Size | confy.go:1243-1248 | the number of dotted names `GetKeys` returns |
| Store.Confy.GetInt | confy.go:157-175 | the stored integer, or the first default (0 without one) |
| Store.CollectKeys | confy.go:2384-2401 | the recursive key walk loop equals its specification |
| StoreFacts.GetAfterSet | confy.go:1523-1565 | reading a path right after writing it returns the value written |
| StoreFacts.SetLeavesOtherPaths | confy.go:1545-1565 | a write leaves every path that leaves the written one as it was |
| StoreFacts.SetThenGet | confy.go:1062-1079 | `Get(key)` after `Set(key, v)` returns v |
| StoreFacts.SetTopLevel | confy.go:1545-1565 | a key without dots just overwrites the top-level entry |
| StoreFacts.SetReplacesScalar | confy.go:1553-1559 | writing below a scalar replaces the scalar with a map |
| StoreFacts.IsSetCases | confy.go:1224-1240 | set implies present; 0 and false are set; "", `[]any{}` and an empty map are not; an empty `[]string` is |
| StoreFacts.GetIntCases | confy.go:157-175 | `GetInt` after `Set` returns the integer; a missing or non-integer key gives the default, or 0 without one |
| StoreFacts.GetKeysNamesEntries | confy.go:1194-1199 | in a tree with dot-free keys, `GetKeys` emits exactly the dotted names of its entries, and each splits back into the path of an entry |
| StoreFacts.FlatSize | confy.go:1243-1248 | `Size` of a map without nested maps is its number of keys |
| Binding.Zero | confy.go:1750-1804 | the zero value of a kind conforms to the kind |
| Binding.StructToMapOf | confy.go:1573-1590 | the conversion fails exactly for a nil struct pointer or a value that is not a struct |
| Binding.DefaultField | confy.go:2076-2114 | applying a field's `default` tag keeps the field value in the field's kind |
| Binding.SetMapValue | confy.go:1819-1888 | on success the map field holds the map; on failure it is unchanged |
| Binding.BindValue | confy.go:1660-1692 | a non-struct target binds without error if and only if the value is assignable or convertible (a string converts to `[]byte` as its UTF-8 bytes and to `[]rune` as its code points); a struct target needs a map, and a struct that has its type keeps it |
| Binding.Bind | confy.go:1086-1102 | a missing key yields "no configuration found" and leaves the target alone; a struct that has its type keeps it |
| Binding.DeepMergeValues | confy.go:2052-2073 | nil config gives the default; two maps deep-merge with the config winning; otherwise the config wins |
| Binding.MatchFold | confy.go:2036-2048 | a case-insensitive match returns the value of a key whose lowercase form equals the name's; none only when no key matches |
| Binding.FirstMissing | confy.go:1995-2006 | the error names a required field not found; none is reported only when every required field was found |
| Binding.MergeMapValue | confy.go:2287-2352 | on success the map field holds the old entries overlaid with the new ones |
| Binding.BindValueWithOptions | confy.go:1890-1940 | a non-struct target binds as plain `bindValue` does; a struct that has its type keeps it |
| Binding.BindWithOptions | confy.go:1116-1155 | a missing key with no default, `UseDefaults` off and `ErrorOnMissing` on is an error; a struct that has its type keeps it |
| Binder.Target.constructor | confy.go:1086 | a target pointer holds its kind and value, and the value has the target's type (`Valid`) |
| Binder.ApplyStructDefaults | confy.go:2076-2114 | the loop over the fields computes `DefaultsFrom`, stopping at the first failing default |
| Binder.SetFieldValue | confy.go:1750-1804 | writing one field equals `SetField` |
| Binder.SetScalarValue | confy.go:1750-1804 | the scalar cases of `setFieldValue` |
| Binder.SetMapValue | confy.go:1819-1888 | the loop builds the map field as `Binding.SetMapValue` |
| Binder.SetSliceValue | confy.go:1806-1817 | the element loop computes `SliceFrom` |
| Binder.BindMapToStruct | confy.go:1694-1732 | the field loop computes `BindMapToStruct`, including partial writes before an error |
| Binder.BindValue | confy.go:1660-1692 | a nil target is "target must be a pointer"; otherwise the target ends as `Binding.BindValue` says, and a struct target stays `Valid` |
| Binder.Bind | confy.go:1086-1102 | a missing key is "no configuration found", even for a nil target; otherwise a nil target is "target must be a pointer"; a non-nil target ends as `Binding.Bind` says, and a struct target stays `Valid` |
| Binder.StructToMap | confy.go:1592-1656 | the field loop builds `StructToMap` |
| Binder.StructToMapOf | confy.go:1573-1658 | equals `StructToMapOf` |
| Binder.DeepMergeValues | confy.go:2052-2073 | equals `DeepMergeValues` |
| Binder.FindIgnoreCase | confy.go:2036-2048 | the key scan equals `Find` with case folding |
| Binder.BindMapToStructWithOptions | confy.go:1942-2009 | the field loop and the required check compute `BindOptsFrom` |
| Binder.BindFieldWithOptions | confy.go:1951-1992 | one field step of the loop: stop with the error, or continue from the next field |
| Binder.MissingRequired | confy.go:1995-2006 | reports the first required field not found, when `ErrorOnMissing` is set |
| Binder.SetFieldValueWithDeepMerge | confy.go:2203-2284 | writing one field under the options equals `SetFieldDeep` |
| Binder.SetScalarWithDeepMerge | confy.go:2203-2284 | the scalar cases of `setFieldValueWithDeepMerge` |
| Binder.MergeMapValue | confy.go:2287-2352 | equals `Binding.MergeMapValue` |
| Binder.MergeStructValue | confy.go:2354-2382 | equals `Binding.MergeStructValue` |
| Binder.BindValueWithOptions | confy.go:1890-1940 | a nil target is an error; otherwise the target ends as `Binding.BindValueWithOptions` says, and a struct target stays `Valid` |
| Binder.BindStructWithOptions | confy.go:1910-1938 | the struct case: defaults, then the deep merge with the default value, then the field loop |
| Binder.BindWithOptions | confy.go:1116-1155 | a nil target is "no configuration found" when the key, the default and `UseDefaults` give nothing to bind and `ErrorOnMissing` is set, and "target must be a pointer" otherwise; a non-nil target ends as `Binding.BindWithOptions` says, and a struct target stays `Valid` |
| Binder.BindWithDefault | confy.go:1105-1113 | `BindWithDefault` is `BindWithOptions` with the default value and default options; a nil target is "target must be a pointer", and a struct target stays `Valid` |
| BindingFacts.NamesAgree | confy.go:1734-1748 | for fields with plain tags, every naming rule gives the same map key |
| BindingFacts.DashTags | confy.go:1734-1748 | a yaml tag "-" does not hide a field from binding (the json name is used) but does hide it from `structToMap`; "-," names the field "-" |
| BindingFacts.DefaultsFromAt | confy.go:2076-2114 | the defaults succeed if and only if every field's default succeeds, and then each field holds its own default |
| BindingFacts.DefaultsIdempotent | confy.go:2076-2114 | applying the `default` tags twice equals applying them once |
| BindingFacts.DefaultFieldIdempotent | confy.go:2117-2200 | a field's default applied twice equals applying it once |
| BindingFacts.DefaultsKeepSetFields | confy.go:2085-2110 | unexported fields and fields already non-zero keep their values; an empty string field takes its usable `default` tag |
| BindingFacts.BindFromAt | confy.go:1694-1732 | binding succeeds if and only if every field step succeeds, and then each field holds its own step's result |
| BindingFacts.RequiredFieldMissing | confy.go:1712-1716 | a required field absent from the map is "required field missing" when the fields before it bind |
| BindingFacts.StructToMapEntries | confy.go:1592-1656 | the keys of `structToMap` are exactly the names of exported, not skipped fields, and a uniquely named key holds its field's value |
| BindingFacts.SetFieldOfOwnValue | confy.go:1750-1804 | writing a scalar field from its own value as `structToMap` renders it gives back that value |
| BindingFacts.BindStructToMapRoundTrip | confy.go:1573-1732 | binding `structToMap(s)` into a struct of exported scalar fields with distinct plain names gives back s, without error |
| BindingFacts.AssignOwnValue | confy.go:1660-1692 | a non-struct datum rendered as a value binds back to itself |
| Text.Utf8RoundTrip | confy.go:1677-1678 | decoding the UTF-8 bytes of a character gives back its code point |
| Text.Utf8Bytes | confy.go:1677-1678 | a string of n characters has between n and 4n bytes, each below 0x100 |
| Text.AsciiBytes | confy.go:1677-1678 | an ASCII string's bytes are its character codes, one per character |
| BindingFacts.StringIntoSlices | confy.go:1677-1678 | a string always converts to `[]byte`, with at least one byte per character and exactly its codes when it is ASCII; it converts to `[]rune` as one code point per character; it converts to no other slice type |
| BindingFacts.StringToBytesExample | confy.go:1677-1678 | "ab" becomes the bytes 97, 98 |
| BindingFacts.StringToBytesAccentExample | confy.go:1677-1678 | "é" becomes the bytes 0xC3, 0xA9 and the rune 0xE9 |
| BindingFacts.BindValueErrors | confy.go:1660-1692 | a map into a string fails to convert; nil into an int panics; a string into a struct is unsupported; a missing key is "no configuration found" |
| BindingFacts.BindPrecedence | confy.go:1694-1732 | for string fields, each field holds the configured string when its name is configured, and otherwise its `default` tag outcome |
| BindingFacts.BindOptsFromAt | confy.go:1942-2009 | binding with options succeeds if and only if every field step and the required check succeed, and then each field holds its step's result |
| BindingFacts.MergedString | confy.go:2052-2073 | in the merged default and config maps, a config entry wins and a default fills in a missing one |
| BindingFacts.BindOptsPrecedence | confy.go:1890-2009 | with a default map, each string field takes the configured value, else the default value, else its `default` tag |
| BindingFacts.BindWithDefaultPrecedence | confy.go:1105-1155 | `BindWithDefault` gives the same precedence at a key; a missing key takes the default value alone |
| BindingFacts.TagsDefaultFlattened | confy.go:1592-1656 | a default struct's `[]string` field becomes a `[]string` entry of the default map |
| BindingFacts.DurationStringUnderOptions | confy.go:2214-2221 | a Duration field takes the duration "45s" from `setFieldValue`, while under options the same string leaves it unchanged, and is an error exactly when `ErrorOnMissing` is set |
| BindingFacts.StringSliceDefaultDropped | confy.go:2250-2253 | a `[]string` field of a default struct is not copied into the target: only `[]any` is accepted by the slice case |
| BindingFacts.ConvertedOwnValue | confy.go:1592-1656 | a string, integer or bool field's value, as `structToMap` stores it, converts back to that value under `setFieldValueWithDeepMerge` |
| BindingFacts.StructDefaultEntry | confy.go:1592-1656 | the flattened default struct holds each field's value under its name, and the data merged over it holds the configured value where there is one, else the default's |
| BindingFacts.BindWithStructDefault | confy.go:1105-1155 | for `BindWithDefault` with a struct default over string, integer and bool fields with distinct plain names: a failing `default` tag is returned as is, data that is not a map is an error, and otherwise there is no error and each field is the configured value when it converts, its default-struct value when the name is not configured, and its `default`-tag outcome when the configured value does not convert. `time.Duration` fields are excluded: see `DurationDefaultDropped` |
| BindingFacts.DurationValueUnderOptions | internal/converter.go:96-134 | a `time.Duration` value is taken as is by `setFieldValue`, while under options it leaves the field unchanged, and is an error exactly when `ErrorOnMissing` is set |
| BindingFacts.DurationDefaultDropped | confy.go:2214-2221 | a `time.Duration` field of a default struct (30 seconds) is not copied into the target, which keeps zero with no error |

## Left out

- Floating point: `ToFloat32`, `ToFloat64`, `ToFloat64Slice`, `convertToFloat` and float fields. Sizes with a fractional number (`"1.5GB"`) are rejected by the model where `strconv.ParseFloat` would accept them. Durations given as float seconds are also left out.
- Durations.ParseDuration: the fractional part is truncated exactly, whereas Go rounds through float64; the two can differ in the last nanosecond.
- Converter.Scaled: the number part is read as decimal digits only. `strconv.ParseFloat` also accepts a sign ("+5K"), an exponent ("1E3K"), a fraction, hexadecimal floats, "Inf" and "NaN". These are rejected by the model.
- Converter.ParseSizeString: Go multiplies in float64, which rounds above 2^53, and its `uint64(...)` conversion of a too large float is implementation-specific. The model computes the exact product and rejects one that does not fit in uint64.
- ConverterFacts.SizeRoundTrip: stated only for products up to 2^53, where float64 arithmetic is exact, because the model does not round.
- Binding.FirstMissing: the error names the first missing name in the order of `BindOptions.Required`. Go iterates the `requiredFields` map (confy.go:2002-2006), so the name Go reports is unspecified when several are missing.
- Store.Lookup: `map[any]any` nodes are not part of the value type, so the model does not capture that `getValue` also descends them (confy.go:1535-1536).
- `ToTime` and `time.Time` fields, because time formats and parsing are outside the model.
- Pointer fields of bound structs, which `setFieldValue` allocates and binds through. Only the bound target is a pointer (`Binder.Target`). Fields of type `any` are modelled (`KAny`); `setFieldValue` has no case for them and leaves them alone.
- Converter.ToString: `%v` formatting is modelled for the value types of the model. Go's formatting of arbitrary other types (`VOpaque`) is taken as given text.
- The general reflective branch of `DeepCopyValue` (`deepCopyReflect`) is modelled only for the slice types the model has (`[]bool` and `[]int64`; `[]string` and `[]int` have their own cases in `deepCopyValue`). Other named map and slice types are not part of the value type.
- Binding.IsZero / Binding.DefaultField: a nil slice or map and an empty one are the same datum. Go's `reflect.Value.IsZero` reports a non-nil empty slice or map as not zero (confy.go:2101, 2257, 2267, 2368), but the model treats it as zero. So a struct field pre-set to `[]string{}` with `default:"a"` becomes `["a"]` in the model, where Go keeps it empty.
- Binder.Target: a typed nil pointer (`(*T)(nil)`) is not represented. Go lets it past the pointer check and then panics on `Elem().Type()` (confy.go:1661-1673, and the same in `bindValueWithOptions`, confy.go:1890-1901). A null `Target` stands only for an argument that is not a pointer.
- Binder.Target: the bind methods promise to keep `Valid` only for struct targets. A `[]int` or `[]int64` value in the tree carries no bound on its items, so the model does not show that assigning one to a slice target stays within the element width.
- nil maps and slices nested inside the tree are not distinguished from empty ones. At the top level of the merge functions, nil is an `Option`.
- Go map iteration order is unspecified. Where it is observable, the model fixes one order:
  - `getAllKeys` walks the keys in sorted order;
  - a case-insensitive lookup with several matching keys takes the least one;
  - the unit table of `parseSizeString` is a parameter of `ParseSizeStringAsWritten`.
- Store.Confy.Set: Go shares nested maps between the tree and values read from it, so a later write can show through an earlier `Get`. The model treats the tree as a value.
- Concurrency (the `sync.RWMutex`), watchers and change callbacks, sources and loaders, environment variable expansion, secrets, validation, `Sub`, `Clone` and `MergeWith`. These are I/O or orchestration around the core, and are not part of this model.
- Case mapping in `strings.ToLower` and `strings.ToUpper` is modelled for ASCII only.
- Other typed getters (`GetString`, `GetInt8` … `GetUint64`, `GetBool`, `GetDuration`, the slice and map getters). They have the same shape as `GetInt`, which stands for them.
- The panics that Go's reflection raises are modelled only as an error value (`Panic`), not as unwinding.

## Findings

| source | as written | input that shows it | evidently intended | confidence | as-written member | corrected member |
|---|---|---|---|---|---|---|
| internal/converter.go:554-578 | the unit suffixes are tried in map iteration order, so "B" can be tried before "KB" | "10KB": when "B" is tried first, "10K" is not a number and the size is rejected | the longest matching unit wins, so "10KB" is 10240 bytes | not executed | ConverterFacts.TenKilobytesOrderDependent | ConverterFacts.SizeRoundTrip |

Further differences between the code and what its tests or documentation expect. Each is modelled as the code behaves, with the lemma that shows it:

- `ToStringSlice` does not split a comma-separated string (`ConverterFacts.StringSliceDoesNotSplit`), while confy_test.go:262 expects splitting.
- Integer narrowing wraps: int16(1000) becomes int8 -24 (`ConverterFacts.Int16ToInt8Wraps`), while confy_converters_test.go:63 expects 0.
- `getFieldName` falls through a yaml tag "-" to the next tag (`BindingFacts.DashTags`), while `structToMap` skips such a field.
- A `[]string` field of a struct passed as a default to `BindWithDefault` is dropped (`BindingFacts.StringSliceDefaultDropped`), because the slice case of `setFieldValueWithDeepMerge` accepts only `[]any`.
- `setFieldValueWithDeepMerge`, which `BindWithOptions` and `BindWithDefault` use, has no special case for `time.Duration` fields, unlike `setFieldValue`. A duration given as a string such as "30s" is not parsed. The field keeps its old value, or the bind fails when `ErrorOnMissing` is set (`BindingFacts.DurationStringUnderOptions`). A real `time.Duration` is dropped too: a struct default flattened by `structToMap` holds one, and `convertToInt` (internal/converter.go:96-134) has no `time.Duration` case, so a default of 30 seconds leaves the field at zero with no error (`BindingFacts.DurationValueUnderOptions`, `BindingFacts.DurationDefaultDropped`).
