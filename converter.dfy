/**
 * The type converter: coercion of a dynamically typed tree value into the
 * integer types of every width, bool, `time.Duration`, string, homogeneous
 * slices and byte sizes. Each conversion is the type switch of the source,
 * one `match` arm per case, returning a value or an error.
 */
module Converter {
  import opened Values
  import opened Text
  import opened Durations

  // ---------------------------------------------------------------------------
  // Integers
  // ---------------------------------------------------------------------------

  /**
   * `convertToInt[T]`: nil fails; every integer type and bool converts by
   * Go's conversion to T (wrapping modulo 2^w); a string goes through
   * `strconv.ParseInt(s, 10, 64)` first; anything else fails.
   */
  function ConvertToInt(v: Value, k: IntKind): (r: Result<int>)
    ensures r.Ok? ==> InSigned(r.value, k)
    ensures v.VNull? ==> r == Err(NilInput)
    ensures v.VInt? ==> r == Ok(NarrowSigned(v.i, k))
    ensures v.VUint? ==> r == Ok(NarrowSigned(v.u, k))
    ensures v.VBool? ==> r == Ok(if v.b then 1 else 0)
  {
    match v
    case VNull => Err(NilInput)
    case VInt(i, _) => Ok(NarrowSigned(i, k))
    case VUint(u, _) => Ok(NarrowSigned(u, k))
    case VBool(b) => Ok(if b then 1 else 0)
    case VStr(s) =>
      (match ParseInt(s)
       case Ok(i) => Ok(NarrowSigned(i, k))
       case Err(_) => Err(InvalidString(s)))
    case _ => Err(UnsupportedType)
  }

  /**
   * `convertToUint[T]`: like ConvertToInt, except that a negative signed
   * integer fails and a string goes through `strconv.ParseUint(s, 10, 64)`.
   */
  function ConvertToUint(v: Value, k: UintKind): (r: Result<nat>)
    ensures r.Ok? ==> InUnsigned(r.value, k)
    ensures v.VNull? ==> r == Err(NilInput)
    ensures v.VInt? ==> r == (if v.i < 0 then Err(NegativeValue) else Ok(NarrowUnsigned(v.i, k)))
    ensures v.VUint? ==> r == Ok(NarrowUnsigned(v.u, k))
    ensures v.VBool? ==> r == Ok(if v.b then 1 else 0)
  {
    match v
    case VNull => Err(NilInput)
    case VInt(i, _) => if i < 0 then Err(NegativeValue) else Ok(NarrowUnsigned(i, k))
    case VUint(u, _) => Ok(NarrowUnsigned(u, k))
    case VBool(b) => Ok(if b then 1 else 0)
    case VStr(s) =>
      (match ParseUint(s)
       case Ok(u) => Ok(NarrowUnsigned(u, k))
       case Err(_) => Err(InvalidString(s)))
    case _ => Err(UnsupportedType)
  }

  // ---------------------------------------------------------------------------
  // Strings
  // ---------------------------------------------------------------------------

  /** The elements of a slice, each already rendered, separated by spaces and in brackets. */
  function Bracketed(items: seq<string>): string {
    "[" + Join(items, ' ') + "]"
  }

  /**
   * `fmt.Sprintf("%v", v)`: nil is `<nil>`, a map is `map[k:v ...]` with its
   * keys in ascending order, a slice is `[a b ...]`, a duration prints
   * through its String method, and a value of any other type by its own
   * rendering.
   */
  function FormatV(v: Value): string
  {
    match v
    case VNull => "<nil>"
    case VStr(s) => s
    case VBool(b) => FormatBool(b)
    case VInt(i, _) => FormatInt(i)
    case VUint(u, _) => FormatNat(u)
    case VDur(d) => DurationString(d)
    case VMap(m) =>
      var keys := SortedKeys(m.Keys);
      "map" + Bracketed(seq(|keys|, i requires 0 <= i < |keys| => keys[i] + ":" + FormatV(m[keys[i]])))
    case VList(items) => Bracketed(seq(|items|, i requires 0 <= i < |items| => FormatV(items[i])))
    case VStrs(xs) => Bracketed(xs)
    case VInts(xs) => Bracketed(seq(|xs|, i requires 0 <= i < |xs| => FormatInt(xs[i])))
    case VBools(xs) => Bracketed(seq(|xs|, i requires 0 <= i < |xs| => FormatBool(xs[i])))
    case VInt64s(xs) => Bracketed(seq(|xs|, i requires 0 <= i < |xs| => FormatInt(xs[i])))
    case VOpaque(_, text) => text
  }

  /** `TypeConverter.ToString`: total; nil is the empty string, every other value its `%v` form. */
  function ToString(v: Value): (s: string)
    ensures v.VNull? ==> s == ""
    ensures v.VStr? ==> s == v.s
    ensures !v.VNull? ==> s == FormatV(v)
  {
    match v
    case VNull => ""
    case VStr(s) => s
    case VInt(i, _) => FormatInt(i)
    case VUint(u, _) => FormatNat(u)
    case VBool(b) => FormatBool(b)
    case VDur(d) => DurationString(d)
    case _ => FormatV(v)
  }

  // ---------------------------------------------------------------------------
  // Bool
  // ---------------------------------------------------------------------------

  const TRUE_ALIASES: set<string> := {"yes", "y", "on", "1"}
  const FALSE_ALIASES: set<string> := {"no", "n", "off", "0", ""}

  /**
   * `TypeConverter.ToBool`: a bool passes; an integer is true unless its
   * decimal form is "0"; a string is read by `strconv.ParseBool`, then by
   * the case-sensitive alias table; anything else fails.
   */
  function ToBool(v: Value): (r: Result<bool>)
    ensures v.VNull? ==> r == Err(NilInput)
    ensures v.VBool? ==> r == Ok(v.b)
  {
    match v
    case VNull => Err(NilInput)
    case VBool(b) => Ok(b)
    case VInt(i, _) => Ok(FormatInt(i) != "0")
    case VUint(u, _) => Ok(FormatNat(u) != "0")
    case VStr(s) =>
      (match ParseBool(s)
       case Ok(b) => Ok(b)
       case Err(_) =>
         if s in TRUE_ALIASES then Ok(true)
         else if s in FALSE_ALIASES then Ok(false)
         else Err(InvalidString(s)))
    case _ => Err(UnsupportedType)
  }

  // ---------------------------------------------------------------------------
  // Duration
  // ---------------------------------------------------------------------------

  /**
   * `TypeConverter.ToDuration`: a duration passes; an integer n is n seconds,
   * computed in `int64` (`time.Duration(i) * time.Second`, which wraps); a
   * string goes through the duration grammar; anything else fails.
   */
  function ToDuration(v: Value): (r: Result<int>)
    ensures r.Ok? ==> InSigned(r.value, Int64) || v.VDur?
    ensures v.VNull? ==> r == Err(NilInput)
    ensures v.VDur? ==> r == Ok(v.ns)
  {
    match v
    case VNull => Err(NilInput)
    case VDur(d) => Ok(d)
    case VInt(i, _) => Ok(Wrap64(Wrap64(i) * SECOND))
    case VUint(u, _) => Ok(Wrap64(Wrap64(u) * SECOND))
    case VStr(s) =>
      (match ParseDuration(s)
       case Ok(d) => Ok(d)
       case Err(_) => Err(InvalidString(s)))
    case _ => Err(UnsupportedType)
  }

  // ---------------------------------------------------------------------------
  // Slices
  // ---------------------------------------------------------------------------

  /**
   * The element loop of the `ToXSlice` converters over `items[..n]`: every
   * element converted by `f` in order, or the error of the first element
   * that fails, wrapped with its index.
   */
  function ConvertPrefix<T>(items: seq<Value>, n: nat, f: Value -> Result<T>): (r: Result<seq<T>>)
    requires n <= |items|
    ensures r.Ok? <==> forall i | 0 <= i < n :: f(items[i]).Ok?
    ensures r.Ok? ==> |r.value| == n && forall i | 0 <= i < n :: r.value[i] == f(items[i]).value
    ensures r.Err? ==> exists i | 0 <= i < n ::
      f(items[i]).Err? && r.error == ElementError(i, f(items[i]).error)
      && forall j | 0 <= j < i :: f(items[j]).Ok?
  {
    if n == 0 then Ok([])
    else
      match ConvertPrefix(items, n - 1, f)
      case Err(e) => Err(e)
      case Ok(xs) =>
        match f(items[n - 1])
        case Err(e) => Err(ElementError(n - 1, e))
        case Ok(x) => Ok(xs + [x])
  }

  /** Every element of a `[]any`, converted by `f`, or the first element's error. */
  function ConvertEach<T>(items: seq<Value>, f: Value -> Result<T>): Result<seq<T>> {
    ConvertPrefix(items, |items|, f)
  }

  /** `TypeConverter.ToStringSlice`: a lone string becomes a one-element slice (no splitting). */
  function ToStringSlice(v: Value): (r: Result<seq<string>>)
    ensures v.VNull? ==> r == Err(NilInput)
    ensures v.VStrs? ==> r == Ok(v.strs)
    ensures v.VStr? ==> r == Ok([v.s])
    ensures v.VList? ==>
      r.Ok? && |r.value| == |v.items| && forall i | 0 <= i < |v.items| :: r.value[i] == ToString(v.items[i])
  {
    match v
    case VNull => Err(NilInput)
    case VStrs(xs) => Ok(xs)
    case VList(items) => Ok(seq(|items|, i requires 0 <= i < |items| => ToString(items[i])))
    case VStr(s) => Ok([s])
    case _ => Err(UnsupportedType)
  }

  /** `TypeConverter.ToIntSlice`: `[]int` passes; `[]any` element by element with ToInt. */
  function ToIntSlice(v: Value): (r: Result<seq<int>>)
    ensures v.VNull? ==> r == Err(NilInput)
    ensures v.VInts? ==> r == Ok(v.ints)
    ensures v.VList? ==> r == ConvertEach(v.items, x => ConvertToInt(x, Int))
  {
    match v
    case VNull => Err(NilInput)
    case VInts(xs) => Ok(xs)
    case VList(items) => ConvertEach(items, x => ConvertToInt(x, Int))
    case _ => Err(UnsupportedType)
  }

  /** `TypeConverter.ToInt64Slice`: `[]int64` passes; `[]any` element by element with ToInt64. */
  function ToInt64Slice(v: Value): (r: Result<seq<int>>)
    ensures v.VNull? ==> r == Err(NilInput)
    ensures v.VInt64s? ==> r == Ok(v.int64s)
    ensures v.VList? ==> r == ConvertEach(v.items, x => ConvertToInt(x, Int64))
  {
    match v
    case VNull => Err(NilInput)
    case VInt64s(xs) => Ok(xs)
    case VList(items) => ConvertEach(items, x => ConvertToInt(x, Int64))
    case _ => Err(UnsupportedType)
  }

  /** `TypeConverter.ToBoolSlice`: `[]bool` passes; `[]any` element by element with ToBool. */
  function ToBoolSlice(v: Value): (r: Result<seq<bool>>)
    ensures v.VNull? ==> r == Err(NilInput)
    ensures v.VBools? ==> r == Ok(v.bools)
    ensures v.VList? ==> r == ConvertEach(v.items, ToBool)
  {
    match v
    case VNull => Err(NilInput)
    case VBools(xs) => Ok(xs)
    case VList(items) => ConvertEach(items, ToBool)
    case _ => Err(UnsupportedType)
  }

  // ---------------------------------------------------------------------------
  // Sizes
  // ---------------------------------------------------------------------------

  /** The unit table of `parseSizeString`: binary units ending in B, decimal single letters. */
  function Multiplier(unit: string): Option<nat> {
    if unit == "B" then Some(1)
    else if unit == "KB" then Some(1024)
    else if unit == "MB" then Some(1024 * 1024)
    else if unit == "GB" then Some(1024 * 1024 * 1024)
    else if unit == "TB" then Some(1024 * 1024 * 1024 * 1024)
    else if unit == "PB" then Some(1024 * 1024 * 1024 * 1024 * 1024)
    else if unit == "K" then Some(1000)
    else if unit == "M" then Some(1000 * 1000)
    else if unit == "G" then Some(1000 * 1000 * 1000)
    else if unit == "T" then Some(1000 * 1000 * 1000 * 1000)
    else if unit == "P" then Some(1000 * 1000 * 1000 * 1000 * 1000)
    else None
  }

  /** The keys of the unit table, in the order the source declares them. */
  const UNITS: seq<string> := ["B", "KB", "MB", "GB", "TB", "PB", "K", "M", "G", "T", "P"]

  /** The unit names are exactly the keys of the table. */
  lemma UnitsAreTheTable(u: string)
    ensures u in UNITS <==> Multiplier(u).Some?
  {
  }

  /** One order in which Go may visit the keys of the unit table: each unit exactly once. */
  ghost predicate IsUnitOrder(order: seq<string>) {
    (forall i | 0 <= i < |order| :: Multiplier(order[i]).Some?)
    && (forall u | u in UNITS :: u in order)
    && (forall i, j | 0 <= i < j < |order| :: order[i] != order[j])
  }

  /** The position of the first unit of `order` that `t` ends with, or |order| if none. */
  function FirstSuffixIndex(t: string, order: seq<string>): (k: nat)
    ensures k <= |order|
    ensures k < |order| ==> HasSuffix(t, order[k])
    ensures forall i | 0 <= i < k :: !HasSuffix(t, order[i])
  {
    if |order| == 0 then 0
    else if HasSuffix(t, order[0]) then 0
    else 1 + FirstSuffixIndex(t, order[1..])
  }

  /** The first unit of `order` that `t` ends with: the unit the loop over the table stops at. */
  function FirstSuffix(t: string, order: seq<string>): (r: Option<string>)
    ensures r.Some? ==> r.value in order && HasSuffix(t, r.value)
    ensures r.None? <==> forall i | 0 <= i < |order| :: !HasSuffix(t, order[i])
  {
    var k := FirstSuffixIndex(t, order);
    if k < |order| then Some(order[k]) else None
  }

  /** The longest unit that `t` ends with. */
  function LongestUnit(t: string): (r: Option<string>)
    ensures r.Some? ==> Multiplier(r.value).Some? && HasSuffix(t, r.value)
  {
    if |t| >= 2 && t[|t| - 1] == 'B' && IsScaleLetter(t[|t| - 2]) then Some(t[|t| - 2..])
    else if |t| >= 1 && (t[|t| - 1] == 'B' || IsScaleLetter(t[|t| - 1])) then Some(t[|t| - 1..])
    else None
  }

  /** The letters that name a power of 1000 or of 1024. */
  predicate IsScaleLetter(c: char) {
    c == 'K' || c == 'M' || c == 'G' || c == 'T' || c == 'P'
  }

  /**
   * The number in front of a unit of `mult` bytes, scaled. The number is
   * read as a plain decimal; a scaled value of 2^64 or more, which Go's
   * float-to-uint64 conversion leaves undefined, is an error here.
   */
  function Scaled(t: string, numberStr: string, mult: nat): (r: Result<nat>)
    ensures r.Ok? <==> |numberStr| > 0 && AllDigits(numberStr) && DecimalValue(numberStr) * mult < TWO_64
    ensures r.Ok? ==> r.value == DecimalValue(numberStr) * mult
    ensures r.Err? ==> r == Err(InvalidSize(t))
  {
    if |numberStr| == 0 || !AllDigits(numberStr) then Err(InvalidSize(t))
    else
      var product := Times(DecimalValue(numberStr), mult);
      if product >= TWO_64 then Err(InvalidSize(t)) else Ok(product)
  }

  function Times(a: nat, b: nat): nat {
    a * b
  }

  /** The size text normalised as `parseSizeString` does: upper case, then trimmed. */
  function NormalizeSize(s: string): string {
    TrimSpace(ToUpper(s))
  }

  /** What `parseSizeString` does once a unit (or none) has been chosen. */
  function SizeWithUnit(t: string, unit: Option<string>): (r: Result<nat>)
    requires unit.Some? ==> Multiplier(unit.value).Some? && HasSuffix(t, unit.value)
    ensures t == "" ==> r == Err(EmptySize)
    ensures r.Ok? ==> r.value < TWO_64
  {
    if t == "" then Err(EmptySize)
    else if unit.Some? then
      Scaled(t, TrimSpace(TrimSuffix(t, unit.value)), Multiplier(unit.value).value)
    else
      match ParseUint(t)
      case Ok(n) => Ok(n)
      case Err(_) => Err(InvalidSize(t))
  }

  /**
   * `parseSizeString` as written: the first unit, in the map's iteration
   * order `order`, that the text ends with decides the parse.
   */
  function ParseSizeStringAsWritten(s: string, order: seq<string>): (r: Result<nat>)
    requires IsUnitOrder(order)
    ensures NormalizeSize(s) == "" ==> r == Err(EmptySize)
  {
    var t := NormalizeSize(s);
    var unit := FirstSuffix(t, order);
    SizeWithUnit(t, unit)
  }

  /** `parseSizeString` with the longest matching unit, whatever the iteration order. */
  function ParseSizeString(s: string): (r: Result<nat>)
    ensures NormalizeSize(s) == "" ==> r == Err(EmptySize)
    ensures r.Ok? ==> r.value < TWO_64
  {
    var t := NormalizeSize(s);
    SizeWithUnit(t, LongestUnit(t))
  }

  /**
   * `TypeConverter.ToSizeInBytes`: `uint64` and `uint` pass, non-negative
   * `int` and `int64` pass, a string is parsed; anything else (nil included)
   * fails.
   */
  function ToSizeInBytes(v: Value): (r: Result<nat>)
    ensures v.VStr? ==> r == ParseSizeString(v.s)
    ensures (v.VInt? && (v.ik == Int || v.ik == Int64)) ==> (r.Ok? <==> v.i >= 0)
    ensures v.VNull? ==> r.Err?
  {
    match v
    case VUint(u, Uint64) => Ok(u)
    case VUint(u, Uint) => Ok(u)
    case VInt(i, Int) => if i < 0 then Err(NegativeValue) else Ok(i)
    case VInt(i, Int64) => if i < 0 then Err(NegativeValue) else Ok(i)
    case VStr(s) => ParseSizeString(s)
    case _ => Err(UnsupportedType)
  }
}
