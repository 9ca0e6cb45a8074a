/**
 * The dynamically typed value that flows through the configuration tree,
 * the integer widths of the Go types it can hold, and the error and wrapper
 * types shared by every module.
 *
 * Floating-point values are not part of this model. Go's `int` and `uint`
 * are taken to be 64 bits wide.
 */
module Values {

  datatype Option<+T> = None | Some(value: T)

  datatype Result<+T> = Ok(value: T) | Err(error: Error)

  /** The kinds of failure the converter, the merge engine and the binder report. */
  datatype Error =
    | NilInput                          // "cannot convert nil to ..."
    | InvalidString(input: string)      // a strconv or duration parse failed
    | NegativeValue                     // a negative value where an unsigned one is needed
    | UnsupportedType                   // the dynamic type is not handled by the type switch
    | EmptySize                         // "empty size string"
    | InvalidSize(input: string)        // "invalid size format"
    | ElementError(index: nat, cause: Error)
    | NotPointer                        // "target must be a pointer"
    | CannotConvert                     // reflect assignability / convertibility failed
    | UnsupportedBinding                // "unsupported value type for binding"
    | RequiredMissing(name: string)
    | NoConfiguration(key: string)
    | DefaultFailed(field: string, cause: Error)
    | InvalidDefault(tag: string)
    | UnsupportedDefault
    | NilPointer                        // "cannot convert nil pointer to map"
    | NotAStruct                        // "value must be a struct"
    | Panic                             // the Go code panics inside reflect

  /** Signed integer types of Go: `int` (64 bits here), `int8` ... `int64`. */
  datatype IntKind = Int | Int8 | Int16 | Int32 | Int64

  /** Unsigned integer types of Go: `uint` (64 bits here), `uint8` ... `uint64`. */
  datatype UintKind = Uint | Uint8 | Uint16 | Uint32 | Uint64

  const TWO_64: nat := 0x1_0000_0000_0000_0000
  const TWO_63: nat := 0x8000_0000_0000_0000

  function SignedModulus(k: IntKind): (m: nat)
    ensures m == 0x100 || m == 0x1_0000 || m == 0x1_0000_0000 || m == TWO_64
  {
    match k
    case Int8 => 0x100
    case Int16 => 0x1_0000
    case Int32 => 0x1_0000_0000
    case Int64 => TWO_64
    case Int => TWO_64
  }

  function UnsignedModulus(k: UintKind): (m: nat)
    ensures m == 0x100 || m == 0x1_0000 || m == 0x1_0000_0000 || m == TWO_64
  {
    match k
    case Uint8 => 0x100
    case Uint16 => 0x1_0000
    case Uint32 => 0x1_0000_0000
    case Uint64 => TWO_64
    case Uint => TWO_64
  }

  /** 2^(w-1) for a signed type of width w: the bound of its two's-complement range. */
  function SignedHalf(k: IntKind): (h: nat)
    ensures h * 2 == SignedModulus(k)
  {
    match k
    case Int8 => 0x80
    case Int16 => 0x8000
    case Int32 => 0x8000_0000
    case Int64 => TWO_63
    case Int => TWO_63
  }

  predicate InSigned(x: int, k: IntKind) {
    -(SignedHalf(k) as int) <= x < SignedHalf(k)
  }

  predicate InUnsigned(x: int, k: UintKind) {
    0 <= x < UnsignedModulus(k)
  }

  /**
   * Go's conversion of an integer to a signed type of width w: keep the low
   * w bits and read them in two's complement.
   */
  function NarrowSigned(x: int, k: IntKind): (r: int)
    ensures InSigned(r, k)
    ensures InSigned(x, k) ==> r == x
  {
    var m := SignedModulus(k);
    var low := x % m;
    if low >= SignedHalf(k) then low - m else low
  }

  /** Go's conversion of an integer to an unsigned type of width w: keep the low w bits. */
  function NarrowUnsigned(x: int, k: UintKind): (r: nat)
    ensures InUnsigned(r, k)
    ensures InUnsigned(x, k) ==> r == x
  {
    x % UnsignedModulus(k)
  }

  /** An `int64` read back from any integer (Go's `int64(x)` on an integer). */
  function Wrap64(x: int): (r: int)
    ensures InSigned(r, Int64)
  {
    NarrowSigned(x, Int64)
  }

  /**
   * The dynamic value stored in the configuration tree (Go's `any`).
   * VMap is `map[string]any`, VList is `[]any`; VStrs, VInts, VBools and
   * VInt64s are the native slices `[]string`, `[]int`, `[]bool`, `[]int64`.
   * VDur is a `time.Duration` in nanoseconds. VOpaque stands for a value of
   * any other type (a struct, a pointer, ...), carrying its type name and its
   * `%v` rendering; no type switch of the core names such a type.
   */
  datatype Value =
    | VNull
    | VStr(s: string)
    | VBool(b: bool)
    | VInt(i: int, ik: IntKind)
    | VUint(u: nat, uk: UintKind)
    | VDur(ns: int)
    | VMap(m: map<string, Value>)
    | VList(items: seq<Value>)
    | VStrs(strs: seq<string>)
    | VInts(ints: seq<int>)
    | VBools(bools: seq<bool>)
    | VInt64s(int64s: seq<int>)
    | VOpaque(typeName: string, text: string)

  /** Every integer carried by the value fits the width of its Go type. */
  predicate WellFormed(v: Value) {
    match v
    case VInt(i, k) => InSigned(i, k)
    case VUint(u, k) => InUnsigned(u, k)
    case VDur(ns) => InSigned(ns, Int64)
    case VMap(m) => forall key | key in m :: WellFormed(m[key])
    case VList(items) => forall i | 0 <= i < |items| :: WellFormed(items[i])
    case VInts(xs) => forall i | 0 <= i < |xs| :: InSigned(xs[i], Int)
    case VInt64s(xs) => forall i | 0 <= i < |xs| :: InSigned(xs[i], Int64)
    case _ => true
  }

  /** A configuration tree: the top-level `map[string]any`. */
  type Tree = map<string, Value>
}
