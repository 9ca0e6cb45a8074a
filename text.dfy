/**
 * The pieces of Go's `strings` and `strconv` packages that the core relies
 * on, written out over `seq<char>`: splitting on a separator, trimming,
 * ASCII case mapping, suffix tests, decimal formatting and the base-10
 * integer and boolean parsers.
 */
module Text {
  import opened Values

  // ---------------------------------------------------------------------------
  // strings.Split with a one-character separator, and its inverse
  // ---------------------------------------------------------------------------

  /** `strings.Split(s, sep)`: the pieces between separators; never empty. */
  function Split(s: string, sep: char): (parts: seq<string>)
    ensures |parts| >= 1
    ensures forall i | 0 <= i < |parts| :: sep !in parts[i]
    decreases |s|
  {
    if sep !in s then [s]
    else
      var i := IndexOf(s, sep);
      [s[..i]] + Split(s[i + 1..], sep)
  }

  /** The position of the first occurrence of `c` in `s` (`strings.Index`). */
  function IndexOf(s: string, c: char): (i: nat)
    requires c in s
    ensures i < |s| && s[i] == c && c !in s[..i]
  {
    if s[0] == c then 0 else 1 + IndexOf(s[1..], c)
  }

  lemma {:induction false} IndexOfFirst(s: string, c: char, j: nat)
    requires j < |s| && s[j] == c && c !in s[..j]
    ensures IndexOf(s, c) == j
  {
    if j > 0 {
      assert s[0] in s[..j];
      assert s[1..][j - 1] == c;
      assert s[1..][..j - 1] == s[..j][1..];
      IndexOfFirst(s[1..], c, j - 1);
    }
  }

  /** `strings.Join(parts, string(sep))`. */
  function Join(parts: seq<string>, sep: char): string
  {
    if |parts| == 0 then ""
    else if |parts| == 1 then parts[0]
    else parts[0] + [sep] + Join(parts[1..], sep)
  }

  /** Joining the pieces of a split gives back the string. */
  lemma {:induction false} JoinSplit(s: string, sep: char)
    ensures Join(Split(s, sep), sep) == s
    decreases |s|
  {
    if sep in s {
      var i := IndexOf(s, sep);
      var tail := Split(s[i + 1..], sep);
      assert Split(s, sep) == [s[..i]] + tail;
      JoinSplit(s[i + 1..], sep);
      calc {
        Join(Split(s, sep), sep);
        s[..i] + [sep] + Join(tail, sep);
        s[..i] + [sep] + s[i + 1..];
        s;
      }
    }
  }

  /** Splitting a join of separator-free pieces gives back the pieces. */
  lemma {:induction false} SplitJoin(parts: seq<string>, sep: char)
    requires |parts| >= 1
    requires forall i | 0 <= i < |parts| :: sep !in parts[i]
    ensures Split(Join(parts, sep), sep) == parts
  {
    if |parts| > 1 {
      var rest := Join(parts[1..], sep);
      var s := parts[0] + [sep] + rest;
      assert s[|parts[0]|] == sep;
      assert s[..|parts[0]|] == parts[0];
      assert sep in s;
      IndexOfFirst(s, sep, |parts[0]|);
      assert s[|parts[0]| + 1..] == rest;
      SplitJoin(parts[1..], sep);
    }
  }

  /** The part of a struct tag before its first comma (`strings.Split(tag, ",")[0]`). */
  function TagName(tag: string): (name: string)
    ensures ',' !in name
    ensures name <= tag
    ensures ',' !in tag ==> name == tag
  {
    Split(tag, ',')[0]
  }

  // ---------------------------------------------------------------------------
  // Trimming, case mapping, suffixes
  // ---------------------------------------------------------------------------

  /** `unicode.IsSpace`: the White_Space characters Go trims. */
  predicate IsSpace(c: char) {
    c == ' ' || c == '\t' || c == '\n' || c == '\r' || c == '\U{000B}' || c == '\U{000C}'
    || c == '\U{0085}' || c == '\U{00A0}' || c == '\U{1680}'
    || ('\U{2000}' <= c <= '\U{200A}') || c == '\U{2028}' || c == '\U{2029}'
    || c == '\U{202F}' || c == '\U{205F}' || c == '\U{3000}'
  }

  function TrimLeft(s: string): (r: string)
    ensures r <= s || (|r| <= |s| && r == s[|s| - |r|..])
    ensures |r| > 0 ==> !IsSpace(r[0])
    ensures s == s[..|s| - |r|] + r
  {
    if |s| > 0 && IsSpace(s[0]) then
      assert s == [s[0]] + s[1..];
      TrimLeft(s[1..])
    else s
  }

  function TrimRight(s: string): (r: string)
    ensures r <= s
    ensures |r| > 0 ==> !IsSpace(r[|r| - 1])
  {
    if |s| > 0 && IsSpace(s[|s| - 1]) then TrimRight(s[..|s| - 1]) else s
  }

  /** `strings.TrimSpace`: no leading or trailing white space is left. */
  function TrimSpace(s: string): (r: string)
    ensures |r| > 0 ==> !IsSpace(r[0]) && !IsSpace(r[|r| - 1])
    ensures |r| <= |s|
  {
    TrimRight(TrimLeft(s))
  }

  function UpperChar(c: char): char {
    if 'a' <= c <= 'z' then (c as int - 32) as char else c
  }

  function LowerChar(c: char): char {
    if 'A' <= c <= 'Z' then (c as int + 32) as char else c
  }

  /** `strings.ToUpper`, for the ASCII letters. */
  function ToUpper(s: string): (r: string)
    ensures |r| == |s|
    ensures forall i | 0 <= i < |s| :: r[i] == UpperChar(s[i])
  {
    seq(|s|, i requires 0 <= i < |s| => UpperChar(s[i]))
  }

  /** `strings.ToLower`, for the ASCII letters. */
  function ToLower(s: string): (r: string)
    ensures |r| == |s|
    ensures forall i | 0 <= i < |s| :: r[i] == LowerChar(s[i])
  {
    seq(|s|, i requires 0 <= i < |s| => LowerChar(s[i]))
  }

  predicate HasSuffix(s: string, suffix: string) {
    |suffix| <= |s| && s[|s| - |suffix|..] == suffix
  }

  /** `strings.TrimSuffix` once `HasSuffix` holds. */
  function TrimSuffix(s: string, suffix: string): (r: string)
    requires HasSuffix(s, suffix)
    ensures r + suffix == s
  {
    s[..|s| - |suffix|]
  }

  /** Trimming leaves alone a string that starts and ends with a non-space. */
  lemma TrimSpaceNoop(s: string)
    requires |s| > 0 && !IsSpace(s[0]) && !IsSpace(s[|s| - 1])
    ensures TrimSpace(s) == s
  {
    assert TrimLeft(s) == s;
  }

  /** Decimal digits are not white space. */
  lemma DigitIsNotSpace(c: char)
    requires IsDigit(c)
    ensures !IsSpace(c) && !('a' <= c <= 'z')
  {
  }

  /** Upper-casing leaves alone a string without lower-case ASCII letters. */
  lemma ToUpperNoop(s: string)
    requires forall i | 0 <= i < |s| :: !('a' <= s[i] <= 'z')
    ensures ToUpper(s) == s
  {
  }

  // ---------------------------------------------------------------------------
  // Lexicographic order on strings (Go's `<` on strings, by code point)
  // ---------------------------------------------------------------------------

  predicate StrLe(a: string, b: string) {
    |a| == 0 || (|b| > 0 && (a[0] < b[0] || (a[0] == b[0] && StrLe(a[1..], b[1..]))))
  }

  lemma StrLeReflexive(a: string)
    ensures StrLe(a, a)
  {
  }

  lemma StrLeTotal(a: string, b: string)
    ensures StrLe(a, b) || StrLe(b, a)
  {
  }

  lemma StrLeAntisymmetric(a: string, b: string)
    requires StrLe(a, b) && StrLe(b, a)
    ensures a == b
  {
    if |a| > 0 && |b| > 0 {
      StrLeAntisymmetric(a[1..], b[1..]);
      assert a == [a[0]] + a[1..];
      assert b == [b[0]] + b[1..];
    }
  }

  lemma StrLeTransitive(a: string, b: string, c: string)
    requires StrLe(a, b) && StrLe(b, c)
    ensures StrLe(a, c)
  {
    if |a| > 0 && |b| > 0 && |c| > 0 && a[0] == b[0] == c[0] {
      StrLeTransitive(a[1..], b[1..], c[1..]);
    }
  }

  lemma {:induction false} MinimumExists(s: set<string>)
    requires s != {}
    ensures exists m :: IsMinimum(s, m)
    decreases |s|
  {
    var y :| y in s;
    StrLeReflexive(y);
    if s == {y} {
      assert IsMinimum(s, y);
    } else {
      MinimumExists(s - {y});
      var m :| IsMinimum(s - {y}, m);
      StrLeTotal(m, y);
      if StrLe(m, y) {
        assert IsMinimum(s, m);
      } else {
        forall x | x in s ensures StrLe(y, x) {
          if x != y { StrLeTransitive(y, m, x); }
        }
        assert IsMinimum(s, y);
      }
    }
  }

  predicate IsMinimum(s: set<string>, m: string) {
    m in s && forall x | x in s :: StrLe(m, x)
  }

  lemma MinimumUnique(s: set<string>)
    ensures forall a, b | IsMinimum(s, a) && IsMinimum(s, b) :: a == b
  {
    forall a, b | IsMinimum(s, a) && IsMinimum(s, b) ensures a == b {
      StrLeAntisymmetric(a, b);
    }
  }

  /** The least string of a non-empty set. */
  function Minimum(s: set<string>): (m: string)
    requires s != {}
    ensures IsMinimum(s, m)
  {
    MinimumExists(s);
    MinimumUnique(s);
    var m :| IsMinimum(s, m); m
  }

  /** The strings of a set in ascending order (the order `fmt` prints map keys in). */
  function SortedKeys(s: set<string>): (r: seq<string>)
    ensures |r| == |s|
    ensures forall x :: x in r <==> x in s
    decreases |s|
  {
    if s == {} then []
    else
      var m := Minimum(s);
      [m] + SortedKeys(s - {m})
  }

  // ---------------------------------------------------------------------------
  // Decimal formatting and base-10 parsing (strconv)
  // ---------------------------------------------------------------------------

  predicate IsDigit(c: char) { '0' <= c <= '9' }

  predicate AllDigits(s: string) {
    forall i | 0 <= i < |s| :: IsDigit(s[i])
  }

  function DigitValue(c: char): nat
    requires IsDigit(c)
  {
    c as int - '0' as int
  }

  function DigitChar(d: nat): (c: char)
    requires d < 10
    ensures IsDigit(c) && DigitValue(c) == d
  {
    ('0' as int + d) as char
  }

  /** The number a string of decimal digits denotes. */
  function DecimalValue(s: string): nat
    requires AllDigits(s)
  {
    if |s| == 0 then 0 else DecimalValue(s[..|s| - 1]) * 10 + DigitValue(s[|s| - 1])
  }

  /** The decimal form of a natural number, without leading zeros (`%d`). */
  function FormatNat(n: nat): (s: string)
    ensures |s| > 0 && AllDigits(s)
    ensures |s| > 1 ==> s[0] != '0'
  {
    if n < 10 then [DigitChar(n)] else FormatNat(n / 10) + [DigitChar(n % 10)]
  }

  /** The decimal form of an integer (`fmt.Sprintf("%d", n)`). */
  function FormatInt(n: int): string {
    if n < 0 then "-" + FormatNat(-n) else FormatNat(n)
  }

  lemma {:induction false} DecimalValueOfFormat(n: nat)
    ensures DecimalValue(FormatNat(n)) == n
  {
    if n >= 10 {
      DecimalValueOfFormat(n / 10);
      var s := FormatNat(n);
      assert s[..|s| - 1] == FormatNat(n / 10);
    }
  }

  /** `strconv.ParseUint(s, 10, 64)`: non-empty digits, value below 2^64. */
  function ParseUint(s: string): (r: Result<nat>)
    ensures r.Ok? <==> |s| > 0 && AllDigits(s) && DecimalValue(s) < TWO_64
    ensures r.Ok? ==> r.value == DecimalValue(s)
  {
    if |s| == 0 || !AllDigits(s) then Err(InvalidString(s))
    else if DecimalValue(s) >= TWO_64 then Err(InvalidString(s))
    else Ok(DecimalValue(s))
  }

  /**
   * `strconv.ParseInt(s, 10, 64)`: an optional sign, then what ParseUint
   * accepts, within the range of `int64`.
   */
  function ParseInt(s: string): (r: Result<int>)
    ensures r.Ok? ==> InSigned(r.value, Int64)
  {
    if |s| == 0 then Err(InvalidString(s))
    else
      var neg := s[0] == '-';
      var body := if s[0] == '+' || s[0] == '-' then s[1..] else s;
      if |body| == 0 || !AllDigits(body) then Err(InvalidString(s))
      else
        var u := DecimalValue(body);
        if !neg && u >= TWO_63 then Err(InvalidString(s))
        else if neg && u > TWO_63 then Err(InvalidString(s))
        else
          var v: int := if neg then -(u as int) else u;
          Ok(v)
  }

  /** ParseUint reads back what FormatNat writes. */
  lemma FormatNatParses(n: nat)
    requires n < TWO_64
    ensures ParseUint(FormatNat(n)) == Ok(n)
  {
    DecimalValueOfFormat(n);
  }

  /** ParseInt reads back what FormatInt writes, for every `int64`. */
  lemma FormatIntParses(n: int)
    requires InSigned(n, Int64)
    ensures ParseInt(FormatInt(n)) == Ok(n)
  {
    if n < 0 {
      DecimalValueOfFormat(-n);
      NegativeDigitsParse(FormatNat(-n), -n);
    } else {
      DecimalValueOfFormat(n);
    }
  }

  lemma NegativeDigitsParse(ds: string, u: nat)
    requires |ds| > 0 && AllDigits(ds) && DecimalValue(ds) == u && u <= TWO_63
    ensures ParseInt("-" + ds) == Ok(-(u as int))
  {
    assert ("-" + ds)[0] == '-' && ("-" + ds)[1..] == ds;
  }

  /** `strconv.ParseBool`. */
  function ParseBool(s: string): (r: Result<bool>)
    ensures r == Ok(true) <==> s in {"1", "t", "T", "TRUE", "true", "True"}
    ensures r == Ok(false) <==> s in {"0", "f", "F", "FALSE", "false", "False"}
  {
    if s in {"1", "t", "T", "TRUE", "true", "True"} then Ok(true)
    else if s in {"0", "f", "F", "FALSE", "false", "False"} then Ok(false)
    else Err(InvalidString(s))
  }

  /** `strconv.FormatBool`. */
  function FormatBool(b: bool): (s: string)
    ensures ParseBool(s) == Ok(b)
  {
    if b then "true" else "false"
  }

  // ---------------------------------------------------------------------------
  // UTF-8, the byte form of a Go string
  // ---------------------------------------------------------------------------

  /** The UTF-8 encoding of one character: one to four bytes. */
  function Utf8(c: char): (r: seq<nat>)
    ensures 1 <= |r| <= 4
    ensures forall i | 0 <= i < |r| :: r[i] < 0x100
    ensures forall i | 1 <= i < |r| :: 0x80 <= r[i] < 0xC0
    ensures c as int < 0x80 <==> r == [c as int]
  {
    var x := c as int;
    var y := x / 0x40;
    var z := y / 0x40;
    if x < 0x80 then [x]
    else if x < 0x800 then [0xC0 + y, 0x80 + x % 0x40]
    else if x < 0x1_0000 then [0xE0 + z, 0x80 + y % 0x40, 0x80 + x % 0x40]
    else [0xF0 + z / 0x40, 0x80 + z % 0x40, 0x80 + y % 0x40, 0x80 + x % 0x40]
  }

  /** The code point a one- to four-byte UTF-8 sequence stands for: six bits from each continuation byte. */
  function Utf8Value(b: seq<nat>): nat
    requires 1 <= |b| <= 4
  {
    if |b| == 1 then b[0]
    else if |b| == 2 then b[0] % 0x20 * 0x40 + b[1] % 0x40
    else if |b| == 3 then (b[0] % 0x10 * 0x40 + b[1] % 0x40) * 0x40 + b[2] % 0x40
    else ((b[0] % 0x08 * 0x40 + b[1] % 0x40) * 0x40 + b[2] % 0x40) * 0x40 + b[3] % 0x40
  }

  /** Decoding the encoding of a character gives back its code point. */
  lemma Utf8RoundTrip(c: char)
    ensures Utf8Value(Utf8(c)) == c as int
  {
    var x := c as int;
    if 0x80 <= x < 0x800 {
      Utf8TwoBytes(c);
    } else if 0x800 <= x < 0x1_0000 {
      Utf8ThreeBytes(c);
    } else if 0x1_0000 <= x {
      Utf8FourBytes(c);
    }
  }

  lemma Utf8TwoBytes(c: char)
    requires 0x80 <= c as int < 0x800
    ensures Utf8Value(Utf8(c)) == c as int
  {
    var x := c as int;
    var y := x / 0x40;
    assert x == y * 0x40 + x % 0x40;
    assert (0x80 + x % 0x40) % 0x40 == x % 0x40;
    assert (0xC0 + y) % 0x20 == y;
  }

  lemma Utf8ThreeBytes(c: char)
    requires 0x800 <= c as int < 0x1_0000
    ensures Utf8Value(Utf8(c)) == c as int
  {
    var x := c as int;
    var y := x / 0x40;
    var z := y / 0x40;
    assert x == y * 0x40 + x % 0x40;
    assert y == z * 0x40 + y % 0x40;
    assert (0x80 + x % 0x40) % 0x40 == x % 0x40;
    assert (0x80 + y % 0x40) % 0x40 == y % 0x40;
    assert (0xE0 + z) % 0x10 == z;
  }

  lemma Utf8FourBytes(c: char)
    requires 0x1_0000 <= c as int
    ensures Utf8Value(Utf8(c)) == c as int
  {
    var x := c as int;
    var y := x / 0x40;
    var z := y / 0x40;
    assert x == y * 0x40 + x % 0x40;
    assert y == z * 0x40 + y % 0x40;
    assert z == z / 0x40 * 0x40 + z % 0x40;
    assert (0x80 + x % 0x40) % 0x40 == x % 0x40;
    assert (0x80 + y % 0x40) % 0x40 == y % 0x40;
    assert (0x80 + z % 0x40) % 0x40 == z % 0x40;
    assert (0xF0 + z / 0x40) % 0x08 == z / 0x40;
  }

  /** Go's `[]byte(s)`: the UTF-8 encodings of the characters, in order. */
  function Utf8Bytes(s: string): (r: seq<nat>)
    ensures |s| <= |r| <= 4 * |s|
    ensures forall i | 0 <= i < |r| :: r[i] < 0x100
  {
    if |s| == 0 then [] else Utf8(s[0]) + Utf8Bytes(s[1..])
  }

  /** A string of ASCII characters is its own byte sequence, character by character. */
  lemma {:induction false} AsciiBytes(s: string)
    requires forall i | 0 <= i < |s| :: s[i] as int < 0x80
    ensures Utf8Bytes(s) == seq(|s|, i requires 0 <= i < |s| => s[i] as int)
  {
    if |s| > 0 {
      AsciiBytes(s[1..]);
      assert Utf8(s[0]) == [s[0] as int];
    }
  }
}
