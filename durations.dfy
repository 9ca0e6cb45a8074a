/**
 * Go's `time.ParseDuration` and `time.Duration.String`, on durations counted
 * in nanoseconds within the range of `int64`.
 *
 * The grammar is `[-+]?([0-9]*(\.[0-9]*)?unit)+` or the lone string "0", with
 * the units ns, us, µs, μs, ms, s, m and h. Go adds the fractional part of a
 * component in float64 arithmetic; this model adds the exact quotient
 * rounded down.
 */
module Durations {
  import opened Values
  import opened Text

  const NANOSECOND: nat := 1
  const MICROSECOND: nat := 1000
  const MILLISECOND: nat := 1000_000
  const SECOND: nat := 1000_000_000
  const MINUTE: nat := 60_000_000_000
  const HOUR: nat := 3600_000_000_000

  /** A magnitude of at most 2^63 nanoseconds, the most a negative `int64` duration holds. */
  type Nanos = n: nat | n <= TWO_63

  /** The unit table of the duration grammar. */
  function UnitValue(u: string): Option<nat> {
    if u == "ns" then Some(NANOSECOND)
    else if u == "us" || u == "\U{00B5}s" || u == "\U{03BC}s" then Some(MICROSECOND)
    else if u == "ms" then Some(MILLISECOND)
    else if u == "s" then Some(SECOND)
    else if u == "m" then Some(MINUTE)
    else if u == "h" then Some(HOUR)
    else None
  }

  /** The number of leading characters of `s` that satisfy `IsDigit`. */
  function LeadingDigits(s: string): (n: nat)
    ensures n <= |s| && AllDigits(s[..n])
    ensures n < |s| ==> !IsDigit(s[n])
  {
    if |s| == 0 || !IsDigit(s[0]) then 0
    else
      var n := 1 + LeadingDigits(s[1..]);
      assert s[..n] == [s[0]] + s[1..][..n - 1];
      n
  }

  /** The number of leading characters that can belong to a unit name. */
  function LeadingUnit(s: string): (n: nat)
    ensures n <= |s|
    ensures forall i | 0 <= i < n :: s[i] != '.' && !IsDigit(s[i])
    ensures n < |s| ==> s[n] == '.' || IsDigit(s[n])
  {
    if |s| == 0 || s[0] == '.' || IsDigit(s[0]) then 0 else 1 + LeadingUnit(s[1..])
  }

  /**
   * Go's `leadingFraction`: digits are accumulated into `x` (and `scale`
   * multiplied by ten) until a further digit would overflow; the remaining
   * digits are consumed and ignored.
   */
  function Fraction(ds: string, x: nat, scale: nat, overflow: bool): (r: (nat, nat))
    requires AllDigits(ds) && scale >= 1
    ensures r.1 >= 1
  {
    if |ds| == 0 then (x, scale)
    else if overflow then Fraction(ds[1..], x, scale, true)
    else if x > (TWO_63 - 1) / 10 then Fraction(ds[1..], x, scale, true)
    else
      var y := x * 10 + DigitValue(ds[0]);
      if y > TWO_63 then Fraction(ds[1..], x, scale, true)
      else Fraction(ds[1..], y, scale * 10, false)
  }

  /** One component `[0-9]*(\.[0-9]*)?unit` read from the front of a string, and what follows it. */
  datatype Component = Component(nanos: nat, rest: string)

  /** Nanoseconds of `f / scale` units, rounded down. */
  function FractionNanos(f: nat, unit: nat, scale: nat): nat
    requires scale >= 1
  {
    (f * unit) / scale
  }

  /**
   * The unit and the arithmetic of one component: `v` is its integer part,
   * `frac` its fraction as (digits read, power of ten), `tail` the text from
   * the unit on. None when the unit is missing or unknown or the value
   * exceeds 2^63 nanoseconds.
   */
  function WithUnit(v: nat, frac: (nat, nat), tail: string): (r: Option<Component>)
    requires frac.1 >= 1
    ensures r.Some? ==> r.value.nanos <= TWO_63 && |r.value.rest| < |tail|
  {
    var i := LeadingUnit(tail);
    if i == 0 then None
    else
      var unit := UnitValue(tail[..i]);
      if unit.None? then None
      else if v > TWO_63 / unit.value then None
      else
        var whole := v * unit.value;
        var total := if frac.0 > 0 then whole + FractionNanos(frac.0, unit.value, frac.1) else whole;
        if total > TWO_63 then None
        else Some(Component(total, tail[i..]))
  }

  /** Go's leadingInt, leadingFraction and unit lookup for the component at the front of `s`. */
  function NextComponent(s: string): (r: Option<Component>)
    ensures r.Some? ==> r.value.nanos <= TWO_63 && |r.value.rest| < |s|
  {
    if |s| == 0 || !(s[0] == '.' || IsDigit(s[0])) then None
    else
      var n := LeadingDigits(s);
      var v := DecimalValue(s[..n]);
      if v > TWO_63 then None
      else
        var rest := s[n..];
        if |rest| > 0 && rest[0] == '.' then
          var m := LeadingDigits(rest[1..]);
          if n == 0 && m == 0 then None
          else WithUnit(v, Fraction(rest[1..][..m], 0, 1, false), rest[1..][m..])
        else if n == 0 then None
        else WithUnit(v, (0, 1), rest)
  }

  /**
   * The components loop of ParseDuration: `d` is the sum of the components
   * read so far, and the result the total once `s` is consumed.
   */
  function Components(s: string, d: Nanos): Option<Nanos>
    decreases |s|
  {
    if |s| == 0 then Some(d)
    else
      var next := NextComponent(s);
      if next.None? || d + next.value.nanos > TWO_63 then None
      else Components(next.value.rest, d + next.value.nanos)
  }

  /** The unsigned part of a duration text: "0" alone, or one or more components. */
  function Magnitude(s: string): (r: Option<nat>)
    ensures r.Some? ==> r.value <= TWO_63
  {
    if s == "0" then Some(0)
    else if s == "" then None
    else Components(s, 0)
  }

  /**
   * The signed result of `time.ParseDuration` once the magnitude is known: a
   * negative duration may reach -2^63, a positive one must stay below 2^63.
   */
  function Signed(orig: string, neg: bool, d: nat): (r: Result<int>)
    requires d <= TWO_63
    ensures r.Ok? ==> InSigned(r.value, Int64)
    ensures r.Ok? <==> neg || d < TWO_63
  {
    if neg then Ok(-(d as int))
    else if d > TWO_63 - 1 then Err(InvalidString(orig))
    else Ok(d)
  }

  /** `time.ParseDuration`, in nanoseconds. */
  function ParseDuration(orig: string): (r: Result<int>)
    ensures r.Ok? ==> InSigned(r.value, Int64)
    ensures orig == "" ==> r.Err?
  {
    var signed := |orig| > 0 && (orig[0] == '-' || orig[0] == '+');
    var s := if signed then orig[1..] else orig;
    match Magnitude(s)
    case None => Err(InvalidString(orig))
    case Some(d) => Signed(orig, signed && orig[0] == '-', d)
  }

  // ---------------------------------------------------------------------------
  // Duration.String
  // ---------------------------------------------------------------------------

  function Pow10(n: nat): (p: nat)
    ensures p >= 1
  {
    if n == 0 then 1 else 10 * Pow10(n - 1)
  }

  /** The decimal form of `w`, padded with leading zeros to `width` digits. */
  function Padded(w: nat, width: nat): (s: string)
    ensures |s| == width
  {
    if width == 0 then "" else Padded(w / 10, width - 1) + [DigitChar(w % 10)]
  }

  function DropTrailingZeros(s: string): (r: string)
    ensures r <= s
    ensures |r| > 0 ==> r[|r| - 1] != '0'
  {
    if |s| > 0 && s[|s| - 1] == '0' then DropTrailingZeros(s[..|s| - 1]) else s
  }

  /**
   * Go's `fmtFrac`: the fraction `v mod 10^prec` over `10^prec`, written as
   * "." and its digits without trailing zeros (nothing if it is zero), and
   * the integer part `v / 10^prec`.
   */
  function FmtFrac(v: nat, prec: nat): (string, nat) {
    var low: nat := v % Pow10(prec);
    (FracText(DropTrailingZeros(Padded(low, prec))), DropDigits(v, prec))
  }

  /** `v` without its `n` lowest decimal digits, i.e. `v / 10^n`. */
  function DropDigits(v: nat, n: nat): nat {
    if n == 0 then v else DropDigits(v / 10, n - 1)
  }

  /** "." followed by `digits`, or nothing when there are no digits. */
  function FracText(digits: string): string {
    if |digits| == 0 then "" else "." + digits
  }

  /** `time.Duration.String` for a magnitude below 2^63 + 1 (the sign is added by the caller). */
  function MagnitudeString(u: nat): string {
    if u == 0 then "0s"
    else if u < MICROSECOND then FormatNat(u) + "ns"
    else if u < MILLISECOND then
      var (f, whole) := FmtFrac(u, 3); FormatNat(whole) + f + "\U{00B5}s"
    else if u < SECOND then
      var (f, whole) := FmtFrac(u, 6); FormatNat(whole) + f + "ms"
    else
      var (f, secs) := FmtFrac(u, 9);
      var sPart := FormatNat(secs % 60) + f + "s";
      var mins := secs / 60;
      if mins == 0 then sPart
      else
        var mPart := FormatNat(mins % 60) + "m";
        var hours := mins / 60;
        if hours == 0 then mPart + sPart else FormatNat(hours) + "h" + mPart + sPart
  }

  /** `time.Duration.String`. */
  function DurationString(d: int): string {
    if d < 0 then "-" + MagnitudeString(-d) else MagnitudeString(d)
  }

  // ---------------------------------------------------------------------------
  // Examples
  // ---------------------------------------------------------------------------

  /** A unit name: non-empty, with no digit and no '.' in it. */
  lemma UnitChars(u: string)
    requires UnitValue(u).Some?
    ensures |u| > 0 && UnitValue(u).value >= 1
    ensures forall i | 0 <= i < |u| :: u[i] != '.' && !IsDigit(u[i])
  {
  }

  lemma {:induction false} LeadingDigitsOf(ds: string, t: string)
    requires AllDigits(ds) && (|t| == 0 || !IsDigit(t[0]))
    ensures LeadingDigits(ds + t) == |ds|
    decreases |ds|
  {
    if |ds| > 0 {
      assert (ds + t)[0] == ds[0];
      assert (ds + t)[1..] == ds[1..] + t;
      assert AllDigits(ds[1..]) by {
        forall i | 0 <= i < |ds| - 1 ensures IsDigit(ds[1..][i]) {
          assert ds[1..][i] == ds[i + 1];
        }
      }
      LeadingDigitsOf(ds[1..], t);
    }
  }

  lemma {:induction false} LeadingUnitOf(u: string, t: string)
    requires forall i | 0 <= i < |u| :: u[i] != '.' && !IsDigit(u[i])
    requires |t| == 0 || t[0] == '.' || IsDigit(t[0])
    ensures LeadingUnit(u + t) == |u|
    decreases |u|
  {
    if |u| == 0 {
      assert u + t == t;
    } else {
      assert (u + t)[0] == u[0] && (u + t)[1..] == u[1..] + t;
      LeadingUnitOf(u[1..], t);
    }
  }

  /** One component "n unit" in front of `rest` is read as n times the unit. */
  lemma ComponentOf(n: nat, u: string, rest: string)
    requires UnitValue(u).Some? && n * UnitValue(u).value <= TWO_63
    requires |rest| == 0 || IsDigit(rest[0])
    ensures NextComponent(FormatNat(n) + (u + rest)) == Some(Component(n * UnitValue(u).value, rest))
  {
    UnitChars(u);
    assert (u + rest)[0] == u[0];
    DecimalValueOfFormat(n);
    DivBound(n, UnitValue(u).value, TWO_63);
    LeProduct(n, UnitValue(u).value);
    NextWhole(FormatNat(n) + (u + rest), FormatNat(n), u + rest);
    WithUnitOf(n, u, rest);
  }

  lemma LeProduct(n: nat, m: nat)
    requires m >= 1
    ensures n <= n * m
  {
    assert n * m == n * (m - 1) + n;
  }

  /** A component without a fraction is its leading digits and the unit after them. */
  lemma NextWhole(s: string, ds: string, tail: string)
    requires s == ds + tail && |ds| > 0 && AllDigits(ds) && DecimalValue(ds) <= TWO_63
    requires |tail| == 0 || (!IsDigit(tail[0]) && tail[0] != '.')
    ensures NextComponent(s) == WithUnit(DecimalValue(ds), (0, 1), tail)
  {
    LeadingDigitsOf(ds, tail);
    assert s[..|ds|] == ds && s[|ds|..] == tail && s[0] == ds[0];
  }

  /** A known unit followed by the next component's digits is read as that unit. */
  lemma WithUnitOf(n: nat, u: string, rest: string)
    requires UnitValue(u).Some? && n * UnitValue(u).value <= TWO_63 && n <= TWO_63 / UnitValue(u).value
    requires |rest| == 0 || IsDigit(rest[0])
    ensures WithUnit(n, (0, 1), u + rest) == Some(Component(n * UnitValue(u).value, rest))
  {
    LeadingUnitOf(u, rest);
    assert (u + rest)[..|u|] == u && (u + rest)[|u|..] == rest;
  }

  /** `b / m` bounds every count whose product with `m` stays within `b`. */
  lemma DivBound(n: nat, m: nat, b: nat)
    requires m >= 1 && n * m <= b
    ensures n <= b / m
  {
    var q := b / m;
    assert b == q * m + b % m;
    assert (q + 1) * m == q * m + m;
    LtCancel(n, q + 1, m);
  }

  lemma {:induction false} LtCancel(a: nat, c: nat, m: nat)
    requires a * m < c * m
    ensures a < c
    decreases a
  {
    if a > 0 {
      assert c > 0;
      assert (a - 1) * m == a * m - m;
      assert (c - 1) * m == c * m - m;
      LtCancel(a - 1, c - 1, m);
    }
  }

  /** A component that ends the text adds its nanoseconds to the running total. */
  lemma ComponentsLast(s: string, d: nat, k: nat)
    requires |s| > 0 && NextComponent(s) == Some(Component(k, "")) && d + k <= TWO_63
    ensures Components(s, d) == Some(d + k)
  {
  }

  lemma MagnitudeOf(s: string)
    requires |s| >= 2
    ensures Magnitude(s) == Components(s, 0)
  {
  }

  /** A text that is a single component is read as that component alone. */
  lemma SingleComponent(s: string, k: nat)
    requires |s| >= 2 && NextComponent(s) == Some(Component(k, "")) && k <= TWO_63
    ensures Magnitude(s) == Some(k)
  {
    MagnitudeOf(s);
    ComponentsLast(s, 0, k);
  }

  /** The magnitude of a count written in decimal followed by a known unit. */
  lemma MagnitudeOfCount(n: nat, u: string)
    requires UnitValue(u).Some? && n * UnitValue(u).value <= TWO_63
    ensures IsDigit((FormatNat(n) + u)[0])
    ensures Magnitude(FormatNat(n) + u) == Some(n * UnitValue(u).value)
  {
    var s := FormatNat(n) + u;
    ComponentOf(n, u, "");
    assert u + "" == u;
    UnitChars(u);
    SingleComponent(s, n * UnitValue(u).value);
  }

  /**
   * A count written in decimal followed by a known unit parses to the count
   * times the unit, which must stay below 2^63.
   */
  lemma ParseCountAndUnit(n: nat, u: string, m: nat)
    requires UnitValue(u) == Some(m) && n * m <= TWO_63
    ensures n * m < TWO_63 ==> ParseDuration(FormatNat(n) + u) == Ok(n * m)
    ensures n * m == TWO_63 ==> ParseDuration(FormatNat(n) + u).Err?
  {
    MagnitudeOfCount(n, u);
    ParseSigned(FormatNat(n) + u, n * m);
  }

  /**
   * The same text after a "-" parses to the negated product, which may reach
   * -2^63, and after a "+" to the product itself.
   */
  lemma ParseSignedCountAndUnit(n: nat, u: string, m: nat)
    requires UnitValue(u) == Some(m) && n * m <= TWO_63
    ensures ParseDuration("-" + (FormatNat(n) + u)) == Ok(-(n * m))
    ensures n * m < TWO_63 ==> ParseDuration("+" + (FormatNat(n) + u)) == Ok(n * m)
  {
    MagnitudeOfCount(n, u);
    ParseSigned(FormatNat(n) + u, n * m);
  }

  /** The sign in front of a magnitude: none and "+" keep it, "-" negates it. */
  lemma ParseSigned(s: string, k: nat)
    requires |s| > 0 && IsDigit(s[0]) && Magnitude(s) == Some(k)
    ensures ParseDuration(s) == Signed(s, false, k)
    ensures ParseDuration("+" + s) == Signed("+" + s, false, k)
    ensures ParseDuration("-" + s) == Ok(-(k as int))
  {
    assert ("-" + s)[0] == '-' && ("-" + s)[1..] == s;
    assert ("+" + s)[0] == '+' && ("+" + s)[1..] == s;
  }

  lemma ParseTwoMinutes()
    ensures ParseDuration("2m") == Ok(120 * SECOND)
  {
    assert LeadingDigits("2m") == 1;
    assert LeadingUnit("m") == 1;
    assert NextComponent("2m") == Some(Component(120 * SECOND, ""));
  }

  lemma ParseFortyFiveSeconds()
    ensures ParseDuration("45s") == Ok(45 * SECOND)
  {
    assert LeadingDigits("45s") == 2;
    assert "45s"[..2] == "45" && "45"[..1] == "4";
    assert DecimalValue("45") == 45;
    assert LeadingUnit("s") == 1;
    assert NextComponent("45s") == Some(Component(45 * SECOND, ""));
  }

  lemma ParseHourAndHalf()
    ensures ParseDuration("1h30m") == Ok(5400 * SECOND)
  {
    OneHourComponent();
    ThirtyMinutesComponent();
    ComponentsLast("30m", HOUR, 30 * MINUTE);
    assert Components("1h30m", 0) == Components("30m", HOUR);
    MagnitudeOf("1h30m");
  }

  lemma OneHourComponent()
    ensures NextComponent("1h30m") == Some(Component(HOUR, "30m"))
  {
    assert LeadingDigits("1h30m") == 1;
    assert LeadingUnit("h30m") == 1;
  }

  lemma ThirtyMinutesComponent()
    ensures NextComponent("30m") == Some(Component(30 * MINUTE, ""))
  {
    assert LeadingDigits("30m") == 2;
    assert "30m"[..2] == "30" && "30"[..1] == "3";
    assert DecimalValue("30") == 30;
    assert LeadingUnit("m") == 1;
  }

  lemma ParseFractionAndSign()
    ensures ParseDuration("1.5s") == Ok(1500 * MILLISECOND)
    ensures ParseDuration("-1.5s") == Ok(-1500 * (MILLISECOND as int))
  {
    OneAndAHalfSecondsComponent();
    assert Components("1.5s", 0) == Some(1500 * MILLISECOND);
    assert Magnitude("1.5s") == Some(1500 * MILLISECOND);
    assert "-1.5s"[1..] == "1.5s";
  }

  lemma OneAndAHalfSecondsComponent()
    ensures NextComponent("1.5s") == Some(Component(1500 * MILLISECOND, ""))
  {
    assert LeadingDigits("1.5s") == 1;
    assert LeadingDigits("5s") == 1;
    assert Fraction("5", 0, 1, false) == (5, 10);
    assert LeadingUnit("s") == 1;
  }

  /** A unknown unit, an empty string and a number without a unit are rejected; "0" is not. */
  lemma ParseRejects()
    ensures ParseDuration("2x").Err? && ParseDuration("").Err? && ParseDuration("5").Err?
    ensures ParseDuration("0") == Ok(0) && ParseDuration("-0") == Ok(0)
  {
    assert LeadingDigits("2x") == 1;
    assert LeadingUnit("x") == 1;
    assert LeadingDigits("5") == 1;
  }

  /** Dropping the nine sub-second digits of 90 seconds leaves 90. */
  lemma NinetySecondsWhole()
    ensures DropDigits(90 * SECOND, 9) == 90
  {
    assert DropDigits(90, 0) == 90;
    assert DropDigits(900, 1) == 90;
    assert DropDigits(9000, 2) == 90;
    assert DropDigits(90000, 3) == 90;
    assert DropDigits(900000, 4) == 90;
    assert DropDigits(9000000, 5) == 90;
    assert DropDigits(90000000, 6) == 90;
    assert DropDigits(900000000, 7) == 90;
    assert DropDigits(9000000000, 8) == 90;
  }

  /** 90 seconds has no fractional part. */
  lemma NinetySecondsFraction()
    ensures FmtFrac(90 * SECOND, 9) == ("", 90)
  {
    var p := Pow10(9);
    assert p == SECOND;
    assert Padded(0, 9) == "000000000";
    NinetySecondsWhole();
  }

  lemma FormatExamples()
    ensures DurationString(0) == "0s"
    ensures DurationString(90 * SECOND) == "1m30s"
  {
    NinetySecondsFraction();
    assert FormatNat(30) == "30";
  }
}
