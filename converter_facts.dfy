/**
 * What the conversions promise, stated over all inputs: string round trips
 * of the numeric and boolean conversions, the truth tables of ToBool, the
 * seconds reading of ToDuration, the unit arithmetic of sizes, and the
 * dependence of the size parser on the order in which it visits its units.
 */
module ConverterFacts {
  import opened Values
  import opened Text
  import opened Durations
  import opened Converter

  // ---------------------------------------------------------------------------
  // Integers
  // ---------------------------------------------------------------------------

  /** The decimal form of an integer is "0" exactly for zero. */
  lemma {:induction false} FormatIntZero(n: int)
    ensures FormatInt(n) == "0" <==> n == 0
  {
    if n < 0 {
      assert FormatInt(n)[0] == '-';
    } else if n >= 10 {
      assert |FormatNat(n / 10)| >= 1;
      assert |FormatInt(n)| >= 2;
    }
  }

  /** Every signed value of width k survives ToString followed by the conversion to k. */
  lemma IntStringRoundTrip(i: int, from: IntKind, k: IntKind)
    requires InSigned(i, from) && InSigned(i, k)
    ensures ConvertToInt(VStr(ToString(VInt(i, from))), k) == Ok(i)
  {
    assert InSigned(i, Int64);
    FormatIntParses(i);
  }

  /** Every unsigned value of width k survives ToString followed by the conversion to k. */
  lemma UintStringRoundTrip(u: nat, from: UintKind, k: UintKind)
    requires InUnsigned(u, from) && InUnsigned(u, k)
    ensures ConvertToUint(VStr(ToString(VUint(u, from))), k) == Ok(u)
  {
    FormatNatParses(u);
  }

  /** A string that ParseInt accepts converts to the narrowed value; one it rejects fails. */
  lemma IntFromString(s: string, k: IntKind)
    ensures ConvertToInt(VStr(s), k).Ok? <==> ParseInt(s).Ok?
    ensures ParseInt(s).Ok? ==> ConvertToInt(VStr(s), k) == Ok(NarrowSigned(ParseInt(s).value, k))
  {
  }

  /**
   * The conversion of `int16(1000)` to `int8` keeps the low byte: -24, where
   * the converter tests expect 0; to `uint8` it is 232.
   */
  lemma Int16ToInt8Wraps()
    ensures ConvertToInt(VInt(1000, Int16), Int8) == Ok(-24)
    ensures ConvertToUint(VInt(1000, Int16), Uint8) == Ok(232)
  {
  }

  /**
   * An integer of any type converts to every width by keeping its residue
   * modulo 2^w, and unchanged when it fits; a negative one does not convert
   * to an unsigned width.
   */
  lemma IntegerConversionWraps(i: int, from: IntKind, k: IntKind, uk: UintKind)
    ensures ConvertToInt(VInt(i, from), k).Ok?
    ensures ConvertToInt(VInt(i, from), k).value % SignedModulus(k) == i % SignedModulus(k)
    ensures InSigned(i, k) ==> ConvertToInt(VInt(i, from), k) == Ok(i)
    ensures ConvertToUint(VInt(i, from), uk).Ok? <==> i >= 0
    ensures i >= 0 ==> ConvertToUint(VInt(i, from), uk) == Ok(i % UnsignedModulus(uk))
  {
    NarrowSignedCongruent(i, k);
  }

  /** Narrowing to a signed width keeps the value modulo 2^w. */
  lemma NarrowSignedCongruent(x: int, k: IntKind)
    ensures NarrowSigned(x, k) % SignedModulus(k) == x % SignedModulus(k)
  {
    match k
    case Int8 => ModShift(x % 0x100, 0x100);
    case Int16 => ModShift(x % 0x1_0000, 0x1_0000);
    case Int32 => ModShift(x % 0x1_0000_0000, 0x1_0000_0000);
    case Int64 => ModShift(x % TWO_64, TWO_64);
    case Int => ModShift(x % TWO_64, TWO_64);
  }

  /** Subtracting the modulus from a remainder leaves its class unchanged. */
  lemma ModShift(a: int, m: nat)
    requires 0 <= a < m
    ensures (a - m) % m == a % m == a
  {
    assert a - m == (-1) * m + a;
  }

  // ---------------------------------------------------------------------------
  // Bool
  // ---------------------------------------------------------------------------

  /** An integer of any type is true exactly when it is not zero. */
  lemma ToBoolOfInteger(i: int, k: IntKind, u: nat, uk: UintKind)
    ensures ToBool(VInt(i, k)) == Ok(i != 0)
    ensures ToBool(VUint(u, uk)) == Ok(u != 0)
  {
    FormatIntZero(i);
    FormatIntZero(u);
  }

  const TRUE_STRINGS: set<string> := {"1", "t", "T", "TRUE", "true", "True", "yes", "y", "on"}
  const FALSE_STRINGS: set<string> := {"0", "f", "F", "FALSE", "false", "False", "no", "n", "off", ""}

  /**
   * The full truth table of ToBool on strings: ParseBool's spellings and the
   * aliases, matched case-sensitively; every other string is an error.
   */
  lemma ToBoolOfString(s: string)
    ensures ToBool(VStr(s)) == Ok(true) <==> s in TRUE_STRINGS
    ensures ToBool(VStr(s)) == Ok(false) <==> s in FALSE_STRINGS
    ensures ToBool(VStr(s)).Err? <==> s !in TRUE_STRINGS && s !in FALSE_STRINGS
  {
  }

  /** The alias table is case-sensitive: "YES" and "Off" are errors. */
  lemma ToBoolAliasesCaseSensitive()
    ensures ToBool(VStr("YES")).Err? && ToBool(VStr("Off")).Err?
  {
    ToBoolOfString("YES");
    ToBoolOfString("Off");
  }

  /** A bool survives ToString followed by ToBool. */
  lemma BoolStringRoundTrip(b: bool)
    ensures ToBool(VStr(ToString(VBool(b)))) == Ok(b)
  {
  }

  // ---------------------------------------------------------------------------
  // Duration
  // ---------------------------------------------------------------------------

  /** An integer n of any type is n seconds, whenever n seconds fit in an `int64`. */
  lemma ToDurationOfSeconds(n: int, k: IntKind)
    requires InSigned(n, k) && InSigned(n * SECOND, Int64)
    ensures ToDuration(VInt(n, k)) == Ok(n * SECOND)
  {
    assert InSigned(n, Int64);
  }

  /** An unsigned n of any type is n seconds, whenever n seconds fit in an `int64`. */
  lemma ToDurationOfUnsignedSeconds(n: nat, k: UintKind)
    requires n * SECOND < TWO_63
    ensures ToDuration(VUint(n, k)) == Ok(n * SECOND)
  {
    assert n < TWO_63;
  }

  /** The duration grammar on the examples of the converter's own documentation. */
  lemma ToDurationExamples()
    ensures ToDuration(VStr("2m")) == Ok(120 * SECOND)
    ensures ToDuration(VStr("45s")) == Ok(45 * SECOND)
    ensures ToDuration(VStr("1h30m")) == Ok(5400 * SECOND)
    ensures ToDuration(VStr("1.5s")) == Ok(1500 * MILLISECOND)
    ensures ToDuration(VStr("2x")).Err? && ToDuration(VStr("")).Err? && ToDuration(VStr("5")).Err?
  {
    ParseTwoMinutes();
    ParseFortyFiveSeconds();
    ParseHourAndHalf();
    ParseFractionAndSign();
    ParseRejects();
  }

  // ---------------------------------------------------------------------------
  // Slices
  // ---------------------------------------------------------------------------

  /** A lone string is one element, commas and all: no splitting happens. */
  lemma StringSliceDoesNotSplit()
    ensures ToStringSlice(VStr("one,two,three")) == Ok(["one,two,three"])
  {
  }

  /** ToIntSlice on `[]any` succeeds exactly when every element converts, element by element. */
  lemma IntSliceAllOrNothing(items: seq<Value>)
    ensures ToIntSlice(VList(items)).Ok? <==> forall i | 0 <= i < |items| :: ConvertToInt(items[i], Int).Ok?
    ensures ToIntSlice(VList(items)).Ok? ==>
      forall i | 0 <= i < |items| :: ToIntSlice(VList(items)).value[i] == ConvertToInt(items[i], Int).value
  {
  }

  // ---------------------------------------------------------------------------
  // Sizes
  // ---------------------------------------------------------------------------

  /** Which units a text can end with: at most the longest unit and, behind a binary unit, "B". */
  lemma UnitSuffixes(t: string, u: string)
    ensures Multiplier(u).Some? && HasSuffix(t, u) ==>
      LongestUnit(t).Some? && (u == LongestUnit(t).value || (u == "B" && |LongestUnit(t).value| == 2))
  {
    if Multiplier(u).Some? && HasSuffix(t, u) {
      assert u[|u| - 1] == t[|t| - 1];
      if |u| == 2 {
        assert u[0] == t[|t| - 2];
      }
    }
  }

  /** Every unit of the table occurs in a unit order. */
  lemma LongestUnitInOrder(t: string, order: seq<string>)
    requires IsUnitOrder(order)
    ensures LongestUnit(t).Some? ==> exists i | 0 <= i < |order| :: order[i] == LongestUnit(t).value
  {
    if LongestUnit(t).Some? {
      UnitsAreTheTable(LongestUnit(t).value);
    }
  }

  /** Units in which every binary unit ("KB" ... "PB") is visited before "B". */
  ghost predicate BinaryBeforeB(order: seq<string>) {
    forall i, j | 0 <= i < |order| && 0 <= j < |order| && order[i] == "B" && |order[j]| == 2 :: j < i
  }

  /** The first unit in such an order is the longest unit. */
  lemma FirstSuffixIsLongest(t: string, order: seq<string>)
    requires IsUnitOrder(order) && BinaryBeforeB(order)
    ensures FirstSuffix(t, order) == LongestUnit(t)
  {
    var k := FirstSuffixIndex(t, order);
    LongestUnitInOrder(t, order);
    if k < |order| {
      UnitSuffixes(t, order[k]);
    }
  }

  /**
   * Under any iteration order that tries the binary units before "B", the
   * size parser as written agrees with the longest-suffix parser.
   */
  lemma AsWrittenAgreesWhenBinaryFirst(s: string, order: seq<string>)
    requires IsUnitOrder(order) && BinaryBeforeB(order)
    ensures ParseSizeStringAsWritten(s, order) == ParseSizeString(s)
  {
    FirstSuffixIsLongest(NormalizeSize(s), order);
  }

  /** Unit names are upper-case ASCII letters. */
  lemma UnitLetters(unit: string)
    requires Multiplier(unit).Some?
    ensures 1 <= |unit| <= 2
    ensures forall i | 0 <= i < |unit| :: 'A' <= unit[i] <= 'Z'
  {
  }

  /** Upper-casing and trimming leave a decimal followed by a unit unchanged. */
  lemma NormalizeDigitsAndUnit(digits: string, unit: string)
    requires |digits| > 0 && AllDigits(digits) && Multiplier(unit).Some?
    ensures NormalizeSize(digits + unit) == digits + unit
  {
    var t := digits + unit;
    UnitLetters(unit);
    assert forall i | 0 <= i < |t| :: !('a' <= t[i] <= 'z') by {
      forall i | 0 <= i < |t| ensures !('a' <= t[i] <= 'z') {
        if i < |digits| { assert t[i] == digits[i]; } else { assert t[i] == unit[i - |digits|]; }
      }
    }
    ToUpperNoop(t);
    assert t[0] == digits[0];
    assert t[|t| - 1] == unit[|unit| - 1];
    TrimSpaceNoop(t);
  }

  /** The unit that a decimal followed by a unit ends with is that unit. */
  lemma LongestUnitOfDigitsAndUnit(digits: string, unit: string)
    requires |digits| > 0 && AllDigits(digits) && Multiplier(unit).Some?
    ensures LongestUnit(digits + unit) == Some(unit)
  {
    var t := digits + unit;
    if |unit| == 1 {
      assert IsDigit(t[|t| - 2]);
    }
    assert t[|t| - |unit|..] == unit;
  }

  /** A decimal followed by a unit parses to its value times the unit's multiplier. */
  lemma SizeOfDigitsAndUnit(digits: string, unit: string)
    requires |digits| > 0 && AllDigits(digits) && Multiplier(unit).Some?
    requires DecimalValue(digits) * Multiplier(unit).value < TWO_64
    ensures ParseSizeString(digits + unit) == Ok(DecimalValue(digits) * Multiplier(unit).value)
  {
    var t := digits + unit;
    var mult := Multiplier(unit).value;
    NormalizeDigitsAndUnit(digits, unit);
    LongestUnitOfDigitsAndUnit(digits, unit);
    assert ParseSizeString(t) == SizeWithUnit(t, Some(unit));
    assert TrimSuffix(t, unit) == digits;
    DigitIsNotSpace(digits[0]);
    DigitIsNotSpace(digits[|digits| - 1]);
    TrimSpaceNoop(digits);
    assert SizeWithUnit(t, Some(unit)) == Scaled(t, digits, mult);
    assert Scaled(t, digits, mult) == Ok(DecimalValue(digits) * mult);
  }

  /**
   * `n` written in decimal and followed by a unit parses to n times the
   * unit's multiplier, for products up to 2^53, where float64 arithmetic is
   * exact.
   */
  lemma SizeRoundTrip(n: nat, unit: string)
    requires Multiplier(unit).Some? && n * Multiplier(unit).value <= 0x20_0000_0000_0000
    ensures ParseSizeString(FormatNat(n) + unit) == Ok(n * Multiplier(unit).value)
  {
    DecimalValueOfFormat(n);
    SizeOfDigitsAndUnit(FormatNat(n), unit);
  }

  lemma NoUnitAfterDigit(t: string)
    requires |t| > 0 && IsDigit(t[|t| - 1])
    ensures LongestUnit(t) == None
  {
  }

  /** A plain decimal with no unit parses to its value, as ParseUint reads it. */
  lemma SizeOfDigits(digits: string)
    requires |digits| > 0 && AllDigits(digits) && DecimalValue(digits) < TWO_64
    ensures ParseSizeString(digits) == Ok(DecimalValue(digits))
  {
    NormalizeDigits(digits);
    NoUnitAfterDigit(digits);
    assert ParseSizeString(digits) == SizeWithUnit(digits, None);
  }

  /** Normalising a plain decimal leaves it as it is. */
  lemma NormalizeDigits(digits: string)
    requires |digits| > 0 && AllDigits(digits)
    ensures NormalizeSize(digits) == digits
  {
    assert forall i | 0 <= i < |digits| :: !('a' <= digits[i] <= 'z') by {
      forall i | 0 <= i < |digits| ensures !('a' <= digits[i] <= 'z') {
        DigitIsNotSpace(digits[i]);
      }
    }
    ToUpperNoop(digits);
    DigitIsNotSpace(digits[0]);
    DigitIsNotSpace(digits[|digits| - 1]);
    TrimSpaceNoop(digits);
  }

  /** `n` written in decimal parses back to n. */
  lemma PlainSize(n: nat)
    requires n < TWO_64
    ensures ParseSizeString(FormatNat(n)) == Ok(n)
  {
    DecimalValueOfFormat(n);
    SizeOfDigits(FormatNat(n));
  }

  /** Under an order that visits "B" before a binary unit, a text ending in that unit stops at "B". */
  lemma FirstSuffixIsB(t: string, order: seq<string>, i: nat, j: nat)
    requires IsUnitOrder(order) && i < j < |order| && order[i] == "B" && |order[j]| == 2
    requires HasSuffix(t, order[j])
    ensures FirstSuffix(t, order) == Some("B")
  {
    var k := FirstSuffixIndex(t, order);
    assert HasSuffix(t, order[i]);
    assert k <= i;
    UnitSuffixes(t, order[k]);
    UnitSuffixes(t, order[j]);
    assert order[k] != order[j];
  }

  /** The two-letter units are a scale letter followed by "B". */
  lemma BinaryUnitShape(u: string)
    requires Multiplier(u).Some? && |u| == 2
    ensures u == [u[0]] + "B" && IsScaleLetter(u[0])
  {
  }

  lemma TrimLastB(digits: string, c: char, t: string)
    requires t == digits + ([c] + "B")
    ensures HasSuffix(t, "B") && TrimSuffix(t, "B") == digits + [c]
  {
    assert t[..|t| - 1] == digits + [c];
  }

  /** A decimal followed by a scale letter is not a number: "B" alone cannot be the unit. */
  lemma ScaledLetterFails(t: string, digits: string, c: char)
    requires |digits| > 0 && AllDigits(digits) && IsScaleLetter(c)
    ensures Scaled(t, TrimSpace(digits + [c]), 1) == Err(InvalidSize(t))
  {
    var numberStr := digits + [c];
    DigitIsNotSpace(digits[0]);
    assert numberStr[0] == digits[0];
    TrimSpaceNoop(numberStr);
    assert !IsDigit(numberStr[|numberStr| - 1]);
  }

  /**
   * Under any iteration order that tries "B" before some binary unit XB, the
   * size parser as written rejects every decimal followed by XB, which the
   * longest-suffix parser reads as that many XB.
   */
  lemma AsWrittenFailsWhenBFirst(order: seq<string>, i: nat, j: nat, digits: string)
    requires IsUnitOrder(order) && i < j < |order| && order[i] == "B" && |order[j]| == 2
    requires |digits| > 0 && AllDigits(digits)
    ensures ParseSizeStringAsWritten(digits + order[j], order) == Err(InvalidSize(digits + order[j]))
    ensures DecimalValue(digits) * Multiplier(order[j]).value < TWO_64 ==>
      ParseSizeString(digits + order[j]) == Ok(DecimalValue(digits) * Multiplier(order[j]).value)
  {
    var unit := order[j];
    var t := digits + unit;
    NormalizeDigitsAndUnit(digits, unit);
    LongestUnitOfDigitsAndUnit(digits, unit);
    FirstSuffixIsB(t, order, i, j);
    BinaryUnitShape(unit);
    TrimLastB(digits, unit[0], t);
    assert ParseSizeStringAsWritten(t, order) == SizeWithUnit(t, Some("B"));
    assert SizeWithUnit(t, Some("B")) == Scaled(t, TrimSpace(digits + [unit[0]]), 1);
    ScaledLetterFails(t, digits, unit[0]);
    if DecimalValue(digits) * Multiplier(unit).value < TWO_64 {
      SizeOfDigitsAndUnit(digits, unit);
    }
  }

  /** Whole orders of the unit table: the order the source declares its keys in is one. */
  lemma DeclaredOrderIsUnitOrder()
    ensures IsUnitOrder(UNITS)
  {
  }

  /** With "B" visited first, "10KB" is rejected; the longest-suffix parser reads 10240. */
  lemma TenKilobytesOrderDependent()
    ensures IsUnitOrder(UNITS)
    ensures ParseSizeStringAsWritten("10KB", UNITS) == Err(InvalidSize("10KB"))
    ensures ParseSizeString("10KB") == Ok(10240)
  {
    DeclaredOrderIsUnitOrder();
    assert "10" + UNITS[1] == "10KB";
    assert DecimalValue("10") == 10 by {
      assert "10"[..1] == "1";
    }
    AsWrittenFailsWhenBFirst(UNITS, 0, 1, "10");
  }

  /** Sizes of the integer types: negative signed sizes fail, the rest pass through. */
  lemma SizeOfIntegers(i: int, u: nat)
    ensures ToSizeInBytes(VInt(i, Int)) == (if i < 0 then Err(NegativeValue) else Ok(i))
    ensures ToSizeInBytes(VInt(i, Int64)) == (if i < 0 then Err(NegativeValue) else Ok(i))
    ensures ToSizeInBytes(VUint(u, Uint64)) == Ok(u) && ToSizeInBytes(VUint(u, Uint)) == Ok(u)
    ensures ToSizeInBytes(VInt(i, Int32)) == Err(UnsupportedType)
  {
  }
}
