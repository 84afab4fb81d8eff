/** Exact decimals of the NUMERIC(38,18) domain: parser, canonical printer and bounded addition. */
module Decimals {
  import opened Prelude
  import opened Powers
  import opened Digits
  import opened BigDecimals

  datatype UnitError =
    | InvalidDecimal
    | OutOfRange
    | Negative
    | ZeroStep
    | CurrencyMismatch
    | InvalidCurrency
    | InvalidTime

  datatype Decimal = Decimal(inner: BigDecimal) {

    /** `to_numeric_text`. */
    function NumericText(): string {
      PlainText(inner)
    }

    predicate IsNegative() {
      inner.unscaled < 0
    }
  }

  const MAX_TEXT: nat := 64
  const WHOLE_DIGITS: nat := 20
  const FRACTION_DIGITS: nat := 18

  function StripMinus(value: string): string {
    if value != "" && value[0] == '-' then value[1..] else value
  }

  /** `Decimal::parse`. The text is given by its bytes; one outside ASCII fails the digit check. */
  function Parse(value: string): Result<Decimal, UnitError> {
    var (whole, fraction) := SplitPoint(StripMinus(value));
    var syntaxOk :=
      && |value| <= MAX_TEXT
      && whole != ""
      && AllDigits(whole)
      && AllDigits(fraction)
      && !(value != "" && value[|value| - 1] == '.')
      && |fraction| <= FRACTION_DIGITS
      && |TrimZeros(whole)| <= WHOLE_DIGITS;
    if !syntaxOk then Failure(InvalidDecimal)
    else match FromText(value)
      case None => Failure(InvalidDecimal)
      case Some(parsed) => Success(Decimal(Normalized(parsed)))
  }

  // ---------- the domain ----------

  /** The numerator over 10^18. */
  ghost function Numerator(d: Decimal): int
    requires d.inner.scale <= FRACTION_DIGITS
  {
    Scaled(d.inner, FRACTION_DIGITS)
  }

  /** Numerators of domain values have magnitude below 10^38. */
  ghost predicate InRange(n: int) {
    Abs(n) < Pow10(38)
  }

  ghost predicate InDomain(d: Decimal) {
    Canonical(d.inner) && d.inner.scale <= FRACTION_DIGITS && InRange(Numerator(d))
  }

  ghost function Signed(negative: bool, n: nat): int {
    if negative then 0 - n else n
  }

  /** The accepted texts: sign, whole digits, optional point and fraction digits. */
  ghost predicate AcceptedAs(t: string, negative: bool, whole: string, fraction: string) {
    && t == Spell(negative, whole, fraction)
    && |t| <= MAX_TEXT
    && whole != "" && AllDigits(whole)
    && AllDigits(fraction) && |fraction| <= FRACTION_DIGITS
    && DigitsValue(whole) < Pow10(WHOLE_DIGITS)
  }

  ghost function SpelledNumber(negative: bool, whole: string, fraction: string): BigDecimal
    requires AllDigits(whole) && AllDigits(fraction)
  {
    DigitsValueConcat(whole, fraction);
    BigDecimal(Signed(negative, DigitsValue(whole + fraction)), |fraction|)
  }

  /** The written number's numerator over 10^18. */
  ghost function SignedNumerator(negative: bool, whole: string, fraction: string): int
    requires AllDigits(whole + fraction) && |fraction| <= FRACTION_DIGITS
  {
    var n := Shift(DigitsValue(whole + fraction), FRACTION_DIGITS - |fraction|);
    if negative then -n else n
  }

  // ---------- the parser ----------

  lemma SpelledBody(negative: bool, whole: string, fraction: string)
    requires whole != "" && AllDigits(whole) && AllDigits(fraction)
    ensures var t := Spell(negative, whole, fraction);
      SplitPoint(StripMinus(t)) == (whole, fraction) && t[|t| - 1] != '.'
  {
    var body := Spell(false, whole, fraction);
    assert body == if fraction == "" then whole else whole + ("." + fraction);
    assert body[0] == whole[0];
    assert Spell(true, whole, fraction) == "-" + body;
    SplitSpelled(whole, fraction);
    assert body[|body| - 1] == (if fraction == "" then whole[|whole| - 1] else fraction[|fraction| - 1]);
  }

  lemma SignedInteger(negative: bool, digits: string)
    requires digits != "" && AllDigits(digits)
    ensures ParseInteger(if negative then "-" + digits else digits) == Some(Signed(negative, DigitsValue(digits)))
  {
    if negative {
      var s := "-" + digits;
      assert s[1..] == digits && !IsDigit(s[0]);
    }
  }

  lemma SplitSigned(negative: bool, whole: string, fraction: string)
    requires whole != "" && AllDigits(whole) && AllDigits(fraction)
    ensures SplitPoint(Spell(negative, whole, fraction)) == (if negative then "-" + whole else whole, fraction)
  {
    var lead := if negative then "-" + whole else whole;
    assert Spell(negative, whole, fraction) == if fraction == "" then lead else lead + ("." + fraction);
    SplitSpelled(lead, fraction);
  }

  lemma SignedJoin(negative: bool, whole: string, fraction: string)
    ensures (if negative then "-" + whole else whole) + fraction
      == if negative then "-" + (whole + fraction) else whole + fraction
  {
    assert ("-" + whole) + fraction == "-" + (whole + fraction);
  }

  /** `FromText` once the text is split. */
  lemma FromSplit(value: string, lead: string, trail: string, negative: bool, digits: string)
    requires SplitPoint(value) == (lead, trail) && lead + trail == if negative then "-" + digits else digits
    requires digits != "" && AllDigits(digits)
    ensures FromText(value) == Some(BigDecimal(Signed(negative, DigitsValue(digits)), |trail|))
  {
    SignedInteger(negative, digits);
  }

  lemma SpelledFromText(negative: bool, whole: string, fraction: string)
    requires whole != "" && AllDigits(whole) && AllDigits(fraction)
    ensures FromText(Spell(negative, whole, fraction)) == Some(SpelledNumber(negative, whole, fraction))
  {
    SplitSigned(negative, whole, fraction);
    SignedJoin(negative, whole, fraction);
    FromSplit(Spell(negative, whole, fraction), if negative then "-" + whole else whole, fraction,
      negative, whole + fraction);
  }

  /** What the parser makes of any spelling: the written number, or a rejection on size. */
  lemma ParseSpelled(negative: bool, whole: string, fraction: string)
    requires whole != "" && AllDigits(whole) && AllDigits(fraction)
    ensures var t := Spell(negative, whole, fraction);
      Parse(t) == if AcceptedAs(t, negative, whole, fraction)
        then Success(Decimal(Normalized(SpelledNumber(negative, whole, fraction))))
        else Failure(InvalidDecimal)
  {
    SpelledBody(negative, whole, fraction);
    SpelledFromText(negative, whole, fraction);
    TrimZerosLength(whole, WHOLE_DIGITS);
  }

  /** Acceptance is exactly the plain-decimal grammar with its three size limits. */
  lemma ParseAcceptsExactly(t: string)
    ensures Parse(t).Success? <==> exists negative, whole, fraction :: AcceptedAs(t, negative, whole, fraction)
  {
    if Parse(t).Success? {
      var body := StripMinus(t);
      var (whole, fraction) := SplitPoint(body);
      SplitRejoins(body);
      var negative := t[0] == '-';
      assert t == Spell(negative, whole, fraction);
      TrimZerosLength(whole, WHOLE_DIGITS);
      assert AcceptedAs(t, negative, whole, fraction);
    }
    if negative, whole, fraction :| AcceptedAs(t, negative, whole, fraction) {
      ParseSpelled(negative, whole, fraction);
    }
  }

  /** `V(whole) < 10^20` says the same as "the numerator over 10^18 is below 10^38". */
  lemma SpelledRange(whole: string, fraction: string)
    requires AllDigits(whole) && AllDigits(fraction) && |fraction| <= FRACTION_DIGITS
    ensures AllDigits(whole + fraction)
    ensures DigitsValue(whole) < Pow10(WHOLE_DIGITS)
      <==> Shift(DigitsValue(whole + fraction), FRACTION_DIGITS - |fraction|) < Pow10(38)
  {
    DigitsValueConcat(whole, fraction);
    DigitsValueBounds(fraction);
    ShiftedRange(DigitsValue(whole), DigitsValue(fraction), |fraction|, WHOLE_DIGITS, FRACTION_DIGITS);
  }

  /** Whole part below 10^w says the same as the number over 10^f being below 10^(w+f). */
  lemma ShiftedRange(whole: nat, rest: nat, c: nat, w: nat, f: nat)
    requires rest < Pow10(c) && c <= f
    ensures whole < Pow10(w) <==> Shift(Shift(whole, c) + rest, f - c) < Pow10(w + f)
  {
    var n := Shift(whole, c) + rest;
    ShiftAdd(1, w, c);
    ShiftSum(whole, 1, c);
    ShiftOrder(Pow10(w), whole + 1, c);
    ShiftOrder(whole, Pow10(w), c);
    assert whole < Pow10(w) <==> n < Pow10(w + c);
    ShiftAdd(1, w + c, f - c);
    ShiftOrder(n, Pow10(w + c), f - c);
  }

  lemma SignedShift(negative: bool, n: nat, k: nat)
    ensures Shift(n, k) >= 0
    ensures Shift(Signed(negative, n), k) == Signed(negative, Shift(n, k))
  {
    ShiftMonotone(n, k, k);
    ShiftSum(n, 0, k);
  }

  lemma SpelledNumerator(negative: bool, whole: string, fraction: string)
    requires AllDigits(whole) && AllDigits(fraction) && |fraction| <= FRACTION_DIGITS
    ensures AllDigits(whole + fraction)
    ensures Scaled(SpelledNumber(negative, whole, fraction), FRACTION_DIGITS)
      == SignedNumerator(negative, whole, fraction)
    ensures Abs(SignedNumerator(negative, whole, fraction))
      == Shift(DigitsValue(whole + fraction), FRACTION_DIGITS - |fraction|)
  {
    DigitsValueConcat(whole, fraction);
    SignedShift(negative, DigitsValue(whole + fraction), FRACTION_DIGITS - |fraction|);
  }

  lemma NormalizedInDomain(b: BigDecimal)
    requires b.scale <= FRACTION_DIGITS && InRange(Scaled(b, FRACTION_DIGITS))
    ensures InDomain(Decimal(Normalized(b))) && Numerator(Decimal(Normalized(b))) == Scaled(b, FRACTION_DIGITS)
  {
    NormalizedIsCanonical(b);
    NormalizedKeepsValue(b, FRACTION_DIGITS);
  }

  /** Every accepted text denotes a domain value, exactly the one written. */
  lemma AcceptedValue(t: string, negative: bool, whole: string, fraction: string)
    requires AcceptedAs(t, negative, whole, fraction)
    ensures Parse(t).Success? && InDomain(Parse(t).value)
    ensures AllDigits(whole + fraction)
    ensures Numerator(Parse(t).value)
      == SignedNumerator(negative, whole, fraction)
  {
    ParseSpelled(negative, whole, fraction);
    SpelledNumerator(negative, whole, fraction);
    SpelledRange(whole, fraction);
    NormalizedInDomain(SpelledNumber(negative, whole, fraction));
  }

  lemma ParseInDomain(t: string)
    requires Parse(t).Success?
    ensures InDomain(Parse(t).value)
  {
    ParseAcceptsExactly(t);
    var negative, whole, fraction :| AcceptedAs(t, negative, whole, fraction);
    AcceptedValue(t, negative, whole, fraction);
  }

  // ---------- printing and parsing back ----------

  lemma WholeTextLength(n: nat, scale: int)
    requires n > 0 && scale <= FRACTION_DIGITS && Shift(n, FRACTION_DIGITS - scale) < Pow10(38)
    ensures |WholeText(n, scale)| <= 41
  {
    if scale < -19 {
      ShiftMonotone(1, 38, FRACTION_DIGITS - scale);
      ShiftOrder(n, 1, FRACTION_DIGITS - scale);
      assert false;
    }
    ShiftAdd(1, WHOLE_DIGITS + scale, FRACTION_DIGITS - scale);
    ShiftOrder(n, Pow10(WHOLE_DIGITS + scale), FRACTION_DIGITS - scale);
    RenderLength(n, WHOLE_DIGITS + scale);
  }

  /** An in-range number prints within the limit, except a zero padded with more than 63 zeros. */
  lemma PlainTextFits(d: BigDecimal)
    requires d.scale <= FRACTION_DIGITS && InRange(Scaled(d, FRACTION_DIGITS))
    ensures |PlainText(d)| <= MAX_TEXT <==> d.unscaled != 0 || d.scale >= -63
  {
    PlainDigits(Abs(d.unscaled), d.scale);
    if d.unscaled != 0 {
      SignedShift(d.unscaled < 0, Abs(d.unscaled), FRACTION_DIGITS - d.scale);
      WholeTextLength(Abs(d.unscaled), d.scale);
    }
  }

  /**
   * Parsing the plain text of any representation succeeds exactly when it has at most 18 fraction digits
   * and is in range, and then gives its canonical form. The one exception is a zero written with 64 or
   * more zeros: otherwise the length and digit-count checks never reject an in-range number.
   */
  lemma ParsePlainText(d: BigDecimal)
    ensures Parse(PlainText(d)) ==
      if d.scale <= FRACTION_DIGITS && InRange(Scaled(d, FRACTION_DIGITS)) && (d.unscaled != 0 || d.scale >= -63)
      then Success(Decimal(Normalized(d))) else Failure(InvalidDecimal)
  {
    var n, negative := Abs(d.unscaled), d.unscaled < 0;
    var w, f := WholeText(n, d.scale), FractionText(n, d.scale);
    PlainDigits(n, d.scale);
    ParseSpelled(negative, w, f);
    if d.scale <= FRACTION_DIGITS {
      PlainTextAccepted(d);
      if InRange(Scaled(d, FRACTION_DIGITS)) {
        PlainTextFits(d);
        PlainTextNumerator(d);
        NormalizedInDomain(SpelledNumber(negative, w, f));
        NormalizedInDomain(d);
        CanonicalUnique(Normalized(SpelledNumber(negative, w, f)), Normalized(d), FRACTION_DIGITS);
      }
    }
  }

  lemma PlainTextAccepted(d: BigDecimal)
    requires d.scale <= FRACTION_DIGITS
    ensures var n, negative := Abs(d.unscaled), d.unscaled < 0;
      AcceptedAs(PlainText(d), negative, WholeText(n, d.scale), FractionText(n, d.scale))
      <==> InRange(Scaled(d, FRACTION_DIGITS)) && |PlainText(d)| <= MAX_TEXT
  {
    var n := Abs(d.unscaled);
    PlainDigits(n, d.scale);
    PlainTextNumerator(d);
    SpelledRange(WholeText(n, d.scale), FractionText(n, d.scale));
  }

  lemma PlainTextNumerator(d: BigDecimal)
    requires d.scale <= FRACTION_DIGITS
    ensures var n, negative := Abs(d.unscaled), d.unscaled < 0;
      var w, f := WholeText(n, d.scale), FractionText(n, d.scale);
      && AllDigits(w) && AllDigits(f) && AllDigits(w + f) && |f| <= FRACTION_DIGITS
      && Shift(DigitsValue(w + f), FRACTION_DIGITS - |f|) == Shift(n, FRACTION_DIGITS - d.scale)
        == Abs(Scaled(d, FRACTION_DIGITS))
      && Scaled(SpelledNumber(negative, w, f), FRACTION_DIGITS) == Scaled(d, FRACTION_DIGITS)
  {
    var n, negative := Abs(d.unscaled), d.unscaled < 0;
    var w, f := WholeText(n, d.scale), FractionText(n, d.scale);
    PlainDigits(n, d.scale);
    SpelledNumerator(negative, w, f);
    ShiftAdd(n, Max(-d.scale, 0), FRACTION_DIGITS - |f|);
    SignedShift(negative, n, FRACTION_DIGITS - d.scale);
  }

  /** Domain values never need more than 19 padding zeros. */
  lemma DomainScale(d: Decimal)
    requires InDomain(d)
    ensures -19 <= d.inner.scale <= FRACTION_DIGITS
  {
    var u, s := d.inner.unscaled, d.inner.scale;
    if s < -19 {
      ShiftMonotone(1, 38, FRACTION_DIGITS - s);
      ShiftSum(1, 0, FRACTION_DIGITS - s);
      ShiftOrder(u, 1, FRACTION_DIGITS - s);
      ShiftOrder(-1, u, FRACTION_DIGITS - s);
      assert false;
    }
  }

  /** Parsing undoes printing on the whole domain. */
  lemma ParsePrintRoundTrip(d: Decimal)
    requires InDomain(d)
    ensures Parse(d.NumericText()) == Success(d)
  {
    DomainScale(d);
    ParsePlainText(d.inner);
  }

  /** The domain is exactly what the parser can produce. */
  lemma DomainIsReachable(d: Decimal)
    ensures InDomain(d) <==> exists t :: Parse(t) == Success(d)
  {
    if InDomain(d) {
      ParsePrintRoundTrip(d);
    }
    if t :| Parse(t) == Success(d) {
      ParseInDomain(t);
    }
  }

  /** Domain values are determined by their numerators, and every numerator in range has one. */
  lemma NumeratorBijection(n: int)
    requires InRange(n)
    ensures var d := Decimal(Normalized(BigDecimal(n, FRACTION_DIGITS)));
      InDomain(d) && Numerator(d) == n && forall e: Decimal | InDomain(e) && Numerator(e) == n :: e == d
  {
    var b := BigDecimal(n, FRACTION_DIGITS);
    assert Scaled(b, FRACTION_DIGITS) == n;
    NormalizedInDomain(b);
    forall e: Decimal | InDomain(e) && Numerator(e) == n ensures e == Decimal(Normalized(b)) {
      CanonicalUnique(e.inner, Normalized(b), FRACTION_DIGITS);
    }
  }

  lemma NumeratorSign(d: Decimal)
    requires d.inner.scale <= FRACTION_DIGITS
    ensures Numerator(d) == 0 <==> d.inner.unscaled == 0
    ensures Numerator(d) < 0 <==> d.inner.unscaled < 0
  {
    ShiftZero(FRACTION_DIGITS - d.inner.scale);
    ShiftOrder(d.inner.unscaled, 0, FRACTION_DIGITS - d.inner.scale);
  }

  /** Two accepted texts print alike exactly when they denote the same number. */
  lemma PrintedFormIsCanonical(t1: string, t2: string)
    requires Parse(t1).Success? && Parse(t2).Success?
    ensures InDomain(Parse(t1).value) && InDomain(Parse(t2).value)
    ensures Parse(t1).value.NumericText() == Parse(t2).value.NumericText()
      <==> Numerator(Parse(t1).value) == Numerator(Parse(t2).value)
  {
    ParseInDomain(t1);
    ParseInDomain(t2);
    var a, b := Parse(t1).value, Parse(t2).value;
    if a.NumericText() == b.NumericText() {
      ParsePrintRoundTrip(a);
      ParsePrintRoundTrip(b);
    }
    if Numerator(a) == Numerator(b) {
      CanonicalUnique(a.inner, b.inner, FRACTION_DIGITS);
    }
  }

  /** The callers' zero test, and the sign test, read the value off correctly. */
  lemma ZeroAndSignTests(d: Decimal)
    requires InDomain(d)
    ensures d.NumericText() == "0" <==> Numerator(d) == 0
    ensures d.IsNegative() <==> Numerator(d) < 0
  {
    NumeratorSign(d);
    var zero := Decimal(BigDecimal(0, 0));
    ShiftZero(FRACTION_DIGITS);
    ShiftMonotone(1, 0, 38);
    assert zero.NumericText() == "0";
    assert InDomain(zero) && Numerator(zero) == 0;
    if Numerator(d) == 0 {
      assert d == zero;
    }
    if d.NumericText() == "0" {
      ParsePrintRoundTrip(d);
      ParsePrintRoundTrip(zero);
    }
  }

  // ---------- the printed text, character by character ----------

  /** Digits without redundant ones: no leading zero but in "0", no trailing fraction zero, no minus on zero. */
  ghost predicate CanonicalSpelling(negative: bool, whole: string, fraction: string) {
    && whole != "" && AllDigits(whole) && AllDigits(fraction)
    && (whole == "0" || whole[0] != '0')
    && (fraction == "" || fraction[|fraction| - 1] != '0')
    && (negative ==> whole != "0" || fraction != "")
  }

  lemma {:induction false} RenderEnds(n: nat)
    requires n > 0
    ensures Render(n)[0] != '0'
    ensures Render(n)[|Render(n)| - 1] == DigitChar(n % 10)
  {
    if n < 10 {
    } else {
      RenderEnds(n / 10);
      assert Render(n)[0] == Render(n / 10)[0];
    }
  }

  lemma WholeSpelling(n: nat, scale: int)
    requires n == 0 ==> scale == 0
    ensures WholeText(n, scale) == "0" || WholeText(n, scale)[0] != '0'
  {
    if n > 0 {
      RenderEnds(n);
      if scale > 0 {
        var s := PadLeft(Render(n), scale + 1);
        assert s[..|s| - scale][0] == s[0];
        if |Render(n)| < scale + 1 {
          assert s[0] == '0';
          assert s[..1] == "0";
        }
      }
    }
  }

  lemma FractionSpelling(n: nat, scale: int)
    requires n % 10 != 0 && scale > 0
    ensures FractionText(n, scale) != "" && FractionText(n, scale)[|FractionText(n, scale)| - 1] != '0'
  {
    RenderEnds(n);
    var s := PadLeft(Render(n), scale + 1);
    assert s[|s| - 1] == Render(n)[|Render(n)| - 1];
    assert FractionText(n, scale)[scale - 1] == s[|s| - 1];
  }

  lemma NotBareZero(n: nat, scale: int)
    requires n > 0 && scale <= 0
    ensures WholeText(n, scale) != "0"
  {
    RenderEnds(n);
    assert WholeText(n, scale)[0] == Render(n)[0];
  }

  lemma CanonicalText(n: nat, scale: int)
    requires if n == 0 then scale == 0 else n % 10 != 0
    ensures CanonicalSpelling(false, WholeText(n, scale), FractionText(n, scale))
    ensures n > 0 ==> WholeText(n, scale) != "0" || FractionText(n, scale) != ""
  {
    PlainDigits(n, scale);
    WholeSpelling(n, scale);
    if scale > 0 {
      FractionSpelling(n, scale);
    } else if n > 0 {
      NotBareZero(n, scale);
    }
  }

  /** Every domain value prints as canonical plain digits. */
  lemma PrintedText(d: Decimal) returns (whole: string, fraction: string)
    requires InDomain(d)
    ensures CanonicalSpelling(Numerator(d) < 0, whole, fraction)
    ensures d.NumericText() == Spell(Numerator(d) < 0, whole, fraction)
    ensures AcceptedAs(d.NumericText(), Numerator(d) < 0, whole, fraction)
  {
    whole, fraction := WholeText(Abs(d.inner.unscaled), d.inner.scale), FractionText(Abs(d.inner.unscaled), d.inner.scale);
    NumeratorSign(d);
    CanonicalMagnitude(d.inner);
    CanonicalText(Abs(d.inner.unscaled), d.inner.scale);
    PrintedAccepted(d);
  }

  lemma CanonicalMagnitude(b: BigDecimal)
    requires Canonical(b)
    ensures if Abs(b.unscaled) == 0 then b.scale == 0 else Abs(b.unscaled) % 10 != 0
  {
  }

  lemma PrintedAccepted(d: Decimal)
    requires InDomain(d)
    ensures AcceptedAs(d.NumericText(), d.inner.unscaled < 0,
      WholeText(Abs(d.inner.unscaled), d.inner.scale), FractionText(Abs(d.inner.unscaled), d.inner.scale))
  {
    DomainScale(d);
    PlainTextAccepted(d.inner);
    PlainTextFits(d.inner);
  }

  lemma {:induction false} SameDigits(a: string, b: string)
    requires AllDigits(a) && AllDigits(b) && |a| == |b| && DigitsValue(a) == DigitsValue(b)
    ensures a == b
    decreases |a|
  {
    if a == "" {
    } else {
      var n := |a| - 1;
      SameDigits(a[..n], b[..n]);
      assert a == a[..n] + [a[n]] && b == b[..n] + [b[n]];
    }
  }

  /** A canonical whole part is the shortest of its value. */
  lemma ShortestWhole(whole: string, other: string)
    requires AllDigits(whole) && AllDigits(other) && whole != "" && other != ""
    requires whole == "0" || whole[0] != '0'
    requires DigitsValue(whole) == DigitsValue(other)
    ensures |whole| <= |other| && (|whole| == |other| ==> whole == other)
  {
    DigitsValueBounds(whole);
    DigitsValueBounds(other);
    var shorter: nat := if |other| < |whole| then |other| else |whole| - 1;
    ShiftMonotone(1, shorter, |whole| - 1);
    if |whole| == |other| {
      SameDigits(whole, other);
    }
  }

  /** Fewer digits cannot say the same as a fraction that ends in another digit than zero. */
  lemma ShorterFractionDiffers(fraction: string, other: string)
    requires AllDigits(fraction) && AllDigits(other)
    requires |other| < |fraction| <= FRACTION_DIGITS && fraction[|fraction| - 1] != '0'
    ensures Shift(DigitsValue(fraction), FRACTION_DIGITS - |fraction|)
      != Shift(DigitsValue(other), FRACTION_DIGITS - |other|)
  {
    var e, rest := |fraction| - |other|, FRACTION_DIGITS - |fraction|;
    ShiftAdd(DigitsValue(other), e, rest);
    ShiftOrder(DigitsValue(fraction), Shift(DigitsValue(other), e), rest);
    ShiftedNotCanonical(DigitsValue(other), e);
    assert DigitsValue(fraction) % 10 == DigitValue(fraction[|fraction| - 1]);
  }

  /** A fraction without trailing zero is the shortest of its value. */
  lemma ShortestFraction(fraction: string, other: string)
    requires AllDigits(fraction) && AllDigits(other)
    requires |fraction| <= FRACTION_DIGITS && |other| <= FRACTION_DIGITS
    requires fraction == "" || fraction[|fraction| - 1] != '0'
    requires Shift(DigitsValue(fraction), FRACTION_DIGITS - |fraction|)
      == Shift(DigitsValue(other), FRACTION_DIGITS - |other|)
    ensures |fraction| <= |other| && (|fraction| == |other| ==> fraction == other)
  {
    if |other| < |fraction| {
      ShorterFractionDiffers(fraction, other);
      assert false;
    } else if |other| == |fraction| {
      ShiftOrder(DigitsValue(fraction), DigitsValue(other), FRACTION_DIGITS - |fraction|);
      SameDigits(fraction, other);
    }
  }

  lemma FractionPart(fraction: string)
    requires AllDigits(fraction) && |fraction| <= FRACTION_DIGITS
    ensures 0 <= Shift(DigitsValue(fraction), FRACTION_DIGITS - |fraction|) < Pow10(FRACTION_DIGITS)
  {
    var c, rest := |fraction|, FRACTION_DIGITS - |fraction|;
    DigitsValueBounds(fraction);
    ShiftAdd(1, c, rest);
    ShiftOrder(DigitsValue(fraction), Pow10(c), rest);
    ShiftMonotone(DigitsValue(fraction), rest, rest);
  }

  /** The whole and the fraction of a spelling can be read off its numerator. */
  lemma SpellingParts(whole: string, fraction: string)
    requires AllDigits(whole) && AllDigits(fraction) && |fraction| <= FRACTION_DIGITS
    ensures AllDigits(whole + fraction)
    ensures Shift(DigitsValue(whole + fraction), FRACTION_DIGITS - |fraction|)
      == Shift(DigitsValue(whole), FRACTION_DIGITS) + Shift(DigitsValue(fraction), FRACTION_DIGITS - |fraction|)
  {
    var c, rest := |fraction|, FRACTION_DIGITS - |fraction|;
    DigitsValueConcat(whole, fraction);
    ShiftSum(Shift(DigitsValue(whole), c), DigitsValue(fraction), rest);
    ShiftAdd(DigitsValue(whole), c, rest);
  }

  /** Whole part and remainder below 10^18 determine each other's sum. */
  lemma PartsUnique(a: nat, b: nat, x: nat, y: nat)
    requires x < Pow10(FRACTION_DIGITS) && y < Pow10(FRACTION_DIGITS)
    requires Shift(a, FRACTION_DIGITS) + x == Shift(b, FRACTION_DIGITS) + y
    ensures a == b && x == y
  {
    ShiftOrder(a + 1, b, FRACTION_DIGITS);
    ShiftOrder(a, b, FRACTION_DIGITS);
    ShiftOrder(b + 1, a, FRACTION_DIGITS);
    ShiftSum(a, 1, FRACTION_DIGITS);
    ShiftSum(b, 1, FRACTION_DIGITS);
  }

  lemma SpellingLength(negative: bool, whole: string, fraction: string)
    ensures |Spell(negative, whole, fraction)|
      == (if negative then 1 else 0) + |whole| + (if fraction == "" then 0 else 1 + |fraction|)
  {
  }

  /** The printed text is the one shortest accepted text of its number. */
  lemma PrintedIsShortest(t: string)
    requires Parse(t).Success?
    ensures var printed := Parse(t).value.NumericText();
      |printed| <= |t| && (|printed| == |t| ==> printed == t)
  {
    ParseAcceptsExactly(t);
    var negative, whole, fraction :| AcceptedAs(t, negative, whole, fraction);
    AcceptedValue(t, negative, whole, fraction);
    var d := Parse(t).value;
    var w, f := PrintedText(d);
    ParsePrintRoundTrip(d);
    AcceptedValue(d.NumericText(), Numerator(d) < 0, w, f);
    ShorterSpelling(Numerator(d) < 0, w, f, negative, whole, fraction);
  }

  lemma ShorterSpelling(negative: bool, whole: string, fraction: string, negative': bool, whole': string, fraction': string)
    requires CanonicalSpelling(negative, whole, fraction) && |fraction| <= FRACTION_DIGITS
    requires whole' != "" && AllDigits(whole') && AllDigits(fraction') && |fraction'| <= FRACTION_DIGITS
    requires AllDigits(whole + fraction) && AllDigits(whole' + fraction')
    requires SignedNumerator(negative, whole, fraction) == SignedNumerator(negative', whole', fraction')
    requires negative ==> SignedNumerator(negative, whole, fraction) < 0
    ensures var a, b := Spell(negative, whole, fraction), Spell(negative', whole', fraction');
      |a| <= |b| && (|a| == |b| ==> a == b)
  {
    SpellingParts(whole, fraction);
    SpellingParts(whole', fraction');
    FractionPart(fraction);
    FractionPart(fraction');
    ShiftMonotone(DigitsValue(whole), FRACTION_DIGITS, FRACTION_DIGITS);
    ShiftMonotone(DigitsValue(whole'), FRACTION_DIGITS, FRACTION_DIGITS);
    PartsUnique(DigitsValue(whole), DigitsValue(whole'),
      Shift(DigitsValue(fraction), FRACTION_DIGITS - |fraction|),
      Shift(DigitsValue(fraction'), FRACTION_DIGITS - |fraction'|));
    ShortestWhole(whole, whole');
    ShortestFraction(fraction, fraction');
    SpellingLength(negative, whole, fraction);
    SpellingLength(negative', whole', fraction');
  }
}
