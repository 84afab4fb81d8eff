/**
 * Decimal division with a bounded number of significant digits, and quantizing down to a step.
 * The division keeps at most `precision` significant digits and rounds the next one half up.
 */
module Quantizer {
  import opened Prelude
  import opened Powers
  import opened Multiples
  import opened Digits
  import opened BigDecimals
  import opened Decimals

  /** The library's default number of significant quotient digits. */
  const DEFAULT_PRECISION: nat := 100

  // ---------- the division, as a function of its inputs ----------

  /** Multiplies the numerator by ten until it reaches the denominator. */
  function ShiftUp(num: nat, den: nat, scale: int): (nat, int)
    requires num > 0 && den > 0
    decreases den - num
  {
    if num < den then ShiftUp(num * 10, den, scale + 1) else (num, scale)
  }

  /** Appends quotient digits; `rest` is ten times the running remainder. */
  function Extend(quotient: nat, rest: nat, den: nat, digits: nat, scale: int, precision: nat): (nat, nat, int)
    requires den > 0
    decreases precision - digits
  {
    if rest == 0 || digits >= precision then (quotient, rest, scale)
    else
      var (digit, rem) := DivRem(rest, den);
      Extend(quotient * 10 + digit, rem * 10, den, digits + 1, scale + 1, precision)
  }

  /** Half-up rounding of one dropped digit. */
  function RoundingTerm(digit: nat): nat {
    if digit < 5 then 0 else 1
  }

  function DividePositive(num: nat, den: nat, scale: int, precision: nat): BigDecimal
    requires num > 0 && den > 0
  {
    var (n, s) := ShiftUp(num, den, scale);
    var (first, rem) := DivRem(n, den);
    if rem == 0 then BigDecimal(first, s)
    else
      var (q, rest, t) := Extend(first, rem * 10, den, |Render(first)|, s, precision);
      BigDecimal(q + if rest == 0 then 0 else RoundingTerm(DivRem(rest, den).0), t)
  }

  predicate IsOne(d: BigDecimal) {
    var one := BigDecimal(1, 0);
    !Less(d, one) && !Less(one, d)
  }

  function Negated(d: BigDecimal): BigDecimal {
    BigDecimal(-d.unscaled, d.scale)
  }

  function Quotient(a: BigDecimal, b: BigDecimal, precision: nat): BigDecimal
    requires b.unscaled != 0
  {
    if a.unscaled == 0 || IsOne(b) then a
    else if a.unscaled == b.unscaled then BigDecimal(1, a.scale - b.scale)
    else
      var q := DividePositive(Abs(a.unscaled), Abs(b.unscaled), a.scale - b.scale, precision);
      if (a.unscaled < 0) == (b.unscaled < 0) then q else Negated(q)
  }

  /** The first loop of the division: no quotient digit is lost to a small numerator. */
  method ShiftUpLoop(num: nat, den: nat, scale: int) returns (n: nat, s: int)
    requires num > 0 && den > 0
    ensures (n, s) == ShiftUp(num, den, scale)
  {
    n, s := num, scale;
    while n < den
      invariant 0 < n && ShiftUp(n, den, s) == ShiftUp(num, den, scale)
      decreases den - n
    {
      n, s := n * 10, s + 1;
    }
  }

  /** The second loop: one quotient digit per round, until exact or precise enough. */
  method ExtendLoop(first: nat, start: nat, den: nat, from: nat, scale: int, precision: nat)
    returns (quotient: nat, rest: nat, s: int)
    requires den > 0
    ensures (quotient, rest, s) == Extend(first, start, den, from, scale, precision)
  {
    quotient, rest, s := first, start, scale;
    var digits: nat := from;
    while rest > 0 && digits < precision
      invariant Extend(quotient, rest, den, digits, s, precision) == Extend(first, start, den, from, scale, precision)
      decreases precision - digits
    {
      var (digit, rem) := DivRem(rest, den);
      quotient, rest := quotient * 10 + digit, rem * 10;
      digits, s := digits + 1, s + 1;
    }
  }

  method DivideLoop(num: nat, den: nat, scale: int, precision: nat) returns (r: BigDecimal)
    requires num > 0 && den > 0
    ensures r == DividePositive(num, den, scale, precision)
  {
    var n, s := ShiftUpLoop(num, den, scale);
    var (quotient, rem) := DivRem(n, den);
    if rem == 0 {
      return BigDecimal(quotient, s);
    }
    var digits: nat := |Render(quotient)|;
    var q, rest, t := ExtendLoop(quotient, rem * 10, den, digits, s, precision);
    if rest != 0 {
      q := q + RoundingTerm(DivRem(rest, den).0);
    }
    r := BigDecimal(q, t);
  }

  /** The division with its shortcuts and signs. */
  method Divide(a: BigDecimal, b: BigDecimal, precision: nat) returns (r: BigDecimal)
    requires b.unscaled != 0
    ensures r == Quotient(a, b, precision)
  {
    if a.unscaled == 0 || IsOne(b) {
      return a;
    }
    if a.unscaled == b.unscaled {
      return BigDecimal(1, a.scale - b.scale);
    }
    r := DivideLoop(Abs(a.unscaled), Abs(b.unscaled), a.scale - b.scale, precision);
    if (a.unscaled < 0) != (b.unscaled < 0) {
      r := Negated(r);
    }
  }

  /** `floor_to_step`. */
  function FloorToStep(x: Decimal, step: Decimal, precision: nat): Result<Decimal, UnitError> {
    if x.IsNegative() || step.IsNegative() then Failure(Negative)
    else if step.inner.unscaled == 0 then Failure(ZeroStep)
    else
      var quotient := Truncated(Quotient(x.inner, step.inner, precision));
      Parse(PlainText(Product(quotient, step.inner)))
  }

  // ---------- what the division computes ----------

  /** `r` is num/den * 10^(-scale), exact or correctly rounded to at least `precision` digits. */
  ghost predicate Rounds(num: nat, den: nat, scale: int, precision: nat, r: BigDecimal, q: nat, rem: nat)
    requires den > 0
  {
    && scale <= r.scale
    && Shift(num, r.scale - scale) == Times(q, den) + rem
    && rem < den
    && r.unscaled == q + (if 2 * rem >= den then 1 else 0)
    && (rem == 0 || precision == 0 || Pow10(precision - 1) <= q)
  }

  lemma {:induction false} ShiftUpValue(num: nat, den: nat, scale: int)
    requires num > 0 && den > 0
    ensures var (n, s) := ShiftUp(num, den, scale);
      scale <= s && n >= den && n == Shift(num, s - scale)
    decreases den - num
  {
    if num >= den {
    } else {
      ShiftUpValue(num * 10, den, scale + 1);
      var (n, s) := ShiftUp(num, den, scale);
      ShiftAdd(num, 1, s - scale - 1);
      assert Shift(num, 1) == num * 10;
    }
  }

  lemma ExtendStep(q: nat, rem: nat, den: nat)
    requires rem < den
    ensures var (d, m) := DivRem(rem * 10, den);
      10 * (Times(q, den) + rem) == Times(q * 10 + d, den) + m
  {
    var (d, m) := DivRem(rem * 10, den);
    TimesTen(q, den);
    TimesSum(q * 10, d, den);
  }

  lemma {:induction false} ExtendValue(num: nat, j: nat, q: nat, rem: nat, den: nat, digits: nat, scale: int, precision: nat)
    returns (q': nat, rem': nat)
    requires den > 0 && rem < den && digits >= 1
    requires Shift(num, j) == Times(q, den) + rem && Pow10(digits - 1) <= q
    ensures var (q1, rest, t) := Extend(q, rem * 10, den, digits, scale, precision);
      && q1 == q' && rest == rem' * 10 && rem' < den && scale <= t
      && Shift(num, j + t - scale) == Times(q', den) + rem'
      && (rem' == 0 || precision == 0 || Pow10(precision - 1) <= q')
    decreases precision - digits
  {
    if rem == 0 || digits >= precision {
      q', rem' := q, rem;
      if 1 <= precision <= digits { ShiftMonotone(1, precision - 1, digits - 1); }
    } else {
      var (d, m) := DivRem(rem * 10, den);
      ExtendStep(q, rem, den);
      q', rem' := ExtendValue(num, j + 1, q * 10 + d, m, den, digits + 1, scale + 1, precision);
    }
  }

  lemma RoundingDigit(rem: nat, den: nat)
    requires rem < den
    ensures RoundingTerm(DivRem(rem * 10, den).0) == if 2 * rem >= den then 1 else 0
  {
    var d := DivRem(rem * 10, den).0;
    TimesOrder(5, d, den);
    TimesOrder(d + 1, 5, den);
    TimesIsProduct(5, den);
  }

  lemma DividePositiveRounds(num: nat, den: nat, scale: int, precision: nat) returns (q: nat, rem: nat)
    requires num > 0 && den > 0
    ensures Rounds(num, den, scale, precision, DividePositive(num, den, scale, precision), q, rem)
  {
    var (n, s) := ShiftUp(num, den, scale);
    ShiftUpValue(num, den, scale);
    var (first, r) := DivRem(n, den);
    q, rem := first, r;
    if rem != 0 {
      var digits := |Render(q)|;
      assert Pow10(digits - 1) <= q by {
        if digits > 1 { RenderLength(q, digits - 1); } else { assert Times(1, den) == den; }
      }
      q, rem := ExtendValue(num, s - scale, q, rem, den, digits, s, precision);
      RoundingDigit(rem, den);
    }
  }

  // ---------- truncation of the rounded quotient ----------

  /** Cutting the digits of an expansion gives the integer quotient `k`. */
  lemma FloorOfExpansion(x: nat, s: nat, e: nat, q: nat, r: nat, k: nat)
    requires Times(k, s) <= x < Times(k + 1, s)
    requires Shift(x, e) == Times(q, s) + r && r < s
    ensures Shift(k, e) <= q < Shift(k + 1, e)
  {
    ShiftOrder(x, Times(k, s), e);
    ShiftOrder(x, Times(k + 1, s), e);
    ShiftTimes(k, s, e);
    ShiftTimes(k + 1, s, e);
    TimesSum(q, 1, s);
    TimesOrder(Shift(k, e), q + 1, s);
    TimesOrder(q, Shift(k + 1, e), s);
  }

  /** An expansion longer than the numerator has more decimals than the step. */
  lemma LongExpansion(x: nat, s: nat, e: nat, q: nat)
    requires s > 0 && Times(q, s) <= Shift(x, e) && x < q
    ensures s < Pow10(e)
  {
    TimesOrder(x, q, s);
    TimesPow(x, e);
    if Pow10(e) <= s {
      TimesOrderRight(x, Pow10(e), s);
    }
  }

  /** If the next value up were a whole number, x would lie close below a multiple of the step. */
  lemma GapWidth(x: nat, s: nat, e: nat, q: nat, r: nat, k: nat)
    requires Shift(x, e) == Times(q, s) + r && q + 1 == Shift(k + 1, e) && x < Times(k + 1, s)
    ensures Pow10(e) <= s - r
  {
    var top := Times(k + 1, s);
    ShiftTimes(k + 1, s, e);
    TimesSum(q, 1, s);
    assert Shift(top, e) == Times(q, s) + s;
    ShiftSum(top - x, x, e);
    ShiftOrder(top - x, 1, e);
  }

  /**
   * Rounding up never reaches the next integer: that would take a gap of one decimal place or more and
   * of half a step or less, but an expansion longer than the numerator has more decimals than the step.
   */
  lemma RoundingStaysBelow(x: nat, s: nat, e: nat, q: nat, r: nat, k: nat)
    requires Times(k, s) <= x < Times(k + 1, s)
    requires Shift(x, e) == Times(q, s) + r && r < s
    requires 2 * r >= s && x < q
    ensures Shift(k, e) <= q + 1 < Shift(k + 1, e)
  {
    FloorOfExpansion(x, s, e, q, r, k);
    LongExpansion(x, s, e, q);
    if q + 1 == Shift(k + 1, e) {
      GapWidth(x, s, e, q, r, k);
    }
  }

  lemma TruncatedBetween(r: BigDecimal, k: nat)
    requires r.scale >= 0 && Shift(k, r.scale) <= r.unscaled < Shift(k + 1, r.scale)
    ensures Truncated(r) == BigDecimal(k, 0)
  {
    ShiftMonotone(k, r.scale, r.scale);
    if r.scale > 0 {
      TimesPow(k, r.scale);
      TimesPow(k + 1, r.scale);
      DivUnique(r.unscaled, Pow10(r.scale), k);
    }
  }

  lemma ScaleRemainder(q: nat, den: nat, rem: nat, k: nat)
    ensures Shift(den, k) >= 0 && Shift(rem, k) >= 0
    ensures Shift(Times(q, den) + rem, k) == Times(q, Shift(den, k)) + Shift(rem, k)
  {
    ShiftSum(Times(q, den), rem, k);
    TimesShift(q, den, k);
    ShiftMonotone(rem, k, k);
  }

  /** The rounded quotient read over 10^18: `X` and `S` are the numerators, `R` the scaled remainder. */
  lemma ScaledRounding(x: BigDecimal, step: BigDecimal, precision: nat, r: BigDecimal, q: nat, rem: nat)
    returns (X: nat, S: nat, R: nat)
    requires x.scale <= 18 && step.scale <= 18 && x.unscaled > 0 && step.unscaled > 0
    requires Rounds(x.unscaled, step.unscaled, x.scale - step.scale, precision, r, q, rem)
    ensures X == Scaled(x, 18) && S == Scaled(step, 18) && 0 < X && R < S
    ensures r.scale >= 0 ==> Shift(X, r.scale) == Times(q, S) + R
    ensures r.scale < 0 ==> X == Shift(Times(q, S) + R, -r.scale)
    ensures R == 0 <==> rem == 0
    ensures 2 * R >= S <==> 2 * rem >= step.unscaled
  {
    var num, den, j, k := x.unscaled, step.unscaled, r.scale - (x.scale - step.scale), 18 - step.scale;
    ShiftMonotone(num, 0, 18 - x.scale);
    ScaleRemainder(q, den, rem, k);
    X, S, R := Scaled(x, 18), Scaled(step, 18), Shift(rem, k);
    ShiftOrder(rem, den, k);
    ShiftZero(k);
    ShiftOrder(rem, 0, k);
    ShiftSum(rem, rem, k);
    ShiftOrder(rem + rem, den, k);
    ShiftAdd(num, j, k);
    if r.scale >= 0 {
      ShiftAdd(num, 18 - x.scale, r.scale);
    } else {
      ShiftAdd(num, j + k, -r.scale);
    }
  }

  /** With enough digits, truncating the rounded quotient gives the integer quotient of the numerators. */
  lemma TruncatedIsFloor(x: BigDecimal, step: BigDecimal, precision: nat, r: BigDecimal, q: nat, rem: nat)
    requires x.scale <= 18 && step.scale <= 18 && x.unscaled > 0 && step.unscaled > 0
    requires Scaled(x, 18) < Pow10(38) && precision >= 39
    requires Rounds(x.unscaled, step.unscaled, x.scale - step.scale, precision, r, q, rem)
    ensures Scaled(x, 18) > 0 && Scaled(step, 18) > 0
    ensures Truncated(r) == BigDecimal(DivRem(Scaled(x, 18), Scaled(step, 18)).0, 0)
  {
    var X, S, R := ScaledRounding(x, step, precision, r, q, rem);
    var k := DivRem(X, S).0;
    if rem != 0 {
      ShiftMonotone(1, 38, precision - 1);
    }
    if r.scale >= 0 {
      if 2 * R >= S {
        RoundingStaysBelow(X, S, r.scale, q, R, k);
      } else {
        FloorOfExpansion(X, S, r.scale, q, R, k);
      }
      TruncatedBetween(r, k);
    } else {
      IntegerExpansion(X, S, q, R, -r.scale);
      assert R == 0;
    }
  }

  /** A quotient without fraction digits does not exceed the numerator, and is exact when nothing is left. */
  lemma IntegerExpansion(x: nat, s: nat, q: nat, r: nat, e: nat)
    requires s > 0 && x == Shift(Times(q, s) + r, e)
    ensures q <= x
    ensures r == 0 ==> 0 <= Shift(q, e) == DivRem(x, s).0
  {
    TimesOrderRight(q, 1, s);
    TimesOne(q);
    ShiftMonotone(Times(q, s) + r, 0, e);
    if r == 0 {
      ShiftTimes(q, s, e);
      var t := Shift(q, e);
      TimesOrder(t, t + 1, s);
      DivUnique(x, s, t);
    }
  }

  // ---------- quantizing ----------

  lemma TruncatedExact(d: BigDecimal)
    requires d.scale <= 18 && d.unscaled >= 0
    ensures Pow10(18) > 0 && Scaled(d, 18) >= 0
    ensures Truncated(d) == BigDecimal(DivRem(Scaled(d, 18), Pow10(18)).0, 0)
  {
    TimesPow(0, 18);
    ShiftMonotone(d.unscaled, 0, 18 - d.scale);
    if d.scale <= 0 {
      ShiftMonotone(d.unscaled, 0, -d.scale);
      var t := Shift(d.unscaled, -d.scale);
      ShiftAdd(d.unscaled, -d.scale, 18);
      TimesPow(t, 18);
      TimesOrder(t, t + 1, Pow10(18));
      DivUnique(Scaled(d, 18), Pow10(18), t);
    } else {
      TimesPow(0, d.scale);
      var k, c := DivRem(d.unscaled, Pow10(d.scale)).0, 18 - d.scale;
      ShiftAdd(1, d.scale, c);
      TimesShift(k, Pow10(d.scale), c);
      TimesShift(k + 1, Pow10(d.scale), c);
      ShiftOrder(d.unscaled, Times(k, Pow10(d.scale)), c);
      ShiftOrder(d.unscaled, Times(k + 1, Pow10(d.scale)), c);
      DivUnique(Scaled(d, 18), Pow10(18), k);
    }
  }

  /** Dividing by one returns the dividend itself. */
  lemma TruncatedByOne(a: BigDecimal, b: BigDecimal)
    requires a.scale <= 18 && b.scale <= 18 && a.unscaled >= 0 && IsOne(b)
    ensures Scaled(b, 18) > 0 && Scaled(a, 18) >= 0
    ensures Truncated(a) == BigDecimal(DivRem(Scaled(a, 18), Scaled(b, 18)).0, 0)
  {
    LessByNumerators(b, BigDecimal(1, 0), 18);
    LessByNumerators(BigDecimal(1, 0), b, 18);
    TruncatedExact(a);
  }

  lemma TruncatedZero(a: BigDecimal, s: nat)
    requires a.scale <= 18 && a.unscaled == 0 && s > 0
    ensures Scaled(a, 18) == 0 && Truncated(a) == BigDecimal(DivRem(0, s).0, 0)
  {
    ShiftZero(18 - a.scale);
    if a.scale <= 0 {
      ShiftZero(-a.scale);
    } else {
      TimesPow(0, a.scale);
    }
  }

  /** The truncated library quotient is the integer quotient of the numerators. */
  lemma TruncatedQuotient(a: BigDecimal, b: BigDecimal, precision: nat)
    requires a.scale <= 18 && b.scale <= 18 && a.unscaled >= 0 && b.unscaled > 0
    requires Scaled(a, 18) < Pow10(38) && precision >= 39
    ensures Scaled(a, 18) >= 0 && Scaled(b, 18) > 0
    ensures Truncated(Quotient(a, b, precision)) == BigDecimal(DivRem(Scaled(a, 18), Scaled(b, 18)).0, 0)
  {
    ShiftMonotone(b.unscaled, 0, 18 - b.scale);
    if IsOne(b) {
      TruncatedByOne(a, b);
    } else if a.unscaled == 0 {
      TruncatedZero(a, Scaled(b, 18));
    } else {
      var q, rem := QuotientRounds(a, b, precision);
      var r := Quotient(a, b, precision);
      assert r == BigDecimal(Abs(r.unscaled), r.scale);
      TruncatedIsFloor(a, b, precision, r, q, rem);
    }
  }

  /** The quotient's magnitude is the rounded quotient of the magnitudes, and its sign the product of the signs. */
  lemma QuotientRounds(a: BigDecimal, b: BigDecimal, precision: nat) returns (q: nat, rem: nat)
    requires a.unscaled != 0 && b.unscaled != 0 && !IsOne(b)
    ensures var r := Quotient(a, b, precision);
      && Rounds(Abs(a.unscaled), Abs(b.unscaled), a.scale - b.scale, precision,
                BigDecimal(Abs(r.unscaled), r.scale), q, rem)
      && (r.unscaled < 0 ==> (a.unscaled < 0) != (b.unscaled < 0))
      && (r.unscaled > 0 ==> (a.unscaled < 0) == (b.unscaled < 0))
  {
    if a.unscaled == b.unscaled {
      q, rem := 1, 0;
      assert Times(1, Abs(b.unscaled)) == Abs(b.unscaled);
    } else {
      q, rem := DividePositiveRounds(Abs(a.unscaled), Abs(b.unscaled), a.scale - b.scale, precision);
    }
  }

  /** The largest multiple of the step not above `x`, as a numerator over 10^18. */
  ghost function FloorNumerator(x: nat, step: nat): nat
    requires step > 0
  {
    Times(DivRem(x, step).0, step)
  }

  /** The canonical decimal of the exact floor. */
  ghost function ExactFloor(x: Decimal, step: Decimal): Decimal
    requires InDomain(x) && InDomain(step) && Numerator(x) >= 0 && Numerator(step) > 0
  {
    Decimal(Normalized(BigDecimal(FloorNumerator(Numerator(x), Numerator(step)), 18)))
  }

  /** Multiplying the integer quotient back gives a number whose numerator is that multiple of the step. */
  lemma ProductNumerator(step: BigDecimal, k: nat)
    requires step.scale <= 18 && step.unscaled >= 0
    ensures Scaled(step, 18) >= 0
    ensures Scaled(Product(BigDecimal(k, 0), step), 18) == Times(k, Scaled(step, 18))
  {
    TimesIsProduct(k, step.unscaled);
    TimesShift(k, step.unscaled, 18 - step.scale);
  }

  lemma ReparsedProduct(step: Decimal, k: nat)
    requires InDomain(step) && Numerator(step) > 0 && InRange(Times(k, Numerator(step)))
    ensures Parse(PlainText(Product(BigDecimal(k, 0), step.inner)))
      == Success(Decimal(Normalized(BigDecimal(Times(k, Numerator(step)), 18))))
  {
    var p := Product(BigDecimal(k, 0), step.inner);
    NumeratorSign(step);
    ProductNumerator(step.inner, k);
    DomainScale(step);
    ParsePlainText(p);
    NormalizedInDomain(p);
    NumeratorBijection(Times(k, Numerator(step)));
  }

  lemma ExactFloorValue(x: Decimal, step: Decimal)
    requires InDomain(x) && InDomain(step) && Numerator(x) >= 0 && Numerator(step) > 0
    ensures InDomain(ExactFloor(x, step))
    ensures Numerator(ExactFloor(x, step)) == FloorNumerator(Numerator(x), Numerator(step))
  {
    NumeratorBijection(FloorNumerator(Numerator(x), Numerator(step)));
  }

  /** On nonnegative `x` and positive step, the code's expression is the exact floor. */
  lemma QuantizedIsExact(x: Decimal, step: Decimal, precision: nat)
    requires InDomain(x) && InDomain(step) && Numerator(x) >= 0 && Numerator(step) > 0 && precision >= 39
    ensures step.inner.unscaled > 0
    ensures Parse(PlainText(Product(Truncated(Quotient(x.inner, step.inner, precision)), step.inner)))
      == Success(ExactFloor(x, step))
  {
    NumeratorSign(x);
    NumeratorSign(step);
    TruncatedQuotient(x.inner, step.inner, precision);
    ReparsedProduct(step, DivRem(Numerator(x), Numerator(step)).0);
  }

  /** With at least 39 significant digits, `floor_to_step` is the exact floor on the whole domain. */
  lemma FloorToStepExact(x: Decimal, step: Decimal, precision: nat)
    requires InDomain(x) && InDomain(step) && precision >= 39
    ensures FloorToStep(x, step, precision) ==
      if Numerator(x) < 0 || Numerator(step) < 0 then Failure(Negative)
      else if Numerator(step) == 0 then Failure(ZeroStep)
      else Success(ExactFloor(x, step))
  {
    NumeratorSign(x);
    NumeratorSign(step);
    if Numerator(x) >= 0 && Numerator(step) > 0 {
      QuantizedIsExact(x, step, precision);
    }
  }

  // ---------- what a caller may rely on ----------

  /** A multiple of the step lies below `x` exactly when it lies below the floor. */
  lemma FloorSeparates(x: nat, step: nat, a: nat)
    requires step > 0
    ensures Times(a, step) <= x <==> Times(a, step) <= FloorNumerator(x, step)
  {
    var q := DivRem(x, step).0;
    TimesSum(q, 1, step);
    TimesOrder(a, q + 1, step);
    TimesOrder(a, q, step);
  }

  lemma FloorIsGreatest(x: nat, step: nat)
    requires step > 0
    ensures exists k :: FloorNumerator(x, step) == Times(k, step)
    ensures 0 <= x - FloorNumerator(x, step) < step
    ensures forall k :: Times(k, step) <= x ==> Times(k, step) <= FloorNumerator(x, step)
  {
    assert FloorNumerator(x, step) == Times(DivRem(x, step).0, step);
    forall k | Times(k, step) <= x ensures Times(k, step) <= FloorNumerator(x, step) {
      FloorSeparates(x, step, k);
    }
  }

  /** The result is a multiple of the step, within one step below `x`, and the largest such. */
  lemma FloorIsLargestMultiple(x: Decimal, step: Decimal, precision: nat)
    requires InDomain(x) && InDomain(step) && Numerator(x) >= 0 && Numerator(step) > 0 && precision >= 39
    ensures var r := FloorToStep(x, step, precision);
      && r.Success? && InDomain(r.value)
      && (exists k :: Numerator(r.value) == Times(k, Numerator(step)))
      && 0 <= Numerator(x) - Numerator(r.value) < Numerator(step)
      && forall k :: Times(k, Numerator(step)) <= Numerator(x)
           ==> Times(k, Numerator(step)) <= Numerator(r.value)
  {
    FloorToStepExact(x, step, precision);
    ExactFloorValue(x, step);
    FloorIsGreatest(Numerator(x), Numerator(step));
  }

  lemma FloorAbsorbed(x: nat, step: nat, m: nat)
    requires step > 0 && m > 0
    ensures Times(m, step) > 0
    ensures FloorNumerator(FloorNumerator(x, step), Times(m, step)) == FloorNumerator(x, Times(m, step))
  {
    TimesOrder(0, m, step);
    var coarse := Times(m, step);
    var k := DivRem(x, coarse).0;
    TimesAssociates(k, m, step);
    TimesAssociates(k + 1, m, step);
    FloorSeparates(x, step, Times(k, m));
    FloorSeparates(x, step, Times(k + 1, m));
    TimesSum(k, 1, coarse);
    DivUnique(FloorNumerator(x, step), coarse, k);
  }

  /** Flooring first to a step does not change the floor to any coarser multiple of that step. */
  lemma FloorAbsorbsFinerStep(x: Decimal, step: Decimal, coarse: Decimal, m: nat, precision: nat)
    requires InDomain(x) && InDomain(step) && InDomain(coarse) && precision >= 39
    requires Numerator(x) >= 0 && Numerator(step) > 0 && m > 0 && Numerator(coarse) == Times(m, Numerator(step))
    ensures FloorToStep(x, step, precision).Success?
    ensures FloorToStep(FloorToStep(x, step, precision).value, coarse, precision) == FloorToStep(x, coarse, precision)
  {
    FloorAbsorbed(Numerator(x), Numerator(step), m);
    FloorToStepExact(x, step, precision);
    FloorToStepExact(x, coarse, precision);
    ExactFloorValue(x, step);
    FloorToStepExact(ExactFloor(x, step), coarse, precision);
  }

  /** Quantizing twice is quantizing once. */
  lemma FloorIdempotent(x: Decimal, step: Decimal, precision: nat)
    requires InDomain(x) && InDomain(step) && Numerator(x) >= 0 && Numerator(step) > 0 && precision >= 39
    ensures FloorToStep(x, step, precision).Success?
    ensures FloorToStep(FloorToStep(x, step, precision).value, step, precision) == FloorToStep(x, step, precision)
  {
    assert Times(1, Numerator(step)) == Numerator(step);
    FloorAbsorbsFinerStep(x, step, step, 1, precision);
  }

  lemma FloorMonotone(x: Decimal, y: Decimal, step: Decimal, precision: nat)
    requires InDomain(x) && InDomain(y) && InDomain(step) && precision >= 39
    requires 0 <= Numerator(x) <= Numerator(y) && Numerator(step) > 0
    ensures var a, b := FloorToStep(x, step, precision), FloorToStep(y, step, precision);
      && a.Success? && b.Success? && InDomain(a.value) && InDomain(b.value)
      && Numerator(a.value) <= Numerator(b.value)
  {
    FloorIsLargestMultiple(x, step, precision);
    FloorIsLargestMultiple(y, step, precision);
  }

  // ---------- how much precision is enough ----------

  ghost predicate FloorsExactly(precision: nat) {
    forall x, step | InDomain(x) && InDomain(step) && Numerator(x) >= 0 && Numerator(step) > 0 ::
      FloorToStep(x, step, precision) == Success(ExactFloor(x, step))
  }

  /** 39999999999999999999.999999999999999999, one last-place unit below twice the step 2 * 10^19. */
  ghost const SHORT_X := Decimal(BigDecimal(4 * Pow10(37) - 1, 18))
  ghost const SHORT_STEP := Decimal(BigDecimal(2, -19))

  lemma ShortValues()
    ensures InDomain(SHORT_X) && Numerator(SHORT_X) == 4 * Pow10(37) - 1 > 0
    ensures InDomain(SHORT_STEP) && Numerator(SHORT_STEP) == 2 * Pow10(37)
    ensures Pow10(38) == 10 * Pow10(37)
  {
    ShiftMonotone(1, 0, 37);
    assert Pow10(37) == 10 * Pow10(36);
    ShiftSum(1, 1, 37);
    assert Shift(1 + 1, 37) == Shift(2, 37);
  }

  /** Halving an odd number leaves one over. */
  lemma Halves(q: nat)
    ensures DivRem(2 * q + 1, 2) == (q, 1)
  {
    TimesIsProduct(q, 2);
    TimesIsProduct(q + 1, 2);
    DivUnique(2 * q + 1, 2, q);
  }

  lemma HalfRoundsUp()
    ensures RoundingTerm(DivRem(10, 2).0) == 1
  {
    TimesIsProduct(5, 2);
    TimesIsProduct(6, 2);
    DivUnique(10, 2, 5);
  }

  /** Half of an odd number with enough digits is rounded up. */
  lemma HalvesUp(q: nat, scale: int, precision: nat)
    requires q > 0 && |Render(q)| >= precision
    ensures DividePositive(2 * q + 1, 2, scale, precision) == BigDecimal(q + 1, scale)
  {
    Halves(q);
    HalfRoundsUp();
    assert ShiftUp(2 * q + 1, 2, scale) == (2 * q + 1, scale);
    assert Extend(q, 10, 2, |Render(q)|, scale, precision) == (q, 10, scale);
  }

  lemma OddQuotient(q: nat, precision: nat)
    requires q > 0 && |Render(q)| >= precision
    ensures Quotient(BigDecimal(2 * q + 1, 18), SHORT_STEP.inner, precision) == BigDecimal(q + 1, 37)
  {
    StepIsNotOne();
    HalvesUp(q, 37, precision);
  }

  lemma ManyDigits(q: nat, k: nat)
    requires k >= 1 && Pow10(k) <= q
    ensures |Render(q)| > k
  {
    RenderLength(q, k);
  }

  lemma ShortDivision(precision: nat)
    requires precision <= 38
    ensures Quotient(SHORT_X.inner, SHORT_STEP.inner, precision) == BigDecimal(2 * Pow10(37), 37)
  {
    ShortValues();
    var q: nat := 2 * Pow10(37) - 1;
    assert SHORT_X.inner == BigDecimal(2 * q + 1, 18);
    ManyDigits(q, 37);
    OddQuotient(q, precision);
  }

  lemma StepIsNotOne()
    ensures !IsOne(SHORT_STEP.inner)
  {
    var one := BigDecimal(1, 0);
    ShiftMonotone(2, 0, 19);
    assert Scaled(SHORT_STEP.inner, 0) == Shift(2, 19) && Scaled(one, 0) == 1;
    assert Less(one, SHORT_STEP.inner);
  }

  lemma TruncatedShort()
    ensures Truncated(BigDecimal(2 * Pow10(37), 37)) == BigDecimal(2, 0)
  {
    ShiftSum(1, 1, 37);
    ShiftOrder(2, 3, 37);
    TruncatedBetween(BigDecimal(2 * Pow10(37), 37), 2);
  }

  /** With 38 digits or fewer the rounding crosses to the next multiple: the result exceeds `x`. */
  lemma ShortPrecisionOvershoots(precision: nat)
    requires precision <= 38
    ensures InDomain(SHORT_X) && InDomain(SHORT_STEP) && Numerator(SHORT_X) > 0 && Numerator(SHORT_STEP) > 0
    ensures FloorToStep(SHORT_X, SHORT_STEP, precision).Success?
    ensures InDomain(FloorToStep(SHORT_X, SHORT_STEP, precision).value)
    ensures Numerator(FloorToStep(SHORT_X, SHORT_STEP, precision).value) > Numerator(SHORT_X)
  {
    ShortValues();
    ShortDivision(precision);
    TruncatedShort();
    TimesIsProduct(2, Numerator(SHORT_STEP));
    ReparsedProduct(SHORT_STEP, 2);
    NumeratorBijection(Times(2, Numerator(SHORT_STEP)));
  }

  /** Quantizing is exact for all inputs exactly when the division keeps at least 39 digits. */
  lemma PrecisionThreshold(precision: nat)
    ensures FloorsExactly(precision) <==> precision >= 39
  {
    if precision >= 39 {
      forall x, step | InDomain(x) && InDomain(step) && Numerator(x) >= 0 && Numerator(step) > 0
        ensures FloorToStep(x, step, precision) == Success(ExactFloor(x, step))
      {
        FloorToStepExact(x, step, precision);
      }
    } else {
      ShortPrecisionOvershoots(precision);
      ExactFloorValue(SHORT_X, SHORT_STEP);
      FloorIsGreatest(Numerator(SHORT_X), Numerator(SHORT_STEP));
    }
  }

  /** The library's default is more than enough. */
  lemma DefaultPrecisionIsExact()
    ensures FloorsExactly(DEFAULT_PRECISION)
  {
    PrecisionThreshold(DEFAULT_PRECISION);
  }
}
