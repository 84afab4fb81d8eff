/**
 * The parts of the arbitrary-precision decimal library (bigdecimal 0.4.10) that the decimal
 * domain relies on: a number is `unscaled * 10^(-scale)`, with many representations each.
 */
module BigDecimals {
  import opened Prelude
  import opened Powers
  import opened Multiples
  import opened Digits

  datatype BigDecimal = BigDecimal(unscaled: int, scale: int)

  /** The numerator of `d` over 10^k. */
  function Scaled(d: BigDecimal, k: int): int
    requires d.scale <= k
  {
    Shift(d.unscaled, k - d.scale)
  }

  /** Strips trailing zeros; zero becomes (0, 0). */
  function Normalized(d: BigDecimal): BigDecimal
    decreases Abs(d.unscaled)
  {
    if d.unscaled == 0 then BigDecimal(0, 0)
    else if d.unscaled % 10 == 0 then Normalized(BigDecimal(d.unscaled / 10, d.scale - 1))
    else d
  }

  ghost predicate Canonical(d: BigDecimal) {
    if d.unscaled == 0 then d.scale == 0 else d.unscaled % 10 != 0
  }

  function Sum(a: BigDecimal, b: BigDecimal): BigDecimal {
    var scale := Max(a.scale, b.scale);
    BigDecimal(Scaled(a, scale) + Scaled(b, scale), scale)
  }

  function Product(a: BigDecimal, b: BigDecimal): BigDecimal {
    BigDecimal(a.unscaled * b.unscaled, a.scale + b.scale)
  }

  /** Numeric order. */
  predicate Less(a: BigDecimal, b: BigDecimal) {
    var scale := Max(a.scale, b.scale);
    Scaled(a, scale) < Scaled(b, scale)
  }

  /** Rounding toward zero to an integer. */
  function Truncated(d: BigDecimal): BigDecimal {
    if d.scale <= 0 then BigDecimal(Shift(d.unscaled, -d.scale), 0)
    else
      TimesPow(0, d.scale);
      var q := DivRem(Abs(d.unscaled), Pow10(d.scale)).0;
      BigDecimal(if d.unscaled < 0 then 0 - q else q, 0)
  }

  /** Truncation is symmetric in the sign. */
  lemma TruncatedSign(d: BigDecimal)
    ensures Truncated(BigDecimal(-d.unscaled, d.scale)) == BigDecimal(-Truncated(d).unscaled, 0)
  {
    if d.scale <= 0 {
      ShiftSum(d.unscaled, 0, -d.scale);
    } else {
      TimesPow(0, d.scale);
      assert Abs(-d.unscaled) == Abs(d.unscaled);
      if d.unscaled == 0 {
        assert DivRem(0, Pow10(d.scale)).0 == 0;
      }
    }
  }

  // ---------- text ----------

  /** `split_once('.')`, with an absent point read as an empty right part. */
  function SplitPoint(s: string): (string, string) {
    if s == "" then ("", "")
    else if s[0] == '.' then ("", s[1..])
    else var (whole, fraction) := SplitPoint(s[1..]); ([s[0]] + whole, fraction)
  }

  function PadLeft(s: string, width: nat): string {
    if |s| >= width then s else Zeros(width - |s|) + s
  }

  /** Digits before the decimal point of `n * 10^(-scale)`. */
  function WholeText(n: nat, scale: int): string {
    if scale <= 0 then Render(n) + Zeros(-scale)
    else var s := PadLeft(Render(n), scale + 1); s[..|s| - scale]
  }

  /** Digits after the decimal point of `n * 10^(-scale)`: exactly `scale` of them, if positive. */
  function FractionText(n: nat, scale: int): string {
    if scale <= 0 then ""
    else var s := PadLeft(Render(n), scale + 1); s[|s| - scale..]
  }

  function Spell(negative: bool, whole: string, fraction: string): string {
    (if negative then "-" else "") + whole + (if fraction == "" then "" else "." + fraction)
  }

  /** `to_plain_string`: never an exponent, and as many fraction digits as the scale says. */
  function PlainText(d: BigDecimal): string {
    Spell(d.unscaled < 0, WholeText(Abs(d.unscaled), d.scale), FractionText(Abs(d.unscaled), d.scale))
  }

  /** Integer text: an optional minus sign and at least one digit. */
  function ParseInteger(s: string): Option<int> {
    if s != "" && AllDigits(s) then Some(DigitsValue(s) as int)
    else if |s| > 1 && s[0] == '-' && AllDigits(s[1..]) then Some(0 - DigitsValue(s[1..]))
    else None
  }

  /** `from_str` on text without an exponent: the scale is the number of digits after the point. */
  function FromText(value: string): Option<BigDecimal> {
    var (lead, trail) := SplitPoint(value);
    match ParseInteger(lead + trail)
    case Some(n) => Some(BigDecimal(n, |trail|))
    case None => None
  }

  // ---------- lemmas ----------

  lemma {:induction false} NormalizedIsCanonical(d: BigDecimal)
    ensures Canonical(Normalized(d))
    ensures Normalized(d).scale <= Max(d.scale, 0)
    decreases Abs(d.unscaled)
  {
    if d.unscaled == 0 || d.unscaled % 10 != 0 {
    } else {
      NormalizedIsCanonical(BigDecimal(d.unscaled / 10, d.scale - 1));
    }
  }

  lemma {:induction false} NormalizedKeepsValue(d: BigDecimal, k: int)
    requires d.scale <= k && 0 <= k
    ensures Normalized(d).scale <= k && Scaled(Normalized(d), k) == Scaled(d, k)
    decreases Abs(d.unscaled)
  {
    NormalizedIsCanonical(d);
    if d.unscaled == 0 {
      ShiftZero(k - d.scale);
      ShiftZero(k);
    } else if d.unscaled % 10 == 0 {
      var u := d.unscaled / 10;
      NormalizedKeepsValue(BigDecimal(u, d.scale - 1), k);
      ShiftAdd(u, 1, k - d.scale);
      assert Shift(u, 1) == d.unscaled;
    }
  }

  /** A number has one canonical representation. */
  lemma CanonicalUnique(a: BigDecimal, b: BigDecimal, k: int)
    requires Canonical(a) && Canonical(b) && a.scale <= k && b.scale <= k
    requires Scaled(a, k) == Scaled(b, k)
    ensures a == b
  {
    if a.scale <= b.scale {
      CanonicalUniqueOrdered(a, b, k);
    } else {
      CanonicalUniqueOrdered(b, a, k);
    }
  }

  lemma ShiftedNotCanonical(n: int, e: nat)
    requires e > 0
    ensures Shift(n, e) % 10 == 0 && (n == 0 <==> Shift(n, e) == 0)
  {
    ShiftZero(e);
    ShiftOrder(n, 0, e);
  }

  lemma CanonicalUniqueOrdered(a: BigDecimal, b: BigDecimal, k: int)
    requires Canonical(a) && Canonical(b) && a.scale <= b.scale <= k
    requires Scaled(a, k) == Scaled(b, k)
    ensures a == b
  {
    var e := b.scale - a.scale;
    ScaledRefine(a, b.scale, k);
    ShiftOrder(Scaled(a, b.scale), b.unscaled, k - b.scale);
    assert Shift(a.unscaled, e) == b.unscaled;
    if e > 0 {
      ShiftedNotCanonical(a.unscaled, e);
    }
  }

  /** The numerator over a finer denominator. */
  lemma ScaledRefine(d: BigDecimal, k: int, m: int)
    requires d.scale <= k <= m
    ensures Scaled(d, m) == Shift(Scaled(d, k), m - k)
  {
    ShiftAdd(d.unscaled, k - d.scale, m - k);
  }

  /** The numeric order can be read off numerators over any common denominator. */
  lemma LessByNumerators(a: BigDecimal, b: BigDecimal, m: int)
    requires a.scale <= m && b.scale <= m
    ensures Less(a, b) <==> Scaled(a, m) < Scaled(b, m)
  {
    var k := Max(a.scale, b.scale);
    ScaledRefine(a, k, m);
    ScaledRefine(b, k, m);
    ShiftOrder(Scaled(a, k), Scaled(b, k), m - k);
  }

  lemma SumIsExact(a: BigDecimal, b: BigDecimal, m: int)
    requires a.scale <= m && b.scale <= m
    ensures Scaled(Sum(a, b), m) == Scaled(a, m) + Scaled(b, m)
  {
    var k := Max(a.scale, b.scale);
    ScaledRefine(a, k, m);
    ScaledRefine(b, k, m);
    ShiftSum(Scaled(a, k), Scaled(b, k), m - k);
  }

  lemma {:induction false} SplitSpelled(whole: string, fraction: string)
    requires '.' !in whole
    ensures SplitPoint(whole) == (whole, "")
    ensures SplitPoint(whole + ("." + fraction)) == (whole, fraction)
    decreases |whole|
  {
    var t := whole + ("." + fraction);
    if whole == "" {
      assert t == "." + fraction;
      assert t[1..] == fraction;
    } else {
      SplitSpelled(whole[1..], fraction);
      assert t[1..] == whole[1..] + ("." + fraction);
      assert [whole[0]] + whole[1..] == whole;
    }
  }

  lemma {:induction false} SplitRejoins(s: string)
    ensures var (whole, fraction) := SplitPoint(s);
      '.' !in whole && (s == whole + "." + fraction || (s == whole && fraction == ""))
    decreases |s|
  {
    if s == "" || s[0] == '.' {
    } else {
      SplitRejoins(s[1..]);
    }
  }

  /** The spelled digits of `n * 10^(-scale)`, point removed, denote `n` (or `n` shifted left). */
  lemma PlainDigits(n: nat, scale: int)
    ensures var w, f := WholeText(n, scale), FractionText(n, scale);
      && w != "" && AllDigits(w) && AllDigits(f) && |f| == Max(scale, 0)
      && DigitsValue(w + f) == Shift(n, Max(-scale, 0))
  {
    var w, f := WholeText(n, scale), FractionText(n, scale);
    RenderValue(n);
    if scale <= 0 {
      DigitsValueConcat(Render(n), Zeros(-scale));
      ZerosValue(-scale);
      assert w + f == w;
    } else {
      var s := PadLeft(Render(n), scale + 1);
      assert w + f == s;
      if |Render(n)| < scale + 1 {
        var z := scale + 1 - |Render(n)|;
        DigitsValueConcat(Zeros(z), Render(n));
        ZerosValue(z);
        ShiftZero(|Render(n)|);
      }
    }
  }
}
