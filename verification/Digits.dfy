/**
 * Powers of ten. `Shift(n, k)` is n * 10^k, defined without a product of two variables so that the
 * decimal arguments stay linear.
 */
module Powers {

  function Shift(n: int, k: nat): int {
    if k == 0 then n else 10 * Shift(n, k - 1)
  }

  function Pow10(k: nat): int {
    Shift(1, k)
  }

  lemma {:induction false} ShiftAdd(n: int, a: nat, b: nat)
    ensures Shift(Shift(n, a), b) == Shift(n, a + b)
    decreases b
  {
    if b == 0 {
    } else {
      ShiftAdd(n, a, b - 1);
    }
  }

  lemma {:induction false} ShiftSum(x: int, y: int, k: nat)
    ensures Shift(x + y, k) == Shift(x, k) + Shift(y, k)
    ensures Shift(-x, k) == -Shift(x, k)
  {
    if k == 0 {
    } else {
      ShiftSum(x, y, k - 1);
    }
  }

  lemma {:induction false} ShiftOrder(x: int, y: int, k: nat)
    ensures x < y <==> Shift(x, k) < Shift(y, k)
    ensures x == y <==> Shift(x, k) == Shift(y, k)
  {
    if k == 0 {
    } else {
      ShiftOrder(x, y, k - 1);
    }
  }

  lemma {:induction false} ShiftZero(k: nat)
    ensures Shift(0, k) == 0
  {
    if k == 0 {
    } else {
      ShiftZero(k - 1);
    }
  }

  lemma {:induction false} ShiftMonotone(n: nat, a: nat, b: nat)
    requires a <= b
    ensures 0 <= Shift(n, a) <= Shift(n, b)
    ensures n > 0 ==> 0 < Shift(n, a)
    decreases b
  {
    if a < b {
      ShiftMonotone(n, a, b - 1);
    } else if a > 0 {
      ShiftMonotone(n, a - 1, a - 1);
    }
  }

  /** The product form, for the places that divide. */
  lemma {:induction false} ShiftIsProduct(n: int, k: nat)
    ensures Shift(n, k) == n * Pow10(k)
  {
    if k == 0 {
    } else {
      ShiftIsProduct(n, k - 1);
      assert n * (10 * Pow10(k - 1)) == 10 * (n * Pow10(k - 1));
    }
  }
}

/**
 * Multiples and Euclidean division of naturals. `Times(k, s)` is k * s as repeated addition and
 * `DivRem` is division as repeated subtraction, so that arguments about them stay linear too.
 */
module Multiples {
  import opened Powers

  function Times(k: nat, s: nat): nat {
    if k == 0 then 0 else Times(k - 1, s) + s
  }

  /** Quotient and remainder. */
  function DivRem(n: nat, d: nat): (qr: (nat, nat))
    requires d > 0
    ensures n == Times(qr.0, d) + qr.1 && qr.1 < d
    decreases n
  {
    if n < d then (0, n) else var (q, r) := DivRem(n - d, d); (q + 1, r)
  }

  lemma {:induction false} TimesIsProduct(k: nat, s: nat)
    ensures Times(k, s) == k * s
  {
    if k == 0 {
    } else {
      TimesIsProduct(k - 1, s);
    }
  }

  lemma {:induction false} TimesSum(a: nat, b: nat, s: nat)
    ensures Times(a + b, s) == Times(a, s) + Times(b, s)
    decreases b
  {
    if b == 0 {
    } else {
      TimesSum(a, b - 1, s);
      assert Times(a + b, s) == Times(a + (b - 1), s) + s;
    }
  }

  lemma {:induction false} TimesOrder(a: nat, b: nat, s: nat)
    requires s > 0
    ensures a < b <==> Times(a, s) < Times(b, s)
    ensures a <= b <==> Times(a, s) <= Times(b, s)
    decreases a + b
  {
    if a == 0 || b == 0 {
    } else {
      TimesOrder(a - 1, b - 1, s);
    }
  }

  lemma {:induction false} TimesOrderRight(k: nat, s: nat, t: nat)
    requires s <= t
    ensures Times(k, s) <= Times(k, t)
  {
    if k == 0 {
    } else {
      TimesOrderRight(k - 1, s, t);
    }
  }

  lemma {:induction false} TimesOne(k: nat)
    ensures Times(k, 1) == k
  {
    if k == 0 {
    } else {
      TimesOne(k - 1);
    }
  }

  /** Shifting a multiple shifts the factor on the right. */
  lemma {:induction false} TimesShift(k: nat, s: nat, e: nat)
    ensures Shift(s, e) >= 0 && Shift(Times(k, s), e) == Times(k, Shift(s, e))
    decreases k
  {
    ShiftMonotone(s, e, e);
    if k == 0 {
      ShiftZero(e);
    } else {
      TimesShift(k - 1, s, e);
      ShiftSum(Times(k - 1, s), s, e);
    }
  }

  /** Shifting by e is taking a multiple of 10^e. */
  lemma TimesPow(k: nat, e: nat)
    ensures Pow10(e) > 0 && Times(k, Pow10(e)) == Shift(k, e)
  {
    ShiftMonotone(1, e, e);
    TimesShift(k, 1, e);
    TimesOne(k);
  }

  lemma {:induction false} TimesTen(k: nat, s: nat)
    ensures Times(10 * k, s) == 10 * Times(k, s)
    decreases k
  {
    if k == 0 {
    } else {
      TimesTen(k - 1, s);
      TimesSum(10 * (k - 1), 10, s);
      assert 10 * (k - 1) + 10 == 10 * k;
      TimesIsProduct(10, s);
    }
  }

  /** Shifting the multiplier shifts the multiple. */
  lemma {:induction false} ShiftTimes(k: nat, s: nat, e: nat)
    ensures Shift(k, e) >= 0 && Times(Shift(k, e), s) == Shift(Times(k, s), e)
    decreases e
  {
    ShiftMonotone(k, e, e);
    if e == 0 {
    } else {
      ShiftTimes(k, s, e - 1);
      TimesTen(Shift(k, e - 1), s);
    }
  }

  lemma {:induction false} TimesAssociates(a: nat, b: nat, s: nat)
    ensures Times(a, Times(b, s)) == Times(Times(a, b), s)
    decreases a
  {
    if a == 0 {
    } else {
      TimesAssociates(a - 1, b, s);
      TimesSum(Times(a - 1, b), b, s);
    }
  }

  /** A quotient is known once its multiple is bracketed. */
  lemma DivUnique(n: nat, d: nat, k: nat)
    requires d > 0 && Times(k, d) <= n < Times(k + 1, d)
    ensures DivRem(n, d).0 == k
  {
    var q := DivRem(n, d).0;
    TimesOrder(k, q + 1, d);
    TimesOrder(q, k + 1, d);
  }
}

/** Decimal digit strings and the natural numbers they denote. */
module Digits {
  import opened Powers

  predicate IsDigit(c: char) {
    '0' <= c <= '9'
  }

  predicate AllDigits(s: string) {
    forall i :: 0 <= i < |s| ==> IsDigit(s[i])
  }

  function DigitValue(c: char): (d: nat)
    requires IsDigit(c)
    ensures d < 10
  {
    c as int - '0' as int
  }

  function DigitChar(d: nat): (c: char)
    requires d < 10
    ensures IsDigit(c) && DigitValue(c) == d
  {
    ('0' as int + d) as char
  }

  /** The number a digit string denotes; the empty string denotes zero. */
  function DigitsValue(s: string): nat
    requires AllDigits(s)
  {
    if s == "" then 0
    else 10 * DigitsValue(s[..|s| - 1]) + DigitValue(s[|s| - 1])
  }

  /** The shortest digit string of a number. */
  function Render(n: nat): (s: string)
    ensures |s| >= 1 && AllDigits(s)
  {
    if n < 10 then [DigitChar(n)] else Render(n / 10) + [DigitChar(n % 10)]
  }

  function Zeros(n: nat): (s: string)
    ensures |s| == n && AllDigits(s) && forall i :: 0 <= i < n ==> s[i] == '0'
  {
    seq(n, _ => '0')
  }

  /** `trim_start_matches('0')`. */
  function TrimZeros(s: string): string {
    if s != "" && s[0] == '0' then TrimZeros(s[1..]) else s
  }

  lemma {:induction false} RenderValue(n: nat)
    ensures DigitsValue(Render(n)) == n
  {
    if n < 10 {
      assert Render(n)[..0] == "";
    } else {
      RenderValue(n / 10);
      var s := Render(n);
      assert s[..|s| - 1] == Render(n / 10) && s[|s| - 1] == DigitChar(n % 10);
    }
  }

  /** `Render` writes no leading zero, and needs at most `k` digits exactly below 10^k. */
  lemma {:induction false} RenderLength(n: nat, k: nat)
    requires k >= 1
    ensures |Render(n)| <= k <==> n < Pow10(k)
    decreases n
  {
    if n < 10 {
      ShiftMonotone(1, 1, k);
    } else if k > 1 {
      RenderLength(n / 10, k - 1);
    }
  }

  lemma {:induction false} DigitsValueConcat(a: string, b: string)
    requires AllDigits(a) && AllDigits(b)
    ensures AllDigits(a + b)
    ensures DigitsValue(a + b) == Shift(DigitsValue(a), |b|) + DigitsValue(b)
    decreases |b|
  {
    if b == "" {
      assert a + b == a;
    } else {
      var p := b[..|b| - 1];
      DigitsValueConcat(a, p);
      var s := a + b;
      assert s[..|s| - 1] == a + p && s[|s| - 1] == b[|b| - 1];
    }
  }

  lemma {:induction false} ZerosValue(n: nat)
    ensures DigitsValue(Zeros(n)) == 0
  {
    if n == 0 {
    } else {
      ZerosValue(n - 1);
      assert Zeros(n)[..n - 1] == Zeros(n - 1);
    }
  }

  lemma {:induction false} DigitsValueBounds(s: string)
    requires AllDigits(s)
    ensures DigitsValue(s) < Pow10(|s|)
    ensures s != "" && s[0] != '0' ==> Pow10(|s| - 1) <= DigitsValue(s)
  {
    if s == "" {
    } else {
      var p := s[..|s| - 1];
      DigitsValueBounds(p);
      if |s| > 1 {
        assert p[0] == s[0];
      }
    }
  }

  lemma LeadingZero(s: string)
    requires AllDigits(s) && s != "" && s[0] == '0'
    ensures AllDigits(s[1..]) && DigitsValue(s) == DigitsValue(s[1..])
  {
    assert s == "0" + s[1..];
    assert DigitsValue("0") == 0 by { assert "0"[..0] == ""; }
    DigitsValueConcat("0", s[1..]);
    ShiftZero(|s[1..]|);
  }

  /** Trimming leading zeros keeps the value; at most `k` digits remain exactly below 10^k. */
  lemma {:induction false} TrimZerosLength(s: string, k: nat)
    requires AllDigits(s)
    ensures |TrimZeros(s)| <= |s| && AllDigits(TrimZeros(s))
    ensures |TrimZeros(s)| <= k <==> DigitsValue(s) < Pow10(k)
    decreases |s|
  {
    if s != "" && s[0] == '0' {
      LeadingZero(s);
      TrimZerosLength(s[1..], k);
    } else {
      DigitsValueBounds(s);
      if |s| <= k {
        ShiftMonotone(1, |s|, k);
      } else {
        ShiftMonotone(1, k, |s| - 1);
      }
    }
  }
}
