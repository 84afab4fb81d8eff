/** Denominated amounts, bounded fractions and timestamps built on the decimal domain. */
module Units {
  import opened Prelude
  import opened Sequences
  import opened Powers
  import opened BigDecimals
  import opened Decimals

  datatype Currency = Currency(code: string)

  predicate IsUpper(c: char) {
    'A' <= c <= 'Z'
  }

  predicate IsAsciiDigit(c: char) {
    '0' <= c <= '9'
  }

  /** The texts `Currency::new` accepts. */
  predicate ValidCode(code: string) {
    && 2 <= |code| <= 12
    && IsUpper(code[0])
    && forall i :: 0 <= i < |code| ==> IsUpper(code[i]) || IsAsciiDigit(code[i])
  }

  lemma CodeLimits(n: nat)
    ensures ValidCode(seq(n, _ => 'Z')) <==> 2 <= n <= 12
    ensures ValidCode("A09") && !ValidCode("0A") && !ValidCode("Aa") && !ValidCode("A-")
  {
    assert "Aa"[1] == 'a' && "A-"[1] == '-';
    if n > 0 {
      assert seq(n, _ => 'Z')[0] == 'Z';
    }
  }

  type SourceTimeMs = t: int | 0 <= t <= I64_MAX
  type ReceivedTimeMs = t: int | 0 <= t <= I64_MAX

  datatype Money = Money(amount: Decimal, currency: Currency) {

    /** `Money::checked_add`. */
    function CheckedAdd(other: Money): Result<Money, UnitError> {
      if currency != other.currency then Failure(CurrencyMismatch)
      else match Parse(PlainText(Sum(amount.inner, other.amount.inner)))
        case Success(total) => Success(Money(total, currency))
        case Failure(_) => Failure(OutOfRange)
    }
  }

  datatype Ratio = Ratio(amount: Decimal)

  /** `Ratio::new`. */
  function NewRatio(value: Decimal): Result<Ratio, UnitError> {
    if value.IsNegative() || Less(BigDecimal(1, 0), value.inner) then Failure(OutOfRange)
    else Success(Ratio(value))
  }

  /** Exactly the fractions from 0 through 1 are accepted, unchanged. */
  lemma RatioRange(value: Decimal)
    requires InDomain(value)
    ensures NewRatio(value) ==
      if 0 <= Numerator(value) <= Pow10(18) then Success(Ratio(value)) else Failure(OutOfRange)
  {
    ZeroAndSignTests(value);
    AboveOne(value);
  }

  lemma AboveOne(value: Decimal)
    requires InDomain(value)
    ensures Less(BigDecimal(1, 0), value.inner) <==> Pow10(18) < Numerator(value)
  {
    LessByNumerators(BigDecimal(1, 0), value.inner, 18);
    assert Scaled(BigDecimal(1, 0), 18) == Pow10(18);
  }

  /** What adding two amounts promises. */
  ghost predicate IsSum(a: Money, b: Money, r: Result<Money, UnitError>)
    requires InDomain(a.amount) && InDomain(b.amount)
  {
    var sum := Numerator(a.amount) + Numerator(b.amount);
    match r
    case Success(c) => a.currency == b.currency == c.currency && InDomain(c.amount) && Numerator(c.amount) == sum
    case Failure(e) =>
      if a.currency != b.currency then e == CurrencyMismatch else e == OutOfRange && !InRange(sum)
  }

  /** Addition is exact, and overflows exactly when the true sum leaves the domain. */
  lemma CheckedAddExact(a: Money, b: Money)
    requires InDomain(a.amount) && InDomain(b.amount)
    ensures IsSum(a, b, a.CheckedAdd(b))
  {
    var s := Sum(a.amount.inner, b.amount.inner);
    DomainScale(a.amount);
    DomainScale(b.amount);
    SumIsExact(a.amount.inner, b.amount.inner, 18);
    ParsePlainText(s);
    if InRange(Scaled(s, 18)) {
      NormalizedInDomain(s);
    }
  }

  // ---------- adding up a list ----------

  /** Repeated addition, stopping at the first failure. */
  function AddAll(start: Money, items: seq<Money>): Result<Money, UnitError>
    decreases |items|
  {
    if |items| == 0 then Success(start)
    else match start.CheckedAdd(items[0])
      case Success(next) => AddAll(next, items[1..])
      case Failure(e) => Failure(e)
  }

  ghost predicate AllIn(items: seq<Money>, currency: Currency) {
    AllInDomain(items) && forall i :: 0 <= i < |items| ==> items[i].currency == currency
  }

  ghost predicate AllInDomain(items: seq<Money>) {
    forall i :: 0 <= i < |items| ==> InDomain(items[i].amount)
  }

  ghost function Total(items: seq<Money>): int
    requires AllInDomain(items)
  {
    if |items| == 0 then 0 else Numerator(items[0].amount) + Total(items[1..])
  }

  /** No partial sum leaves the domain. */
  ghost predicate PartialSumsInRange(start: int, items: seq<Money>)
    requires AllInDomain(items)
    decreases |items|
  {
    |items| == 0 || (InRange(start + Numerator(items[0].amount))
                    && PartialSumsInRange(start + Numerator(items[0].amount), items[1..]))
  }

  /** `r` is the in-range total of the list, or the overflow of a partial sum. */
  ghost predicate AddsUp(start: Money, items: seq<Money>, r: Result<Money, UnitError>)
    requires InDomain(start.amount) && AllInDomain(items)
  {
    match r
    case Success(total) =>
      && PartialSumsInRange(Numerator(start.amount), items)
      && InDomain(total.amount) && total.currency == start.currency
      && Numerator(total.amount) == Numerator(start.amount) + Total(items)
    case Failure(e) => e == OutOfRange && !PartialSumsInRange(Numerator(start.amount), items)
  }

  lemma AddsUpStep(start: Money, items: seq<Money>, next: Result<Money, UnitError>, r: Result<Money, UnitError>)
    requires InDomain(start.amount) && AllIn(items, start.currency) && |items| > 0
    requires IsSum(start, items[0], next)
    requires if next.Success? then AddsUp(next.value, items[1..], r) else r == Failure(next.error)
    ensures AddsUp(start, items, r)
  {
    if next.Success? {
      assert InRange(Numerator(next.value.amount));
    }
  }

  /** Adding up a list succeeds exactly when every partial sum is in range, and then exactly. */
  lemma {:induction false} AddAllExact(start: Money, items: seq<Money>)
    requires InDomain(start.amount) && AllIn(items, start.currency)
    ensures AddsUp(start, items, AddAll(start, items))
    decreases |items|
  {
    if |items| == 0 {
    } else {
      CheckedAddExact(start, items[0]);
      var next := start.CheckedAdd(items[0]);
      if next.Success? {
        AddAllExact(next.value, items[1..]);
      }
      AddsUpStep(start, items, next, AddAll(start, items));
    }
  }

  lemma {:induction false} TotalSplit(items: seq<Money>, k: nat)
    requires k < |items| && AllInDomain(items)
    ensures Total(items) == Numerator(items[k].amount) + Total(Without(items, k))
    decreases k
  {
    var rest := Without(items, k);
    if k == 0 {
      assert rest == items[1..];
    } else {
      TotalSplit(items[1..], k - 1);
      assert Without(items[1..], k - 1) == rest[1..];
    }
  }

  /** The total does not depend on the order of the items. */
  lemma {:induction false} TotalPermutation(xs: seq<Money>, ys: seq<Money>)
    requires multiset(xs) == multiset(ys)
    requires AllInDomain(xs)
    ensures AllInDomain(ys)
    ensures Total(xs) == Total(ys)
    decreases |xs|
  {
    forall i | 0 <= i < |ys| ensures InDomain(ys[i].amount) {
      assert ys[i] in multiset(xs);
    }
    if |xs| == 0 {
      assert |multiset(ys)| == |ys|;
    } else {
      var k := PermutationStep(xs, ys);
      TotalSplit(ys, k);
      TotalPermutation(xs[1..], Without(ys, k));
    }
  }

  /** Any two orders in which no partial sum overflows give the same amount. */
  lemma AddAllOrderFree(start: Money, xs: seq<Money>, ys: seq<Money>)
    requires InDomain(start.amount) && AllIn(xs, start.currency) && multiset(xs) == multiset(ys)
    requires PartialSumsInRange(Numerator(start.amount), xs)
    ensures AllInDomain(ys)
    ensures AddAll(start, xs).Success?
    ensures PartialSumsInRange(Numerator(start.amount), ys) ==> AddAll(start, ys) == AddAll(start, xs)
  {
    TotalPermutation(xs, ys);
    forall i | 0 <= i < |ys| ensures ys[i].currency == start.currency {
      assert ys[i] in multiset(xs);
    }
    AddAllExact(start, xs);
    AddAllExact(start, ys);
    if AddAll(start, ys).Success? {
      CanonicalUnique(AddAll(start, xs).value.amount.inner, AddAll(start, ys).value.amount.inner, 18);
    }
  }
}
