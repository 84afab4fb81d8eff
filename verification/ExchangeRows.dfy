/** Parsing of exchange rows and their conversion into directory facts. */
module ExchangeRows {
  import opened Prelude
  import opened Sequences
  import opened Identity
  import opened BigDecimals
  import opened Decimals
  import opened Units
  import opened Facts
  import opened Freshness
  import opened Wire
  import opened ClientClock
  import opened Instrument

  datatype InstrumentType = SpotType | SwapType

  function AsOkx(t: InstrumentType): string {
    match t
    case SpotType => "SPOT"
    case SwapType => "SWAP"
  }

  datatype InstrumentRow = InstrumentRow(
    instId: string, instType: string, state: string,
    baseCcy: string, quoteCcy: string,
    tickSz: string, lotSz: string, minSz: string,
    ctType: string, ctVal: string, ctValCcy: string, settleCcy: string,
    groupId: string)

  datatype PublicInstrument = PublicInstrument(
    instId: OkxInstrumentId,
    instType: InstrumentType,
    state: TradingState,
    base: Currency,
    quote: Currency,
    tickSize: Decimal,
    lotSize: Decimal,
    minSize: Decimal,
    contractValue: Option<Decimal>,
    contractValueCurrency: Option<Currency>,
    settlement: Option<Currency>,
    feeGroupId: Option<string>)

  /** `positive`. */
  function ParsePositive(value: string): Result<Decimal, ClientError> {
    match Parse(value)
    case Failure(_) => Failure(InvalidResponse)
    case Success(d) => if NonPositive(d) then Failure(InvalidResponse) else Success(d)
  }

  function ParseState(state: string): Result<TradingState, ClientError> {
    if state == "live" then Success(TradingState.Live)
    else if state == "post_only" then Success(PostOnly)
    else if state == "suspend" || state == "rebase" then Success(TradingState.Inactive)
    else Failure(InvalidResponse)
  }

  /** An absent field is the empty string; a present one must parse. */
  function OptionalCurrency(code: string): Result<Option<Currency>, ClientError> {
    if code == "" then Success(None)
    else if ValidCode(code) then Success(Some(Currency(code)))
    else Failure(InvalidResponse)
  }

  /** `InstrumentRow::parse`; every rejection is the same error. */
  function ParseRow(row: InstrumentRow, requested: InstrumentType): Result<PublicInstrument, ClientError> {
    Assemble(row, requested, ParsePositive(row.tickSz), ParsePositive(row.lotSz), ParsePositive(row.minSz),
             ParsePositive(row.ctVal))
  }

  /** The row once its four numbers are parsed. */
  function Assemble(row: InstrumentRow, requested: InstrumentType,
                    tick: Result<Decimal, ClientError>, lot: Result<Decimal, ClientError>,
                    least: Result<Decimal, ClientError>, value: Result<Decimal, ClientError>)
    : Result<PublicInstrument, ClientError>
  {
    var state := ParseState(row.state);
    var (base, quote) :=
      if requested == SpotType then (row.baseCcy, row.quoteCcy) else (row.ctValCcy, row.settleCcy);
    var contractValueCurrency, settlement := OptionalCurrency(row.ctValCcy), OptionalCurrency(row.settleCcy);
    if row.instType != AsOkx(requested) || !ValidId(row.instId) || state.Failure?
       || tick.Failure? || lot.Failure? || least.Failure? || !ValidCode(base) || !ValidCode(quote)
       || (requested == SwapType
           && (row.ctType != "linear" || row.settleCcy != "USDT" || row.ctValCcy == "" || value.Failure?))
       || (row.ctVal != "" && value.Failure?) || contractValueCurrency.Failure? || settlement.Failure?
    then Failure(InvalidResponse)
    else Success(PublicInstrument(
      row.instId, requested, state.value, Currency(base), Currency(quote),
      tick.value, lot.value, least.value,
      if row.ctVal == "" then None else Some(value.value), contractValueCurrency.value, settlement.value,
      if row.groupId == "" then None else Some(row.groupId)))
  }

  // ---------- conversions into directory facts ----------

  /** `to_instrument_spec`, with the content digest of the normalized row as the version. */
  function ToSpec(row: PublicInstrument, version: string, times: Times): InstrumentSpec {
    InstrumentSpec(
      row.instId,
      if row.instType == SpotType then ProductKind.Spot else LinearUsdtSwap,
      row.base, row.quote, row.settlement, version, row.state,
      row.tickSize, row.lotSize, row.minSize,
      row.contractValue, row.contractValueCurrency, row.feeGroupId, times)
  }

  datatype AccountInstruments = AccountInstruments(accountId: AccountId, instIds: seq<OkxInstrumentId>)
  datatype AccountConfiguration = AccountConfiguration(mode: PositionMode)
  datatype FeeRates = FeeRates(groupId: string, maker: Decimal, taker: Decimal, updated: SourceTimeMs)

  /** `to_eligibility`: two observations become one fact. */
  function ToEligibility(listed: Observation<AccountInstruments>, config: Observation<AccountConfiguration>)
    : AccountEligibility
  {
    AccountEligibility(listed.value.accountId, config.value.mode, listed.value.instIds,
                       Merge(listed.times, config.times))
  }

  /** `to_fee_schedule`. */
  function ToFeeSchedule(rates: Observation<FeeRates>, instId: OkxInstrumentId, version: string): FeeSchedule {
    FeeSchedule(instId, rates.value.groupId, version, rates.value.maker, rates.value.taker, rates.times)
  }

  // ---------- the account's instruments ----------

  datatype AccountInstrumentRow = AccountInstrumentRow(instId: string, instType: string)

  ghost function RowIds(rows: seq<AccountInstrumentRow>): seq<OkxInstrumentId> {
    seq(|rows|, i requires 0 <= i < |rows| => rows[i].instId)
  }

  ghost predicate RowsAcceptable(rows: seq<AccountInstrumentRow>, t: InstrumentType) {
    && Distinct(RowIds(rows))
    && forall i :: 0 <= i < |rows| ==> rows[i].instType == AsOkx(t) && ValidId(rows[i].instId)
  }

  /** The loop of `account_instruments`: all rows in order, or an error if any is foreign or repeated. */
  method CollectInstruments(rows: seq<AccountInstrumentRow>, t: InstrumentType)
    returns (r: Result<seq<OkxInstrumentId>, ClientError>)
    ensures r == if RowsAcceptable(rows, t) then Success(RowIds(rows)) else Failure(InvalidResponse)
  {
    var ids: seq<OkxInstrumentId> := [];
    var seen: set<OkxInstrumentId> := {};
    ghost var all := RowIds(rows);
    for i := 0 to |rows|
      invariant ids == all[..i] && seen == Elements(ids) && Distinct(ids)
      invariant forall j :: 0 <= j < i ==> rows[j].instType == AsOkx(t) && ValidId(rows[j].instId)
    {
      var row := rows[i];
      if row.instType != AsOkx(t) || !ValidId(row.instId) {
        return Failure(InvalidResponse);
      }
      DistinctSnoc(ids, row.instId);
      assert all[..i + 1] == ids + [row.instId];
      if row.instId in seen {
        RepeatInPrefix(all, i + 1);
        return Failure(InvalidResponse);
      }
      ids, seen := ids + [row.instId], seen + {row.instId};
    }
    assert all[..|rows|] == all;
    return Success(ids);
  }

  // ---------- fee groups ----------

  datatype FeeGroupRow = FeeGroupRow(groupId: string, maker: string, taker: string)
  datatype FeeRow = FeeRow(instType: string, ts: string, groups: seq<FeeGroupRow>)

  predicate ValidGroup(groupId: string) {
    1 <= |groupId| <= 32 && forall i :: 0 <= i < |groupId| ==> IsAlphanumeric(groupId[i])
  }

  lemma GroupLimits(n: nat)
    ensures ValidGroup(seq(n, _ => 'z')) <==> 1 <= n <= 32
    ensures ValidGroup("09azAZ") && !ValidGroup("a-") && !ValidGroup("-a")
  {
    assert "a-"[1] == '-' && "-a"[0] == '-';
  }

  function Select(groups: seq<FeeGroupRow>, groupId: string): seq<FeeGroupRow> {
    if |groups| == 0 then []
    else (if groups[0].groupId == groupId then [groups[0]] else []) + Select(groups[1..], groupId)
  }

  /** A rate is a fraction between minus one and one. */
  function ParseRate(text: string): Result<Decimal, ClientError> {
    match Parse(text)
    case Failure(_) => Failure(InvalidResponse)
    case Success(d) =>
      if Less(d.inner, BigDecimal(-1, 0)) || Less(BigDecimal(1, 0), d.inner) then Failure(InvalidResponse)
      else Success(d)
  }

  /** `fee_group` on the decoded response. */
  function FeeGroup(rows: seq<FeeRow>, t: InstrumentType, groupId: string,
                    clock: Option<ClockSync>, now: Instant, wallNs: int): Result<Observation<FeeRates>, ClientError>
  {
    if !ValidGroup(groupId) || One(rows).Failure? then Failure(InvalidResponse)
    else
      var row := rows[0];
      var chosen := One(Select(row.groups, groupId));
      if row.instType != AsOkx(t) || chosen.Failure? then Failure(InvalidResponse)
      else
        var maker, taker, updated := ParseRate(chosen.value.maker), ParseRate(chosen.value.taker), ParseI64(row.ts);
        if maker.Failure? || taker.Failure? || updated.None? || updated.value < 0 then Failure(InvalidResponse)
        else
          var observed := Observe(clock, FeeRates(groupId, maker.value, taker.value, updated.value), now, wallNs);
          if observed.Failure? then observed
          else if updated.value - observed.value.times.source > CLOCK_MAX_SKEW_MS then Failure(InvalidResponse)
          else observed
  }

  /** The account and its instruments come from the listing, the mode from the configuration. */
  lemma EligibilitySays(listed: Observation<AccountInstruments>, config: Observation<AccountConfiguration>)
    ensures var e := ToEligibility(listed, config);
      && e.accountId == listed.value.accountId && e.instIds == listed.value.instIds
      && e.mode == config.value.mode
      && e.times.source == Min(listed.times.source, config.times.source)
      && e.times.received == Max(listed.times.received, config.times.received)
  {
  }

  // ---------- what parsed rows guarantee ----------

  lemma PositiveMeaning(value: string)
    ensures ParsePositive(value).Success? ==>
      ParsePositive(value) == Success(Parse(value).value) && InDomain(ParsePositive(value).value)
    ensures ParsePositive(value).Failure? ==> ParsePositive(value).error == InvalidResponse
    ensures ParsePositive(value).Success? <==>
      Parse(value).Success? && InDomain(Parse(value).value) && Numerator(Parse(value).value) > 0
  {
    if Parse(value).Success? {
      ParseInDomain(value);
      ZeroAndSignTests(Parse(value).value);
    }
  }

  lemma BelowMinusOne(d: Decimal)
    requires InDomain(d)
    ensures Less(d.inner, BigDecimal(-1, 0)) <==> Numerator(d) < -Powers.Pow10(18)
  {
    LessByNumerators(d.inner, BigDecimal(-1, 0), 18);
    Powers.ShiftSum(1, 0, 18);
  }

  lemma RateMeaning(text: string)
    ensures ParseRate(text) == if RateText(text) then Success(Parse(text).value) else Failure(InvalidResponse)
  {
    if Parse(text).Success? {
      ParseInDomain(text);
      BelowMinusOne(Parse(text).value);
      AboveOne(Parse(text).value);
    }
  }

  ghost predicate PositiveText(value: string) {
    Parse(value).Success? && InDomain(Parse(value).value) && Numerator(Parse(value).value) > 0
  }

  ghost predicate CodeOrAbsent(code: string) {
    code == "" || ValidCode(code)
  }

  ghost function CurrencyOf(code: string): Option<Currency> {
    if code == "" then None else Some(Currency(code))
  }

  /** The rows the adapter accepts. */
  ghost predicate RowAcceptable(row: InstrumentRow, t: InstrumentType) {
    && row.instType == AsOkx(t) && ValidId(row.instId)
    && row.state in {"live", "post_only", "suspend", "rebase"}
    && PositiveText(row.tickSz) && PositiveText(row.lotSz) && PositiveText(row.minSz)
    && match t
       case SpotType =>
         && ValidCode(row.baseCcy) && ValidCode(row.quoteCcy)
         && (row.ctVal == "" || PositiveText(row.ctVal))
         && CodeOrAbsent(row.ctValCcy) && CodeOrAbsent(row.settleCcy)
       case SwapType =>
         row.ctType == "linear" && PositiveText(row.ctVal) && ValidCode(row.ctValCcy) && row.settleCcy == "USDT"
  }

  lemma PositiveExactly(value: string)
    ensures ParsePositive(value).Success? <==> PositiveText(value)
    ensures value == "" ==> !PositiveText(value)
  {
    PositiveMeaning(value);
  }

  lemma AssembledExactly(row: InstrumentRow, t: InstrumentType,
                         tick: Result<Decimal, ClientError>, lot: Result<Decimal, ClientError>,
                         least: Result<Decimal, ClientError>, value: Result<Decimal, ClientError>)
    ensures Assemble(row, t, tick, lot, least, value).Success? <==>
      && row.instType == AsOkx(t) && ValidId(row.instId)
      && row.state in {"live", "post_only", "suspend", "rebase"}
      && tick.Success? && lot.Success? && least.Success?
      && match t
         case SpotType =>
           && ValidCode(row.baseCcy) && ValidCode(row.quoteCcy)
           && (row.ctVal == "" || value.Success?)
           && CodeOrAbsent(row.ctValCcy) && CodeOrAbsent(row.settleCcy)
         case SwapType =>
           row.ctType == "linear" && value.Success? && ValidCode(row.ctValCcy) && row.settleCcy == "USDT"
    ensures Assemble(row, t, tick, lot, least, value).Failure? ==>
      Assemble(row, t, tick, lot, least, value).error == InvalidResponse
  {
  }

  /** The parser accepts exactly these rows. */
  lemma RowsAcceptedExactly(row: InstrumentRow, t: InstrumentType)
    ensures ParseRow(row, t).Success? <==> RowAcceptable(row, t)
    ensures ParseRow(row, t).Failure? ==> ParseRow(row, t).error == InvalidResponse
  {
    PositiveExactly(row.tickSz);
    PositiveExactly(row.lotSz);
    PositiveExactly(row.minSz);
    PositiveExactly(row.ctVal);
    AssembledExactly(row, t, ParsePositive(row.tickSz), ParsePositive(row.lotSz), ParsePositive(row.minSz),
                     ParsePositive(row.ctVal));
  }

  /** An accepted row says in numbers and states what its texts say, field by field. */
  lemma AcceptedRowMeaning(row: InstrumentRow, t: InstrumentType)
    requires ParseRow(row, t).Success?
    ensures var p := ParseRow(row, t).value;
      && p.instId == row.instId && p.instType == t && row.instType == AsOkx(t)
      && p.state == (if row.state == "live" then TradingState.Live
                     else if row.state == "post_only" then PostOnly else TradingState.Inactive)
      && p.base.code == (if t == SpotType then row.baseCcy else row.ctValCcy)
      && p.quote.code == (if t == SpotType then row.quoteCcy else row.settleCcy)
      && Parse(row.tickSz) == Success(p.tickSize) && InDomain(p.tickSize) && Numerator(p.tickSize) > 0
      && Parse(row.lotSz) == Success(p.lotSize) && InDomain(p.lotSize) && Numerator(p.lotSize) > 0
      && Parse(row.minSz) == Success(p.minSize) && InDomain(p.minSize) && Numerator(p.minSize) > 0
      && (p.contractValue == None <==> row.ctVal == "")
      && (p.contractValue.Some? ==>
           Parse(row.ctVal) == Success(p.contractValue.value)
           && InDomain(p.contractValue.value) && Numerator(p.contractValue.value) > 0)
      && p.contractValueCurrency == CurrencyOf(row.ctValCcy) && p.settlement == CurrencyOf(row.settleCcy)
      && (t == SwapType ==> p.contractValue.Some? && p.quote == USDT && p.settlement == Some(p.quote)
                            && p.contractValueCurrency == Some(p.base))
      && (p.feeGroupId == None <==> row.groupId == "")
      && (p.feeGroupId.Some? ==> p.feeGroupId.value == row.groupId)
  {
    PositiveMeaning(row.tickSz);
    PositiveMeaning(row.lotSz);
    PositiveMeaning(row.minSz);
    PositiveMeaning(row.ctVal);
  }

  /** The specification made of an accepted row carries the row's own numbers, currencies and identity. */
  lemma SpecSaysWhatTheRowSays(row: InstrumentRow, t: InstrumentType, version: string, times: Times)
    requires ParseRow(row, t).Success?
    ensures var spec := ToSpec(ParseRow(row, t).value, version, times);
      && spec.instId == row.instId
      && (spec.kind == ProductKind.Spot <==> row.instType == "SPOT")
      && spec.state == (if row.state == "live" then TradingState.Live
                        else if row.state == "post_only" then PostOnly else TradingState.Inactive)
      && spec.base.code == (if t == SpotType then row.baseCcy else row.ctValCcy)
      && spec.quote.code == (if t == SpotType then row.quoteCcy else "USDT")
      && Parse(row.tickSz) == Success(spec.tickSize) && Parse(row.lotSz) == Success(spec.lotSize)
      && Parse(row.minSz) == Success(spec.minSize)
      && (if row.ctVal == "" then spec.contractValue == None
          else spec.contractValue.Some? && Parse(row.ctVal) == Success(spec.contractValue.value))
      && spec.contractValueCurrency == CurrencyOf(row.ctValCcy) && spec.settlement == CurrencyOf(row.settleCcy)
      && spec.feeGroupId == (if row.groupId == "" then None else Some(row.groupId))
      && spec.version == version && spec.times == times
  {
    AcceptedRowMeaning(row, t);
  }

  /** The mapping a specification would satisfy. */
  function InducedMapping(spec: InstrumentSpec, productId: ProductId): ProductMapping {
    ProductMapping(productId, spec.instId, spec.kind, spec.base, spec.quote, spec.settlement)
  }

  /**
   * Every accepted SWAP row validates under the mapping it induces; an accepted SPOT row does so exactly
   * when its contract and settlement fields are empty.
   */
  lemma AcceptedRowValidates(row: InstrumentRow, t: InstrumentType, productId: ProductId, version: string, times: Times)
    requires ParseRow(row, t).Success?
    requires |version| == 64 && times.source <= times.received
    ensures var spec := ToSpec(ParseRow(row, t).value, version, times);
      ValidateSpec(InducedMapping(spec, productId), spec) ==
        if t == SwapType || (row.ctVal == "" && row.ctValCcy == "" && row.settleCcy == "")
        then Success(Unit.Unit) else Failure(UnsupportedKind)
  {
  }

  /** An accepted SPOT row with a contract field exists, so the condition above is not idle. */
  const SPOT_WITH_SETTLEMENT := InstrumentRow(
    "BTC-USDT", "SPOT", "live", "BTC", "USDT", "1", "1", "1", "", "", "", "USDT", "1")

  lemma SpotRowAccepted()
    ensures ParseRow(SPOT_WITH_SETTLEMENT, SpotType).Success?
  {
    OneIsPositive();
    PositiveExactly("1");
    RowsAcceptedExactly(SPOT_WITH_SETTLEMENT, SpotType);
  }

  lemma SpotRowMayFail(productId: ProductId, version: string, times: Times)
    requires |version| == 64 && times.source <= times.received
    ensures ParseRow(SPOT_WITH_SETTLEMENT, SpotType).Success?
    ensures var spec := ToSpec(ParseRow(SPOT_WITH_SETTLEMENT, SpotType).value, version, times);
      ValidateSpec(InducedMapping(spec, productId), spec) == Failure(UnsupportedKind)
  {
    SpotRowAccepted();
    AcceptedRowValidates(SPOT_WITH_SETTLEMENT, SpotType, productId, version, times);
  }

  lemma OneIsPositive()
    ensures ParsePositive("1").Success?
  {
    assert AcceptedAs("1", false, "1", "") by {
      assert Digits.DigitsValue("1") == 1 by { assert "1"[..0] == ""; }
      Powers.ShiftMonotone(1, 1, WHOLE_DIGITS);
    }
    AcceptedValue("1", false, "1", "");
    assert "1" + "" == "1";
    Powers.ShiftMonotone(1, 0, 18);
    PositiveMeaning("1");
  }

  /** The group's only entry stands at index `i`. */
  ghost predicate OnlyEntry(groups: seq<FeeGroupRow>, groupId: string, i: nat) {
    i < |groups| && forall k :: 0 <= k < |groups| ==> (groups[k].groupId == groupId <==> k == i)
  }

  lemma {:induction false} SelectNothing(groups: seq<FeeGroupRow>, groupId: string)
    ensures Select(groups, groupId) == [] <==> forall k :: 0 <= k < |groups| ==> groups[k].groupId != groupId
    decreases |groups|
  {
    if groups == [] {
    } else {
      SelectNothing(groups[1..], groupId);
      assert forall k :: 0 < k < |groups| ==> groups[k] == groups[1..][k - 1];
    }
  }

  /** Filtering leaves exactly one entry exactly when there is only one, counted by place. */
  lemma {:induction false} SelectOnly(groups: seq<FeeGroupRow>, groupId: string)
    ensures forall i: nat :: OnlyEntry(groups, groupId, i) ==> Select(groups, groupId) == [groups[i]]
    ensures |Select(groups, groupId)| == 1 ==> exists i: nat :: OnlyEntry(groups, groupId, i)
    decreases |groups|
  {
    if groups == [] {
    } else {
      var rest := groups[1..];
      assert forall k :: 0 < k < |groups| ==> groups[k] == rest[k - 1];
      SelectNothing(rest, groupId);
      SelectOnly(rest, groupId);
      if groups[0].groupId == groupId {
        if Select(rest, groupId) == [] {
          assert OnlyEntry(groups, groupId, 0);
        }
      } else {
        forall i: nat | OnlyEntry(groups, groupId, i) ensures Select(groups, groupId) == [groups[i]] {
          assert OnlyEntry(rest, groupId, i - 1);
        }
        if i: nat :| OnlyEntry(rest, groupId, i) {
          assert OnlyEntry(groups, groupId, i + 1);
        }
      }
    }
  }

  /** A text of a rate between minus one and one. */
  ghost predicate RateText(text: string) {
    Parse(text).Success? && InDomain(Parse(text).value) && Abs(Numerator(Parse(text).value)) <= Powers.Pow10(18)
  }

  /** A response whose only row is of the right type and has one entry for the group, with proper rates and time. */
  ghost predicate FeeReadable(rows: seq<FeeRow>, t: InstrumentType, groupId: string, i: nat) {
    && ValidGroup(groupId) && |rows| == 1 && rows[0].instType == AsOkx(t)
    && OnlyEntry(rows[0].groups, groupId, i)
    && RateText(rows[0].groups[i].maker) && RateText(rows[0].groups[i].taker)
    && ParseI64(rows[0].ts).Some? && ParseI64(rows[0].ts).value >= 0
  }

  ghost function RatesAt(row: FeeRow, groupId: string, i: nat): FeeRates
    requires i < |row.groups| && RateText(row.groups[i].maker) && RateText(row.groups[i].taker)
    requires ParseI64(row.ts).Some? && ParseI64(row.ts).value >= 0
  {
    FeeRates(groupId, Parse(row.groups[i].maker).value, Parse(row.groups[i].taker).value, ParseI64(row.ts).value)
  }

  lemma UnreadableFee(rows: seq<FeeRow>, t: InstrumentType, groupId: string,
                      clock: Option<ClockSync>, now: Instant, wallNs: int)
    requires forall i: nat :: !FeeReadable(rows, t, groupId, i)
    ensures FeeGroup(rows, t, groupId, clock, now, wallNs) == Failure(InvalidResponse)
  {
    if ValidGroup(groupId) && |rows| == 1 && |Select(rows[0].groups, groupId)| == 1 {
      SelectOnly(rows[0].groups, groupId);
      var i: nat :| OnlyEntry(rows[0].groups, groupId, i);
      assert !FeeReadable(rows, t, groupId, i);
      RateMeaning(rows[0].groups[i].maker);
      RateMeaning(rows[0].groups[i].taker);
    }
  }

  lemma ReadableFee(rows: seq<FeeRow>, t: InstrumentType, groupId: string,
                    clock: Option<ClockSync>, now: Instant, wallNs: int, i: nat)
    requires FeeReadable(rows, t, groupId, i)
    ensures var observed := Observe(clock, RatesAt(rows[0], groupId, i), now, wallNs);
      FeeGroup(rows, t, groupId, clock, now, wallNs) ==
        if observed.Success? && observed.value.value.updated > observed.value.times.source + CLOCK_MAX_SKEW_MS
        then Failure(InvalidResponse) else observed
  {
    SelectOnly(rows[0].groups, groupId);
    RateMeaning(rows[0].groups[i].maker);
    RateMeaning(rows[0].groups[i].taker);
  }

  /**
   * The whole answer: an unreadable response is refused; a readable one yields the observation of its
   * group's own two rates, or its failure, unless the update time lies too far ahead of the source.
   */
  lemma FeeGroupMeaning(rows: seq<FeeRow>, t: InstrumentType, groupId: string,
                        clock: Option<ClockSync>, now: Instant, wallNs: int)
    ensures var r := FeeGroup(rows, t, groupId, clock, now, wallNs);
      && ((forall i: nat :: !FeeReadable(rows, t, groupId, i)) ==> r == Failure(InvalidResponse))
      && (forall i: nat | FeeReadable(rows, t, groupId, i) ::
           var observed := Observe(clock, RatesAt(rows[0], groupId, i), now, wallNs);
           r == if observed.Success? && observed.value.value.updated > observed.value.times.source + CLOCK_MAX_SKEW_MS
                then Failure(InvalidResponse) else observed)
  {
    if i: nat :| FeeReadable(rows, t, groupId, i) {
      forall i: nat | FeeReadable(rows, t, groupId, i)
        ensures var observed := Observe(clock, RatesAt(rows[0], groupId, i), now, wallNs);
          FeeGroup(rows, t, groupId, clock, now, wallNs) ==
            if observed.Success? && observed.value.value.updated > observed.value.times.source + CLOCK_MAX_SKEW_MS
            then Failure(InvalidResponse) else observed
      {
        ReadableFee(rows, t, groupId, clock, now, wallNs, i);
      }
    } else {
      UnreadableFee(rows, t, groupId, clock, now, wallNs);
    }
  }

  /** A fee fetched for the specification's own group always passes the fee identity gate. */
  lemma OwnFeeMatches(spec: InstrumentSpec, rows: seq<FeeRow>, t: InstrumentType, groupId: string,
                      clock: Option<ClockSync>, now: Instant, wallNs: int, version: string)
    requires spec.feeGroupId == Some(groupId) && |version| == 64
    requires FeeGroup(rows, t, groupId, clock, now, wallNs).Success?
    ensures var fee := ToFeeSchedule(FeeGroup(rows, t, groupId, clock, now, wallNs).value, spec.instId, version);
      && fee.instId == spec.instId && fee.version != "" && spec.feeGroupId == Some(fee.groupId)
      && exists g :: g in rows[0].groups && g.groupId == groupId
           && Parse(g.maker) == Success(fee.maker) && Parse(g.taker) == Success(fee.taker)
  {
    FeeGroupMeaning(rows, t, groupId, clock, now, wallNs);
  }
}
