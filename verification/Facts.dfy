/** Stable identities, compared by equality; the exchange's own namespace is validated on entry. */
module Identity {
  import opened Prelude

  type AccountId = string
  type ProductId = string
  type OkxInstrumentId = string
  type StrategyInstanceId = string
  type BindingId = string
  type EventId = string

  predicate IsAlphanumeric(c: char) {
    'a' <= c <= 'z' || 'A' <= c <= 'Z' || '0' <= c <= '9'
  }

  /** Bounded ASCII identifiers starting with a letter or digit. */
  predicate ValidId(value: string) {
    && 1 <= |value| <= 128
    && IsAlphanumeric(value[0])
    && forall i :: 0 <= i < |value| ==> IsAlphanumeric(value[i]) || value[i] in "-_.:"
  }

  lemma IdLimits(n: nat)
    ensures ValidId(seq(n, _ => 'z')) <==> 1 <= n <= 128
    ensures ValidId("09azAZ-_.:") && !ValidId("-a") && !ValidId("a b")
  {
    assert "a b"[1] == ' ';
    if n > 0 {
      assert seq(n, _ => 'z')[0] == 'z';
    }
  }
}

/** Cross-process facts and their validation. */
module Facts {
  import opened Prelude
  import opened Sequences
  import opened Identity
  import opened BigDecimals
  import opened Decimals
  import opened Units

  datatype FactError =
    | SchemaVersion
    | IdentityVersion
    | InvalidBinding
    | DuplicateInput
    | InvalidTime
    | InvalidAmount
    | InvalidPosition
    | InvalidOrder

  const SCHEMA_VERSION: nat := 1
  const IDENTITY_VERSION: nat := 1

  datatype ProductKind = Spot | LinearUsdtSwap
  datatype PositionMode = NetMode | LongShortMode
  datatype PositionSide = Net | Long | Short
  datatype NetDirection = Long | Short | Flat

  datatype BaseQuantity = BaseQuantity(amount: Decimal, productId: ProductId)
  datatype Contracts = Contracts(amount: Decimal, productId: ProductId)

  /** `Contracts::new`. */
  function NewContracts(amount: Decimal, productId: ProductId): Result<Contracts, UnitError> {
    if amount.IsNegative() then Failure(Negative) else Success(Contracts(amount, productId))
  }

  datatype PositionQuantity = Spot(base: BaseQuantity) | Swap(contracts: Contracts) {
    function Amount(): Decimal {
      match this
      case Spot(q) => q.amount
      case Swap(q) => q.amount
    }

    function Product(): ProductId {
      match this
      case Spot(q) => q.productId
      case Swap(q) => q.productId
    }
  }

  datatype TargetValue =
    | NoSignal
    | Unavailable
    | Spot(quantity: BaseQuantity)
    | SwapNet(direction: NetDirection, contracts: Contracts)
    | SwapLegs(long: Contracts, short: Contracts)

  /** A string stands for its UTF-8 bytes, so that lengths are the source's. */
  datatype MarketEvent = MarketEvent(sourceSession: string, sourceSequence: Option<int>)

  datatype StrategyTarget = StrategyTarget(
    productId: ProductId,
    bindingVersion: string,
    strategyVersion: string,
    configVersion: string,
    policyVersion: string,
    inputEventIds: seq<EventId>,
    sourceTime: SourceTimeMs,
    validUntil: SourceTimeMs,
    value: TargetValue)

  datatype Position = Position(
    productId: ProductId,
    kind: ProductKind,
    side: Option<PositionSide>,
    quantity: PositionQuantity)

  datatype AccountSnapshot = AccountSnapshot(
    accountId: AccountId,
    mode: PositionMode,
    equity: Money,
    available: Money,
    positions: seq<Position>)

  datatype OrderStatus = Unknown | Live | PartiallyFilled | Filled | Canceled | Rejected

  datatype OrderSnapshot = OrderSnapshot(productId: ProductId, status: OrderStatus, filled: PositionQuantity)

  datatype FillSnapshot = FillSnapshot(productId: ProductId, quantity: PositionQuantity)

  datatype Fact =
    | MarketFact(event: MarketEvent)
    | TargetFact(target: StrategyTarget)
    | SnapshotFact(account: AccountSnapshot)
    | OrderFact(order: OrderSnapshot)
    | FillFact(fill: FillSnapshot)

  datatype FactEnvelope = FactEnvelope(schemaVersion: nat, identityVersion: nat, fact: Fact)

  // ---------- which facts are valid ----------

  ghost predicate ValueBound(value: TargetValue, productId: ProductId) {
    match value
    case Spot(q) => q.productId == productId
    case SwapNet(direction, contracts) =>
      contracts.productId == productId && (direction == Flat <==> contracts.amount.NumericText() == "0")
    case SwapLegs(long, short) => long.productId == productId && short.productId == productId
    case NoSignal => true
    case Unavailable => true
  }

  ghost predicate MayLackInputs(value: TargetValue) {
    value.NoSignal? || value.Unavailable?
  }

  ghost function CheckTarget(t: StrategyTarget): Result<Unit, FactError> {
    if t.sourceTime > t.validUntil then Failure(FactError.InvalidTime)
    else if "" in {t.strategyVersion, t.configVersion, t.bindingVersion, t.policyVersion} then Failure(InvalidBinding)
    else if !Distinct(t.inputEventIds) then Failure(DuplicateInput)
    else if t.inputEventIds == [] && !MayLackInputs(t.value) then Failure(InvalidBinding)
    else if !ValueBound(t.value, t.productId) then Failure(InvalidBinding)
    else Success(Unit.Unit)
  }

  /** Kind, side and quantity agree with each other and with the account's mode. */
  predicate PositionFits(p: Position, mode: PositionMode) {
    && p.quantity.Product() == p.productId
    && match p.kind
       case Spot => p.side == None && p.quantity.Spot?
       case LinearUsdtSwap =>
         && p.quantity.Swap?
         && p.side.Some?
         && (p.side.value == Net <==> mode == NetMode)
  }

  type PositionKey = (ProductId, Option<PositionSide>)

  ghost function Keys(positions: seq<Position>): seq<PositionKey> {
    seq(|positions|, i requires 0 <= i < |positions| => (positions[i].productId, positions[i].side))
  }

  ghost predicate PositionsConsistent(positions: seq<Position>, mode: PositionMode) {
    Distinct(Keys(positions)) && forall i :: 0 <= i < |positions| ==> PositionFits(positions[i], mode)
  }

  ghost function CheckSnapshot(a: AccountSnapshot): Result<Unit, FactError> {
    if a.equity.currency != a.available.currency then Failure(InvalidAmount)
    else if !PositionsConsistent(a.positions, a.mode) then Failure(InvalidPosition)
    else Success(Unit.Unit)
  }

  ghost function CheckFact(fact: Fact): Result<Unit, FactError> {
    match fact
    case MarketFact(e) =>
      if (e.sourceSequence.Some? && e.sourceSequence.value < 0) || !(1 <= |e.sourceSession| <= 128)
      then Failure(FactError.InvalidTime) else Success(Unit.Unit)
    case TargetFact(t) => CheckTarget(t)
    case SnapshotFact(a) => CheckSnapshot(a)
    case OrderFact(o) =>
      if o.filled.Product() != o.productId || (o.status == Filled && o.filled.Amount().NumericText() == "0")
      then Failure(InvalidOrder) else Success(Unit.Unit)
    case FillFact(f) =>
      if f.quantity.Product() != f.productId || f.quantity.Amount().NumericText() == "0"
      then Failure(InvalidAmount) else Success(Unit.Unit)
  }

  // ---------- the validator ----------

  /** The input-identity loop: true exactly when some identity repeats. */
  method AnyRepeated(ids: seq<EventId>) returns (repeated: bool)
    ensures repeated <==> !Distinct(ids)
  {
    var seen: set<EventId> := {};
    for i := 0 to |ids|
      invariant seen == Elements(ids[..i])
      invariant Distinct(ids[..i])
    {
      DistinctSnoc(ids[..i], ids[i]);
      assert ids[..i + 1] == ids[..i] + [ids[i]];
      if ids[i] in seen {
        RepeatInPrefix(ids, i + 1);
        return true;
      }
      seen := seen + {ids[i]};
    }
    assert ids[..|ids|] == ids;
    return false;
  }

  method ValidateTarget(target: StrategyTarget) returns (r: Result<Unit, FactError>)
    ensures r == CheckTarget(target)
  {
    if target.sourceTime > target.validUntil {
      return Failure(FactError.InvalidTime);
    }
    if target.strategyVersion == "" || target.configVersion == ""
       || target.bindingVersion == "" || target.policyVersion == ""
    {
      return Failure(InvalidBinding);
    }
    var repeated := AnyRepeated(target.inputEventIds);
    if repeated {
      return Failure(DuplicateInput);
    }
    if target.inputEventIds == [] && !(target.value.NoSignal? || target.value.Unavailable?) {
      return Failure(InvalidBinding);
    }
    match target.value {
      case Spot(q) =>
        if q.productId != target.productId {
          return Failure(InvalidBinding);
        }
      case SwapNet(direction, contracts) =>
        if contracts.productId != target.productId
           || (direction == Flat) != (contracts.amount.NumericText() == "0")
        {
          return Failure(InvalidBinding);
        }
      case SwapLegs(long, short) =>
        if long.productId != target.productId || short.productId != target.productId {
          return Failure(InvalidBinding);
        }
      case _ =>
    }
    return Success(Unit.Unit);
  }

  method ValidatePositions(positions: seq<Position>, mode: PositionMode) returns (ok: bool)
    ensures ok <==> PositionsConsistent(positions, mode)
  {
    ghost var keys := Keys(positions);
    var seen: set<PositionKey> := {};
    for i := 0 to |positions|
      invariant seen == Elements(keys[..i])
      invariant Distinct(keys[..i])
      invariant forall j :: 0 <= j < i ==> PositionFits(positions[j], mode)
    {
      var key := (positions[i].productId, positions[i].side);
      DistinctSnoc(keys[..i], key);
      assert keys[..i + 1] == keys[..i] + [key];
      if key in seen {
        RepeatInPrefix(keys, i + 1);
        return false;
      }
      seen := seen + {key};
      var p := positions[i];
      var valid := match (p.kind, p.side, p.quantity, mode)
        case (Spot, None, Spot(q), _) => q.productId == p.productId
        case (LinearUsdtSwap, Some(Net), Swap(q), NetMode) => q.productId == p.productId
        case (LinearUsdtSwap, Some(Long), Swap(q), LongShortMode) => q.productId == p.productId
        case (LinearUsdtSwap, Some(Short), Swap(q), LongShortMode) => q.productId == p.productId
        case _ => false;
      if !valid {
        return false;
      }
    }
    assert keys[..|positions|] == keys;
    return true;
  }

  method Validate(fact: Fact) returns (r: Result<Unit, FactError>)
    ensures r == CheckFact(fact)
  {
    match fact {
      case MarketFact(event) =>
        if (event.sourceSequence.Some? && event.sourceSequence.value < 0)
           || event.sourceSession == "" || |event.sourceSession| > 128
        {
          return Failure(FactError.InvalidTime);
        }
      case TargetFact(target) =>
        r := ValidateTarget(target);
        return;
      case SnapshotFact(account) =>
        if account.equity.currency != account.available.currency {
          return Failure(InvalidAmount);
        }
        var ok := ValidatePositions(account.positions, account.mode);
        if !ok {
          return Failure(InvalidPosition);
        }
      case OrderFact(order) =>
        if order.filled.Product() != order.productId
           || (order.status == Filled && order.filled.Amount().NumericText() == "0")
        {
          return Failure(InvalidOrder);
        }
      case FillFact(fill) =>
        if fill.quantity.Product() != fill.productId || fill.quantity.Amount().NumericText() == "0" {
          return Failure(InvalidAmount);
        }
    }
    return Success(Unit.Unit);
  }

  /** `FactEnvelope::new`. */
  method NewEnvelope(fact: Fact) returns (r: Result<FactEnvelope, FactError>)
    ensures r.Success? <==> CheckFact(fact).Success?
    ensures r.Success? ==> r.value == FactEnvelope(1, 1, fact)
    ensures r.Failure? ==> r.error == CheckFact(fact).error
  {
    var valid := Validate(fact);
    match valid
    case Failure(e) => return Failure(e);
    case Success(_) => return Success(FactEnvelope(SCHEMA_VERSION, IDENTITY_VERSION, fact));
  }

  /** Reading an envelope back: versions first, then the same validation. */
  method DecodeEnvelope(wire: FactEnvelope) returns (r: Result<FactEnvelope, FactError>)
    ensures r.Success? <==>
      wire.schemaVersion == 1 && wire.identityVersion == 1 && CheckFact(wire.fact).Success?
    ensures r.Success? ==> r.value == wire
    ensures r == Failure(SchemaVersion) <==> wire.schemaVersion != 1
    ensures r == Failure(IdentityVersion) <==> wire.schemaVersion == 1 && wire.identityVersion != 1
    ensures wire.schemaVersion == 1 && wire.identityVersion == 1 && r.Failure? ==> r.error == CheckFact(wire.fact).error
  {
    if wire.schemaVersion != SCHEMA_VERSION {
      return Failure(SchemaVersion);
    }
    if wire.identityVersion != IDENTITY_VERSION {
      return Failure(IdentityVersion);
    }
    r := NewEnvelope(wire.fact);
  }

  // ---------- which facts are accepted, and how the others are refused ----------

  lemma AcceptedEvents(e: MarketEvent)
    ensures CheckFact(MarketFact(e)) ==
      if 1 <= |e.sourceSession| <= 128 && (e.sourceSequence.Some? ==> e.sourceSequence.value >= 0)
      then Success(Unit.Unit) else Failure(FactError.InvalidTime)
  {
  }

  /** The quantity names the target's own product, and a net target is flat exactly when it asks for nothing. */
  ghost predicate BoundTo(value: TargetValue, productId: ProductId)
    requires value.SwapNet? ==> InDomain(value.contracts.amount)
  {
    || value.NoSignal?
    || value.Unavailable?
    || (value.Spot? && value.quantity.productId == productId)
    || (value.SwapNet? && value.contracts.productId == productId
        && (value.direction == Flat <==> Numerator(value.contracts.amount) == 0))
    || (value.SwapLegs? && value.long.productId == productId && value.short.productId == productId)
  }

  lemma AcceptedTargets(t: StrategyTarget)
    requires t.value.SwapNet? ==> InDomain(t.value.contracts.amount)
    ensures CheckFact(TargetFact(t)).Success? <==>
      && t.sourceTime <= t.validUntil
      && |t.strategyVersion| > 0 && |t.configVersion| > 0 && |t.bindingVersion| > 0 && |t.policyVersion| > 0
      && (forall i, j :: 0 <= i < j < |t.inputEventIds| ==> t.inputEventIds[i] != t.inputEventIds[j])
      && (|t.inputEventIds| > 0 || t.value.NoSignal? || t.value.Unavailable?)
      && BoundTo(t.value, t.productId)
    ensures CheckFact(TargetFact(t)) == Failure(FactError.InvalidTime) <==> t.validUntil < t.sourceTime
    ensures CheckFact(TargetFact(t)) == Failure(DuplicateInput) <==>
      && t.sourceTime <= t.validUntil
      && |t.strategyVersion| > 0 && |t.configVersion| > 0 && |t.bindingVersion| > 0 && |t.policyVersion| > 0
      && exists i, j :: 0 <= i < j < |t.inputEventIds| && t.inputEventIds[i] == t.inputEventIds[j]
    ensures CheckFact(TargetFact(t))
      in {Success(Unit.Unit), Failure(FactError.InvalidTime), Failure(DuplicateInput), Failure(InvalidBinding)}
  {
    if t.value.SwapNet? {
      ZeroAndSignTests(t.value.contracts.amount);
    }
  }

  lemma AcceptedSnapshots(a: AccountSnapshot)
    ensures CheckFact(SnapshotFact(a)).Success? <==>
      && a.equity.currency == a.available.currency
      && (forall i, j :: 0 <= i < j < |a.positions| ==>
            a.positions[i].productId != a.positions[j].productId || a.positions[i].side != a.positions[j].side)
      && (forall i :: 0 <= i < |a.positions| ==>
            var p := a.positions[i];
            || (p.kind == ProductKind.Spot && p.side == None && p.quantity.Spot?
                && p.quantity.base.productId == p.productId)
            || (p.kind == LinearUsdtSwap && p.quantity.Swap? && p.quantity.contracts.productId == p.productId
                && ((a.mode == NetMode && p.side == Some(Net))
                    || (a.mode == LongShortMode
                        && (p.side == Some(PositionSide.Long) || p.side == Some(PositionSide.Short))))))
    ensures CheckFact(SnapshotFact(a)) == Failure(InvalidAmount) <==> a.equity.currency != a.available.currency
    ensures CheckFact(SnapshotFact(a)) in {Success(Unit.Unit), Failure(InvalidAmount), Failure(InvalidPosition)}
  {
    var keys := Keys(a.positions);
    assert forall i :: 0 <= i < |keys| ==> keys[i] == (a.positions[i].productId, a.positions[i].side);
  }

  lemma AcceptedOrders(o: OrderSnapshot)
    requires InDomain(o.filled.Amount())
    ensures CheckFact(OrderFact(o)) ==
      if o.filled.Product() == o.productId && (o.status == Filled ==> Numerator(o.filled.Amount()) != 0)
      then Success(Unit.Unit) else Failure(InvalidOrder)
  {
    ZeroAndSignTests(o.filled.Amount());
  }

  lemma AcceptedFills(f: FillSnapshot)
    requires InDomain(f.quantity.Amount())
    ensures CheckFact(FillFact(f)) ==
      if f.quantity.Product() == f.productId && Numerator(f.quantity.Amount()) != 0
      then Success(Unit.Unit) else Failure(InvalidAmount)
  {
    ZeroAndSignTests(f.quantity.Amount());
  }

  const ONE := Decimal(BigDecimal(1, 0))

  lemma OneInDomain()
    ensures InDomain(ONE) && Numerator(ONE) > 0
  {
    Powers.ShiftMonotone(1, 0, 18);
    Powers.ShiftAdd(1, 20, 18);
    Powers.ShiftOrder(1, Powers.Pow10(20), 18);
    Powers.ShiftMonotone(1, 1, 20);
  }

  /** One ordinary fact of every kind, each accepted. */
  lemma OrdinaryFacts()
    ensures var event := MarketEvent("session-1", Some(7));
      CheckFact(MarketFact(event)).Success?
    ensures var target := StrategyTarget("spot-btc", "v1", "v1", "v1", "v1", ["event-1", "event-2"], 100, 200,
                                         TargetValue.Spot(BaseQuantity(ONE, "spot-btc")));
      CheckFact(TargetFact(target)).Success?
    ensures var target := StrategyTarget("swap-btc", "v1", "v1", "v1", "v1", ["event-1"], 100, 200,
                                         SwapNet(NetDirection.Short, Contracts(ONE, "swap-btc")));
      CheckFact(TargetFact(target)).Success?
    ensures var usdt := Money(ONE, Currency("USDT"));
      var long := Position("swap-btc", LinearUsdtSwap, Some(PositionSide.Long), Swap(Contracts(ONE, "swap-btc")));
      var spot := Position("spot-btc", ProductKind.Spot, None, PositionQuantity.Spot(BaseQuantity(ONE, "spot-btc")));
      CheckFact(SnapshotFact(AccountSnapshot("demo-main", LongShortMode, usdt, usdt, [long, spot]))).Success?
    ensures CheckFact(OrderFact(OrderSnapshot("swap-btc", Filled, Swap(Contracts(ONE, "swap-btc"))))).Success?
    ensures CheckFact(FillFact(FillSnapshot("swap-btc", Swap(Contracts(ONE, "swap-btc"))))).Success?
  {
    OneInDomain();
    ZeroAndSignTests(ONE);
  }

  // ---------- how many positions a valid snapshot can hold ----------

  ghost function Products(positions: seq<Position>): set<ProductId> {
    set i | 0 <= i < |positions| :: positions[i].productId
  }

  ghost function Tagged(products: set<ProductId>, side: Option<PositionSide>): set<PositionKey> {
    set p | p in products :: (p, side)
  }

  lemma {:induction false} TaggedCardinality(products: set<ProductId>, side: Option<PositionSide>)
    ensures |Tagged(products, side)| == |products|
  {
    if products == {} {
      assert Tagged(products, side) == {};
    } else {
      var p :| p in products;
      TaggedCardinality(products - {p}, side);
      assert Tagged(products, side) == Tagged(products - {p}, side) + {(p, side)};
    }
  }

  lemma UnionCardinality<T>(a: set<T>, b: set<T>)
    ensures |a + b| <= |a| + |b|
  {
    assert |a + b| == |a| + |b| - |a * b|;
  }

  /** A snapshot over n products holds at most 2n positions in net mode, 3n in long/short mode. */
  lemma PositionBound(positions: seq<Position>, mode: PositionMode)
    requires PositionsConsistent(positions, mode)
    ensures |positions| <= (if mode == NetMode then 2 else 3) * |Products(positions)|
  {
    var keys, ps := Keys(positions), Products(positions);
    DistinctCardinality(keys);
    var spot, net := Tagged(ps, None), Tagged(ps, Some(Net));
    var long, short := Tagged(ps, Some(PositionSide.Long)), Tagged(ps, Some(PositionSide.Short));
    TaggedCardinality(ps, None);
    TaggedCardinality(ps, Some(Net));
    TaggedCardinality(ps, Some(PositionSide.Long));
    TaggedCardinality(ps, Some(PositionSide.Short));
    var all := if mode == NetMode then spot + net else spot + long + short;
    forall k | k in Elements(keys) ensures k in all {
      var i :| 0 <= i < |keys| && keys[i] == k;
      assert PositionFits(positions[i], mode);
    }
    SubsetCardinality(Elements(keys), all);
    UnionCardinality(spot, net);
    UnionCardinality(spot, long);
    UnionCardinality(spot + long, short);
  }

  // ---------- net targets as signed amounts ----------

  /** The signed contract count a net target asks for. */
  function SignedAmount(direction: NetDirection, contracts: Contracts): Decimal {
    match direction
    case Long => contracts.amount
    case Short => Decimal(BigDecimal(-contracts.amount.inner.unscaled, contracts.amount.inner.scale))
    case Flat => Decimal(BigDecimal(0, 0))
  }

  /** The net target of a signed contract count. */
  function NetTarget(signed: Decimal, productId: ProductId): TargetValue {
    var magnitude := Decimal(BigDecimal(Abs(signed.inner.unscaled), signed.inner.scale));
    var direction :=
      if signed.inner.unscaled > 0 then NetDirection.Long
      else if signed.inner.unscaled < 0 then NetDirection.Short
      else Flat;
    SwapNet(direction, Contracts(magnitude, productId))
  }

  lemma OppositeInDomain(d: Decimal)
    requires InDomain(d)
    ensures var o := Decimal(BigDecimal(-d.inner.unscaled, d.inner.scale));
      InDomain(o) && Numerator(o) == -Numerator(d)
  {
    Powers.ShiftSum(d.inner.unscaled, 0, 18 - d.inner.scale);
  }

  lemma ZeroText(d: Decimal)
    requires InDomain(d)
    ensures d.NumericText() == "0" <==> d.inner == BigDecimal(0, 0)
  {
    ZeroAndSignTests(d);
    NumeratorSign(d);
  }

  ghost function Magnitude(d: Decimal): Decimal {
    Decimal(BigDecimal(Abs(d.inner.unscaled), d.inner.scale))
  }

  lemma MagnitudeInDomain(d: Decimal)
    requires InDomain(d)
    ensures InDomain(Magnitude(d)) && (Magnitude(d).NumericText() == "0" <==> d.inner.unscaled == 0)
  {
    OppositeInDomain(d);
    ZeroText(Magnitude(d));
  }

  /** Every signed amount is an accepted net target and can be read back from it. */
  lemma NetTargetOfSigned(signed: Decimal, productId: ProductId)
    requires InDomain(signed)
    ensures var t := NetTarget(signed, productId);
      && ValueBound(t, productId)
      && NewContracts(t.contracts.amount, productId) == Success(t.contracts)
      && InDomain(t.contracts.amount)
      && SignedAmount(t.direction, t.contracts) == signed
  {
    MagnitudeInDomain(signed);
    var t := NetTarget(signed, productId);
    assert t.contracts.amount == Magnitude(signed);
  }

  /** A nonnegative amount fits a direction when it is zero exactly for `Flat`. */
  lemma BoundNet(direction: NetDirection, contracts: Contracts, productId: ProductId)
    requires InDomain(contracts.amount)
    ensures ValueBound(SwapNet(direction, contracts), productId) <==>
      contracts.productId == productId && (direction == Flat <==> contracts.amount.inner == BigDecimal(0, 0))
  {
    ZeroText(contracts.amount);
  }

  lemma ZeroInDomain()
    ensures InDomain(Decimal(BigDecimal(0, 0)))
  {
    Powers.ShiftZero(18);
    Powers.ShiftMonotone(1, 0, 38);
  }

  lemma SignedInDomain(direction: NetDirection, contracts: Contracts)
    requires InDomain(contracts.amount)
    ensures InDomain(SignedAmount(direction, contracts))
  {
    OppositeInDomain(contracts.amount);
    ZeroInDomain();
  }

  lemma SameNet(direction: NetDirection, contracts: Contracts, productId: ProductId)
    requires contracts.amount.inner.unscaled >= 0 && contracts.productId == productId
    requires contracts.amount.inner.unscaled == 0 ==> contracts.amount.inner.scale == 0
    requires direction == Flat <==> contracts.amount.inner == BigDecimal(0, 0)
    ensures SwapNet(direction, contracts) == NetTarget(SignedAmount(direction, contracts), productId)
  {
  }

  /** Every accepted net target is the target of its signed amount: nothing else is accepted. */
  lemma SignedOfNetTarget(direction: NetDirection, contracts: Contracts, productId: ProductId)
    requires InDomain(contracts.amount) && NewContracts(contracts.amount, contracts.productId).Success?
    ensures ValueBound(SwapNet(direction, contracts), productId) <==>
      InDomain(SignedAmount(direction, contracts))
      && SwapNet(direction, contracts) == NetTarget(SignedAmount(direction, contracts), productId)
  {
    SignedInDomain(direction, contracts);
    BoundNet(direction, contracts, productId);
    if ValueBound(SwapNet(direction, contracts), productId) {
      SameNet(direction, contracts, productId);
    } else if SwapNet(direction, contracts) == NetTarget(SignedAmount(direction, contracts), productId) {
      NetTargetOfSigned(SignedAmount(direction, contracts), productId);
    }
  }
}
