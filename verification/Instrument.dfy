/** When a fact is fresh, and how two observations combine into one. */
module Freshness {
  import opened Prelude
  import opened Sequences
  import opened Units

  datatype FreshnessError = InFuture | TooOld

  /** Source and receipt time of one fact. */
  datatype Times = Times(source: SourceTimeMs, received: ReceivedTimeMs)

  /** The age check at `now`, with 64-bit subtraction. */
  function Fresh(now: ReceivedTimeMs, t: Times, maxAge: int): Result<Unit, FreshnessError> {
    match (CheckedSub(now, t.source), CheckedSub(now, t.received))
    case (Some(sourceAge), Some(receiptAge)) =>
      if sourceAge < 0 || receiptAge < 0 || t.source > t.received then Failure(InFuture)
      else if maxAge < 0 || sourceAge > maxAge || receiptAge > maxAge then Failure(TooOld)
      else Success(Unit.Unit)
    case _ => Failure(InFuture)
  }

  /** The older source and the later receipt govern the combined fact. */
  function Merge(a: Times, b: Times): Times {
    Times(Min(a.source, b.source), Max(a.received, b.received))
  }

  function MergeAll(ts: seq<Times>): Times
    requires |ts| > 0
  {
    if |ts| == 1 then ts[0] else Merge(ts[0], MergeAll(ts[1..]))
  }

  /** Freshness is one interval of `now`; any other order reads as the future; no subtraction overflows. */
  lemma FreshWindow(now: ReceivedTimeMs, t: Times, maxAge: int)
    ensures Fresh(now, t, maxAge).Success? <==> t.source <= t.received <= now <= t.source + maxAge
    ensures Fresh(now, t, maxAge) == Failure(InFuture) <==> !(t.source <= t.received <= now)
    ensures CheckedSub(now, t.source).Some? && CheckedSub(now, t.received).Some?
  {
  }

  /** A fact is inverted when its source lies after its receipt; it is fresh at no time. */
  predicate Inverted(t: Times) {
    t.source > t.received
  }

  /** At every time and for every age limit, the merged fact is fresh exactly when each of the facts is. */
  ghost predicate MergesFaithfully(ts: seq<Times>)
    requires |ts| > 0
  {
    forall now: ReceivedTimeMs, maxAge: int ::
      Fresh(now, MergeAll(ts), maxAge).Success? <==> forall t | t in ts :: Fresh(now, t, maxAge).Success?
  }

  /**
   * The freshness of two merged facts says the same as the freshness of both exactly when neither is
   * inverted, or when even the merged fact is.
   */
  lemma FreshMerge(a: Times, b: Times)
    ensures (forall now: ReceivedTimeMs, maxAge: int ::
        Fresh(now, Merge(a, b), maxAge).Success?
        <==> Fresh(now, a, maxAge).Success? && Fresh(now, b, maxAge).Success?)
      <==> (!Inverted(a) && !Inverted(b)) || Inverted(Merge(a, b))
  {
    assert [a, b][1..] == [b];
    assert MergeAll([a, b]) == Merge(a, b);
    assert forall t :: t in [a, b] <==> t == a || t == b;
    FreshMergeAll([a, b]);
  }

  /** In between, merging can make an unusable part look fresh. */
  lemma FreshMergeNeedsOrder()
    ensures var bad, good := Times(10, 5), Times(0, 20);
      Fresh(20, bad, 100).Failure? && Fresh(20, good, 100).Success? && Fresh(20, Merge(bad, good), 100).Success?
  {
    FreshWindow(20, Times(10, 5), 100);
    FreshWindow(20, Times(0, 20), 100);
  }

  /** The merged times of a list are its least source and its greatest receipt. */
  ghost predicate IsEnvelope(m: Times, ts: seq<Times>) {
    && (forall t | t in ts :: m.source <= t.source && t.received <= m.received)
    && (exists t :: t in ts && t.source == m.source)
    && (exists t :: t in ts && t.received == m.received)
  }

  lemma {:induction false} MergeAllIsEnvelope(ts: seq<Times>)
    requires |ts| > 0
    ensures IsEnvelope(MergeAll(ts), ts)
    decreases |ts|
  {
    if |ts| == 1 {
      assert ts[0] in ts;
    } else {
      var rest := ts[1..];
      MergeAllIsEnvelope(rest);
      assert ts == [ts[0]] + rest;
      forall t | t in ts ensures MergeAll(ts).source <= t.source && t.received <= MergeAll(ts).received {
        assert t == ts[0] || t in rest;
      }
      var a :| a in rest && a.source == MergeAll(rest).source;
      var b :| b in rest && b.received == MergeAll(rest).received;
      assert ts[0] in ts && a in ts && b in ts;
    }
  }

  /** Merging is independent of order and repetition: only the set of observations matters. */
  lemma MergeAllOrderFree(xs: seq<Times>, ys: seq<Times>)
    requires |xs| > 0 && |ys| > 0 && Elements(xs) == Elements(ys)
    ensures MergeAll(xs) == MergeAll(ys)
  {
    MergeAllIsEnvelope(xs);
    MergeAllIsEnvelope(ys);
    assert forall t :: t in xs <==> t in Elements(xs);
    assert forall t :: t in ys <==> t in Elements(ys);
  }

  /** Merging is independent of grouping. */
  lemma MergeAllGrouping(xs: seq<Times>, ys: seq<Times>)
    requires |xs| > 0 && |ys| > 0
    ensures MergeAll(xs + ys) == Merge(MergeAll(xs), MergeAll(ys))
  {
    MergeAllIsEnvelope(xs);
    MergeAllIsEnvelope(ys);
    MergeAllIsEnvelope(xs + ys);
    assert forall t :: t in xs + ys <==> t in xs || t in ys;
  }

  /** A list of facts merges faithfully exactly when no member is inverted, or when even the merged fact is. */
  lemma FreshMergeAll(ts: seq<Times>)
    requires |ts| > 0
    ensures MergesFaithfully(ts) <==> (forall t | t in ts :: !Inverted(t)) || Inverted(MergeAll(ts))
  {
    MergeAllIsEnvelope(ts);
    var m := MergeAll(ts);
    if (forall t | t in ts :: !Inverted(t)) || Inverted(m) {
      forall now: ReceivedTimeMs, maxAge: int
        ensures Fresh(now, m, maxAge).Success? <==> forall t | t in ts :: Fresh(now, t, maxAge).Success?
      {
        FreshInWindow(now, ts, maxAge);
      }
    } else {
      var bad :| bad in ts && Inverted(bad);
      FreshWindow(m.received, m, m.received - m.source);
      FreshWindow(m.received, bad, m.received - m.source);
    }
  }

  lemma FreshInWindow(now: ReceivedTimeMs, ts: seq<Times>, maxAge: int)
    requires |ts| > 0
    requires (forall t | t in ts :: !Inverted(t)) || Inverted(MergeAll(ts))
    ensures Fresh(now, MergeAll(ts), maxAge).Success? <==> forall t | t in ts :: Fresh(now, t, maxAge).Success?
  {
    MergeAllIsEnvelope(ts);
    FreshWindow(now, MergeAll(ts), maxAge);
    forall t | t in ts
      ensures Fresh(now, t, maxAge).Success? <==> t.source <= t.received <= now <= t.source + maxAge
    {
      FreshWindow(now, t, maxAge);
    }
  }
}

/** The product directory: local mappings joined with validated exchange specifications. */
module Instrument {
  import opened Prelude
  import opened Sequences
  import opened Identity
  import opened Decimals
  import opened Units
  import opened Facts
  import opened Freshness

  datatype DirectoryError =
    | DuplicateMapping
    | DuplicateRemote
    | MissingSpecification
    | MappingMismatch
    | UnsupportedKind
    | InvalidSpecification
    | InvalidFee
    | Inactive
    | StaleSpecification
    | StaleEligibility
    | StaleFee
    | AccountMismatch
    | ModeNotAllowed
    | ProductNotAllowed
    | RemoteNotEligible
    | TimeInFuture

  datatype ProductMapping = ProductMapping(
    productId: ProductId,
    instId: OkxInstrumentId,
    kind: ProductKind,
    base: Currency,
    quote: Currency,
    settlement: Option<Currency>)

  datatype TradingState = Live | PostOnly | Inactive

  datatype InstrumentSpec = InstrumentSpec(
    instId: OkxInstrumentId,
    kind: ProductKind,
    base: Currency,
    quote: Currency,
    settlement: Option<Currency>,
    version: string,
    state: TradingState,
    tickSize: Decimal,
    lotSize: Decimal,
    minSize: Decimal,
    contractValue: Option<Decimal>,
    contractValueCurrency: Option<Currency>,
    feeGroupId: Option<string>,
    times: Times)

  datatype AccountPermit = AccountPermit(
    accountId: AccountId,
    allowedModes: seq<PositionMode>,
    productIds: seq<ProductId>)

  datatype AccountEligibility = AccountEligibility(
    accountId: AccountId,
    mode: PositionMode,
    instIds: seq<OkxInstrumentId>,
    times: Times)

  datatype FeeSchedule = FeeSchedule(
    instId: OkxInstrumentId,
    groupId: string,
    version: string,
    maker: Decimal,
    taker: Decimal,
    times: Times)

  datatype Directory = Directory(
    mappings: map<ProductId, ProductMapping>,
    specs: map<OkxInstrumentId, InstrumentSpec>)

  const USDT := Currency("USDT")

  predicate NonPositive(d: Decimal) {
    d.IsNegative() || d.NumericText() == "0"
  }

  /** `validate_spec`. */
  function ValidateSpec(mapping: ProductMapping, spec: InstrumentSpec): Result<Unit, DirectoryError> {
    if mapping.kind != spec.kind || mapping.base != spec.base
       || mapping.quote != spec.quote || mapping.settlement != spec.settlement
    then Failure(MappingMismatch)
    else if spec.version == "" || |spec.version| > 128
            || NonPositive(spec.tickSize) || NonPositive(spec.lotSize) || NonPositive(spec.minSize)
            || spec.times.source > spec.times.received
    then Failure(InvalidSpecification)
    else match spec.kind
      case Spot =>
        if spec.settlement.None? && spec.contractValue.None? && spec.contractValueCurrency.None?
        then Success(Unit.Unit) else Failure(UnsupportedKind)
      case LinearUsdtSwap =>
        if spec.settlement == Some(USDT)
           && spec.contractValue.Some? && !NonPositive(spec.contractValue.value)
           && spec.contractValueCurrency == Some(spec.base)
        then Success(Unit.Unit) else Failure(UnsupportedKind)
  }

  function Lookup(mapping: ProductMapping, specs: map<OkxInstrumentId, InstrumentSpec>): Result<Unit, DirectoryError> {
    if mapping.instId !in specs then Failure(MissingSpecification)
    else ValidateSpec(mapping, specs[mapping.instId])
  }

  // ---------- building the directory ----------

  ghost function ProductIds(mappings: seq<ProductMapping>): seq<ProductId> {
    seq(|mappings|, i requires 0 <= i < |mappings| => mappings[i].productId)
  }

  ghost function RemoteIds(mappings: seq<ProductMapping>): seq<OkxInstrumentId> {
    seq(|mappings|, i requires 0 <= i < |mappings| => mappings[i].instId)
  }

  ghost function SpecIds(specs: seq<InstrumentSpec>): seq<OkxInstrumentId> {
    seq(|specs|, i requires 0 <= i < |specs| => specs[i].instId)
  }

  ghost predicate UniqueMappings(mappings: seq<ProductMapping>) {
    Distinct(ProductIds(mappings)) && Distinct(RemoteIds(mappings))
  }

  /** Each mapping finds a specification with its own instrument ID that validates against it. */
  ghost predicate Satisfied(m: ProductMapping, specs: seq<InstrumentSpec>) {
    exists s :: s in specs && s.instId == m.instId && ValidateSpec(m, s).Success?
  }

  ghost predicate Consistent(mappings: seq<ProductMapping>, specs: seq<InstrumentSpec>) {
    && UniqueMappings(mappings)
    && Distinct(SpecIds(specs))
    && forall m | m in mappings :: Satisfied(m, specs)
  }

  /** The maps hold exactly the listed mappings and specifications. */
  ghost predicate HoldsMappings(byProduct: map<ProductId, ProductMapping>, mappings: seq<ProductMapping>) {
    && (forall m | m in mappings :: m.productId in byProduct && byProduct[m.productId] == m)
    && (forall p | p in byProduct :: byProduct[p] in mappings && byProduct[p].productId == p)
  }

  ghost predicate HoldsSpecs(byRemote: map<OkxInstrumentId, InstrumentSpec>, specs: seq<InstrumentSpec>) {
    && (forall s | s in specs :: s.instId in byRemote && byRemote[s.instId] == s)
    && (forall i | i in byRemote :: byRemote[i] in specs && byRemote[i].instId == i)
  }

  ghost predicate Holds(d: Directory, mappings: seq<ProductMapping>, specs: seq<InstrumentSpec>) {
    HoldsMappings(d.mappings, mappings) && HoldsSpecs(d.specs, specs)
  }

  lemma MappingsSnoc(ms: seq<ProductMapping>, m: ProductMapping)
    ensures ProductIds(ms + [m]) == ProductIds(ms) + [m.productId]
    ensures RemoteIds(ms + [m]) == RemoteIds(ms) + [m.instId]
    ensures UniqueMappings(ms + [m])
      <==> UniqueMappings(ms) && m.productId !in ProductIds(ms) && m.instId !in RemoteIds(ms)
  {
    assert ProductIds(ms + [m]) == ProductIds(ms) + [m.productId];
    assert RemoteIds(ms + [m]) == RemoteIds(ms) + [m.instId];
    DistinctSnoc(ProductIds(ms), m.productId);
    DistinctSnoc(RemoteIds(ms), m.instId);
  }

  lemma ConflictInPrefix(ms: seq<ProductMapping>, n: nat)
    requires n <= |ms| && !UniqueMappings(ms[..n])
    ensures !UniqueMappings(ms)
  {
    assert ProductIds(ms[..n]) == ProductIds(ms)[..n] && RemoteIds(ms[..n]) == RemoteIds(ms)[..n];
    if Distinct(ProductIds(ms[..n])) {
      RepeatInPrefix(RemoteIds(ms), n);
    } else {
      RepeatInPrefix(ProductIds(ms), n);
    }
  }

  lemma HoldsMappingsSnoc(byProduct: map<ProductId, ProductMapping>, ms: seq<ProductMapping>, m: ProductMapping)
    requires HoldsMappings(byProduct, ms) && m.productId !in byProduct
    ensures HoldsMappings(byProduct[m.productId := m], ms + [m])
  {
    assert forall x :: x in ms + [m] <==> x in ms || x == m;
  }

  method IndexMappings(mappings: seq<ProductMapping>) returns (r: Option<map<ProductId, ProductMapping>>)
    ensures r.Some? <==> UniqueMappings(mappings)
    ensures r.Some? ==> HoldsMappings(r.value, mappings)
  {
    var byProduct: map<ProductId, ProductMapping> := map[];
    var remoteIds: set<OkxInstrumentId> := {};
    for i := 0 to |mappings|
      invariant remoteIds == Elements(RemoteIds(mappings[..i]))
      invariant byProduct.Keys == Elements(ProductIds(mappings[..i]))
      invariant UniqueMappings(mappings[..i]) && HoldsMappings(byProduct, mappings[..i])
    {
      var m := mappings[i];
      MappingsSnoc(mappings[..i], m);
      assert mappings[..i + 1] == mappings[..i] + [m];
      if m.instId in remoteIds {
        ConflictInPrefix(mappings, i + 1);
        return None;
      }
      remoteIds := remoteIds + {m.instId};
      if m.productId in byProduct {
        ConflictInPrefix(mappings, i + 1);
        return None;
      }
      HoldsMappingsSnoc(byProduct, mappings[..i], m);
      byProduct := byProduct[m.productId := m];
    }
    assert mappings[..|mappings|] == mappings;
    return Some(byProduct);
  }

  lemma SpecsSnoc(ss: seq<InstrumentSpec>, s: InstrumentSpec)
    ensures SpecIds(ss + [s]) == SpecIds(ss) + [s.instId]
    ensures Distinct(SpecIds(ss + [s])) <==> Distinct(SpecIds(ss)) && s.instId !in SpecIds(ss)
  {
    assert SpecIds(ss + [s]) == SpecIds(ss) + [s.instId];
    DistinctSnoc(SpecIds(ss), s.instId);
  }

  lemma HoldsSpecsSnoc(byRemote: map<OkxInstrumentId, InstrumentSpec>, ss: seq<InstrumentSpec>, s: InstrumentSpec)
    requires HoldsSpecs(byRemote, ss) && s.instId !in byRemote
    ensures HoldsSpecs(byRemote[s.instId := s], ss + [s])
  {
    assert forall x :: x in ss + [s] <==> x in ss || x == s;
  }

  method IndexSpecs(specs: seq<InstrumentSpec>) returns (r: Option<map<OkxInstrumentId, InstrumentSpec>>)
    ensures r.Some? <==> Distinct(SpecIds(specs))
    ensures r.Some? ==> HoldsSpecs(r.value, specs)
  {
    var byRemote: map<OkxInstrumentId, InstrumentSpec> := map[];
    for i := 0 to |specs|
      invariant byRemote.Keys == Elements(SpecIds(specs[..i]))
      invariant Distinct(SpecIds(specs[..i])) && HoldsSpecs(byRemote, specs[..i])
    {
      var s := specs[i];
      SpecsSnoc(specs[..i], s);
      assert specs[..i + 1] == specs[..i] + [s];
      if s.instId in byRemote {
        assert SpecIds(specs[..i + 1]) == SpecIds(specs)[..i + 1];
        RepeatInPrefix(SpecIds(specs), i + 1);
        return None;
      }
      HoldsSpecsSnoc(byRemote, specs[..i], s);
      byRemote := byRemote[s.instId := s];
    }
    assert specs[..|specs|] == specs;
    return Some(byRemote);
  }

  /** The last loop visits the mappings in whatever order the hash map yields them. */
  method CheckAll(byProduct: map<ProductId, ProductMapping>, byRemote: map<OkxInstrumentId, InstrumentSpec>)
    returns (r: Result<Unit, DirectoryError>)
    ensures r.Success? <==> forall p | p in byProduct :: Lookup(byProduct[p], byRemote).Success?
    ensures r.Failure? ==> exists p :: p in byProduct && Lookup(byProduct[p], byRemote) == r
  {
    var todo := byProduct.Keys;
    while todo != {}
      invariant todo <= byProduct.Keys
      invariant forall p | p in byProduct && p !in todo :: Lookup(byProduct[p], byRemote).Success?
      decreases todo
    {
      var p :| p in todo;
      r := Lookup(byProduct[p], byRemote);
      if r.Failure? {
        return;
      }
      todo := todo - {p};
    }
    return Success(Unit.Unit);
  }

  /** `Directory::new`. */
  method NewDirectory(mappings: seq<ProductMapping>, specs: seq<InstrumentSpec>)
    returns (r: Result<Directory, DirectoryError>)
    ensures r.Success? <==> Consistent(mappings, specs)
    ensures r.Success? ==> Holds(r.value, mappings, specs)
    ensures r == Failure(DuplicateMapping) <==> !UniqueMappings(mappings)
    ensures r == Failure(DuplicateRemote) <==> UniqueMappings(mappings) && !Distinct(SpecIds(specs))
    ensures r == Failure(MissingSpecification) ==> exists m :: m in mappings && m.instId !in SpecIds(specs)
    ensures r.Failure? && UniqueMappings(mappings) && Distinct(SpecIds(specs)) && r.error != MissingSpecification ==>
      exists m, s :: m in mappings && s in specs && s.instId == m.instId && ValidateSpec(m, s) == Failure(r.error)
  {
    var byProduct := IndexMappings(mappings);
    if byProduct.None? {
      return Failure(DuplicateMapping);
    }
    var byRemote := IndexSpecs(specs);
    if byRemote.None? {
      return Failure(DuplicateRemote);
    }
    var checked := CheckAll(byProduct.value, byRemote.value);
    LookupIsSatisfied(byProduct.value, mappings, byRemote.value, specs);
    if checked.Failure? {
      var p :| p in byProduct.value && Lookup(byProduct.value[p], byRemote.value) == checked;
      FailedLookup(byProduct.value[p], byRemote.value, specs);
      return Failure(checked.error);
    }
    return Success(Directory(byProduct.value, byRemote.value));
  }

  lemma FailedLookup(m: ProductMapping, byRemote: map<OkxInstrumentId, InstrumentSpec>, specs: seq<InstrumentSpec>)
    requires HoldsSpecs(byRemote, specs) && Lookup(m, byRemote).Failure?
    ensures var e := Lookup(m, byRemote).error;
      && e != DuplicateMapping && e != DuplicateRemote
      && (e == MissingSpecification ==> m.instId !in SpecIds(specs))
      && (e != MissingSpecification ==>
           exists s :: s in specs && s.instId == m.instId && ValidateSpec(m, s) == Failure(e))
  {
    if m.instId !in byRemote {
      forall i | 0 <= i < |specs| ensures SpecIds(specs)[i] in byRemote {
        assert specs[i] in specs;
      }
    } else {
      assert byRemote[m.instId] in specs;
    }
  }

  lemma LookupIsSatisfied(byProduct: map<ProductId, ProductMapping>, mappings: seq<ProductMapping>,
                          byRemote: map<OkxInstrumentId, InstrumentSpec>, specs: seq<InstrumentSpec>)
    requires HoldsMappings(byProduct, mappings) && HoldsSpecs(byRemote, specs)
    ensures (forall p | p in byProduct :: Lookup(byProduct[p], byRemote).Success?)
      <==> (forall m | m in mappings :: Satisfied(m, specs))
  {
    forall m ensures Lookup(m, byRemote).Success? <==> Satisfied(m, specs) {
      if Lookup(m, byRemote).Success? {
        assert byRemote[m.instId] in specs;
      }
    }
    forall m | m in mappings ensures m.productId in byProduct && byProduct[m.productId] == m {
    }
  }

  // ---------- what the directory guarantees ----------

  /** Success does not depend on the order of either input, and neither does the directory. */
  lemma OrderFree(ms: seq<ProductMapping>, ss: seq<InstrumentSpec>,
                  ms': seq<ProductMapping>, ss': seq<InstrumentSpec>)
    requires multiset(ms) == multiset(ms') && multiset(ss) == multiset(ss')
    ensures Consistent(ms, ss) <==> Consistent(ms', ss')
    ensures forall d, d' | Holds(d, ms, ss) && Holds(d', ms', ss') :: d == d'
  {
    PermutationDistinct(ms, ms');
    PermutationDistinct(ss, ss');
    MappingsPermuted(ms, ms');
    SpecsPermuted(ss, ss');
    assert forall m :: Satisfied(m, ss) <==> Satisfied(m, ss');
    forall d, d' | Holds(d, ms, ss) && Holds(d', ms', ss') ensures d == d' {
      assert d.mappings == d'.mappings;
      assert d.specs == d'.specs;
    }
  }

  lemma {:induction false} ProductIdsPermuted(ms: seq<ProductMapping>, ms': seq<ProductMapping>)
    requires multiset(ms) == multiset(ms')
    ensures multiset(ProductIds(ms)) == multiset(ProductIds(ms'))
    decreases |ms|
  {
    if |ms| == 0 {
      assert |multiset(ms')| == |ms'|;
      assert ms == ms';
    } else {
      var k := PermutationStep(ms, ms');
      ProductIdsPermuted(ms[1..], Without(ms', k));
      assert ProductIds(ms) == [ms[0].productId] + ProductIds(ms[1..]);
      assert ProductIds(Without(ms', k)) == Without(ProductIds(ms'), k);
      WithoutMultiset(ProductIds(ms'), k);
    }
  }

  lemma {:induction false} RemoteIdsPermuted(ms: seq<ProductMapping>, ms': seq<ProductMapping>)
    requires multiset(ms) == multiset(ms')
    ensures multiset(RemoteIds(ms)) == multiset(RemoteIds(ms'))
    decreases |ms|
  {
    if |ms| == 0 {
      assert |multiset(ms')| == |ms'|;
      assert ms == ms';
    } else {
      var k := PermutationStep(ms, ms');
      RemoteIdsPermuted(ms[1..], Without(ms', k));
      assert RemoteIds(ms) == [ms[0].instId] + RemoteIds(ms[1..]);
      assert RemoteIds(Without(ms', k)) == Without(RemoteIds(ms'), k);
      WithoutMultiset(RemoteIds(ms'), k);
    }
  }

  lemma MappingsPermuted(ms: seq<ProductMapping>, ms': seq<ProductMapping>)
    requires multiset(ms) == multiset(ms')
    ensures UniqueMappings(ms) <==> UniqueMappings(ms')
  {
    ProductIdsPermuted(ms, ms');
    RemoteIdsPermuted(ms, ms');
    PermutationDistinct(ProductIds(ms), ProductIds(ms'));
    PermutationDistinct(RemoteIds(ms), RemoteIds(ms'));
  }

  lemma {:induction false} SpecsPermuted(ss: seq<InstrumentSpec>, ss': seq<InstrumentSpec>)
    requires multiset(ss) == multiset(ss')
    ensures multiset(SpecIds(ss)) == multiset(SpecIds(ss'))
    ensures Distinct(SpecIds(ss)) <==> Distinct(SpecIds(ss'))
    decreases |ss|
  {
    if |ss| == 0 {
      assert |multiset(ss')| == |ss'|;
      assert ss == ss';
    } else {
      var k := PermutationStep(ss, ss');
      SpecsPermuted(ss[1..], Without(ss', k));
      assert SpecIds(ss) == [ss[0].instId] + SpecIds(ss[1..]);
      assert SpecIds(Without(ss', k)) == Without(SpecIds(ss'), k);
      WithoutMultiset(SpecIds(ss'), k);
    }
    PermutationDistinct(SpecIds(ss), SpecIds(ss'));
  }

  /** A directory as `NewDirectory` builds it. */
  ghost predicate Built(d: Directory) {
    exists ms, ss :: Consistent(ms, ss) && Holds(d, ms, ss)
  }

  /** Distinct products map to distinct instruments, each with a specification validated for it. */
  lemma BuiltDirectory(d: Directory)
    requires Built(d)
    ensures forall p | p in d.mappings ::
      d.mappings[p].productId == p && d.mappings[p].instId in d.specs
      && ValidateSpec(d.mappings[p], d.specs[d.mappings[p].instId]).Success?
    ensures forall p, q | p in d.mappings && q in d.mappings && p != q :: d.mappings[p].instId != d.mappings[q].instId
  {
    var ms, ss :| Consistent(ms, ss) && Holds(d, ms, ss);
    LookupIsSatisfied(d.mappings, ms, d.specs, ss);
    assert forall p | p in d.mappings :: Lookup(d.mappings[p], d.specs).Success?;
    forall p, q | p in d.mappings && q in d.mappings && p != q
      ensures d.mappings[p].instId != d.mappings[q].instId
    {
      DifferentRemotes(ms, d.mappings[p], d.mappings[q]);
    }
  }

  lemma DifferentRemotes(ms: seq<ProductMapping>, a: ProductMapping, b: ProductMapping)
    requires Distinct(RemoteIds(ms)) && a in ms && b in ms && a != b
    ensures a.instId != b.instId
  {
    var i :| 0 <= i < |ms| && ms[i] == a;
    var j :| 0 <= j < |ms| && ms[j] == b;
    assert RemoteIds(ms)[i] == a.instId && RemoteIds(ms)[j] == b.instId;
  }

  // ---------- assessing one product ----------

  function StaleAs(r: Result<Unit, FreshnessError>, stale: DirectoryError): Result<Unit, DirectoryError> {
    match r
    case Success(u) => Success(u)
    case Failure(InFuture) => Failure(TimeInFuture)
    case Failure(TooOld) => Failure(stale)
  }

  /** The gates of `Directory::assess`, in order, once the product is found. */
  function AssessMapped(productId: ProductId, instId: OkxInstrumentId, spec: InstrumentSpec, permit: AccountPermit,
                        eligibility: AccountEligibility, fee: FeeSchedule, now: ReceivedTimeMs, maxAge: int)
    : Result<InstrumentSpec, DirectoryError>
  {
    var specAge := StaleAs(Fresh(now, spec.times, maxAge), StaleSpecification);
    var eligibilityAge := StaleAs(Fresh(now, eligibility.times, maxAge), StaleEligibility);
    var feeAge := StaleAs(Fresh(now, fee.times, maxAge), StaleFee);
    if permit.accountId != eligibility.accountId then Failure(AccountMismatch)
    else if eligibility.mode !in permit.allowedModes then Failure(ModeNotAllowed)
    else if productId !in permit.productIds then Failure(ProductNotAllowed)
    else if instId !in eligibility.instIds then Failure(RemoteNotEligible)
    else if spec.state != TradingState.Live then Failure(DirectoryError.Inactive)
    else if specAge.Failure? then Failure(specAge.error)
    else if eligibilityAge.Failure? then Failure(eligibilityAge.error)
    else if fee.instId != instId || fee.version == "" || spec.feeGroupId != Some(fee.groupId) then Failure(InvalidFee)
    else if feeAge.Failure? then Failure(feeAge.error)
    else Success(spec)
  }

  /** `Directory::assess`. */
  function Assess(d: Directory, productId: ProductId, permit: AccountPermit, eligibility: AccountEligibility,
                  fee: FeeSchedule, now: ReceivedTimeMs, maxAge: int): Result<InstrumentSpec, DirectoryError>
  {
    if productId !in d.mappings then Failure(MissingSpecification)
    else
      var instId := d.mappings[productId].instId;
      if instId !in d.specs then Failure(MissingSpecification)
      else AssessMapped(productId, instId, d.specs[instId], permit, eligibility, fee, now, maxAge)
  }

  /** In any directory, a product without mapping or without specification is reported as missing. */
  lemma MissingReported(d: Directory, productId: ProductId, permit: AccountPermit, eligibility: AccountEligibility,
                        fee: FeeSchedule, now: ReceivedTimeMs, maxAge: int)
    ensures Assess(d, productId, permit, eligibility, fee, now, maxAge) == Failure(MissingSpecification) <==>
      productId !in d.mappings || d.mappings[productId].instId !in d.specs
  {
    if productId in d.mappings && d.mappings[productId].instId in d.specs {
      var mapping := d.mappings[productId];
      MappedExactly(mapping.(productId := productId), d.specs[mapping.instId], permit, eligibility, fee, now, maxAge);
    }
  }

  /** Everything `Assess` checks about a mapped product apart from the clock. */
  ghost predicate GatesOpen(mapping: ProductMapping, spec: InstrumentSpec, permit: AccountPermit,
                            eligibility: AccountEligibility, fee: FeeSchedule)
  {
    && permit.accountId == eligibility.accountId
    && eligibility.mode in permit.allowedModes
    && mapping.productId in permit.productIds
    && mapping.instId in eligibility.instIds
    && spec.state == TradingState.Live
    && fee.instId == mapping.instId && fee.version != ""
    && spec.feeGroupId == Some(fee.groupId)
  }

  ghost predicate WithinAge(t: Times, now: int, maxAge: int) {
    t.source <= t.received <= now <= t.source + maxAge
  }

  /** The gates and the three ages, once the product is found. */
  lemma MappedExactly(mapping: ProductMapping, spec: InstrumentSpec, permit: AccountPermit,
                      eligibility: AccountEligibility, fee: FeeSchedule, now: ReceivedTimeMs, maxAge: int)
    ensures var r := AssessMapped(mapping.productId, mapping.instId, spec, permit, eligibility, fee, now, maxAge);
      && r != Failure(MissingSpecification)
      && (r.Success? <==>
           && GatesOpen(mapping, spec, permit, eligibility, fee)
           && WithinAge(spec.times, now, maxAge) && WithinAge(eligibility.times, now, maxAge)
           && WithinAge(fee.times, now, maxAge))
      && (r.Success? ==> r.value == spec)
  {
    FreshWindow(now, spec.times, maxAge);
    FreshWindow(now, eligibility.times, maxAge);
    FreshWindow(now, fee.times, maxAge);
  }

  /**
   * On a built directory assessment succeeds exactly when the product is mapped, the gates are open,
   * no fact is inverted, and `now` lies between the latest receipt and the earliest source plus the
   * age limit. Only an unmapped product is reported as missing.
   */
  lemma AssessExactly(d: Directory, productId: ProductId, permit: AccountPermit, eligibility: AccountEligibility,
                      fee: FeeSchedule, now: ReceivedTimeMs, maxAge: int)
    requires Built(d)
    ensures var r := Assess(d, productId, permit, eligibility, fee, now, maxAge);
      && (r == Failure(MissingSpecification) <==> productId !in d.mappings)
      && (productId in d.mappings ==>
           var mapping := d.mappings[productId];
           && mapping.instId in d.specs
           && var spec := d.specs[mapping.instId];
           var all := MergeAll([spec.times, eligibility.times, fee.times]);
           && (r.Success? <==>
                && GatesOpen(mapping, spec, permit, eligibility, fee)
                && eligibility.times.source <= eligibility.times.received
                && fee.times.source <= fee.times.received
                && all.received <= now <= all.source + maxAge)
           && (r.Success? ==> r.value == spec))
  {
    BuiltDirectory(d);
    if productId in d.mappings {
      var mapping := d.mappings[productId];
      var spec := d.specs[mapping.instId];
      MappedExactly(mapping, spec, permit, eligibility, fee, now, maxAge);
      ThreeTimes(spec.times, eligibility.times, fee.times);
    }
  }

  // ---------- which refusal is reported ----------

  /** One gate of the assessment: whether it is open, and what a closed one is reported as. */
  datatype Gate = Gate(open: bool, blame: DirectoryError)

  ghost predicate Ordered(t: Times, now: ReceivedTimeMs) {
    t.source <= t.received <= now
  }

  /** A fact that is out of order is reported as being in the future, an ordered one by its own name. */
  ghost function AgeGate(t: Times, now: ReceivedTimeMs, maxAge: int, stale: DirectoryError): Gate {
    Gate(WithinAge(t, now, maxAge), if Ordered(t, now) then stale else TimeInFuture)
  }

  /** The gates in the order in which they are tried. */
  ghost function Gates(productId: ProductId, instId: OkxInstrumentId, spec: InstrumentSpec, permit: AccountPermit,
                       eligibility: AccountEligibility, fee: FeeSchedule, now: ReceivedTimeMs, maxAge: int): seq<Gate>
  {
    [Gate(permit.accountId == eligibility.accountId, AccountMismatch),
     Gate(eligibility.mode in permit.allowedModes, ModeNotAllowed),
     Gate(productId in permit.productIds, ProductNotAllowed),
     Gate(instId in eligibility.instIds, RemoteNotEligible),
     Gate(spec.state == TradingState.Live, DirectoryError.Inactive),
     AgeGate(spec.times, now, maxAge, StaleSpecification),
     AgeGate(eligibility.times, now, maxAge, StaleEligibility),
     Gate(fee.instId == instId && fee.version != "" && spec.feeGroupId == Some(fee.groupId), InvalidFee),
     AgeGate(fee.times, now, maxAge, StaleFee)]
  }

  ghost predicate FirstClosed(gates: seq<Gate>, i: nat) {
    i < |gates| && !gates[i].open && forall j :: 0 <= j < i ==> gates[j].open
  }

  /** A refusal names the first closed gate, and nothing but a closed gate refuses. */
  lemma RefusalsAreTrue(productId: ProductId, instId: OkxInstrumentId, spec: InstrumentSpec, permit: AccountPermit,
                        eligibility: AccountEligibility, fee: FeeSchedule, now: ReceivedTimeMs, maxAge: int)
    ensures var gates := Gates(productId, instId, spec, permit, eligibility, fee, now, maxAge);
      var r := AssessMapped(productId, instId, spec, permit, eligibility, fee, now, maxAge);
      && (r.Success? <==> forall i :: 0 <= i < |gates| ==> gates[i].open)
      && (forall e :: r == Failure(e) <==> exists i: nat :: FirstClosed(gates, i) && gates[i].blame == e)
  {
    var gates := Gates(productId, instId, spec, permit, eligibility, fee, now, maxAge);
    var r := AssessMapped(productId, instId, spec, permit, eligibility, fee, now, maxAge);
    if i: nat :| FirstClosed(gates, i) {
      ClosedGateRefuses(productId, instId, spec, permit, eligibility, fee, now, maxAge, i);
      forall k: nat | FirstClosed(gates, k) ensures k == i {
        assert gates[Min(i, k)].open || i == k;
      }
    } else {
      AllOpen(gates);
      OpenGatesAdmit(productId, instId, spec, permit, eligibility, fee, now, maxAge);
    }
  }

  lemma ClosedGateRefuses(productId: ProductId, instId: OkxInstrumentId, spec: InstrumentSpec, permit: AccountPermit,
                          eligibility: AccountEligibility, fee: FeeSchedule, now: ReceivedTimeMs, maxAge: int, i: nat)
    requires FirstClosed(Gates(productId, instId, spec, permit, eligibility, fee, now, maxAge), i)
    ensures AssessMapped(productId, instId, spec, permit, eligibility, fee, now, maxAge)
      == Failure(Gates(productId, instId, spec, permit, eligibility, fee, now, maxAge)[i].blame)
  {
    var gates := Gates(productId, instId, spec, permit, eligibility, fee, now, maxAge);
    FreshWindow(now, spec.times, maxAge);
    FreshWindow(now, eligibility.times, maxAge);
    FreshWindow(now, fee.times, maxAge);
    assert i > 0 ==> gates[0].open;
    assert i > 1 ==> gates[1].open;
    assert i > 2 ==> gates[2].open;
    assert i > 3 ==> gates[3].open;
    assert i > 4 ==> gates[4].open;
    assert i > 5 ==> gates[5].open;
    assert i > 6 ==> gates[6].open;
    assert i > 7 ==> gates[7].open;
  }

  lemma OpenGatesAdmit(productId: ProductId, instId: OkxInstrumentId, spec: InstrumentSpec, permit: AccountPermit,
                       eligibility: AccountEligibility, fee: FeeSchedule, now: ReceivedTimeMs, maxAge: int)
    requires var gates := Gates(productId, instId, spec, permit, eligibility, fee, now, maxAge);
      forall i :: 0 <= i < |gates| ==> gates[i].open
    ensures AssessMapped(productId, instId, spec, permit, eligibility, fee, now, maxAge) == Success(spec)
  {
    var gates := Gates(productId, instId, spec, permit, eligibility, fee, now, maxAge);
    FreshWindow(now, spec.times, maxAge);
    FreshWindow(now, eligibility.times, maxAge);
    FreshWindow(now, fee.times, maxAge);
    assert gates[0].open && gates[1].open && gates[2].open && gates[3].open && gates[4].open;
    assert gates[5].open && gates[6].open && gates[7].open && gates[8].open;
  }

  lemma {:induction false} OpenBelow(gates: seq<Gate>, n: nat)
    requires n <= |gates| && forall i: nat :: !FirstClosed(gates, i)
    ensures forall i :: 0 <= i < n ==> gates[i].open
  {
    if n == 0 {
    } else {
      OpenBelow(gates, n - 1);
      assert !FirstClosed(gates, n - 1);
    }
  }

  lemma AllOpen(gates: seq<Gate>)
    requires forall i: nat :: !FirstClosed(gates, i)
    ensures forall i :: 0 <= i < |gates| ==> gates[i].open
  {
    OpenBelow(gates, |gates|);
  }

  lemma ThreeTimes(a: Times, b: Times, c: Times)
    ensures MergeAll([a, b, c])
      == Times(Min(a.source, Min(b.source, c.source)), Max(a.received, Max(b.received, c.received)))
  {
    var ts := [a, b, c];
    assert ts[1..] == [b, c] && ts[1..][1..] == [c];
    assert MergeAll([c]) == c && MergeAll([b, c]) == Merge(b, c);
  }

  /** Each refusal of a specification, by its own condition and after those before it. */
  lemma SpecRefusals(mapping: ProductMapping, spec: InstrumentSpec)
    requires InDomain(spec.tickSize) && InDomain(spec.lotSize) && InDomain(spec.minSize)
    ensures var agree := mapping.kind == spec.kind && mapping.base == spec.base
        && mapping.quote == spec.quote && mapping.settlement == spec.settlement;
      var sound := 1 <= |spec.version| <= 128 && spec.times.source <= spec.times.received
        && Numerator(spec.tickSize) > 0 && Numerator(spec.lotSize) > 0 && Numerator(spec.minSize) > 0;
      var r := ValidateSpec(mapping, spec);
      && (r == Failure(MappingMismatch) <==> !agree)
      && (r == Failure(InvalidSpecification) <==> agree && !sound)
      && (r.Failure? && agree && sound ==> r.error == UnsupportedKind)
  {
    ZeroAndSignTests(spec.tickSize);
    ZeroAndSignTests(spec.lotSize);
    ZeroAndSignTests(spec.minSize);
  }

  /** The numeric reading of a valid specification. */
  lemma ValidSpecMeaning(mapping: ProductMapping, spec: InstrumentSpec)
    requires InDomain(spec.tickSize) && InDomain(spec.lotSize) && InDomain(spec.minSize)
    requires spec.contractValue.Some? ==> InDomain(spec.contractValue.value)
    ensures ValidateSpec(mapping, spec).Success? <==>
      && (mapping.kind, mapping.base, mapping.quote, mapping.settlement)
         == (spec.kind, spec.base, spec.quote, spec.settlement)
      && 1 <= |spec.version| <= 128
      && Numerator(spec.tickSize) > 0 && Numerator(spec.lotSize) > 0 && Numerator(spec.minSize) > 0
      && spec.times.source <= spec.times.received
      && match spec.kind
         case Spot => spec.settlement == None && spec.contractValue == None && spec.contractValueCurrency == None
         case LinearUsdtSwap =>
           && spec.settlement == Some(USDT) && spec.contractValueCurrency == Some(spec.base)
           && spec.contractValue.Some? && Numerator(spec.contractValue.value) > 0
  {
    ZeroAndSignTests(spec.tickSize);
    ZeroAndSignTests(spec.lotSize);
    ZeroAndSignTests(spec.minSize);
    if spec.contractValue.Some? {
      ZeroAndSignTests(spec.contractValue.value);
    }
  }
}
