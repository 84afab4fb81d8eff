/** The components together: configuration, client and directory. */
module Catalog {
  import opened Prelude
  import opened Sequences
  import opened Identity
  import opened Units
  import opened Facts
  import opened Freshness
  import opened Wire
  import opened ClientClock
  import opened Instrument
  import opened ExchangeRows
  import Business
  import Pacing

  // ---------- observations made by a running client ----------

  /** `o` is what a client observed in some reachable state. */
  ghost predicate FromClient<T>(o: Observation<T>) {
    exists start, run, wallNs ::
      Pacing.Legal(Pacing.Initial(start), run)
      && var s := Pacing.After(Pacing.Initial(start), run);
         Observe(s.clock, o.value, s.now, wallNs) == Success(o)
  }

  lemma ClientLag<T>(o: Observation<T>)
    requires FromClient(o)
    ensures 0 <= o.times.received - o.times.source <= CLOCK_MAX_SKEW_MS
  {
    var start, run, wallNs :|
      Pacing.Legal(Pacing.Initial(start), run)
      && var s := Pacing.After(Pacing.Initial(start), run);
         Observe(s.clock, o.value, s.now, wallNs) == Success(o);
    Pacing.ReachableObservation(start, run, o.value, wallNs);
  }

  /** The combined times of the four observations behind one assessment. */
  ghost function Combined(instrument: Observation<PublicInstrument>, listed: Observation<AccountInstruments>,
                          config: Observation<AccountConfiguration>, rates: Observation<FeeRates>): Times
  {
    MergeAll([instrument.times, Merge(listed.times, config.times), rates.times])
  }

  /**
   * With every fact observed by a client and all other gates open, assessment succeeds for exactly the
   * `now` between the latest receipt and the earliest source plus the age limit; whatever the clock
   * offset, that includes every `now` up to the earliest receipt plus the age limit less five seconds.
   */
  lemma AssessmentWindow(d: Directory, productId: ProductId, permit: AccountPermit,
                         instrument: Observation<PublicInstrument>, specVersion: string,
                         listed: Observation<AccountInstruments>, config: Observation<AccountConfiguration>,
                         rates: Observation<FeeRates>, feeVersion: string,
                         now: ReceivedTimeMs, maxAge: int)
    requires Built(d) && productId in d.mappings
    requires FromClient(instrument) && FromClient(listed) && FromClient(config) && FromClient(rates)
    requires var mapping := d.mappings[productId];
      var spec := ToSpec(instrument.value, specVersion, instrument.times);
      && mapping.instId in d.specs && d.specs[mapping.instId] == spec
      && GatesOpen(mapping, spec, permit, ToEligibility(listed, config),
                   ToFeeSchedule(rates, mapping.instId, feeVersion))
    ensures var fee := ToFeeSchedule(rates, d.mappings[productId].instId, feeVersion);
      var verdict := Assess(d, productId, permit, ToEligibility(listed, config), fee, now, maxAge);
      var all := Combined(instrument, listed, config, rates);
      && (verdict.Success? <==> all.received <= now <= all.source + maxAge)
      && (all.received <= now
          && now <= Min(Min(instrument.times.received, rates.times.received),
                        Min(listed.times.received, config.times.received)) + maxAge - CLOCK_MAX_SKEW_MS
          ==> verdict.Success?)
  {
    ClientLag(instrument);
    ClientLag(listed);
    ClientLag(config);
    ClientLag(rates);
    var fee := ToFeeSchedule(rates, d.mappings[productId].instId, feeVersion);
    AssessExactly(d, productId, permit, ToEligibility(listed, config), fee, now, maxAge);
    ThreeTimes(instrument.times, Merge(listed.times, config.times), rates.times);
  }

  // ---------- directories built from a validated configuration ----------

  function MappingOf(p: Business.Product): ProductMapping {
    ProductMapping(p.productId, p.instId, p.kind, p.base, p.quote, p.settlement)
  }

  function MappingsOf(products: seq<Business.Product>): seq<ProductMapping> {
    seq(|products|, i requires 0 <= i < |products| => MappingOf(products[i]))
  }

  /** Mappings drawn from a well-formed configuration never conflict. */
  lemma ConfiguredMappingsUnique(file: Business.BusinessFile)
    requires Business.WellFormed(file)
    ensures UniqueMappings(MappingsOf(file.products))
  {
    var ms := MappingsOf(file.products);
    assert ProductIds(ms) == Business.ProductIds(file.products);
    assert RemoteIds(ms) == Business.InstIds(file.products);
  }

  /** One accepted row per product, fetched by the product's own instrument ID. */
  ghost predicate RowsFetched(products: seq<Business.Product>, rows: seq<InstrumentRow>) {
    && |rows| == |products|
    && forall i :: 0 <= i < |rows| ==>
         && ParseRow(rows[i], TypeOf(products[i].kind)).Success?
         && rows[i].instId == products[i].instId
  }

  function TypeOf(kind: ProductKind): InstrumentType {
    if kind == ProductKind.Spot then SpotType else SwapType
  }

  ghost function SpecOf(p: Business.Product, row: InstrumentRow, version: string, times: Times): InstrumentSpec
    requires ParseRow(row, TypeOf(p.kind)).Success?
  {
    ToSpec(ParseRow(row, TypeOf(p.kind)).value, version, times)
  }

  ghost function SpecsOf(products: seq<Business.Product>, rows: seq<InstrumentRow>,
                         versions: seq<string>, times: seq<Times>): seq<InstrumentSpec>
    requires RowsFetched(products, rows) && |versions| == |times| == |rows|
  {
    seq(|rows|, i requires 0 <= i < |rows| => SpecOf(products[i], rows[i], versions[i], times[i]))
  }

  /** The row names the product's currencies, and a SPOT row carries nothing of a contract. */
  ghost predicate Agrees(p: Business.Product, row: InstrumentRow) {
    match p.kind
    case Spot =>
      && row.baseCcy == p.base.code && row.quoteCcy == p.quote.code
      && row.ctVal == "" && row.ctValCcy == "" && row.settleCcy == ""
    case LinearUsdtSwap => row.ctValCcy == p.base.code && row.settleCcy == p.quote.code
  }

  lemma RowSatisfiesProduct(p: Business.Product, row: InstrumentRow, version: string, times: Times)
    requires Business.ProductSound(p) && ParseRow(row, TypeOf(p.kind)).Success? && row.instId == p.instId
    requires |version| == 64 && times.source <= times.received
    ensures ValidateSpec(MappingOf(p), SpecOf(p, row, version, times)).Success? <==> Agrees(p, row)
  {
    var spec := SpecOf(p, row, version, times);
    AcceptedRowValidates(row, TypeOf(p.kind), p.productId, version, times);
    var m := InducedMapping(spec, p.productId);
    assert m == MappingOf(p) <==>
      spec.base == p.base && spec.quote == p.quote && spec.settlement == p.settlement;
  }

  /**
   * For a well-formed configuration and one fetched row per product, the directory builds exactly when
   * every row agrees with its product.
   */
  lemma CatalogBuildsExactly(file: Business.BusinessFile, rows: seq<InstrumentRow>,
                             versions: seq<string>, times: seq<Times>)
    requires Business.WellFormed(file) && RowsFetched(file.products, rows) && |versions| == |times| == |rows|
    requires forall i :: 0 <= i < |rows| ==> |versions[i]| == 64 && times[i].source <= times[i].received
    ensures Consistent(MappingsOf(file.products), SpecsOf(file.products, rows, versions, times)) <==>
      forall i :: 0 <= i < |rows| ==> Agrees(file.products[i], rows[i])
  {
    var ms, ss := MappingsOf(file.products), SpecsOf(file.products, rows, versions, times);
    ConfiguredMappingsUnique(file);
    assert SpecIds(ss) == Business.InstIds(file.products);
    forall i | 0 <= i < |rows| ensures Satisfied(ms[i], ss) <==> Agrees(file.products[i], rows[i]) {
      assert file.products[i] in file.products;
      RowSatisfiesProduct(file.products[i], rows[i], versions[i], times[i]);
      OwnSpecOnly(ms, ss, i);
    }
    ConsistentByIndex(ms, ss);
  }

  lemma ConsistentByIndex(ms: seq<ProductMapping>, ss: seq<InstrumentSpec>)
    requires UniqueMappings(ms) && Distinct(SpecIds(ss))
    ensures Consistent(ms, ss) <==> forall i :: 0 <= i < |ms| ==> Satisfied(ms[i], ss)
  {
    assert forall i :: 0 <= i < |ms| ==> ms[i] in ms;
  }

  lemma OwnSpecOnly(ms: seq<ProductMapping>, ss: seq<InstrumentSpec>, i: nat)
    requires i < |ms| == |ss| && Distinct(SpecIds(ss)) && ss[i].instId == ms[i].instId
    ensures Satisfied(ms[i], ss) <==> ValidateSpec(ms[i], ss[i]).Success?
  {
    assert ss[i] in ss;
    forall s | s in ss && s.instId == ms[i].instId ensures s == ss[i] {
      var j :| 0 <= j < |ss| && ss[j] == s;
      assert SpecIds(ss)[j] == SpecIds(ss)[i];
    }
  }

  // ---------- eligibility composed from several observations ----------

  ghost function ListedIds(listings: seq<Observation<AccountInstruments>>): seq<OkxInstrumentId> {
    if |listings| == 0 then []
    else ListedIds(listings[..|listings| - 1]) + listings[|listings| - 1].value.instIds
  }

  /** An instrument is listed exactly when some listing holds it. */
  lemma {:induction false} ListedSomewhere(listings: seq<Observation<AccountInstruments>>, id: OkxInstrumentId)
    ensures id in ListedIds(listings) <==> exists k :: 0 <= k < |listings| && id in listings[k].value.instIds
    decreases |listings|
  {
    if |listings| == 0 {
    } else {
      var n := |listings| - 1;
      ListedSomewhere(listings[..n], id);
    }
  }

  ghost function TimesOf<T>(observations: seq<Observation<T>>): seq<Times> {
    seq(|observations|, i requires 0 <= i < |observations| => observations[i].times)
  }

  /** One account configuration and any number of listings, as one fact. */
  ghost function Composed(accountId: AccountId, config: Observation<AccountConfiguration>,
                          listings: seq<Observation<AccountInstruments>>): AccountEligibility
  {
    AccountEligibility(accountId, config.value.mode, ListedIds(listings), MergeAll([config.times] + TimesOf(listings)))
  }

  /** The loop over the product categories. */
  method ComposeEligibility(accountId: AccountId, config: Observation<AccountConfiguration>,
                            listings: seq<Observation<AccountInstruments>>) returns (r: AccountEligibility)
    ensures r == Composed(accountId, config, listings)
  {
    var visible: seq<OkxInstrumentId> := [];
    var source: SourceTimeMs, received: ReceivedTimeMs := config.times.source, config.times.received;
    for i := 0 to |listings|
      invariant visible == ListedIds(listings[..i])
      invariant Times(source, received) == MergeAll([config.times] + TimesOf(listings[..i]))
    {
      var o := listings[i];
      assert listings[..i + 1][..i] == listings[..i];
      assert [config.times] + TimesOf(listings[..i + 1]) == ([config.times] + TimesOf(listings[..i])) + [o.times];
      MergeAllGrouping([config.times] + TimesOf(listings[..i]), [o.times]);
      source, received := Min(source, o.times.source), Max(received, o.times.received);
      visible := visible + o.value.instIds;
    }
    assert listings[..|listings|] == listings;
    return AccountEligibility(accountId, config.value.mode, visible, Times(source, received));
  }

  // ---------- the whole pipeline, for one strategy target ----------

  function PermitOf(a: Business.Account): AccountPermit {
    AccountPermit(a.accountId, a.allowedModes, a.productIds)
  }

  /** For a target of a well-formed configuration the licence gate is open; the other gates decide. */
  lemma TargetGatesOpen(file: Business.BusinessFile, s: Business.StrategyInstance, target: Business.TargetBinding,
                        a: Business.Account, mapping: ProductMapping, spec: InstrumentSpec,
                        eligibility: AccountEligibility, fee: FeeSchedule)
    requires Business.WellFormed(file) && s in file.strategies && target in s.targets
    requires a in file.accounts && a.accountId == s.accountId
    requires mapping.productId == target.productId
    ensures GatesOpen(mapping, spec, PermitOf(a), eligibility, fee) <==>
      && eligibility.accountId == a.accountId && eligibility.mode in a.allowedModes
      && mapping.instId in eligibility.instIds
      && spec.state == TradingState.Live
      && fee.instId == mapping.instId && fee.version != "" && spec.feeGroupId == Some(fee.groupId)
  {
    assert Business.Resolved(s, file);
    var owner :| owner in file.accounts && owner.accountId == s.accountId
      && Business.StrategySound(s, owner, file.products);
    Business.AccountUnique(file.accounts, a, owner);
    assert Business.TargetSound(target, owner, file.products);
  }

  /** An observed mode that the configuration accepts is one the account allows. */
  lemma AcceptedModeAllowed(file: Business.BusinessFile, a: Business.Account, mode: PositionMode)
    requires Business.WellFormed(file) && a in file.accounts
    requires Business.CheckActualMode(file, a.accountId, mode).Success?
    ensures mode in a.allowedModes
  {
    Business.FindAccountMeaning(file.accounts, a.accountId);
    Business.AccountUnique(file.accounts, a, Business.FindAccount(file.accounts, a.accountId).value);
  }

  /** `rates` is what a client fetched for one fee group in some reachable state. */
  ghost predicate FeeFetched(rates: Observation<FeeRates>, t: InstrumentType, groupId: string) {
    exists rows, start, run, wallNs ::
      Pacing.Legal(Pacing.Initial(start), run)
      && var s := Pacing.After(Pacing.Initial(start), run);
         FeeGroup(rows, t, groupId, s.clock, s.now, wallNs) == Success(rates)
  }

  lemma FetchedFee(rates: Observation<FeeRates>, t: InstrumentType, groupId: string)
    requires FeeFetched(rates, t, groupId)
    ensures FromClient(rates) && rates.value.groupId == groupId != ""
  {
    var rows, start, run, wallNs :|
      Pacing.Legal(Pacing.Initial(start), run)
      && var s := Pacing.After(Pacing.Initial(start), run);
         FeeGroup(rows, t, groupId, s.clock, s.now, wallNs) == Success(rates);
    var s := Pacing.After(Pacing.Initial(start), run);
    FetchedRates(rows, t, groupId, s.clock, s.now, wallNs);
    assert Observe(s.clock, rates.value, s.now, wallNs) == Success(rates);
  }

  lemma FetchedRates(rows: seq<FeeRow>, t: InstrumentType, groupId: string,
                     clock: Option<ClockSync>, now: Instant, wallNs: int)
    requires FeeGroup(rows, t, groupId, clock, now, wallNs).Success?
    ensures var o := FeeGroup(rows, t, groupId, clock, now, wallNs).value;
      o.value.groupId == groupId != "" && Observe(clock, o.value, now, wallNs) == Success(o)
  {
    FeeGroupMeaning(rows, t, groupId, clock, now, wallNs);
    var i: nat :| FeeReadable(rows, t, groupId, i);
  }

  /** One client observation per product of an accepted row that agrees with the product. */
  ghost predicate Fetched(products: seq<Business.Product>, rows: seq<InstrumentRow>,
                          instruments: seq<Observation<PublicInstrument>>)
  {
    && RowsFetched(products, rows) && |instruments| == |rows|
    && forall k :: 0 <= k < |rows| ==>
         && FromClient(instruments[k]) && Agrees(products[k], rows[k])
         && Success(instruments[k].value) == ParseRow(rows[k], TypeOf(products[k].kind))
  }

  /** The directory of a well-formed configuration, built from such observations, and what it holds. */
  lemma FetchedDirectory(file: Business.BusinessFile, rows: seq<InstrumentRow>,
                         instruments: seq<Observation<PublicInstrument>>, versions: seq<string>, d: Directory, i: nat)
    requires Business.WellFormed(file) && Fetched(file.products, rows, instruments) && |versions| == |rows|
    requires forall k :: 0 <= k < |rows| ==> |versions[k]| == 64
    requires Holds(d, MappingsOf(file.products), SpecsOf(file.products, rows, versions, TimesOf(instruments)))
    requires i < |rows|
    ensures Built(d)
    ensures file.products[i].productId in d.mappings
    ensures d.mappings[file.products[i].productId] == MappingOf(file.products[i])
    ensures file.products[i].instId in d.specs
    ensures d.specs[file.products[i].instId] == ToSpec(instruments[i].value, versions[i], instruments[i].times)
  {
    var times := TimesOf(instruments);
    forall k | 0 <= k < |rows| ensures times[k].source <= times[k].received {
      ClientLag(instruments[k]);
    }
    CatalogBuildsExactly(file, rows, versions, times);
    var ms, ss := MappingsOf(file.products), SpecsOf(file.products, rows, versions, times);
    assert Consistent(ms, ss) && Holds(d, ms, ss);
    assert ms[i] in ms && ss[i] in ss;
  }

  /** The merged times of every observation behind one assessment. */
  ghost function AllTimes(instrument: Times, config: Observation<AccountConfiguration>,
                          listings: seq<Observation<AccountInstruments>>, fee: Times): Times
  {
    MergeAll([instrument] + ([config.times] + TimesOf(listings)) + [fee])
  }

  lemma AllTimesMerge(instrument: Times, config: Observation<AccountConfiguration>,
                      listings: seq<Observation<AccountInstruments>>, fee: Times)
    requires !Inverted(config.times)
    ensures var part := MergeAll([config.times] + TimesOf(listings));
      AllTimes(instrument, config, listings, fee) == MergeAll([instrument, part, fee]) && !Inverted(part)
  {
    var facts := [config.times] + TimesOf(listings);
    var part := MergeAll(facts);
    MergeAllGrouping([instrument] + facts, [fee]);
    MergeAllGrouping([instrument], facts);
    ThreeTimes(instrument, part, fee);
    MergeAllIsEnvelope(facts);
    assert facts[0] in facts;
  }

  /**
   * For every target of every strategy of a well-formed configuration: with a directory built from
   * fetched rows that agree with the products, an eligibility composed from client observations of the
   * strategy's own account, and the fee fetched for the instrument's own group, assessment succeeds
   * exactly when the account allows the observed mode, the exchange lists the instrument for it, the row
   * is live, and `now` lies between the latest receipt and the earliest source plus the age limit.
   */
  lemma TargetAssessed(file: Business.BusinessFile, s: Business.StrategyInstance, target: Business.TargetBinding,
                       a: Business.Account, i: nat, rows: seq<InstrumentRow>,
                       instruments: seq<Observation<PublicInstrument>>, versions: seq<string>, d: Directory,
                       config: Observation<AccountConfiguration>, listings: seq<Observation<AccountInstruments>>,
                       rates: Observation<FeeRates>, feeVersion: string, now: ReceivedTimeMs, maxAge: int)
    requires Business.WellFormed(file) && s in file.strategies && target in s.targets
    requires a in file.accounts && a.accountId == s.accountId
    requires i < |file.products| && file.products[i].productId == target.productId
    requires Fetched(file.products, rows, instruments) && |versions| == |rows|
    requires forall k :: 0 <= k < |rows| ==> |versions[k]| == 64
    requires Holds(d, MappingsOf(file.products), SpecsOf(file.products, rows, versions, TimesOf(instruments)))
    requires FromClient(config)
    requires FeeFetched(rates, TypeOf(file.products[i].kind), rows[i].groupId) && |feeVersion| == 64
    ensures var instId := file.products[i].instId;
      var verdict := Assess(d, target.productId, PermitOf(a), Composed(a.accountId, config, listings),
                            ToFeeSchedule(rates, instId, feeVersion), now, maxAge);
      var all := AllTimes(instruments[i].times, config, listings, rates.times);
      && (verdict.Success? <==>
           && config.value.mode in a.allowedModes && rows[i].state == "live"
           && (exists k :: 0 <= k < |listings| && instId in listings[k].value.instIds)
           && all.received <= now <= all.source + maxAge)
      && (verdict.Success? ==> verdict.value == ToSpec(instruments[i].value, versions[i], instruments[i].times))
    ensures Business.CheckActualMode(file, a.accountId, config.value.mode).Success? ==>
      config.value.mode in a.allowedModes
  {
    if Business.CheckActualMode(file, a.accountId, config.value.mode).Success? {
      AcceptedModeAllowed(file, a, config.value.mode);
    }
    ListedSomewhere(listings, file.products[i].instId);
    FetchedDirectory(file, rows, instruments, versions, d, i);
    FetchedFee(rates, TypeOf(file.products[i].kind), rows[i].groupId);
    ClientLag(config);
    ClientLag(rates);
    AllTimesMerge(instruments[i].times, config, listings, rates.times);
    var p := file.products[i];
    var spec := ToSpec(instruments[i].value, versions[i], instruments[i].times);
    SpecSaysWhatTheRowSays(rows[i], TypeOf(p.kind), versions[i], instruments[i].times);
    var eligibility := Composed(a.accountId, config, listings);
    var fee := ToFeeSchedule(rates, p.instId, feeVersion);
    TargetGatesOpen(file, s, target, a, MappingOf(p), spec, eligibility, fee);
    AssessExactly(d, p.productId, PermitOf(a), eligibility, fee, now, maxAge);
  }
}
