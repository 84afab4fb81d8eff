/** The business configuration and its validator. */
module Business {
  import opened Prelude
  import opened Sequences
  import opened Identity
  import opened BigDecimals
  import opened Units
  import opened Facts

  datatype ConfigError =
    | SchemaVersion
    | Environment
    | TradingEnabled
    | EmptyCollection
    | DuplicateId
    | ConflictingInstrument
    | UnknownProduct
    | UnknownAccount
    | UnlicensedProduct
    | InvalidBinding
    | UnsupportedCapability
    | ActualModeMismatch
    | InvalidPolicy

  datatype Product = Product(
    productId: ProductId,
    instId: OkxInstrumentId,
    kind: ProductKind,
    base: Currency,
    quote: Currency,
    settlement: Option<Currency>)

  datatype Account = Account(
    accountId: AccountId,
    allowedModes: seq<PositionMode>,
    productIds: seq<ProductId>)

  datatype StrategyKind = CandleMomentum | TradeFlow
  datatype FeedKind = Candle1m | TradesAll
  datatype TargetMode = Spot | SwapNet | SwapLegs

  datatype InputBinding = InputBinding(bindingId: BindingId, productId: ProductId, feed: FeedKind)
  datatype TargetBinding = TargetBinding(bindingId: BindingId, productId: ProductId, mode: TargetMode)

  datatype StrategyInstance = StrategyInstance(
    instanceId: StrategyInstanceId,
    kind: StrategyKind,
    accountId: AccountId,
    parameterVersion: string,
    bindingVersion: string,
    inputs: seq<InputBinding>,
    targets: seq<TargetBinding>)

  datatype RiskPolicy = RiskPolicy(version: string, maxOrder: Ratio, maxGross: Ratio)

  datatype BusinessFile = BusinessFile(
    schemaVersion: nat,
    version: string,
    environment: string,
    tradingEnabled: bool,
    products: seq<Product>,
    accounts: seq<Account>,
    strategies: seq<StrategyInstance>,
    risk: RiskPolicy)

  // ---------- columns ----------

  ghost function ProductIds(products: seq<Product>): seq<ProductId> {
    seq(|products|, i requires 0 <= i < |products| => products[i].productId)
  }

  ghost function InstIds(products: seq<Product>): seq<OkxInstrumentId> {
    seq(|products|, i requires 0 <= i < |products| => products[i].instId)
  }

  ghost function AccountIds(accounts: seq<Account>): seq<AccountId> {
    seq(|accounts|, i requires 0 <= i < |accounts| => accounts[i].accountId)
  }

  ghost function InstanceIds(strategies: seq<StrategyInstance>): seq<StrategyInstanceId> {
    seq(|strategies|, i requires 0 <= i < |strategies| => strategies[i].instanceId)
  }

  ghost function InputIds(inputs: seq<InputBinding>): seq<BindingId> {
    seq(|inputs|, i requires 0 <= i < |inputs| => inputs[i].bindingId)
  }

  ghost function FeedKeys(inputs: seq<InputBinding>): seq<(ProductId, FeedKind)> {
    seq(|inputs|, i requires 0 <= i < |inputs| => (inputs[i].productId, inputs[i].feed))
  }

  ghost function TargetIds(targets: seq<TargetBinding>): seq<BindingId> {
    seq(|targets|, i requires 0 <= i < |targets| => targets[i].bindingId)
  }

  ghost function TargetProducts(targets: seq<TargetBinding>): seq<ProductId> {
    seq(|targets|, i requires 0 <= i < |targets| => targets[i].productId)
  }

  /** Every binding ID of every strategy, inputs before targets. */
  ghost function AllBindings(strategies: seq<StrategyInstance>): seq<BindingId> {
    if |strategies| == 0 then []
    else
      var n := |strategies| - 1;
      AllBindings(strategies[..n]) + InputIds(strategies[n].inputs) + TargetIds(strategies[n].targets)
  }

  // ---------- what a well-formed configuration is ----------

  /** Two different currencies, and the settlement that the kind of product has. */
  ghost predicate ProductSound(p: Product) {
    && p.base.code != p.quote.code
    && ((p.kind == ProductKind.Spot && p.settlement == None)
        || (p.kind == LinearUsdtSwap && p.settlement.Some? && p.settlement.value.code == "USDT"))
  }

  /** A strategy kind reads one kind of feed. */
  ghost predicate FeedFits(kind: StrategyKind, feed: FeedKind) {
    (kind == CandleMomentum && feed == Candle1m) || (kind == TradeFlow && feed == TradesAll)
  }

  /** A target mode names one kind of product, and independent legs need an account with both sides. */
  ghost predicate ModeFits(kind: ProductKind, mode: TargetMode, account: Account) {
    || (kind == ProductKind.Spot && mode == TargetMode.Spot)
    || (kind == LinearUsdtSwap && mode == TargetMode.SwapNet)
    || (kind == LinearUsdtSwap && mode == TargetMode.SwapLegs && LongShortMode in account.allowedModes)
  }

  /** The code's three tests of the same. */
  predicate ProductMismatch(p: Product) {
    || p.base == p.quote
    || match p.kind
       case Spot => p.settlement.Some?
       case LinearUsdtSwap => p.settlement.None? || p.settlement.value.code != "USDT"
  }

  function RequiredFeed(kind: StrategyKind): FeedKind {
    match kind
    case CandleMomentum => Candle1m
    case TradeFlow => TradesAll
  }

  predicate Compatible(kind: ProductKind, mode: TargetMode, account: Account) {
    match (kind, mode)
    case (Spot, Spot) => true
    case (LinearUsdtSwap, SwapNet) => true
    case (LinearUsdtSwap, SwapLegs) => LongShortMode in account.allowedModes
    case _ => false
  }

  ghost predicate Known(products: seq<Product>, id: ProductId) {
    exists p :: p in products && p.productId == id
  }

  ghost predicate AccountSound(a: Account, products: seq<Product>) {
    && a.productIds != [] && Distinct(a.productIds)
    && a.allowedModes != [] && Distinct(a.allowedModes)
    && forall id | id in a.productIds :: Known(products, id)
  }

  /** A target is licensed to the account, and its mode suits its product and the account. */
  ghost predicate TargetSound(b: TargetBinding, account: Account, products: seq<Product>) {
    && b.productId in account.productIds
    && exists p :: p in products && p.productId == b.productId && ModeFits(p.kind, b.mode, account)
  }

  /** One strategy's references resolve, and its targets are licensed to its own account. */
  ghost predicate StrategySound(s: StrategyInstance, account: Account, products: seq<Product>) {
    && s.parameterVersion != "" && s.bindingVersion != ""
    && s.inputs != [] && s.targets != []
    && Distinct(FeedKeys(s.inputs)) && Distinct(TargetProducts(s.targets))
    && (forall b | b in s.inputs :: Known(products, b.productId) && FeedFits(s.kind, b.feed))
    && (forall b | b in s.targets :: TargetSound(b, account, products))
  }

  /** The strategy's own account exists, and the strategy is sound under it. */
  ghost predicate Resolved(s: StrategyInstance, file: BusinessFile) {
    exists a :: a in file.accounts && a.accountId == s.accountId && StrategySound(s, a, file.products)
  }

  ghost predicate HeaderSound(file: BusinessFile) {
    && file.schemaVersion == 1 && file.environment == "demo" && !file.tradingEnabled
    && 1 <= |file.version| <= 128 && file.risk.version != ""
    && file.products != [] && file.accounts != [] && file.strategies != []
    && !Less(file.risk.maxGross.amount.inner, file.risk.maxOrder.amount.inner)
  }

  ghost predicate WellFormed(file: BusinessFile) {
    && HeaderSound(file)
    && Distinct(ProductIds(file.products)) && Distinct(InstIds(file.products))
    && (forall p | p in file.products :: ProductSound(p))
    && Distinct(AccountIds(file.accounts))
    && (forall a | a in file.accounts :: AccountSound(a, file.products))
    && Distinct(InstanceIds(file.strategies))
    && Distinct(AllBindings(file.strategies))
    && (forall s | s in file.strategies :: Resolved(s, file))
  }

  // ---------- which error comes first ----------

  ghost function HeaderCheck(file: BusinessFile): Option<ConfigError> {
    if file.schemaVersion != 1 then Some(ConfigError.SchemaVersion)
    else if file.environment != "demo" then Some(Environment)
    else if file.tradingEnabled then Some(TradingEnabled)
    else if file.version == "" || |file.version| > 128 || file.risk.version == "" then Some(InvalidPolicy)
    else if file.products == [] || file.accounts == [] || file.strategies == [] then Some(EmptyCollection)
    else if Less(file.risk.maxGross.amount.inner, file.risk.maxOrder.amount.inner) then Some(InvalidPolicy)
    else None
  }

  ghost function ProductCheck(products: seq<Product>, i: nat): Option<ConfigError>
    requires i < |products|
  {
    var p := products[i];
    if p.productId in ProductIds(products[..i]) then Some(DuplicateId)
    else if p.instId in InstIds(products[..i]) then Some(ConflictingInstrument)
    else if ProductMismatch(p) then Some(ConfigError.InvalidBinding)
    else None
  }

  ghost function ProductChecks(products: seq<Product>): seq<Option<ConfigError>> {
    seq(|products|, i requires 0 <= i < |products| => ProductCheck(products, i))
  }

  ghost function LicenceCheck(ids: seq<ProductId>, products: seq<Product>, j: nat): Option<ConfigError>
    requires j < |ids|
  {
    if !Known(products, ids[j]) then Some(UnknownProduct)
    else if ids[j] in ids[..j] then Some(DuplicateId)
    else None
  }

  ghost function LicenceChecks(ids: seq<ProductId>, products: seq<Product>): seq<Option<ConfigError>> {
    seq(|ids|, j requires 0 <= j < |ids| => LicenceCheck(ids, products, j))
  }

  ghost function AccountCheck(accounts: seq<Account>, products: seq<Product>, i: nat): Option<ConfigError>
    requires i < |accounts|
  {
    if accounts[i].accountId in AccountIds(accounts[..i]) then Some(DuplicateId)
    else AccountOwnCheck(accounts[i], products)
  }

  ghost function AccountOwnCheck(a: Account, products: seq<Product>): Option<ConfigError> {
    if a.productIds == [] || a.allowedModes == [] then Some(EmptyCollection)
    else
      var licence := First(LicenceChecks(a.productIds, products));
      if licence.Some? then licence
      else if !Distinct(a.allowedModes) then Some(DuplicateId)
      else None
  }

  ghost function AccountChecks(accounts: seq<Account>, products: seq<Product>): seq<Option<ConfigError>> {
    seq(|accounts|, i requires 0 <= i < |accounts| => AccountCheck(accounts, products, i))
  }

  ghost function InputCheck(s: StrategyInstance, before: seq<BindingId>, products: seq<Product>, j: nat)
    : Option<ConfigError>
    requires j < |s.inputs|
  {
    var b := s.inputs[j];
    if b.bindingId in before + InputIds(s.inputs)[..j] || (b.productId, b.feed) in FeedKeys(s.inputs)[..j]
    then Some(DuplicateId)
    else if !Known(products, b.productId) then Some(UnknownProduct)
    else if b.feed != RequiredFeed(s.kind) then Some(UnsupportedCapability)
    else None
  }

  ghost function InputChecks(s: StrategyInstance, before: seq<BindingId>, products: seq<Product>)
    : seq<Option<ConfigError>>
  {
    seq(|s.inputs|, j requires 0 <= j < |s.inputs| => InputCheck(s, before, products, j))
  }

  ghost function TargetCheck(s: StrategyInstance, before: seq<BindingId>, account: Account, products: seq<Product>, j: nat)
    : Option<ConfigError>
    requires j < |s.targets|
  {
    var b := s.targets[j];
    if b.bindingId in before + TargetIds(s.targets)[..j] || b.productId in TargetProducts(s.targets)[..j]
    then Some(DuplicateId)
    else if !Known(products, b.productId) then Some(UnknownProduct)
    else if b.productId !in account.productIds then Some(UnlicensedProduct)
    else if !TargetSound(b, account, products) then Some(UnsupportedCapability)
    else None
  }

  ghost function TargetChecks(s: StrategyInstance, before: seq<BindingId>, account: Account, products: seq<Product>)
    : seq<Option<ConfigError>>
  {
    seq(|s.targets|, j requires 0 <= j < |s.targets| => TargetCheck(s, before, account, products, j))
  }

  /** The account with a given ID, when there is one. */
  ghost function FindAccount(accounts: seq<Account>, id: AccountId): Option<Account> {
    if |accounts| == 0 then None
    else if accounts[0].accountId == id then Some(accounts[0])
    else FindAccount(accounts[1..], id)
  }

  ghost function StrategyCheck(file: BusinessFile, i: nat): Option<ConfigError>
    requires i < |file.strategies|
  {
    var s, before := file.strategies[i], AllBindings(file.strategies[..i]);
    var account := FindAccount(file.accounts, s.accountId);
    if s.instanceId in InstanceIds(file.strategies[..i]) then Some(DuplicateId)
    else if s.parameterVersion == "" || s.bindingVersion == "" then Some(ConfigError.InvalidBinding)
    else if account == None then Some(UnknownAccount)
    else if s.inputs == [] || s.targets == [] then Some(EmptyCollection)
    else
      var input := First(InputChecks(s, before, file.products));
      if input.Some? then input
      else First(TargetChecks(s, before + InputIds(s.inputs), account.value, file.products))
  }

  ghost function StrategyChecks(file: BusinessFile): seq<Option<ConfigError>> {
    seq(|file.strategies|, i requires 0 <= i < |file.strategies| => StrategyCheck(file, i))
  }

  /** The error the validator reports: the first failing check in source order. */
  ghost function Check(file: BusinessFile): Option<ConfigError> {
    var header := HeaderCheck(file);
    var products := First(ProductChecks(file.products));
    var accounts := First(AccountChecks(file.accounts, file.products));
    if header.Some? then header
    else if products.Some? then products
    else if accounts.Some? then accounts
    else First(StrategyChecks(file))
  }

  // ---------- the validator ----------

  /** The map a loop has filled from the products it has seen. */
  ghost predicate IndexesProducts(index: map<ProductId, Product>, products: seq<Product>) {
    && index.Keys == Elements(ProductIds(products))
    && forall p | p in products :: p.productId in index && index[p.productId] == p
  }

  ghost predicate IndexesAccounts(index: map<AccountId, Account>, accounts: seq<Account>) {
    && index.Keys == Elements(AccountIds(accounts))
    && forall a | a in accounts :: a.accountId in index && index[a.accountId] == a
  }

  lemma IndexProductSnoc(index: map<ProductId, Product>, ps: seq<Product>, p: Product)
    requires IndexesProducts(index, ps) && p.productId !in index
    ensures IndexesProducts(index[p.productId := p], ps + [p])
    ensures InstIds(ps + [p]) == InstIds(ps) + [p.instId]
  {
    assert ProductIds(ps + [p]) == ProductIds(ps) + [p.productId];
    assert InstIds(ps + [p]) == InstIds(ps) + [p.instId];
  }

  lemma IndexAccountSnoc(index: map<AccountId, Account>, accounts: seq<Account>, a: Account)
    requires IndexesAccounts(index, accounts) && a.accountId !in index
    ensures IndexesAccounts(index[a.accountId := a], accounts + [a])
  {
    assert AccountIds(accounts + [a]) == AccountIds(accounts) + [a.accountId];
  }

  lemma KnownIsIndexed(index: map<ProductId, Product>, products: seq<Product>, id: ProductId)
    requires IndexesProducts(index, products)
    ensures Known(products, id) <==> id in index
    ensures id in index ==> index[id] in products && index[id].productId == id
  {
    if id in index {
      assert id in ProductIds(products);
      var i :| 0 <= i < |products| && ProductIds(products)[i] == id;
      assert products[i] in products;
    }
  }

  lemma {:induction false} FindIsIndexed(index: map<AccountId, Account>, accounts: seq<Account>, id: AccountId)
    requires forall a | a in accounts :: a.accountId in index && index[a.accountId] == a
    ensures FindAccount(accounts, id) == None <==> id !in AccountIds(accounts)
    ensures FindAccount(accounts, id).Some? ==> id in index && FindAccount(accounts, id).value == index[id]
    decreases |accounts|
  {
    if |accounts| == 0 {
    } else {
      assert AccountIds(accounts) == [accounts[0].accountId] + AccountIds(accounts[1..]);
      assert accounts[0] in accounts;
      FindIsIndexed(index, accounts[1..], id);
    }
  }

  method ValidateProducts(products: seq<Product>) returns (error: Option<ConfigError>, index: map<ProductId, Product>)
    ensures error == First(ProductChecks(products))
    ensures error == None ==> IndexesProducts(index, products)
  {
    index := map[];
    var remote: set<OkxInstrumentId> := {};
    ghost var checks := ProductChecks(products);
    for i := 0 to |products|
      invariant IndexesProducts(index, products[..i]) && remote == Elements(InstIds(products[..i]))
      invariant forall j :: 0 <= j < i ==> checks[j] == None
    {
      var p := products[i];
      assert products[..i + 1] == products[..i] + [p];
      if p.productId in index {
        FirstAt(checks, i);
        return Some(DuplicateId), index;
      }
      IndexProductSnoc(index, products[..i], p);
      index := index[p.productId := p];
      if p.instId in remote {
        FirstAt(checks, i);
        return Some(ConflictingInstrument), index;
      }
      remote := remote + {p.instId};
      if ProductMismatch(p) {
        FirstAt(checks, i);
        return Some(ConfigError.InvalidBinding), index;
      }
      forall j | 0 <= j < i + 1 ensures checks[j] == None {
      }
    }
    assert products[..|products|] == products;
    FirstNone(checks);
    error := None;
  }

  method ValidateLicences(ids: seq<ProductId>, index: map<ProductId, Product>, ghost products: seq<Product>)
    returns (error: Option<ConfigError>)
    requires IndexesProducts(index, products)
    ensures error == First(LicenceChecks(ids, products))
  {
    var allowed: set<ProductId> := {};
    ghost var checks := LicenceChecks(ids, products);
    for j := 0 to |ids|
      invariant allowed == Elements(ids[..j])
      invariant forall k :: 0 <= k < j ==> checks[k] == None
    {
      KnownIsIndexed(index, products, ids[j]);
      if ids[j] !in index {
        FirstAt(checks, j);
        return Some(UnknownProduct);
      }
      if ids[j] in allowed {
        FirstAt(checks, j);
        return Some(DuplicateId);
      }
      allowed := allowed + {ids[j]};
    }
    FirstNone(checks);
    return None;
  }

  /** The body of the account loop, once the ID is known to be new. */
  method ValidateAccount(a: Account, products: map<ProductId, Product>, ghost listed: seq<Product>)
    returns (error: Option<ConfigError>)
    requires IndexesProducts(products, listed)
    ensures error == AccountOwnCheck(a, listed)
  {
    if a.productIds == [] || a.allowedModes == [] {
      return Some(EmptyCollection);
    }
    error := ValidateLicences(a.productIds, products, listed);
    if error.Some? {
      return;
    }
    var modes := set m | m in a.allowedModes;
    DistinctCardinality(a.allowedModes);
    assert modes == Elements(a.allowedModes);
    if |modes| != |a.allowedModes| {
      error := Some(DuplicateId);
    }
  }

  method ValidateAccounts(accounts: seq<Account>, products: map<ProductId, Product>, ghost listed: seq<Product>)
    returns (error: Option<ConfigError>, index: map<AccountId, Account>)
    requires IndexesProducts(products, listed)
    ensures error == First(AccountChecks(accounts, listed))
    ensures error == None ==> IndexesAccounts(index, accounts)
  {
    index := map[];
    ghost var checks := AccountChecks(accounts, listed);
    for i := 0 to |accounts|
      invariant IndexesAccounts(index, accounts[..i])
      invariant forall j :: 0 <= j < i ==> checks[j] == None
    {
      var a := accounts[i];
      assert accounts[..i + 1] == accounts[..i] + [a];
      if a.accountId in index {
        FirstAt(checks, i);
        return Some(DuplicateId), index;
      }
      IndexAccountSnoc(index, accounts[..i], a);
      index := index[a.accountId := a];
      error := ValidateAccount(a, products, listed);
      if error.Some? {
        FirstAt(checks, i);
        return;
      }
      forall j | 0 <= j < i + 1 ensures checks[j] == None {
      }
    }
    assert accounts[..|accounts|] == accounts;
    FirstNone(checks);
    error := None;
  }

  method ValidateInputs(s: StrategyInstance, products: map<ProductId, Product>, seen: set<BindingId>,
                        ghost listed: seq<Product>, ghost before: seq<BindingId>)
    returns (error: Option<ConfigError>, bindings: set<BindingId>)
    requires IndexesProducts(products, listed) && seen == Elements(before)
    ensures error == First(InputChecks(s, before, listed))
    ensures error == None ==> bindings == Elements(before + InputIds(s.inputs))
  {
    bindings := seen;
    var feedKeys: set<(ProductId, FeedKind)> := {};
    ghost var checks := InputChecks(s, before, listed);
    ghost var ids, feeds := InputIds(s.inputs), FeedKeys(s.inputs);
    for j := 0 to |s.inputs|
      invariant bindings == Elements(before + ids[..j]) && feedKeys == Elements(feeds[..j])
      invariant forall k :: 0 <= k < j ==> checks[k] == None
    {
      var b := s.inputs[j];
      KnownIsIndexed(products, listed, b.productId);
      if b.bindingId in bindings || (b.productId, b.feed) in feedKeys {
        FirstAt(checks, j);
        return Some(DuplicateId), bindings;
      }
      assert before + ids[..j + 1] == before + ids[..j] + [b.bindingId];
      assert feeds[..j + 1] == feeds[..j] + [(b.productId, b.feed)];
      bindings, feedKeys := bindings + {b.bindingId}, feedKeys + {(b.productId, b.feed)};
      if b.productId !in products {
        FirstAt(checks, j);
        return Some(UnknownProduct), bindings;
      }
      if b.feed != RequiredFeed(s.kind) {
        FirstAt(checks, j);
        return Some(UnsupportedCapability), bindings;
      }
    }
    assert ids[..|s.inputs|] == ids;
    FirstNone(checks);
    error := None;
  }

  method ValidateTargets(s: StrategyInstance, account: Account, products: map<ProductId, Product>, seen: set<BindingId>,
                         ghost listed: seq<Product>, ghost before: seq<BindingId>)
    returns (error: Option<ConfigError>, bindings: set<BindingId>)
    requires IndexesProducts(products, listed) && seen == Elements(before)
    ensures error == First(TargetChecks(s, before, account, listed))
    ensures error == None ==> bindings == Elements(before + TargetIds(s.targets))
  {
    bindings := seen;
    var targetKeys: set<ProductId> := {};
    ghost var checks := TargetChecks(s, before, account, listed);
    ghost var ids, keys := TargetIds(s.targets), TargetProducts(s.targets);
    for j := 0 to |s.targets|
      invariant bindings == Elements(before + ids[..j]) && targetKeys == Elements(keys[..j])
      invariant forall k :: 0 <= k < j ==> checks[k] == None
    {
      var b := s.targets[j];
      KnownIsIndexed(products, listed, b.productId);
      if b.bindingId in bindings || b.productId in targetKeys {
        FirstAt(checks, j);
        return Some(DuplicateId), bindings;
      }
      assert before + ids[..j + 1] == before + ids[..j] + [b.bindingId];
      assert keys[..j + 1] == keys[..j] + [b.productId];
      bindings, targetKeys := bindings + {b.bindingId}, targetKeys + {b.productId};
      if b.productId !in products {
        FirstAt(checks, j);
        return Some(UnknownProduct), bindings;
      }
      if b.productId !in account.productIds {
        FirstAt(checks, j);
        return Some(UnlicensedProduct), bindings;
      }
      if !Compatible(products[b.productId].kind, b.mode, account) {
        FirstAt(checks, j);
        return Some(UnsupportedCapability), bindings;
      }
    }
    assert ids[..|s.targets|] == ids;
    FirstNone(checks);
    error := None;
  }

  lemma AllBindingsNext(strategies: seq<StrategyInstance>, i: nat)
    requires i < |strategies|
    ensures AllBindings(strategies[..i + 1])
      == AllBindings(strategies[..i]) + InputIds(strategies[i].inputs) + TargetIds(strategies[i].targets)
  {
    assert strategies[..i + 1][..i] == strategies[..i];
  }

  /** The body of the strategy loop. */
  method ValidateStrategy(file: BusinessFile, i: nat, products: map<ProductId, Product>, accounts: map<AccountId, Account>,
                          instances: set<StrategyInstanceId>, seen: set<BindingId>)
    returns (error: Option<ConfigError>, bindings: set<BindingId>)
    requires i < |file.strategies|
    requires IndexesProducts(products, file.products) && IndexesAccounts(accounts, file.accounts)
    requires instances == Elements(InstanceIds(file.strategies[..i]))
    requires seen == Elements(AllBindings(file.strategies[..i]))
    ensures error == StrategyCheck(file, i)
    ensures error == None ==> bindings == Elements(AllBindings(file.strategies[..i + 1]))
  {
    var s := file.strategies[i];
    bindings := seen;
    if s.instanceId in instances {
      return Some(DuplicateId), bindings;
    }
    if s.parameterVersion == "" || s.bindingVersion == "" {
      return Some(ConfigError.InvalidBinding), bindings;
    }
    FindIsIndexed(accounts, file.accounts, s.accountId);
    if s.accountId !in accounts {
      return Some(UnknownAccount), bindings;
    }
    if s.inputs == [] || s.targets == [] {
      return Some(EmptyCollection), bindings;
    }
    ghost var before := AllBindings(file.strategies[..i]);
    error, bindings := ValidateInputs(s, products, bindings, file.products, before);
    if error.Some? {
      return;
    }
    error, bindings := ValidateTargets(s, accounts[s.accountId], products, bindings, file.products,
      before + InputIds(s.inputs));
    AllBindingsNext(file.strategies, i);
  }

  lemma InstanceIdsNext(strategies: seq<StrategyInstance>, i: nat)
    requires i < |strategies|
    ensures Elements(InstanceIds(strategies[..i + 1]))
      == Elements(InstanceIds(strategies[..i])) + {strategies[i].instanceId}
  {
    assert InstanceIds(strategies[..i + 1]) == InstanceIds(strategies[..i]) + [strategies[i].instanceId];
  }

  method ValidateStrategies(file: BusinessFile, products: map<ProductId, Product>, accounts: map<AccountId, Account>)
    returns (error: Option<ConfigError>)
    requires IndexesProducts(products, file.products) && IndexesAccounts(accounts, file.accounts)
    ensures error == First(StrategyChecks(file))
  {
    var instances: set<StrategyInstanceId> := {};
    var bindings: set<BindingId> := {};
    ghost var checks := StrategyChecks(file);
    for i := 0 to |file.strategies|
      invariant instances == Elements(InstanceIds(file.strategies[..i]))
      invariant bindings == Elements(AllBindings(file.strategies[..i]))
      invariant forall j :: 0 <= j < i ==> checks[j] == None
    {
      error, bindings := ValidateStrategy(file, i, products, accounts, instances, bindings);
      if error.Some? {
        FirstAt(checks, i);
        return;
      }
      InstanceIdsNext(file.strategies, i);
      instances := instances + {file.strategies[i].instanceId};
      forall j | 0 <= j < i + 1 ensures checks[j] == None {
      }
    }
    FirstNone(checks);
    error := None;
  }

  method Validate(file: BusinessFile) returns (r: Result<Unit, ConfigError>)
    ensures r.Success? <==> Check(file) == None
    ensures r.Failure? ==> Check(file) == Some(r.error)
  {
    if file.schemaVersion != 1 {
      return Failure(ConfigError.SchemaVersion);
    }
    if file.environment != "demo" {
      return Failure(Environment);
    }
    if file.tradingEnabled {
      return Failure(TradingEnabled);
    }
    if file.version == "" || |file.version| > 128 || file.risk.version == "" {
      return Failure(InvalidPolicy);
    }
    if file.products == [] || file.accounts == [] || file.strategies == [] {
      return Failure(EmptyCollection);
    }
    if Less(file.risk.maxGross.amount.inner, file.risk.maxOrder.amount.inner) {
      return Failure(InvalidPolicy);
    }
    var error, products := ValidateProducts(file.products);
    if error.Some? {
      return Failure(error.value);
    }
    var accounts;
    error, accounts := ValidateAccounts(file.accounts, products, file.products);
    if error.Some? {
      return Failure(error.value);
    }
    error := ValidateStrategies(file, products, accounts);
    if error.Some? {
      return Failure(error.value);
    }
    return Success(Unit.Unit);
  }

  // ---------- the first failing check is absent exactly for well-formed files ----------

  lemma ProductsPass(products: seq<Product>)
    ensures First(ProductChecks(products)) == None <==>
      && Distinct(ProductIds(products)) && Distinct(InstIds(products))
      && forall p | p in products :: ProductSound(p)
  {
    var checks, ids, insts := ProductChecks(products), ProductIds(products), InstIds(products);
    FirstNone(checks);
    DistinctIndexed(ids);
    DistinctIndexed(insts);
    forall i | 0 <= i < |products|
      ensures checks[i] == None <==> ids[i] !in ids[..i] && insts[i] !in insts[..i] && ProductSound(products[i])
    {
      assert ProductIds(products[..i]) == ids[..i] && InstIds(products[..i]) == insts[..i];
    }
  }

  lemma LicencesPass(ids: seq<ProductId>, products: seq<Product>)
    ensures First(LicenceChecks(ids, products)) == None <==>
      Distinct(ids) && forall id | id in ids :: Known(products, id)
  {
    var checks := LicenceChecks(ids, products);
    FirstNone(checks);
    DistinctIndexed(ids);
    forall j | 0 <= j < |ids| ensures checks[j] == None <==> Known(products, ids[j]) && ids[j] !in ids[..j] {
    }
  }

  lemma AccountsPass(accounts: seq<Account>, products: seq<Product>)
    ensures First(AccountChecks(accounts, products)) == None <==>
      Distinct(AccountIds(accounts)) && forall a | a in accounts :: AccountSound(a, products)
  {
    var checks, ids := AccountChecks(accounts, products), AccountIds(accounts);
    FirstNone(checks);
    DistinctIndexed(ids);
    forall i | 0 <= i < |accounts|
      ensures checks[i] == None <==> ids[i] !in ids[..i] && AccountSound(accounts[i], products)
    {
      assert AccountIds(accounts[..i]) == ids[..i];
      LicencesPass(accounts[i].productIds, products);
    }
  }

  /** Each identity is new where it appears, given the identities before the whole list. */
  ghost predicate AllNew<T(!new)>(before: seq<T>, ids: seq<T>) {
    forall j :: 0 <= j < |ids| ==> ids[j] !in before + ids[..j]
  }

  lemma InputsPass(s: StrategyInstance, before: seq<BindingId>, products: seq<Product>)
    ensures First(InputChecks(s, before, products)) == None <==>
      && AllNew(before, InputIds(s.inputs)) && Distinct(FeedKeys(s.inputs))
      && forall b | b in s.inputs :: Known(products, b.productId) && b.feed == RequiredFeed(s.kind)
  {
    var checks, ids, feeds := InputChecks(s, before, products), InputIds(s.inputs), FeedKeys(s.inputs);
    FirstNone(checks);
    DistinctIndexed(feeds);
    forall j | 0 <= j < |s.inputs|
      ensures checks[j] == None <==>
        && ids[j] !in before + ids[..j] && feeds[j] !in feeds[..j]
        && Known(products, s.inputs[j].productId) && s.inputs[j].feed == RequiredFeed(s.kind)
    {
    }
  }

  lemma TargetsPass(s: StrategyInstance, before: seq<BindingId>, account: Account, products: seq<Product>)
    ensures First(TargetChecks(s, before, account, products)) == None <==>
      && AllNew(before, TargetIds(s.targets)) && Distinct(TargetProducts(s.targets))
      && forall b | b in s.targets :: TargetSound(b, account, products)
  {
    var checks := TargetChecks(s, before, account, products);
    var ids, keys := TargetIds(s.targets), TargetProducts(s.targets);
    FirstNone(checks);
    DistinctIndexed(keys);
    forall j | 0 <= j < |s.targets|
      ensures checks[j] == None <==>
        ids[j] !in before + ids[..j] && keys[j] !in keys[..j] && TargetSound(s.targets[j], account, products)
    {
    }
  }

  lemma {:induction false} FindAccountMeaning(accounts: seq<Account>, id: AccountId)
    ensures var found := FindAccount(accounts, id);
      && (found == None <==> forall a | a in accounts :: a.accountId != id)
      && (found.Some? ==> found.value in accounts && found.value.accountId == id)
    decreases |accounts|
  {
    if |accounts| == 0 {
    } else {
      FindAccountMeaning(accounts[1..], id);
      assert forall a :: a in accounts <==> a == accounts[0] || a in accounts[1..];
    }
  }

  lemma AccountUnique(accounts: seq<Account>, a: Account, b: Account)
    requires Distinct(AccountIds(accounts)) && a in accounts && b in accounts && a.accountId == b.accountId
    ensures a == b
  {
    var i :| 0 <= i < |accounts| && accounts[i] == a;
    var j :| 0 <= j < |accounts| && accounts[j] == b;
    assert AccountIds(accounts)[i] == AccountIds(accounts)[j];
  }

  /** This strategy's binding IDs are new after those of the earlier strategies. */
  ghost predicate NewBindings(strategies: seq<StrategyInstance>, i: nat)
    requires i < |strategies|
  {
    var s, before := strategies[i], AllBindings(strategies[..i]);
    AllNew(before, InputIds(s.inputs)) && AllNew(before + InputIds(s.inputs), TargetIds(s.targets))
  }

  lemma StrategyPasses(file: BusinessFile, i: nat)
    requires i < |file.strategies| && Distinct(AccountIds(file.accounts))
    ensures StrategyCheck(file, i) == None <==>
      && file.strategies[i].instanceId !in InstanceIds(file.strategies[..i])
      && NewBindings(file.strategies, i)
      && Resolved(file.strategies[i], file)
  {
    var s, before := file.strategies[i], AllBindings(file.strategies[..i]);
    FindAccountMeaning(file.accounts, s.accountId);
    var found := FindAccount(file.accounts, s.accountId);
    if found.Some? {
      InputsPass(s, before, file.products);
      TargetsPass(s, before + InputIds(s.inputs), found.value, file.products);
      assert Resolved(s, file) <==> StrategySound(s, found.value, file.products) by {
        forall a | a in file.accounts && a.accountId == s.accountId ensures a == found.value {
          AccountUnique(file.accounts, a, found.value);
        }
      }
    }
  }

  lemma DistinctInTwoSteps(before: seq<BindingId>, inputs: seq<BindingId>, targets: seq<BindingId>)
    ensures Distinct(before + inputs + targets)
      <==> Distinct(before) && AllNew(before, inputs) && AllNew(before + inputs, targets)
  {
    DistinctAppend(before, inputs);
    DistinctAppend(before + inputs, targets);
  }

  lemma EarlierBindings(strategies: seq<StrategyInstance>, n: nat, i: nat)
    requires i < n <= |strategies|
    ensures NewBindings(strategies[..n], i) <==> NewBindings(strategies, i)
  {
    assert strategies[..n][..i] == strategies[..i];
  }

  lemma LastBindings(strategies: seq<StrategyInstance>)
    requires |strategies| > 0
    ensures var n := |strategies| - 1;
      Distinct(AllBindings(strategies)) <==> Distinct(AllBindings(strategies[..n])) && NewBindings(strategies, n)
  {
    var n := |strategies| - 1;
    DistinctInTwoSteps(AllBindings(strategies[..n]), InputIds(strategies[n].inputs), TargetIds(strategies[n].targets));
  }

  /** Binding IDs are globally unique exactly when each is new where the loops reach it. */
  lemma {:induction false} BindingsUnique(strategies: seq<StrategyInstance>)
    ensures Distinct(AllBindings(strategies)) <==> forall i :: 0 <= i < |strategies| ==> NewBindings(strategies, i)
    decreases |strategies|
  {
    if |strategies| == 0 {
    } else {
      var n := |strategies| - 1;
      BindingsUnique(strategies[..n]);
      forall i | 0 <= i < n ensures NewBindings(strategies, i) <==> NewBindings(strategies[..n], i) {
        EarlierBindings(strategies, n, i);
      }
      LastBindings(strategies);
    }
  }

  /** The strategy checks pass exactly when identities and bindings are unique and references resolve. */
  lemma StrategiesPass(file: BusinessFile)
    requires Distinct(AccountIds(file.accounts))
    ensures First(StrategyChecks(file)) == None <==>
      && Distinct(InstanceIds(file.strategies)) && Distinct(AllBindings(file.strategies))
      && forall s | s in file.strategies :: Resolved(s, file)
  {
    var checks, ids := StrategyChecks(file), InstanceIds(file.strategies);
    FirstNone(checks);
    DistinctIndexed(ids);
    BindingsUnique(file.strategies);
    forall i | 0 <= i < |file.strategies|
      ensures checks[i] == None <==>
        ids[i] !in ids[..i] && NewBindings(file.strategies, i) && Resolved(file.strategies[i], file)
    {
      assert InstanceIds(file.strategies[..i]) == ids[..i];
      StrategyPasses(file, i);
    }
  }

  /** The validator accepts exactly the well-formed files. */
  lemma AcceptsExactlyWellFormed(file: BusinessFile)
    ensures Check(file) == None <==> WellFormed(file)
  {
    ProductsPass(file.products);
    AccountsPass(file.accounts, file.products);
    if Distinct(AccountIds(file.accounts)) {
      StrategiesPass(file);
    }
  }

  /** Because a strategy reads one feed kind, its inputs come from pairwise distinct products. */
  lemma InputProductsDistinct(file: BusinessFile, s: StrategyInstance, i: nat, j: nat)
    requires WellFormed(file) && s in file.strategies && i < j < |s.inputs|
    ensures s.inputs[i].productId != s.inputs[j].productId
  {
    assert Resolved(s, file);
    var feeds := FeedKeys(s.inputs);
    assert s.inputs[i] in s.inputs && s.inputs[j] in s.inputs;
    assert feeds[i] != feeds[j];
  }

  // ---------- what a well-formed file says, and what each error means ----------

  lemma ConfiguredProducts(file: BusinessFile, p: Product)
    requires WellFormed(file) && p in file.products
    ensures p.base != p.quote
    ensures p.kind == ProductKind.Spot ==> p.settlement == None
    ensures p.kind == LinearUsdtSwap ==> p.settlement == Some(Currency("USDT"))
  {
  }

  lemma ConfiguredInputs(file: BusinessFile, s: StrategyInstance, b: InputBinding)
    requires WellFormed(file) && s in file.strategies && b in s.inputs
    ensures s.kind == CandleMomentum ==> b.feed == Candle1m
    ensures s.kind == TradeFlow ==> b.feed == TradesAll
    ensures exists p :: p in file.products && p.productId == b.productId
  {
    assert Resolved(s, file);
  }

  /** Every target is licensed to the strategy's own account and suits its product and that account. */
  lemma ConfiguredTargets(file: BusinessFile, s: StrategyInstance, t: TargetBinding, a: Account, p: Product)
    requires WellFormed(file) && s in file.strategies && t in s.targets
    requires a in file.accounts && a.accountId == s.accountId
    requires p in file.products && p.productId == t.productId
    ensures t.productId in a.productIds
    ensures t.mode == TargetMode.Spot <==> p.kind == ProductKind.Spot
    ensures t.mode == TargetMode.SwapLegs ==> LongShortMode in a.allowedModes
  {
    assert Resolved(s, file);
    var owner :| owner in file.accounts && owner.accountId == s.accountId && StrategySound(s, owner, file.products);
    AccountUnique(file.accounts, a, owner);
    assert TargetSound(t, a, file.products);
    var q :| q in file.products && q.productId == t.productId && ModeFits(q.kind, t.mode, a);
    ProductUnique(file.products, p, q);
  }

  lemma ProductUnique(products: seq<Product>, p: Product, q: Product)
    requires Distinct(ProductIds(products)) && p in products && q in products && p.productId == q.productId
    ensures p == q
  {
    var i :| 0 <= i < |products| && products[i] == p;
    var j :| 0 <= j < |products| && products[j] == q;
    assert ProductIds(products)[i] == ProductIds(products)[j];
  }

  /** The header errors, exactly: the first three tests come before everything else. */
  lemma HeaderRefusals(file: BusinessFile)
    ensures Check(file) == Some(ConfigError.SchemaVersion) <==> file.schemaVersion != 1
    ensures Check(file) == Some(Environment) <==> file.schemaVersion == 1 && file.environment != "demo"
    ensures Check(file) == Some(TradingEnabled) <==>
      file.schemaVersion == 1 && file.environment == "demo" && file.tradingEnabled
    ensures Check(file) == Some(InvalidPolicy) <==>
      && file.schemaVersion == 1 && file.environment == "demo" && !file.tradingEnabled
      && (|file.version| == 0 || |file.version| > 128 || file.risk.version == ""
          || (|file.products| > 0 && |file.accounts| > 0 && |file.strategies| > 0
              && Less(file.risk.maxGross.amount.inner, file.risk.maxOrder.amount.inner)))
  {
    RefusalsAreTrue(file);
  }

  /** Something that is really wrong with the file when the validator reports `e` after the header. */
  ghost predicate Wrong(file: BusinessFile, e: ConfigError) {
    match e
    case ConflictingInstrument => !Distinct(InstIds(file.products))
    case DuplicateId =>
      || !Distinct(ProductIds(file.products)) || !Distinct(AccountIds(file.accounts))
      || !Distinct(InstanceIds(file.strategies)) || !Distinct(AllBindings(file.strategies))
      || (exists a :: a in file.accounts && (!Distinct(a.productIds) || !Distinct(a.allowedModes)))
      || (exists s :: s in file.strategies && (!Distinct(FeedKeys(s.inputs)) || !Distinct(TargetProducts(s.targets))))
    case InvalidBinding =>
      || (exists p :: p in file.products && !ProductSound(p))
      || (exists s :: s in file.strategies && (s.parameterVersion == "" || s.bindingVersion == ""))
    case EmptyCollection =>
      || (exists a :: a in file.accounts && (a.productIds == [] || a.allowedModes == []))
      || (exists s :: s in file.strategies && (s.inputs == [] || s.targets == []))
    case UnknownProduct =>
      || (exists a, id :: a in file.accounts && id in a.productIds && !Known(file.products, id))
      || (exists s, b :: s in file.strategies && b in s.inputs && !Known(file.products, b.productId))
      || (exists s, b :: s in file.strategies && b in s.targets && !Known(file.products, b.productId))
    case UnknownAccount =>
      exists s :: s in file.strategies && forall a :: a in file.accounts ==> a.accountId != s.accountId
    case UnlicensedProduct =>
      exists s, t, a :: s in file.strategies && t in s.targets && a in file.accounts
        && a.accountId == s.accountId && t.productId !in a.productIds
    case UnsupportedCapability =>
      || (exists s, b :: s in file.strategies && b in s.inputs && !FeedFits(s.kind, b.feed))
      || (exists s, t, a :: s in file.strategies && t in s.targets && a in file.accounts
            && a.accountId == s.accountId && !TargetSound(t, a, file.products) && t.productId in a.productIds)
    case _ => false
  }

  lemma ProductRefusals(file: BusinessFile)
    ensures var e := First(ProductChecks(file.products)); e.Some? ==> Wrong(file, e.value)
  {
    if First(ProductChecks(file.products)).Some? {
      var products := file.products;
      var i := FirstFound(ProductChecks(products));
      assert products[i] in products;
      if Distinct(ProductIds(products)) {
        DistinctIndexed(ProductIds(products));
        assert ProductIds(products[..i]) == ProductIds(products)[..i];
      }
      if Distinct(InstIds(products)) {
        DistinctIndexed(InstIds(products));
        assert InstIds(products[..i]) == InstIds(products)[..i];
      }
    }
  }

  lemma LicenceRefusals(ids: seq<ProductId>, products: seq<Product>)
    ensures var e := First(LicenceChecks(ids, products));
      e.Some? ==> (e.value == UnknownProduct && exists id :: id in ids && !Known(products, id))
                  || (e.value == DuplicateId && !Distinct(ids))
  {
    if First(LicenceChecks(ids, products)).Some? {
      var j := FirstFound(LicenceChecks(ids, products));
      assert ids[j] in ids;
      DistinctIndexed(ids);
    }
  }

  lemma AccountRefusals(file: BusinessFile)
    ensures var e := First(AccountChecks(file.accounts, file.products)); e.Some? ==> Wrong(file, e.value)
  {
    if First(AccountChecks(file.accounts, file.products)).Some? {
      var i := FirstFound(AccountChecks(file.accounts, file.products));
      assert file.accounts[i] in file.accounts;
      LicenceRefusals(file.accounts[i].productIds, file.products);
      if Distinct(AccountIds(file.accounts)) {
        DistinctIndexed(AccountIds(file.accounts));
        assert AccountIds(file.accounts[..i]) == AccountIds(file.accounts)[..i];
      }
    }
  }

  lemma InputRefusals(s: StrategyInstance, before: seq<BindingId>, products: seq<Product>)
    ensures var e := First(InputChecks(s, before, products));
      e.Some? ==>
        || (e.value == DuplicateId && (!AllNew(before, InputIds(s.inputs)) || !Distinct(FeedKeys(s.inputs))))
        || (e.value == UnknownProduct && exists b :: b in s.inputs && !Known(products, b.productId))
        || (e.value == UnsupportedCapability && exists b :: b in s.inputs && !FeedFits(s.kind, b.feed))
  {
    if First(InputChecks(s, before, products)).Some? {
      var j := FirstFound(InputChecks(s, before, products));
      assert s.inputs[j] in s.inputs;
      DistinctIndexed(FeedKeys(s.inputs));
      assert InputIds(s.inputs)[j] == s.inputs[j].bindingId;
      assert FeedKeys(s.inputs)[j] == (s.inputs[j].productId, s.inputs[j].feed);
    }
  }

  lemma TargetRefusals(s: StrategyInstance, before: seq<BindingId>, account: Account, products: seq<Product>)
    ensures var e := First(TargetChecks(s, before, account, products));
      e.Some? ==>
        || (e.value == DuplicateId && (!AllNew(before, TargetIds(s.targets)) || !Distinct(TargetProducts(s.targets))))
        || (e.value == UnknownProduct && exists b :: b in s.targets && !Known(products, b.productId))
        || (e.value == UnlicensedProduct && exists b :: b in s.targets && b.productId !in account.productIds)
        || (e.value == UnsupportedCapability
            && exists b :: b in s.targets && !TargetSound(b, account, products) && b.productId in account.productIds)
  {
    if First(TargetChecks(s, before, account, products)).Some? {
      var j := FirstFound(TargetChecks(s, before, account, products));
      assert s.targets[j] in s.targets;
      DistinctIndexed(TargetProducts(s.targets));
      assert TargetIds(s.targets)[j] == s.targets[j].bindingId;
      assert TargetProducts(s.targets)[j] == s.targets[j].productId;
    }
  }

  lemma StrategyRefusals(file: BusinessFile)
    ensures var e := First(StrategyChecks(file)); e.Some? ==> Wrong(file, e.value)
  {
    if First(StrategyChecks(file)).Some? {
      var i := FirstFound(StrategyChecks(file));
      var s, before := file.strategies[i], AllBindings(file.strategies[..i]);
      assert s in file.strategies;
      if s.instanceId in InstanceIds(file.strategies[..i]) {
        RepeatedInstance(file.strategies, i);
      } else {
        StrategyRefusal(file, i);
      }
    }
  }

  lemma RepeatedInstance(strategies: seq<StrategyInstance>, i: nat)
    requires i < |strategies| && strategies[i].instanceId in InstanceIds(strategies[..i])
    ensures !Distinct(InstanceIds(strategies))
  {
    assert InstanceIds(strategies[..i]) == InstanceIds(strategies)[..i];
    assert InstanceIds(strategies)[i] == strategies[i].instanceId;
    DistinctIndexed(InstanceIds(strategies));
  }

  lemma InputsWrong(file: BusinessFile, i: nat)
    requires i < |file.strategies|
    ensures var e := First(InputChecks(file.strategies[i], AllBindings(file.strategies[..i]), file.products));
      e.Some? ==> Wrong(file, e.value)
  {
    var s, before := file.strategies[i], AllBindings(file.strategies[..i]);
    assert s in file.strategies;
    InputRefusals(s, before, file.products);
    BindingsUnique(file.strategies);
    assert !AllNew(before, InputIds(s.inputs)) ==> !NewBindings(file.strategies, i);
  }

  lemma TargetsWrong(file: BusinessFile, i: nat, a: Account)
    requires i < |file.strategies| && a in file.accounts && a.accountId == file.strategies[i].accountId
    ensures var s := file.strategies[i];
      var before := AllBindings(file.strategies[..i]) + InputIds(s.inputs);
      var e := First(TargetChecks(s, before, a, file.products));
      e.Some? ==> Wrong(file, e.value)
  {
    var s := file.strategies[i];
    var before := AllBindings(file.strategies[..i]) + InputIds(s.inputs);
    assert s in file.strategies;
    TargetRefusals(s, before, a, file.products);
    BindingsUnique(file.strategies);
    assert !AllNew(before, TargetIds(s.targets)) ==> !NewBindings(file.strategies, i);
  }

  lemma StrategyRefusal(file: BusinessFile, i: nat)
    requires i < |file.strategies| && StrategyCheck(file, i).Some?
    requires file.strategies[i].instanceId !in InstanceIds(file.strategies[..i])
    ensures Wrong(file, StrategyCheck(file, i).value)
  {
    var s := file.strategies[i];
    var account := FindAccount(file.accounts, s.accountId);
    assert s in file.strategies;
    FindAccountMeaning(file.accounts, s.accountId);
    InputsWrong(file, i);
    if account.Some? {
      TargetsWrong(file, i, account.value);
    }
  }

  /** Every error after the header names something that is really wrong. */
  lemma RefusalsAreTrue(file: BusinessFile)
    ensures HeaderCheck(file) == None && Check(file).Some? ==> Wrong(file, Check(file).value)
  {
    ProductRefusals(file);
    AccountRefusals(file);
    StrategyRefusals(file);
  }

  // ---------- an ordinary configuration ----------

  const BTC := Currency("BTC")
  const USDT := Currency("USDT")

  function Percent(n: nat): Ratio {
    Ratio(Decimals.Decimal(BigDecimal(n, 2)))
  }

  function Instance(id: string, kind: StrategyKind, inputs: seq<InputBinding>, target: TargetBinding): StrategyInstance {
    StrategyInstance(id, kind, "demo-main", "v1", "v1", inputs, [target])
  }

  /** The configuration shipped as an example. */
  const EXAMPLE := BusinessFile(1, "demo-config-1", "demo", false,
    [Product("spot-btc", "BTC-USDT", ProductKind.Spot, BTC, USDT, None),
     Product("swap-btc", "BTC-USDT-SWAP", LinearUsdtSwap, BTC, USDT, Some(USDT))],
    [Account("demo-main", [NetMode, LongShortMode], ["spot-btc", "swap-btc"])],
    [Instance("spot-candle", CandleMomentum, [InputBinding("spot-candle-input", "spot-btc", Candle1m)],
              TargetBinding("spot-candle-target", "spot-btc", TargetMode.Spot)),
     Instance("spot-flow", TradeFlow, [InputBinding("spot-flow-input", "spot-btc", TradesAll)],
              TargetBinding("spot-flow-target", "spot-btc", TargetMode.Spot)),
     Instance("swap-cross", CandleMomentum,
              [InputBinding("swap-cross-input-spot", "spot-btc", Candle1m),
               InputBinding("swap-cross-input-swap", "swap-btc", Candle1m)],
              TargetBinding("swap-cross-target", "swap-btc", TargetMode.SwapLegs))],
    RiskPolicy("policy-1", Percent(1), Percent(30)))

  lemma ExampleAccepted()
    ensures Check(EXAMPLE) == None
  {
    ExampleHeader();
    ExampleBindings();
    ExampleStrategies();
    assert AccountSound(EXAMPLE.accounts[0], EXAMPLE.products) by { ExampleProducts(); }
    AcceptsExactlyWellFormed(EXAMPLE);
  }

  lemma ExampleHeader()
    ensures HeaderSound(EXAMPLE)
  {
    assert !Less(BigDecimal(30, 2), BigDecimal(1, 2));
  }

  lemma ExampleProducts()
    ensures Known(EXAMPLE.products, "spot-btc") && Known(EXAMPLE.products, "swap-btc")
  {
    assert EXAMPLE.products[0] in EXAMPLE.products && EXAMPLE.products[1] in EXAMPLE.products;
  }

  lemma ExampleBindings()
    ensures Distinct(AllBindings(EXAMPLE.strategies))
  {
    var ss := EXAMPLE.strategies;
    AllBindingsNext(ss, 0);
    AllBindingsNext(ss, 1);
    AllBindingsNext(ss, 2);
    assert ss[..3] == ss && ss[..0] == [];
    assert AllBindings(ss) == ["spot-candle-input", "spot-candle-target", "spot-flow-input", "spot-flow-target",
      "swap-cross-input-spot", "swap-cross-input-swap", "swap-cross-target"];
  }

  lemma ExampleStrategies()
    ensures forall s | s in EXAMPLE.strategies :: Resolved(s, EXAMPLE)
  {
    ExampleProducts();
    var a := EXAMPLE.accounts[0];
    assert a in EXAMPLE.accounts;
    assert EXAMPLE.products[0] in EXAMPLE.products && EXAMPLE.products[1] in EXAMPLE.products;
    assert a.productIds[0] == "spot-btc" && a.productIds[1] == "swap-btc" && a.allowedModes[1] == LongShortMode;
    forall s | s in EXAMPLE.strategies ensures Resolved(s, EXAMPLE) {
      assert StrategySound(s, a, EXAMPLE.products);
    }
  }

  // ---------- the observed account mode ----------

  ghost predicate NeedsLegs(s: StrategyInstance) {
    exists t :: t in s.targets && t.mode == TargetMode.SwapLegs
  }

  ghost function CheckActualMode(file: BusinessFile, id: AccountId, actual: PositionMode): Result<Unit, ConfigError> {
    var account := FindAccount(file.accounts, id);
    if account == None then Failure(UnknownAccount)
    else if actual !in account.value.allowedModes then Failure(ActualModeMismatch)
    else if actual != LongShortMode && exists s :: s in file.strategies && s.accountId == id && NeedsLegs(s)
    then Failure(ActualModeMismatch)
    else Success(Unit.Unit)
  }

  /** `find` on the account list. */
  method FindFirst(accounts: seq<Account>, id: AccountId) returns (found: Option<Account>)
    ensures found == FindAccount(accounts, id)
  {
    for i := 0 to |accounts|
      invariant FindAccount(accounts, id) == FindAccount(accounts[i..], id)
    {
      if accounts[i].accountId == id {
        return Some(accounts[i]);
      }
    }
    return None;
  }

  method ValidateActualMode(file: BusinessFile, id: AccountId, actual: PositionMode) returns (r: Result<Unit, ConfigError>)
    ensures r == CheckActualMode(file, id, actual)
  {
    var account := FindFirst(file.accounts, id);
    if account.None? {
      return Failure(UnknownAccount);
    }
    if actual !in account.value.allowedModes {
      return Failure(ActualModeMismatch);
    }
    for i := 0 to |file.strategies|
      invariant actual == LongShortMode
        || forall j :: 0 <= j < i && file.strategies[j].accountId == id ==> !NeedsLegs(file.strategies[j])
    {
      var s := file.strategies[i];
      if s.accountId == id {
        if (exists t :: t in s.targets && t.mode == TargetMode.SwapLegs) && actual != LongShortMode {
          assert NeedsLegs(s);
          return Failure(ActualModeMismatch);
        }
      }
    }
    return Success(Unit.Unit);
  }

  /** In any file: an unknown account is reported as such, and everything else as a mismatch. */
  lemma ModeRefusals(file: BusinessFile, id: AccountId, actual: PositionMode)
    ensures CheckActualMode(file, id, actual) == Failure(UnknownAccount)
      <==> forall a | a in file.accounts :: a.accountId != id
    ensures CheckActualMode(file, id, actual)
      in {Success(Unit.Unit), Failure(UnknownAccount), Failure(ActualModeMismatch)}
  {
    FindAccountMeaning(file.accounts, id);
  }

  /**
   * In a well-formed file: long/short mode is accepted exactly where it is allowed, net mode exactly
   * where it is allowed and no strategy of the account has an independent-leg target, and every
   * account has an allowed mode that is accepted.
   */
  lemma AcceptedModes(file: BusinessFile, a: Account)
    requires WellFormed(file) && a in file.accounts
    ensures CheckActualMode(file, a.accountId, LongShortMode).Success? <==> LongShortMode in a.allowedModes
    ensures CheckActualMode(file, a.accountId, NetMode).Success? <==>
      && NetMode in a.allowedModes
      && forall s | s in file.strategies && s.accountId == a.accountId :: !NeedsLegs(s)
    ensures exists mode :: mode in a.allowedModes && CheckActualMode(file, a.accountId, mode).Success?
  {
    FindAccountMeaning(file.accounts, a.accountId);
    AccountUnique(file.accounts, a, FindAccount(file.accounts, a.accountId).value);
    assert AccountSound(a, file.products);
    assert a.allowedModes[0] in a.allowedModes;
    if LongShortMode !in a.allowedModes {
      assert a.allowedModes[0] == NetMode;
      forall s | s in file.strategies && s.accountId == a.accountId ensures !NeedsLegs(s) {
        LegsNeedLongShort(file, s, a);
      }
    }
  }

  /** A leg target is only licensed to an account that allows long/short mode. */
  lemma LegsNeedLongShort(file: BusinessFile, s: StrategyInstance, a: Account)
    requires WellFormed(file) && s in file.strategies && a in file.accounts && s.accountId == a.accountId
    ensures NeedsLegs(s) ==> LongShortMode in a.allowedModes
  {
    assert Resolved(s, file);
    var owner :| owner in file.accounts && owner.accountId == s.accountId && StrategySound(s, owner, file.products);
    AccountUnique(file.accounts, a, owner);
  }
}
