/**
 The demo client (packages/sdk/src/index.ts: allocate and createDemoClient): two wallets, one series per event, priced
 sales, settlement, redemption and recombination, with a receipt for every change.

 A wallet's records are kept under (wallet, asset) and (wallet, series) keys; a missing entry is zero. The raw amount
 of a deposit, the raw opening balances and the clock reading of a quote are parameters.
 */
module DemoClient {
  import opened Prelude
  import Redemption
  import Numbers

  const U64_MAX: int := 18_446_744_073_709_551_615
  const QUOTE_TTL_MS: int := 60_000
  const OPENING_USDC: int := 1_000_000_000

  datatype Error =
    | InvalidAmount | MissingAsset | MissingEvent | InvalidFixture | InsufficientBalance | StaleData | PausedCollateral | RejectedEvent
    | DepositsClosed | WrongPhase | StaleQuote | ExpiredQuote | MissingQuote | UserRejected | ZeroPayout | AlreadySettled

  datatype Holder = Seller | Buyer
  datatype Side = Pt | Dr
  datatype Phase = Open | Closed | Settled | Complete | Cancelled
  datatype Condition = Ready | Stale | Paused | Rejected

  /** An event's asset and its allocation: out of `whole` parts, `rise` go to the DR side. */
  datatype Event = Event(asset: string, rise: nat, whole: nat)

  /** A decimal multiplier as a ratio. */
  datatype Factor = Factor(numerator: nat, denominator: nat)

  /** `opening` lists every asset with the collateral the seller starts with; the buyer starts with none. */
  datatype Config = Config(opening: map<(Holder, string), int>, events: map<string, Event>, eventFor: map<string, string>)

  datatype Claims = Claims(pt: int, dr: int)

  datatype Series = Series(
    asset: string, phase: Phase, accounted: int, originalSupply: nat, originalPt: nat, originalDr: nat,
    ptPool: nat, drPool: nat, ptSupply: int, drSupply: int, burnedPt: nat, burnedDr: nat)

  /** The fields a receipt's changes speak about. */
  datatype Field =
    | CollateralOf(who: Holder, asset: string)
    | UsdcOf(who: Holder)
    | ClaimOf(who: Holder, series: string, side: Side)
    | AccountedIn(series: string)

  datatype Change = Change(field: Field, delta: int)

  /** The session a quote was made in, and its number. */
  type QuoteId = (nat, nat)

  datatype Quote = Quote(series: string, drRaw: int, usdcRaw: int, version: nat, expiresAt: int)

  datatype State = State(
    version: nat, condition: Condition, collateral: map<(Holder, string), int>, usdc: map<Holder, int>,
    claims: map<(Holder, string), Claims>, series: map<string, Series>, receipts: seq<seq<Change>>, quotes: map<QuoteId, Quote>,
    generation: nat, quoteCounter: nat)

  function Lookup<K(==)>(m: map<K, int>, key: K): int { if key in m then m[key] else 0 }

  function ClaimsIn(claims: map<(Holder, string), Claims>, who: Holder, id: string): Claims
  {
    if (who, id) in claims then claims[(who, id)] else Claims(0, 0)
  }

  function ClaimsFor(s: State, who: Holder, id: string): Claims { ClaimsIn(s.claims, who, id) }

  function ClaimBalance(c: Claims, side: Side): int { if side.Pt? then c.pt else c.dr }

  function Balance(s: State, f: Field): int
  {
    match f
    case CollateralOf(who, asset) => Lookup(s.collateral, (who, asset))
    case UsdcOf(who) => Lookup(s.usdc, who)
    case ClaimOf(who, id, side) => ClaimBalance(ClaimsFor(s, who, id), side)
    case AccountedIn(id) => if id in s.series then s.series[id].accounted else 0
  }

  function Initial(cfg: Config): State
  {
    State(0, Ready, cfg.opening, map[Seller := 0, Buyer := OPENING_USDC],
          map[], map[], [], map[], 1, 0)
  }

  predicate IsRaw(x: int) { 0 <= x <= U64_MAX }

  // ----- allocation -----

  /** How allocate splits for two multipliers; it refuses one that falls. */
  function Terms(asset: string, m0: Factor, m1: Factor): Result<Event, Error>
  {
    var before, after := m0.numerator * m1.denominator, m1.numerator * m0.denominator;
    if after < before then Err(InvalidFixture) else Ok(Event(asset, after - before, after))
  }

  predicate EventOk(e: Event) { e.rise < e.whole }

  /** Positive multipliers that do not fall make sound terms: the DR side gets one less the first over the second. */
  lemma TermsOk(asset: string, m0: Factor, m1: Factor)
    requires m0.numerator > 0 && m0.denominator > 0 && m1.numerator > 0 && m1.denominator > 0
    ensures Terms(asset, m0, m1).Ok? ==> EventOk(Terms(asset, m0, m1).value)
    ensures Terms(asset, m0, m1).Ok? <==> m0.numerator * m1.denominator <= m1.numerator * m0.denominator
    ensures Terms(asset, m0, m1).Ok? ==>
      var e, up, down := Terms(asset, m0, m1).value, m1.numerator * m0.denominator, m0.numerator * m1.denominator;
      e.asset == asset && e.rise * up == e.whole * (up - down)
  {
    Numbers.MulMono(1, 1, m0.numerator, m1.denominator);
  }

  /** The DR side of allocate. */
  function DrShare(e: Event, raw: nat): nat
    requires EventOk(e)
  {
    Redemption.Entitled(raw, e.rise, e.whole)
  }

  /** What validateFixtures establishes: events and assets pin each other, and no multiplier falls. */
  ghost predicate ConfigOk(cfg: Config)
  {
    && (forall a | a in cfg.eventFor :: (Seller, a) in cfg.opening && cfg.eventFor[a] in cfg.events && cfg.events[cfg.eventFor[a]].asset == a)
    && (forall id | id in cfg.events :: EventOk(cfg.events[id]) && cfg.events[id].asset in cfg.eventFor && cfg.eventFor[cfg.events[id].asset] == id)
    && (forall k | k in cfg.opening :: k.0.Seller? && IsRaw(cfg.opening[k]))
  }

  // ----- operations -----

  function Refusal(c: Condition): Option<Error>
  {
    match c
    case Ready => None
    case Stale => Some(StaleData)
    case Paused => Some(PausedCollateral)
    case Rejected => Some(RejectedEvent)
  }

  function Noted(s: State, changes: seq<Change>): State { s.(version := s.version + 1, receipts := s.receipts + [changes]) }

  function NewSeries(asset: string): Series { Series(asset, Open, 0, 0, 0, 0, 0, 0, 0, 0, 0, 0) }

  function Grown(series: Series, raw: int): Series
  {
    series.(accounted := series.accounted + raw, ptSupply := series.ptSupply + raw, drSupply := series.drSupply + raw)
  }

  function DepositChanges(asset: string, id: string, raw: int): seq<Change>
  {
    [Change(CollateralOf(Seller, asset), -raw), Change(ClaimOf(Seller, id, Pt), raw), Change(ClaimOf(Seller, id, Dr), raw), Change(AccountedIn(id), raw)]
  }

  function Deposited(s: State, asset: string, id: string, raw: int): State
  {
    var series := if id in s.series then s.series[id] else NewSeries(asset);
    var claims := ClaimsFor(s, Seller, id);
    Noted(s.(collateral := s.collateral[(Seller, asset) := Lookup(s.collateral, (Seller, asset)) - raw],
             claims := s.claims[(Seller, id) := Claims(claims.pt + raw, claims.dr + raw)],
             series := s.series[id := Grown(series, raw)]),
          DepositChanges(asset, id, raw))
  }

  function Deposit(cfg: Config, s: State, asset: string, raw: int): Result<State, Error>
  {
    if Refusal(s.condition).Some? then Err(Refusal(s.condition).value)
    else if (Seller, asset) !in cfg.opening then Err(MissingAsset)
    else if asset !in cfg.eventFor || cfg.eventFor[asset] !in cfg.events then Err(MissingEvent)
    else if !IsRaw(raw) || raw == 0 then Err(InvalidAmount)
    else if Lookup(s.collateral, (Seller, asset)) < raw then Err(InsufficientBalance)
    else
      var id := cfg.eventFor[asset];
      var e := cfg.events[id];
      if id in s.series && !s.series[id].phase.Open? then Err(DepositsClosed)
      else
        var next := Balance(s, AccountedIn(id)) + raw;
        if !IsRaw(next) || !EventOk(e) || DrShare(e, next) == 0 then Err(InvalidAmount)
        else if !IsRaw(ClaimsFor(s, Seller, id).pt + raw) || !IsRaw(ClaimsFor(s, Seller, id).dr + raw) then Err(InvalidAmount)
        else Ok(Deposited(s, asset, id, raw))
  }

  function QuoteSale(s: State, id: string, drRaw: int, usdcRaw: int, now: int): Result<State, Error>
  {
    if Refusal(s.condition).Some? then Err(Refusal(s.condition).value)
    else if !IsRaw(drRaw) || drRaw == 0 || !IsRaw(usdcRaw) || usdcRaw == 0 then Err(InvalidAmount)
    else if id !in s.series then Err(MissingEvent)
    else if !s.series[id].phase.Open? then Err(WrongPhase)
    else if ClaimsFor(s, Seller, id).dr < drRaw || Lookup(s.usdc, Buyer) < usdcRaw then Err(InsufficientBalance)
    else Ok(s.(quotes := s.quotes[(s.generation, s.quoteCounter + 1) := Quote(id, drRaw, usdcRaw, s.version, now + QUOTE_TTL_MS)], quoteCounter := s.quoteCounter + 1))
  }

  function SaleChanges(q: Quote): seq<Change>
  {
    [Change(ClaimOf(Seller, q.series, Dr), -q.drRaw), Change(ClaimOf(Buyer, q.series, Dr), q.drRaw),
     Change(UsdcOf(Buyer), -q.usdcRaw), Change(UsdcOf(Seller), q.usdcRaw)]
  }

  function SoldClaims(claims: map<(Holder, string), Claims>, q: Quote): map<(Holder, string), Claims>
  {
    var seller, buyer := ClaimsIn(claims, Seller, q.series), ClaimsIn(claims, Buyer, q.series);
    claims[(Seller, q.series) := seller.(dr := seller.dr - q.drRaw)][(Buyer, q.series) := buyer.(dr := buyer.dr + q.drRaw)]
  }

  function SoldUsdc(usdc: map<Holder, int>, q: Quote): map<Holder, int>
  {
    usdc[Buyer := Lookup(usdc, Buyer) - q.usdcRaw][Seller := Lookup(usdc, Seller) + q.usdcRaw]
  }

  function Sold(s: State, quoteId: QuoteId, q: Quote): State
  {
    Noted(s.(claims := SoldClaims(s.claims, q), usdc := SoldUsdc(s.usdc, q), quotes := s.quotes - {quoteId}), SaleChanges(q))
  }

  /** A rejected quote is deleted although the call fails; a quote of another session is stale. */
  function AcceptSale(s: State, quoteId: QuoteId, reject: bool, now: int): (State, Option<Error>)
  {
    if reject then (s.(quotes := s.quotes - {quoteId}), Some(UserRejected))
    else if quoteId.0 != s.generation then (s, Some(StaleQuote))
    else if quoteId !in s.quotes then (s, Some(MissingQuote))
    else
      var q := s.quotes[quoteId];
      if Refusal(s.condition).Some? then (s, Refusal(s.condition))
      else if now >= q.expiresAt then (s, Some(ExpiredQuote))
      else if q.version != s.version then (s, Some(StaleQuote))
      else if q.series !in s.series then (s, Some(MissingEvent))
      else if !s.series[q.series].phase.Open? then (s, Some(WrongPhase))
      else if ClaimsFor(s, Seller, q.series).dr < q.drRaw || Lookup(s.usdc, Buyer) < q.usdcRaw then (s, Some(InsufficientBalance))
      else if !IsRaw(ClaimsFor(s, Buyer, q.series).dr + q.drRaw) || !IsRaw(Lookup(s.usdc, Seller) + q.usdcRaw) then (s, Some(InvalidAmount))
      else (Sold(s, quoteId, q), None)
  }

  function CloseDeposits(s: State, id: string): Result<State, Error>
  {
    if id !in s.series then Err(MissingEvent)
    else if !s.series[id].phase.Open? then Err(WrongPhase)
    else Ok(Noted(s.(series := s.series[id := s.series[id].(phase := Closed)]), []))
  }

  function Frozen(s: State, id: string, dr: nat): State
    requires id in s.series && dr <= s.series[id].accounted
  {
    var series := s.series[id];
    var pt := series.accounted - dr;
    Noted(s.(series := s.series[id := series.(originalSupply := series.accounted, originalPt := pt, originalDr := dr,
                                              ptPool := pt, drPool := dr, phase := Settled)]), [])
  }

  function Settle(cfg: Config, s: State, id: string): Result<State, Error>
  {
    if Refusal(s.condition).Some? then Err(Refusal(s.condition).value)
    else if id !in s.series then Err(MissingEvent)
    else
      var series := s.series[id];
      if series.phase.Settled? || series.phase.Complete? then Err(AlreadySettled)
      else if !series.phase.Closed? then Err(WrongPhase)
      else if id !in cfg.events || cfg.events[id].asset != series.asset then Err(InvalidFixture)
      else if !IsRaw(series.accounted) || !EventOk(cfg.events[id]) then Err(InvalidAmount)
      else
        ShareBounds(cfg.events[id], series.accounted);
        var dr := DrShare(cfg.events[id], series.accounted);
        if dr == 0 || series.ptSupply != series.accounted || series.drSupply != series.accounted then Err(InvalidFixture)
        else Ok(Frozen(s, id, dr))
  }

  function PoolOf(series: Series, side: Side): nat { if side.Pt? then series.ptPool else series.drPool }
  function OriginalPool(series: Series, side: Side): nat { if side.Pt? then series.originalPt else series.originalDr }
  function Burned(series: Series, side: Side): nat { if side.Pt? then series.burnedPt else series.burnedDr }
  function Supply(series: Series, side: Side): int { if side.Pt? then series.ptSupply else series.drSupply }

  /** What redeeming more claims of a side adds to the total the cumulative rule has paid. */
  function Owed(series: Series, side: Side, claim: nat): nat
    requires series.originalSupply > 0
  {
    var burned, pool, supply := Burned(series, side), OriginalPool(series, side), series.originalSupply;
    Redemption.EntitledMonotone(burned, burned + claim, pool, supply);
    Redemption.Entitled(burned + claim, pool, supply) - Redemption.Entitled(burned, pool, supply)
  }

  /** A settled series with no claims frozen would divide by zero. */
  function PreviewRedemption(s: State, id: string, who: Holder, side: Side, claim: int): (r: Result<nat, Error>)
    ensures r.Ok? ==> claim > 0 && id in s.series && r.value > 0
  {
    if !IsRaw(claim) || claim == 0 then Err(InvalidAmount)
    else if id !in s.series then Err(MissingEvent)
    else if !s.series[id].phase.Settled? then Err(WrongPhase)
    else if ClaimBalance(ClaimsFor(s, who, id), side) < claim then Err(InsufficientBalance)
    else if s.series[id].originalSupply == 0 then Err(InvalidFixture)
    else if Owed(s.series[id], side, claim) == 0 then Err(ZeroPayout)
    else Ok(Owed(s.series[id], side, claim))
  }

  function Debit(c: Claims, side: Side, amount: int): Claims
  {
    if side.Pt? then c.(pt := c.pt - amount) else c.(dr := c.dr - amount)
  }

  function Paid(series: Series, side: Side, claim: nat, payout: nat): Series
    requires payout <= PoolOf(series, side)
  {
    var next := if side.Pt?
                then series.(ptSupply := series.ptSupply - claim, ptPool := series.ptPool - payout, burnedPt := series.burnedPt + claim)
                else series.(drSupply := series.drSupply - claim, drPool := series.drPool - payout, burnedDr := series.burnedDr + claim);
    var paid := next.(accounted := series.accounted - payout);
    if paid.ptSupply == 0 && paid.drSupply == 0 && paid.ptPool == 0 && paid.drPool == 0 then paid.(phase := Complete) else paid
  }

  function RedeemChanges(asset: string, id: string, who: Holder, side: Side, claim: nat, payout: nat): seq<Change>
  {
    [Change(ClaimOf(who, id, side), -(claim as int)), Change(CollateralOf(who, asset), payout), Change(AccountedIn(id), -(payout as int))]
  }

  function Redeemed(s: State, id: string, who: Holder, side: Side, claim: nat, payout: nat): State
    requires id in s.series && payout <= PoolOf(s.series[id], side)
  {
    var series := s.series[id];
    Noted(s.(claims := s.claims[(who, id) := Debit(ClaimsFor(s, who, id), side, claim)],
             collateral := s.collateral[(who, series.asset) := Lookup(s.collateral, (who, series.asset)) + payout],
             series := s.series[id := Paid(series, side, claim, payout)]),
          RedeemChanges(series.asset, id, who, side, claim, payout))
  }

  function Redeem(s: State, id: string, who: Holder, side: Side, claim: int): Result<State, Error>
  {
    if s.condition.Paused? then Err(PausedCollateral)
    else
      var payout := PreviewRedemption(s, id, who, side, claim);
      if payout.Err? then Err(payout.error)
      else if payout.value > PoolOf(s.series[id], side) then Err(InvalidFixture)
      else if !IsRaw(Lookup(s.collateral, (who, s.series[id].asset)) + payout.value) then Err(InvalidAmount)
      else Ok(Redeemed(s, id, who, side, claim, payout.value))
  }

  function RecombineChanges(asset: string, id: string, who: Holder, claim: int): seq<Change>
  {
    [Change(ClaimOf(who, id, Pt), -claim), Change(ClaimOf(who, id, Dr), -claim), Change(CollateralOf(who, asset), claim), Change(AccountedIn(id), -claim)]
  }

  function Shrunk(series: Series, claim: int): Series
  {
    var rest := series.accounted - claim;
    series.(ptSupply := series.ptSupply - claim, drSupply := series.drSupply - claim, accounted := rest,
            phase := if rest == 0 then Cancelled else series.phase)
  }

  function Recombined(s: State, id: string, who: Holder, claim: int): State
    requires id in s.series
  {
    var series := s.series[id];
    var claims := ClaimsFor(s, who, id);
    Noted(s.(claims := s.claims[(who, id) := Claims(claims.pt - claim, claims.dr - claim)],
             collateral := s.collateral[(who, series.asset) := Lookup(s.collateral, (who, series.asset)) + claim],
             series := s.series[id := Shrunk(series, claim)]),
          RecombineChanges(series.asset, id, who, claim))
  }

  function Recombine(cfg: Config, s: State, id: string, who: Holder, claim: int): Result<State, Error>
  {
    if s.condition.Paused? then Err(PausedCollateral)
    else if !IsRaw(claim) || claim == 0 then Err(InvalidAmount)
    else if id !in s.series then Err(MissingEvent)
    else
      var series, balance := s.series[id], ClaimsFor(s, who, id);
      if !series.phase.Open? && !series.phase.Closed? then Err(WrongPhase)
      else if balance.pt < claim || balance.dr < claim then Err(InsufficientBalance)
      else if !IsRaw(Lookup(s.collateral, (who, series.asset)) + claim) then Err(InvalidAmount)
      else
        var rest := series.accounted - claim;
        if rest > 0 && (id !in cfg.events || !EventOk(cfg.events[id]) || DrShare(cfg.events[id], rest) == 0) then Err(InvalidAmount)
        else Ok(Recombined(s, id, who, claim))
  }

  /** The DR side is the largest whole amount not above its share. */
  lemma ShareIsFloor(e: Event, raw: nat)
    requires EventOk(e)
    ensures DrShare(e, raw) * e.whole <= raw * e.rise < (DrShare(e, raw) + 1) * e.whole
  {
    Numbers.FloorSpec(raw * e.rise, e.whole);
  }

  lemma ShareBounds(e: Event, raw: nat)
    requires EventOk(e)
    ensures DrShare(e, raw) <= raw && (raw > 0 ==> DrShare(e, raw) < raw)
  {
    Numbers.FloorSpec(raw * e.rise, e.whole);
    if raw > 0 {
      Numbers.MulLess(e.rise, raw, e.whole, raw);
      Numbers.CancelMul(e.whole, DrShare(e, raw), raw);
    }
  }

  // ----- runs -----

  datatype Call =
    | DepositCall(asset: string, raw: int)
    | QuoteCall(id: string, drRaw: int, usdcRaw: int, now: int)
    | AcceptCall(quoteId: QuoteId, reject: bool, now: int)
    | CloseCall(id: string)
    | SettleCall(id: string)
    | RedeemCall(id: string, who: Holder, side: Side, claim: int)
    | RecombineCall(id: string, who: Holder, claim: int)
    | ConditionCall(condition: Condition)
    | ResetCall

  /** The calls that refuse or return a new state. */
  function Outcome(cfg: Config, s: State, c: Call): Result<State, Error>
    requires !c.AcceptCall? && !c.ConditionCall? && !c.ResetCall?
  {
    match c
    case DepositCall(asset, raw) => Deposit(cfg, s, asset, raw)
    case QuoteCall(id, drRaw, usdcRaw, now) => QuoteSale(s, id, drRaw, usdcRaw, now)
    case CloseCall(id) => CloseDeposits(s, id)
    case SettleCall(id) => Settle(cfg, s, id)
    case RedeemCall(id, who, side, claim) => Redeem(s, id, who, side, claim)
    case RecombineCall(id, who, claim) => Recombine(cfg, s, id, who, claim)
  }

  function Kept(s: State, r: Result<State, Error>): State { if r.Ok? then r.value else s }

  /** A call that fails changes nothing, save that a rejected quote is gone. */
  function Apply(cfg: Config, s: State, c: Call): State
  {
    match c
    case AcceptCall(quoteId, reject, now) => AcceptSale(s, quoteId, reject, now).0
    case ConditionCall(condition) => s.(condition := condition, version := s.version + 1)
    case ResetCall => Initial(cfg).(generation := s.generation + 1, quoteCounter := s.quoteCounter)
    case _ => Kept(s, Outcome(cfg, s, c))
  }

  function Run(cfg: Config, s: State, calls: seq<Call>): State
    decreases |calls|
  {
    if calls == [] then s else Run(cfg, Apply(cfg, s, calls[0]), calls[1..])
  }
}
