/** The demo client as the object it is: balances, series, quotes and receipts rewritten step by step by each call. */
module DemoObject {
  import opened Prelude
  import opened DemoClient

  class Session {
    const cfg: Config
    var version: nat
    var condition: Condition
    var collateral: map<(Holder, string), int>
    var usdc: map<Holder, int>
    var claims: map<(Holder, string), Claims>
    var series: map<string, Series>
    var receipts: seq<seq<Change>>
    var quotes: map<QuoteId, Quote>
    var generation: nat
    var quoteCounter: nat

    function View(): State
      reads this
    {
      State(version, condition, collateral, usdc, claims, series, receipts, quotes, generation, quoteCounter)
    }

    constructor (cfg: Config)
      ensures this.cfg == cfg && View() == Initial(cfg)
    {
      this.cfg := cfg;
      var s := Initial(cfg);
      version, condition, collateral, usdc, claims := s.version, s.condition, s.collateral, s.usdc, s.claims;
      series, receipts, quotes, generation, quoteCounter := s.series, s.receipts, s.quotes, s.generation, s.quoteCounter;
    }

    method GrowSeries(before: Series, raw: int) returns (record: Series)
      ensures record == Grown(before, raw)
    {
      record := before.(accounted := before.accounted + raw);
      record := record.(ptSupply := record.ptSupply + raw);
      record := record.(drSupply := record.drSupply + raw);
    }

    /** The writes of a deposit that has passed every check. */
    method Book(asset: string, id: string, raw: int)
      modifies this`claims, this`collateral, this`series, this`version, this`receipts
      ensures View() == Deposited(old(View()), asset, id, raw)
    {
      var held := ClaimsIn(claims, Seller, id);
      var record := GrowSeries(if id in series then series[id] else NewSeries(asset), raw);
      collateral := collateral[(Seller, asset) := Lookup(collateral, (Seller, asset)) - raw];
      claims := claims[(Seller, id) := Claims(held.pt + raw, held.dr + raw)];
      series := series[id := record];
      version := version + 1;
      receipts := receipts + [DepositChanges(asset, id, raw)];
    }

    method Deposit(asset: string, raw: int) returns (error: Option<Error>)
      modifies this
      ensures var r := DemoClient.Deposit(cfg, old(View()), asset, raw);
        if r.Ok? then error == None && View() == r.value else error == Some(r.error) && View() == old(View())
    {
      if Refusal(condition).Some? { return Refusal(condition); }
      if (Seller, asset) !in cfg.opening { return Some(MissingAsset); }
      if asset !in cfg.eventFor || cfg.eventFor[asset] !in cfg.events { return Some(MissingEvent); }
      if !IsRaw(raw) || raw == 0 { return Some(InvalidAmount); }
      if Lookup(collateral, (Seller, asset)) < raw { return Some(InsufficientBalance); }
      var id := cfg.eventFor[asset];
      if id in series && !series[id].phase.Open? { return Some(DepositsClosed); }
      var next := (if id in series then series[id].accounted else 0) + raw;
      if !IsRaw(next) || !EventOk(cfg.events[id]) || DrShare(cfg.events[id], next) == 0 { return Some(InvalidAmount); }
      var held := ClaimsIn(claims, Seller, id);
      if !IsRaw(held.pt + raw) || !IsRaw(held.dr + raw) { return Some(InvalidAmount); }
      Book(asset, id, raw);
      return None;
    }

    method QuoteSale(id: string, drRaw: int, usdcRaw: int, now: int) returns (error: Option<Error>)
      modifies this
      ensures var r := DemoClient.QuoteSale(old(View()), id, drRaw, usdcRaw, now);
        if r.Ok? then error == None && View() == r.value else error == Some(r.error) && View() == old(View())
    {
      if Refusal(condition).Some? { return Refusal(condition); }
      if !IsRaw(drRaw) || drRaw == 0 || !IsRaw(usdcRaw) || usdcRaw == 0 { return Some(InvalidAmount); }
      if id !in series { return Some(MissingEvent); }
      if !series[id].phase.Open? { return Some(WrongPhase); }
      if ClaimsIn(claims, Seller, id).dr < drRaw { return Some(InsufficientBalance); }
      if Lookup(usdc, Buyer) < usdcRaw { return Some(InsufficientBalance); }
      quoteCounter := quoteCounter + 1;
      quotes := quotes[(generation, quoteCounter) := Quote(id, drRaw, usdcRaw, version, now + QUOTE_TTL_MS)];
      return None;
    }

    method MoveDr(q: Quote)
      modifies this`claims
      ensures claims == SoldClaims(old(claims), q)
    {
      var seller, buyer := ClaimsIn(claims, Seller, q.series), ClaimsIn(claims, Buyer, q.series);
      seller := seller.(dr := seller.dr - q.drRaw);
      buyer := buyer.(dr := buyer.dr + q.drRaw);
      claims := claims[(Seller, q.series) := seller];
      claims := claims[(Buyer, q.series) := buyer];
    }

    method MoveUsdc(q: Quote)
      modifies this`usdc
      ensures usdc == SoldUsdc(old(usdc), q)
    {
      usdc := usdc[Buyer := Lookup(usdc, Buyer) - q.usdcRaw];
      usdc := usdc[Seller := Lookup(usdc, Seller) + q.usdcRaw];
    }

    /** The writes of an accepted sale. */
    method Trade(quoteId: QuoteId, q: Quote)
      modifies this`claims, this`usdc, this`quotes, this`version, this`receipts
      ensures View() == Sold(old(View()), quoteId, q)
    {
      MoveDr(q);
      MoveUsdc(q);
      quotes := quotes - {quoteId};
      version := version + 1;
      receipts := receipts + [SaleChanges(q)];
    }

    method AcceptSale(quoteId: QuoteId, reject: bool, now: int) returns (error: Option<Error>)
      modifies this
      ensures (View(), error) == DemoClient.AcceptSale(old(View()), quoteId, reject, now)
    {
      if reject {
        quotes := quotes - {quoteId};
        return Some(UserRejected);
      }
      if quoteId.0 != generation { return Some(StaleQuote); }
      if quoteId !in quotes { return Some(MissingQuote); }
      var q := quotes[quoteId];
      if Refusal(condition).Some? { return Refusal(condition); }
      if now >= q.expiresAt { return Some(ExpiredQuote); }
      if q.version != version { return Some(StaleQuote); }
      if q.series !in series { return Some(MissingEvent); }
      if !series[q.series].phase.Open? { return Some(WrongPhase); }
      if ClaimsIn(claims, Seller, q.series).dr < q.drRaw { return Some(InsufficientBalance); }
      if Lookup(usdc, Buyer) < q.usdcRaw { return Some(InsufficientBalance); }
      if !IsRaw(ClaimsIn(claims, Buyer, q.series).dr + q.drRaw) || !IsRaw(Lookup(usdc, Seller) + q.usdcRaw) { return Some(InvalidAmount); }
      Trade(quoteId, q);
      return None;
    }

    method CloseDeposits(id: string) returns (error: Option<Error>)
      modifies this
      ensures var r := DemoClient.CloseDeposits(old(View()), id);
        if r.Ok? then error == None && View() == r.value else error == Some(r.error) && View() == old(View())
    {
      if id !in series { return Some(MissingEvent); }
      if !series[id].phase.Open? { return Some(WrongPhase); }
      series := series[id := series[id].(phase := Closed)];
      version, receipts := version + 1, receipts + [[]];
      return None;
    }

    method Settle(id: string) returns (error: Option<Error>)
      modifies this
      ensures var r := DemoClient.Settle(cfg, old(View()), id);
        if r.Ok? then error == None && View() == r.value else error == Some(r.error) && View() == old(View())
    {
      if Refusal(condition).Some? { return Refusal(condition); }
      if id !in series { return Some(MissingEvent); }
      var record := series[id];
      if record.phase.Settled? || record.phase.Complete? { return Some(AlreadySettled); }
      if !record.phase.Closed? { return Some(WrongPhase); }
      if id !in cfg.events || cfg.events[id].asset != record.asset { return Some(InvalidFixture); }
      if !IsRaw(record.accounted) || !EventOk(cfg.events[id]) { return Some(InvalidAmount); }
      ShareBounds(cfg.events[id], record.accounted);
      var dr := DrShare(cfg.events[id], record.accounted);
      if dr == 0 { return Some(InvalidFixture); }
      if record.ptSupply != record.accounted || record.drSupply != record.accounted { return Some(InvalidFixture); }
      record := record.(originalSupply := record.accounted);
      record := record.(originalPt := record.accounted - dr, originalDr := dr);
      record := record.(ptPool := record.originalPt, drPool := record.originalDr);
      record := record.(phase := Settled);
      series := series[id := record];
      version, receipts := version + 1, receipts + [[]];
      return None;
    }

    /** The redeemed side's supply and pool shrink; the series ends with its last claims. */
    method PaySeries(before: Series, side: Side, claim: nat, payout: nat) returns (record: Series)
      requires payout <= PoolOf(before, side)
      ensures record == Paid(before, side, claim, payout)
    {
      record := before;
      if side.Pt? {
        record := record.(ptSupply := record.ptSupply - claim, ptPool := record.ptPool - payout, burnedPt := record.burnedPt + claim);
      } else {
        record := record.(drSupply := record.drSupply - claim, drPool := record.drPool - payout, burnedDr := record.burnedDr + claim);
      }
      record := record.(accounted := record.accounted - payout);
      if record.ptSupply == 0 && record.drSupply == 0 && record.ptPool == 0 && record.drPool == 0 { record := record.(phase := Complete); }
    }

    /** The writes of a redemption. */
    method Pay(id: string, who: Holder, side: Side, claim: nat, payout: nat)
      requires id in series && payout <= PoolOf(series[id], side)
      modifies this`claims, this`collateral, this`series, this`version, this`receipts
      ensures View() == Redeemed(old(View()), id, who, side, claim, payout)
    {
      var asset := series[id].asset;
      var record := PaySeries(series[id], side, claim, payout);
      claims := claims[(who, id) := Debit(ClaimsIn(claims, who, id), side, claim)];
      collateral := collateral[(who, asset) := Lookup(collateral, (who, asset)) + payout];
      series := series[id := record];
      version := version + 1;
      receipts := receipts + [RedeemChanges(asset, id, who, side, claim, payout)];
    }

    method Redeem(id: string, who: Holder, side: Side, claim: int) returns (error: Option<Error>)
      modifies this
      ensures var r := DemoClient.Redeem(old(View()), id, who, side, claim);
        if r.Ok? then error == None && View() == r.value else error == Some(r.error) && View() == old(View())
    {
      if condition.Paused? { return Some(PausedCollateral); }
      var payout := PreviewRedemption(View(), id, who, side, claim);
      if payout.Err? { return Some(payout.error); }
      if payout.value > PoolOf(series[id], side) { return Some(InvalidFixture); }
      if !IsRaw(Lookup(collateral, (who, series[id].asset)) + payout.value) { return Some(InvalidAmount); }
      Pay(id, who, side, claim, payout.value);
      return None;
    }

    method ShrinkSeries(before: Series, claim: int) returns (record: Series)
      ensures record == Shrunk(before, claim)
    {
      record := before.(ptSupply := before.ptSupply - claim, drSupply := before.drSupply - claim);
      record := record.(accounted := record.accounted - claim);
      if record.accounted == 0 { record := record.(phase := Cancelled); }
    }

    /** The writes of a recombination. */
    method GiveBack(id: string, who: Holder, claim: int)
      requires id in series
      modifies this`claims, this`collateral, this`series, this`version, this`receipts
      ensures View() == Recombined(old(View()), id, who, claim)
    {
      var asset, held := series[id].asset, ClaimsIn(claims, who, id);
      var record := ShrinkSeries(series[id], claim);
      claims := claims[(who, id) := Claims(held.pt - claim, held.dr - claim)];
      collateral := collateral[(who, asset) := Lookup(collateral, (who, asset)) + claim];
      series := series[id := record];
      version := version + 1;
      receipts := receipts + [RecombineChanges(asset, id, who, claim)];
    }

    method Recombine(id: string, who: Holder, claim: int) returns (error: Option<Error>)
      modifies this
      ensures var r := DemoClient.Recombine(cfg, old(View()), id, who, claim);
        if r.Ok? then error == None && View() == r.value else error == Some(r.error) && View() == old(View())
    {
      if condition.Paused? { return Some(PausedCollateral); }
      if !IsRaw(claim) || claim == 0 { return Some(InvalidAmount); }
      if id !in series { return Some(MissingEvent); }
      var record, held := series[id], ClaimsIn(claims, who, id);
      if !record.phase.Open? && !record.phase.Closed? { return Some(WrongPhase); }
      if held.pt < claim || held.dr < claim { return Some(InsufficientBalance); }
      if !IsRaw(Lookup(collateral, (who, record.asset)) + claim) { return Some(InvalidAmount); }
      var rest := record.accounted - claim;
      if rest > 0 {
        if id !in cfg.events || !EventOk(cfg.events[id]) || DrShare(cfg.events[id], rest) == 0 { return Some(InvalidAmount); }
      }
      GiveBack(id, who, claim);
      return None;
    }

    method Reset()
      modifies this
      ensures View() == Initial(cfg).(generation := old(generation) + 1, quoteCounter := old(quoteCounter))
    {
      generation := generation + 1;
      quotes := map[];
      var s := Initial(cfg);
      version, condition, collateral, usdc, claims, series, receipts := s.version, s.condition, s.collateral, s.usdc, s.claims, s.series, s.receipts;
    }
  }
}
