/**
 When the demo client's calls go through in reachable states, and exactly which balances each one moves. A quote that is
 current and unexpired can always be accepted, because whatever could invalidate it moves the version on.
 */
module DemoLaws {
  import opened Prelude
  import opened DemoClient
  import opened DemoInvariants

  // ----- what moves -----

  /** A deposit turns the seller's collateral into as many claims of both sides. */
  lemma DepositMoves(cfg: Config, s: State, asset: string, raw: int, f: Field)
    requires ConfigOk(cfg) && Deposit(cfg, s, asset, raw).Ok?
    ensures asset in cfg.eventFor
    ensures var t := Deposit(cfg, s, asset, raw).value; var id := cfg.eventFor[asset];
      Balance(t, f) - Balance(s, f) ==
        match f
        case CollateralOf(who, a) => if who.Seller? && a == asset then -raw else 0
        case UsdcOf(_) => 0
        case ClaimOf(who, x, _) => if who.Seller? && x == id then raw else 0
        case AccountedIn(x) => if x == id then raw else 0
  {
    DepositFacts(cfg, s, asset, raw);
    var id := cfg.eventFor[asset];
    DepositEffect(s, asset, id, raw);
    assert Moved(s, Deposited(s, asset, id, raw), DepositChanges(asset, id, raw), f);
    DepositDelta(asset, id, raw, f);
  }

  /** An accepted sale moves the quoted DR to the buyer and the quoted USDC to the seller, and uses up the quote. */
  lemma SaleMoves(cfg: Config, s: State, quoteId: QuoteId, now: int, f: Field)
    requires QuotesOk(s) && AcceptSale(s, quoteId, false, now).1.None?
    ensures quoteId in s.quotes && AcceptSale(s, quoteId, false, now).0.quotes == s.quotes - {quoteId}
    ensures var t, q := AcceptSale(s, quoteId, false, now).0, s.quotes[quoteId];
      Balance(t, f) - Balance(s, f) ==
        match f
        case CollateralOf(_, _) => 0
        case UsdcOf(who) => if who.Seller? then q.usdcRaw else -q.usdcRaw
        case ClaimOf(who, x, side) => if x != q.series || side.Pt? then 0 else if who.Buyer? then q.drRaw else -q.drRaw
        case AccountedIn(_) => 0
  {
    AcceptFacts(s, quoteId, false, now);
    var q := s.quotes[quoteId];
    SaleEffect(cfg, s, quoteId, q);
    assert Moved(s, Sold(s, quoteId, q), SaleChanges(q), f);
    SaleDelta(q, f);
  }

  /** A redemption burns the claims of one side for the previewed collateral of the series. */
  lemma RedeemMoves(cfg: Config, s: State, id: string, who: Holder, side: Side, claim: int, f: Field)
    requires ConfigOk(cfg) && Inv(cfg, s) && Redeem(s, id, who, side, claim).Ok?
    ensures id in s.series && PreviewRedemption(s, id, who, side, claim).Ok?
    ensures var t, paid := Redeem(s, id, who, side, claim).value, PreviewRedemption(s, id, who, side, claim).value;
      Balance(t, f) - Balance(s, f) ==
        match f
        case CollateralOf(w, a) => if w == who && a == s.series[id].asset then paid else 0
        case UsdcOf(_) => 0
        case ClaimOf(w, x, d) => if w == who && x == id && d == side then -claim else 0
        case AccountedIn(x) => if x == id then -(paid as int) else 0
  {
    RedeemsWhatItPreviews(cfg, s, id, who, side, claim);
    var paid, asset := PreviewRedemption(s, id, who, side, claim).value, s.series[id].asset;
    RedeemEffect(s, id, who, side, claim, paid);
    assert Moved(s, Redeemed(s, id, who, side, claim, paid), RedeemChanges(asset, id, who, side, claim, paid), f);
    RedeemDelta(asset, id, who, side, claim, paid, f);
  }

  /** Recombining turns equal claims of both sides back into as much collateral. */
  lemma RecombineMoves(cfg: Config, s: State, id: string, who: Holder, claim: int, f: Field)
    requires Recombine(cfg, s, id, who, claim).Ok?
    ensures id in s.series
    ensures var t := Recombine(cfg, s, id, who, claim).value;
      Balance(t, f) - Balance(s, f) ==
        match f
        case CollateralOf(w, a) => if w == who && a == s.series[id].asset then claim else 0
        case UsdcOf(_) => 0
        case ClaimOf(w, x, _) => if w == who && x == id then -claim else 0
        case AccountedIn(x) => if x == id then -claim else 0
  {
    var asset := s.series[id].asset;
    RecombineEffect(s, id, who, claim);
    assert Moved(s, Recombined(s, id, who, claim), RecombineChanges(asset, id, who, claim), f);
    RecombineDelta(asset, id, who, claim, f);
  }

  // ----- errors tell the truth -----

  lemma DepositErrors(cfg: Config, s: State, asset: string, raw: int)
    requires ConfigOk(cfg) && Inv(cfg, s) && s.condition.Ready? && Deposit(cfg, s, asset, raw).Err?
    ensures match Deposit(cfg, s, asset, raw).error
      case MissingAsset => (Seller, asset) !in cfg.opening
      case MissingEvent => asset !in cfg.eventFor
      case InvalidAmount => !IsRaw(raw) || raw == 0
          || (asset in cfg.eventFor && Balance(s, AccountedIn(cfg.eventFor[asset])) + raw >= 0
              && DrShare(cfg.events[cfg.eventFor[asset]], Balance(s, AccountedIn(cfg.eventFor[asset])) + raw) == 0)
      case InsufficientBalance => Balance(s, CollateralOf(Seller, asset)) < raw
      case DepositsClosed => asset in cfg.eventFor && cfg.eventFor[asset] in s.series && !s.series[cfg.eventFor[asset]].phase.Open?
      case _ => false
  {
    if asset in cfg.eventFor && 0 < raw <= Lookup(s.collateral, (Seller, asset))
       && (cfg.eventFor[asset] in s.series ==> s.series[cfg.eventFor[asset]].phase.Open?) {
      DepositFits(cfg, s, asset, raw);
    }
  }

  lemma SeriesErrors(cfg: Config, s: State, id: string)
    requires ConfigOk(cfg) && Inv(cfg, s) && s.condition.Ready?
    ensures Settle(cfg, s, id).Err? ==>
      match Settle(cfg, s, id).error
      case MissingEvent => id !in s.series
      case AlreadySettled => id in s.series && (s.series[id].phase.Settled? || s.series[id].phase.Complete?)
      case WrongPhase => id in s.series && (s.series[id].phase.Open? || s.series[id].phase.Cancelled?)
      case _ => false
    ensures CloseDeposits(s, id).Err? ==> CloseDeposits(s, id).error == if id in s.series then WrongPhase else MissingEvent
  {
    SettleOkIff(cfg, s, id);
  }

  lemma RedeemErrors(cfg: Config, s: State, id: string, who: Holder, side: Side, claim: int)
    requires ConfigOk(cfg) && Inv(cfg, s) && !s.condition.Paused? && Redeem(s, id, who, side, claim).Err?
    ensures match Redeem(s, id, who, side, claim).error
      case InvalidAmount => !IsRaw(claim) || claim == 0
      case MissingEvent => id !in s.series
      case WrongPhase => id in s.series && !s.series[id].phase.Settled?
      case InsufficientBalance => Balance(s, ClaimOf(who, id, side)) < claim
      case ZeroPayout => id in s.series && s.series[id].originalSupply > 0 && claim > 0 && Owed(s.series[id], side, claim) == 0
      case _ => false
  {
    RedeemsWhatItPreviews(cfg, s, id, who, side, claim);
    if id in s.series { assert SeriesOk(cfg, s, id); }
  }

  lemma RecombineErrors(cfg: Config, s: State, id: string, who: Holder, claim: int)
    requires ConfigOk(cfg) && Inv(cfg, s) && !s.condition.Paused? && Recombine(cfg, s, id, who, claim).Err?
    ensures match Recombine(cfg, s, id, who, claim).error
      case InvalidAmount => !IsRaw(claim) || claim == 0
          || (id in s.series && id in cfg.events && claim < s.series[id].accounted && EventOk(cfg.events[id])
              && DrShare(cfg.events[id], s.series[id].accounted - claim) == 0)
      case MissingEvent => id !in s.series
      case WrongPhase => id in s.series && !s.series[id].phase.Open? && !s.series[id].phase.Closed?
      case InsufficientBalance => Balance(s, ClaimOf(who, id, Pt)) < claim || Balance(s, ClaimOf(who, id, Dr)) < claim
      case _ => false
  {
    if id in s.series && (s.series[id].phase.Open? || s.series[id].phase.Closed?) && 0 < claim <= ClaimsFor(s, who, id).pt {
      RecombinableFacts(cfg, s, id, who, claim);
    }
  }

  lemma QuoteErrors(s: State, id: string, drRaw: int, usdcRaw: int, now: int)
    requires s.condition.Ready? && QuoteSale(s, id, drRaw, usdcRaw, now).Err?
    ensures match QuoteSale(s, id, drRaw, usdcRaw, now).error
      case InvalidAmount => !IsRaw(drRaw) || drRaw == 0 || !IsRaw(usdcRaw) || usdcRaw == 0
      case MissingEvent => id !in s.series
      case WrongPhase => id in s.series && !s.series[id].phase.Open?
      case InsufficientBalance => Balance(s, ClaimOf(Seller, id, Dr)) < drRaw || Balance(s, UsdcOf(Buyer)) < usdcRaw
      case _ => false
  {
  }

  // ----- settlement -----

  /** Settlement freezes the whole supply, gives the DR side the floor of the event's share and the PT side the rest. */
  lemma SettleFreezes(cfg: Config, s: State, id: string)
    requires ConfigOk(cfg) && Inv(cfg, s) && Settle(cfg, s, id).Ok?
    ensures id in s.series && id in cfg.events && id in Settle(cfg, s, id).value.series
    ensures var r, was, e := Settle(cfg, s, id).value.series[id], s.series[id], cfg.events[id];
      && r.phase.Settled? && r.originalSupply == was.accounted && r.accounted == was.accounted
      && r.drPool == r.originalDr && r.ptPool == r.originalPt && r.originalPt == r.originalSupply - r.originalDr
      && r.originalDr * e.whole <= r.originalSupply * e.rise < (r.originalDr + 1) * e.whole
      && r.ptSupply == was.ptSupply && r.drSupply == was.drSupply
  {
    assert SeriesOk(cfg, s, id);
    FrozenSeries(cfg.events[id], s.series[id], DrShare(cfg.events[id], s.series[id].accounted));
  }

  lemma CloseOkIff(s: State, id: string)
    ensures CloseDeposits(s, id).Ok? <==> id in s.series && s.series[id].phase.Open?
    ensures CloseDeposits(s, id).Ok? ==>
      var t := CloseDeposits(s, id).value;
      t.series == s.series[id := s.series[id].(phase := Closed)] && t.claims == s.claims && t.collateral == s.collateral && t.usdc == s.usdc
  {
    if id in s.series && s.series[id].phase.Open? {
      assert CloseDeposits(s, id).value.series == s.series[id := s.series[id].(phase := Closed)];
    }
  }

  // ----- redemption -----

  /** A redemption goes through exactly when collateral is not paused, the series is settled, the claims are there and something is due. */
  lemma RedeemOkIff(cfg: Config, s: State, id: string, who: Holder, side: Side, claim: int)
    requires ConfigOk(cfg) && Inv(cfg, s)
    ensures Redeem(s, id, who, side, claim).Ok? <==>
      && !s.condition.Paused? && 1 <= claim <= U64_MAX && id in s.series && s.series[id].phase.Settled?
      && claim <= Balance(s, ClaimOf(who, id, side)) && s.series[id].originalSupply > 0 && Owed(s.series[id], side, claim) > 0
  {
    if !s.condition.Paused? { RedeemsWhatItPreviews(cfg, s, id, who, side, claim); }
  }

  // ----- quotes -----

  /** The sale a quote describes could happen now. */
  predicate Covered(s: State, q: Quote)
  {
    && 1 <= q.drRaw <= U64_MAX && 1 <= q.usdcRaw <= U64_MAX && q.series in s.series && s.series[q.series].phase.Open?
    && q.drRaw <= Balance(s, ClaimOf(Seller, q.series, Dr)) && q.usdcRaw <= Balance(s, UsdcOf(Buyer))
  }

  /** A quote is made exactly for a sale that could happen now under a ready condition; it holds for one minute and this version. */
  lemma QuoteOkIff(s: State, id: string, drRaw: int, usdcRaw: int, now: int)
    ensures QuoteSale(s, id, drRaw, usdcRaw, now).Ok? <==> s.condition.Ready? && Covered(s, Quote(id, drRaw, usdcRaw, s.version, now + 60_000))
    ensures QuoteSale(s, id, drRaw, usdcRaw, now).Ok? ==>
      var t := QuoteSale(s, id, drRaw, usdcRaw, now).value;
      t == s.(quotes := s.quotes[(s.generation, s.quoteCounter + 1) := Quote(id, drRaw, usdcRaw, s.version, now + 60_000)], quoteCounter := s.quoteCounter + 1)
  {
  }

  /** Rejecting a quote deletes it and nothing else; a quote of another session is stale, an unknown one missing. */
  lemma RejectedQuotes(s: State, quoteId: QuoteId, now: int)
    ensures AcceptSale(s, quoteId, true, now) == (s.(quotes := s.quotes - {quoteId}), Some(UserRejected))
    ensures quoteId.0 != s.generation ==> AcceptSale(s, quoteId, false, now) == (s, Some(StaleQuote))
    ensures quoteId.0 == s.generation && quoteId !in s.quotes ==> AcceptSale(s, quoteId, false, now) == (s, Some(MissingQuote))
  {
  }

  /** A demo condition other than ready stops deposits, quotes and settlement with its own error; only a pause stops the rest. */
  lemma ConditionsRefuse(cfg: Config, s: State, asset: string, id: string, raw: int, usdcRaw: int, now: int)
    ensures var e := match s.condition
              case Ready => None
              case Stale => Some(StaleData)
              case Paused => Some(PausedCollateral)
              case Rejected => Some(RejectedEvent);
      e.Some? ==>
        Deposit(cfg, s, asset, raw) == Err(e.value) && QuoteSale(s, id, raw, usdcRaw, now) == Err(e.value) && Settle(cfg, s, id) == Err(e.value)
  {
  }

  lemma PauseRefuses(cfg: Config, s: State, id: string, who: Holder, side: Side, claim: int)
    requires s.condition.Paused?
    ensures Redeem(s, id, who, side, claim) == Err(PausedCollateral) && Recombine(cfg, s, id, who, claim) == Err(PausedCollateral)
  {
  }

  /** Quotes belong to this session, and one of the current version still describes a possible sale. */
  ghost predicate QuoteFresh(s: State, q: QuoteId)
  {
    q in s.quotes ==>
      && q.0 == s.generation && s.quotes[q].version <= s.version
      && (s.quotes[q].version == s.version ==> Covered(s, s.quotes[q]))
  }

  ghost predicate QuotesFresh(s: State)
  {
    forall q :: QuoteFresh(s, q)
  }

  /** A call that moves the version on and makes no quote leaves only stale ones. */
  lemma VersionMovesOn(s: State, t: State)
    requires QuotesFresh(s) && s.version < t.version && t.generation == s.generation && t.quotes.Keys <= s.quotes.Keys
    requires forall q | q in t.quotes :: t.quotes[q] == s.quotes[q]
    ensures QuotesFresh(t)
  {
    forall q ensures QuoteFresh(t, q) { assert QuoteFresh(s, q); }
  }

  lemma QuoteStep(s: State, id: string, drRaw: int, usdcRaw: int, now: int)
    requires QuotesFresh(s) && QuoteSale(s, id, drRaw, usdcRaw, now).Ok?
    ensures QuotesFresh(QuoteSale(s, id, drRaw, usdcRaw, now).value)
  {
    var t := QuoteSale(s, id, drRaw, usdcRaw, now).value;
    forall q ensures QuoteFresh(t, q) { assert QuoteFresh(s, q); }
  }

  lemma AcceptStep(s: State, quoteId: QuoteId, reject: bool, now: int)
    requires QuotesFresh(s)
    ensures QuotesFresh(AcceptSale(s, quoteId, reject, now).0)
  {
    var t := AcceptSale(s, quoteId, reject, now);
    if t.1.None? {
      VersionMovesOn(s, t.0);
    } else {
      forall q ensures QuoteFresh(t.0, q) { assert QuoteFresh(s, q); }
    }
  }

  lemma OutcomeStep(cfg: Config, s: State, c: Call)
    requires QuotesFresh(s) && !c.AcceptCall? && !c.ConditionCall? && !c.ResetCall? && !c.QuoteCall? && Outcome(cfg, s, c).Ok?
    ensures QuotesFresh(Outcome(cfg, s, c).value)
  {
    var t := Outcome(cfg, s, c).value;
    assert t.version == s.version + 1 && t.quotes == s.quotes && t.generation == s.generation;
    VersionMovesOn(s, t);
  }

  lemma FreshStep(cfg: Config, s: State, c: Call)
    requires QuotesFresh(s)
    ensures QuotesFresh(Apply(cfg, s, c))
  {
    if c.AcceptCall? { AcceptStep(s, c.quoteId, c.reject, c.now); }
    else if c.ConditionCall? { VersionMovesOn(s, Apply(cfg, s, c)); }
    else if c.QuoteCall? { if Outcome(cfg, s, c).Ok? { QuoteStep(s, c.id, c.drRaw, c.usdcRaw, c.now); } }
    else if !c.ResetCall? && Outcome(cfg, s, c).Ok? { OutcomeStep(cfg, s, c); }
  }

  lemma {:induction false} FreshRun(cfg: Config, s: State, calls: seq<Call>)
    requires QuotesFresh(s)
    ensures QuotesFresh(Run(cfg, s, calls))
    decreases |calls|
  {
    if calls != [] {
      FreshStep(cfg, s, calls[0]);
      FreshRun(cfg, Apply(cfg, s, calls[0]), calls[1..]);
    }
  }

  lemma SaleFits(cfg: Config, s: State, q: Quote)
    requires ConfigOk(cfg) && Inv(cfg, s) && Covered(s, q)
    ensures IsRaw(ClaimsFor(s, Buyer, q.series).dr + q.drRaw) && IsRaw(Lookup(s.usdc, Seller) + q.usdcRaw)
  {
    assert SeriesOk(cfg, s, q.series);
    CollateralFits(cfg, s, q.series, Seller);
    assert NonNegative(s, ClaimOf(Buyer, q.series, Dr)) && NonNegative(s, CollateralOf(Seller, s.series[q.series].asset));
    assert NonNegative(s, UsdcOf(Seller)) && NonNegative(s, UsdcOf(Buyer));
    assert Held(s, q.series, Dr) == s.series[q.series].drSupply;
  }

  /**
   In every reachable state a quote is accepted exactly when it is not rejected, still stored, not expired, of the current
   version, and the condition is ready: the phase, balance and range checks never decide.
   */
  lemma AcceptOkIff(cfg: Config, calls: seq<Call>, quoteId: QuoteId, reject: bool, now: int)
    requires ConfigOk(cfg)
    ensures var s := Run(cfg, Initial(cfg), calls);
      AcceptSale(s, quoteId, reject, now).1.None? <==>
      && !reject && quoteId in s.quotes && s.condition.Ready? && now < s.quotes[quoteId].expiresAt && s.quotes[quoteId].version == s.version
  {
    var s := Run(cfg, Initial(cfg), calls);
    RunIsSound(cfg, calls);
    FreshRun(cfg, Initial(cfg), calls);
    assert QuoteFresh(s, quoteId);
    if quoteId in s.quotes && s.quotes[quoteId].version == s.version { SaleFits(cfg, s, s.quotes[quoteId]); }
  }
}
