/**
 What every run of the demo client keeps. Each quantified statement has a named body, and the proofs name the
 instances they use.
 */
module DemoInvariants {
  import opened Prelude
  import opened DemoClient
  import Redemption

  // ----- receipts -----

  function Part(c: Change, f: Field): int { if c.field == f then c.delta else 0 }

  function Delta(changes: seq<Change>, f: Field): int
  {
    if changes == [] then 0 else Part(changes[0], f) + Delta(changes[1..], f)
  }

  function Recorded(receipts: seq<seq<Change>>, f: Field): int
  {
    if receipts == [] then 0 else Recorded(receipts[..|receipts| - 1], f) + Delta(receipts[|receipts| - 1], f)
  }

  lemma Delta3(a: Change, b: Change, c: Change, f: Field)
    ensures Delta([a, b, c], f) == Part(a, f) + Part(b, f) + Part(c, f)
  {
    assert [a, b, c][1..] == [b, c] && [b, c][1..] == [c] && [c][1..] == [];
    assert Delta([c], f) == Part(c, f);
  }

  lemma Delta4(a: Change, b: Change, c: Change, d: Change, f: Field)
    ensures Delta([a, b, c, d], f) == Part(a, f) + Part(b, f) + Part(c, f) + Part(d, f)
  {
    assert [a, b, c, d][1..] == [b, c, d];
    Delta3(b, c, d, f);
  }

  ghost predicate Moved(s: State, t: State, changes: seq<Change>, f: Field)
  {
    Balance(t, f) == Balance(s, f) + Delta(changes, f)
  }

  /** The call added one receipt, and every balance moved by exactly what the receipt says. */
  ghost predicate Effect(s: State, t: State, changes: seq<Change>)
  {
    t.receipts == s.receipts + [changes] && forall f :: Moved(s, t, changes, f)
  }

  ghost predicate Replayed(cfg: Config, s: State, f: Field)
  {
    Balance(s, f) == Balance(Initial(cfg), f) + Recorded(s.receipts, f)
  }

  // ----- totals -----

  function AssetTotal(cfg: Config, s: State, asset: string): int
  {
    Balance(s, CollateralOf(Seller, asset)) + Balance(s, CollateralOf(Buyer, asset))
    + if asset in cfg.eventFor then Balance(s, AccountedIn(cfg.eventFor[asset])) else 0
  }

  function UsdcTotal(s: State): int { Balance(s, UsdcOf(Seller)) + Balance(s, UsdcOf(Buyer)) }

  ghost predicate AssetConserved(cfg: Config, s: State, a: string)
  {
    AssetTotal(cfg, s, a) == Lookup(cfg.opening, (Seller, a))
  }

  ghost predicate AssetBalanced(cfg: Config, changes: seq<Change>, a: string)
  {
    Delta(changes, CollateralOf(Seller, a)) + Delta(changes, CollateralOf(Buyer, a))
    + (if a in cfg.eventFor then Delta(changes, AccountedIn(cfg.eventFor[a])) else 0) == 0
  }

  /** The changes of one receipt cancel out, asset by asset and in USDC. */
  ghost predicate Balanced(cfg: Config, changes: seq<Change>)
  {
    Delta(changes, UsdcOf(Seller)) + Delta(changes, UsdcOf(Buyer)) == 0 && forall a :: AssetBalanced(cfg, changes, a)
  }

  // ----- series -----

  predicate SideOk(r: Series, side: Side)
  {
    && r.originalSupply > 0
    && Supply(r, side) >= 0 && Supply(r, side) + Burned(r, side) == r.originalSupply
    && PoolOf(r, side) + Redemption.Entitled(Burned(r, side), OriginalPool(r, side), r.originalSupply) == OriginalPool(r, side)
  }

  /** Before settlement each unit of collateral backs one claim of each side, and a dividend is left to allocate. */
  predicate PairedOk(e: Event, r: Series)
  {
    r.accounted > 0 && r.ptSupply == r.accounted == r.drSupply && r.burnedPt == 0 == r.burnedDr && EventOk(e) && DrShare(e, r.accounted) > 0
  }

  predicate SettledOk(r: Series)
  {
    && r.originalPt > 0 && r.originalDr > 0 && r.originalPt + r.originalDr == r.originalSupply <= U64_MAX
    && SideOk(r, Pt) && SideOk(r, Dr) && r.accounted == r.ptPool + r.drPool
  }

  /** The frozen DR pool is the floor of the event's share of the frozen supply, and the PT pool is the rest. */
  predicate PricedOk(e: Event, r: Series)
  {
    && r.originalDr * e.whole <= r.originalSupply * e.rise < (r.originalDr + 1) * e.whole
    && r.originalPt == r.originalSupply - r.originalDr
  }

  /** A settled series is complete exactly when no claim is left. */
  predicate PhaseOk(e: Event, r: Series)
  {
    match r.phase
    case Open => PairedOk(e, r)
    case Closed => PairedOk(e, r)
    case Cancelled => r.accounted == 0 == r.ptSupply == r.drSupply
    case Settled => SettledOk(r) && PricedOk(e, r) && (r.ptSupply > 0 || r.drSupply > 0)
    case Complete => SettledOk(r) && PricedOk(e, r) && r.ptSupply == 0 == r.drSupply
  }

  /** All claims of a series, over both holders. */
  function Held(s: State, id: string, side: Side): int { Balance(s, ClaimOf(Seller, id, side)) + Balance(s, ClaimOf(Buyer, id, side)) }

  /** A series follows its event and its supplies are held; a series that does not exist has no claims. */
  ghost predicate SeriesOk(cfg: Config, s: State, id: string)
  {
    if id !in s.series then Held(s, id, Pt) == 0 == Held(s, id, Dr)
    else
      var r := s.series[id];
      && id in cfg.events && r.asset == cfg.events[id].asset && PhaseOk(cfg.events[id], r)
      && Held(s, id, Pt) == r.ptSupply && Held(s, id, Dr) == r.drSupply
  }

  ghost predicate NonNegative(s: State, f: Field) { Balance(s, f) >= 0 }

  ghost predicate Inv(cfg: Config, s: State)
  {
    && UsdcTotal(s) == OPENING_USDC
    && (forall f :: Replayed(cfg, s, f))
    && (forall a :: AssetConserved(cfg, s, a))
    && (forall f :: NonNegative(s, f))
    && (forall id :: SeriesOk(cfg, s, id))
  }

  // ----- one call -----

  lemma MovedReplays(cfg: Config, s: State, t: State, changes: seq<Change>, f: Field)
    requires Replayed(cfg, s, f) && Moved(s, t, changes, f) && t.receipts == s.receipts + [changes]
    ensures Replayed(cfg, t, f)
  {
    assert t.receipts[..|t.receipts| - 1] == s.receipts;
  }

  lemma TotalsKept(cfg: Config, s: State, t: State, changes: seq<Change>, a: string)
    requires Effect(s, t, changes) && Balanced(cfg, changes)
    ensures AssetTotal(cfg, t, a) == AssetTotal(cfg, s, a) && UsdcTotal(t) == UsdcTotal(s)
  {
    assert AssetBalanced(cfg, changes, a);
    assert Moved(s, t, changes, CollateralOf(Seller, a)) && Moved(s, t, changes, CollateralOf(Buyer, a));
    assert Moved(s, t, changes, UsdcOf(Seller)) && Moved(s, t, changes, UsdcOf(Buyer));
    if a in cfg.eventFor { assert Moved(s, t, changes, AccountedIn(cfg.eventFor[a])); }
  }

  ghost predicate ClaimUnmoved(changes: seq<Change>, who: Holder, id: string, side: Side)
  {
    Delta(changes, ClaimOf(who, id, side)) == 0
  }

  /** The call leaves a series and all its claims alone. */
  ghost predicate Leaves(s: State, t: State, changes: seq<Change>, id: string)
  {
    && (id in s.series <==> id in t.series) && (id in s.series ==> t.series[id] == s.series[id])
    && ClaimUnmoved(changes, Seller, id, Pt) && ClaimUnmoved(changes, Seller, id, Dr)
    && ClaimUnmoved(changes, Buyer, id, Pt) && ClaimUnmoved(changes, Buyer, id, Dr)
  }

  lemma LeftAlone(cfg: Config, s: State, t: State, changes: seq<Change>, id: string)
    requires Effect(s, t, changes) && Leaves(s, t, changes, id) && SeriesOk(cfg, s, id)
    ensures SeriesOk(cfg, t, id)
  {
    assert Moved(s, t, changes, ClaimOf(Seller, id, Pt)) && Moved(s, t, changes, ClaimOf(Seller, id, Dr));
    assert Moved(s, t, changes, ClaimOf(Buyer, id, Pt)) && Moved(s, t, changes, ClaimOf(Buyer, id, Dr));
  }

  ghost predicate OnlyTouches(s: State, t: State, changes: seq<Change>, id: string)
  {
    forall x :: x == id || Leaves(s, t, changes, x)
  }

  /** A call that adds a balanced receipt and touches one series keeps everything, once that series is all right. */
  lemma CallKeeps(cfg: Config, s: State, t: State, id: string, changes: seq<Change>)
    requires Inv(cfg, s) && Effect(s, t, changes) && Balanced(cfg, changes) && OnlyTouches(s, t, changes, id)
    requires SeriesOk(cfg, t, id) && forall f :: NonNegative(t, f)
    ensures Inv(cfg, t)
  {
    forall f ensures Replayed(cfg, t, f) {
      assert Replayed(cfg, s, f) && Moved(s, t, changes, f);
      MovedReplays(cfg, s, t, changes, f);
    }
    forall a ensures AssetConserved(cfg, t, a) {
      assert AssetConserved(cfg, s, a);
      TotalsKept(cfg, s, t, changes, a);
    }
    TotalsKept(cfg, s, t, changes, "");
    forall x ensures SeriesOk(cfg, t, x) {
      if x != id {
        assert Leaves(s, t, changes, x) && SeriesOk(cfg, s, x);
        LeftAlone(cfg, s, t, changes, x);
      }
    }
  }

  ghost predicate BackedAt(changes: seq<Change>, who: Holder, asset: string, id: string, raw: int, f: Field)
  {
    !f.ClaimOf? ==> Delta(changes, f) == if f == CollateralOf(who, asset) then raw else if f == AccountedIn(id) then -raw else 0
  }

  /** Collateral of one asset moved against the accounted collateral of its series; besides only claims. */
  ghost predicate Backed(changes: seq<Change>, who: Holder, asset: string, id: string, raw: int)
  {
    forall f :: BackedAt(changes, who, asset, id, raw, f)
  }

  lemma BackedIsBalanced(cfg: Config, changes: seq<Change>, who: Holder, asset: string, id: string, raw: int)
    requires ConfigOk(cfg) && asset in cfg.eventFor && cfg.eventFor[asset] == id && Backed(changes, who, asset, id, raw)
    ensures Balanced(cfg, changes)
  {
    assert BackedAt(changes, who, asset, id, raw, UsdcOf(Seller)) && BackedAt(changes, who, asset, id, raw, UsdcOf(Buyer));
    forall a ensures AssetBalanced(cfg, changes, a) {
      assert BackedAt(changes, who, asset, id, raw, CollateralOf(Seller, a)) && BackedAt(changes, who, asset, id, raw, CollateralOf(Buyer, a));
      if a in cfg.eventFor { assert BackedAt(changes, who, asset, id, raw, AccountedIn(cfg.eventFor[a])); }
    }
  }

  // ----- deposit -----

  lemma DepositDelta(asset: string, id: string, raw: int, f: Field)
    ensures Delta(DepositChanges(asset, id, raw), f)
      == if f == CollateralOf(Seller, asset) then -raw else if f == AccountedIn(id) || (f.ClaimOf? && f.who.Seller? && f.series == id) then raw else 0
  {
    Delta4(Change(CollateralOf(Seller, asset), -raw), Change(ClaimOf(Seller, id, Pt), raw), Change(ClaimOf(Seller, id, Dr), raw), Change(AccountedIn(id), raw), f);
    if f.ClaimOf? && f.who.Seller? && f.series == id {
      assert f == ClaimOf(Seller, id, f.side) && (f.side.Pt? || f.side.Dr?);
    }
  }

  lemma DepositEffect(s: State, asset: string, id: string, raw: int)
    ensures var changes := DepositChanges(asset, id, raw); var t := Deposited(s, asset, id, raw);
      Effect(s, t, changes) && Backed(changes, Seller, asset, id, -raw) && OnlyTouches(s, t, changes, id)
  {
    var changes, t, out := DepositChanges(asset, id, raw), Deposited(s, asset, id, raw), -raw;
    forall f ensures Moved(s, t, changes, f) { DepositDelta(asset, id, raw, f); }
    forall f ensures BackedAt(changes, Seller, asset, id, out, f) { DepositDelta(asset, id, raw, f); }
    forall who, x, side ensures x == id || ClaimUnmoved(changes, who, x, side) { DepositDelta(asset, id, raw, ClaimOf(who, x, side)); }
  }

  lemma DepositSeries(cfg: Config, s: State, asset: string, id: string, raw: int)
    requires id in cfg.events && EventOk(cfg.events[id]) && cfg.events[id].asset == asset && raw > 0
    requires SeriesOk(cfg, s, id) && (id in s.series ==> s.series[id].phase.Open?)
    requires Balance(s, AccountedIn(id)) >= 0 && DrShare(cfg.events[id], Balance(s, AccountedIn(id)) + raw) > 0
    ensures SeriesOk(cfg, Deposited(s, asset, id, raw), id)
  {
  }

  lemma DepositFacts(cfg: Config, s: State, asset: string, raw: int)
    requires ConfigOk(cfg) && Deposit(cfg, s, asset, raw).Ok?
    ensures asset in cfg.eventFor && cfg.eventFor[asset] in cfg.events
    ensures var id := cfg.eventFor[asset];
      && 0 < raw <= Balance(s, CollateralOf(Seller, asset)) && EventOk(cfg.events[id]) && cfg.events[id].asset == asset
      && (id in s.series ==> s.series[id].phase.Open?)
      && Balance(s, AccountedIn(id)) + raw >= 0 && DrShare(cfg.events[id], Balance(s, AccountedIn(id)) + raw) > 0
      && Deposit(cfg, s, asset, raw).value == Deposited(s, asset, id, raw)
  {
  }

  lemma DepositKeeps(cfg: Config, s: State, asset: string, raw: int)
    requires ConfigOk(cfg) && Inv(cfg, s) && Deposit(cfg, s, asset, raw).Ok?
    ensures Inv(cfg, Deposit(cfg, s, asset, raw).value)
  {
    DepositFacts(cfg, s, asset, raw);
    var id := cfg.eventFor[asset];
    var changes, t := DepositChanges(asset, id, raw), Deposited(s, asset, id, raw);
    DepositEffect(s, asset, id, raw);
    BackedIsBalanced(cfg, changes, Seller, asset, id, -raw);
    assert SeriesOk(cfg, s, id) && NonNegative(s, AccountedIn(id));
    DepositSeries(cfg, s, asset, id, raw);
    forall f ensures NonNegative(t, f) {
      assert NonNegative(s, f) && Moved(s, t, changes, f);
      DepositDelta(asset, id, raw, f);
    }
    CallKeeps(cfg, s, t, id, changes);
  }

  // ----- sale -----

  lemma SaleDelta(q: Quote, f: Field)
    ensures Delta(SaleChanges(q), f)
      == if f == ClaimOf(Seller, q.series, Dr) then -q.drRaw else if f == ClaimOf(Buyer, q.series, Dr) then q.drRaw
         else if f == UsdcOf(Buyer) then -q.usdcRaw else if f == UsdcOf(Seller) then q.usdcRaw else 0
  {
    Delta4(Change(ClaimOf(Seller, q.series, Dr), -q.drRaw), Change(ClaimOf(Buyer, q.series, Dr), q.drRaw),
           Change(UsdcOf(Buyer), -q.usdcRaw), Change(UsdcOf(Seller), q.usdcRaw), f);
  }

  lemma SaleEffect(cfg: Config, s: State, quoteId: QuoteId, q: Quote)
    ensures var changes := SaleChanges(q); var t := Sold(s, quoteId, q);
      Effect(s, t, changes) && Balanced(cfg, changes) && OnlyTouches(s, t, changes, q.series)
  {
    var changes, t := SaleChanges(q), Sold(s, quoteId, q);
    forall f ensures Moved(s, t, changes, f) { SaleDelta(q, f); }
    SaleDelta(q, UsdcOf(Seller));
    SaleDelta(q, UsdcOf(Buyer));
    forall a ensures AssetBalanced(cfg, changes, a) {
      SaleDelta(q, CollateralOf(Seller, a));
      SaleDelta(q, CollateralOf(Buyer, a));
      if a in cfg.eventFor { SaleDelta(q, AccountedIn(cfg.eventFor[a])); }
    }
    forall who, x, side ensures x == q.series || ClaimUnmoved(changes, who, x, side) { SaleDelta(q, ClaimOf(who, x, side)); }
  }

  lemma SaleKeeps(cfg: Config, s: State, quoteId: QuoteId, q: Quote)
    requires Inv(cfg, s) && q.series in s.series && 0 <= q.drRaw && 0 <= q.usdcRaw
    requires q.drRaw <= ClaimsFor(s, Seller, q.series).dr && q.usdcRaw <= Lookup(s.usdc, Buyer)
    ensures Inv(cfg, Sold(s, quoteId, q))
  {
    var changes, t := SaleChanges(q), Sold(s, quoteId, q);
    SaleEffect(cfg, s, quoteId, q);
    assert SeriesOk(cfg, s, q.series);
    forall f ensures NonNegative(t, f) {
      assert NonNegative(s, f) && Moved(s, t, changes, f);
      SaleDelta(q, f);
    }
    CallKeeps(cfg, s, t, q.series, changes);
  }

  // ----- redemption -----

  lemma RedeemDelta(asset: string, id: string, who: Holder, side: Side, claim: nat, payout: nat, f: Field)
    ensures Delta(RedeemChanges(asset, id, who, side, claim, payout), f)
      == if f == ClaimOf(who, id, side) then -(claim as int) else if f == CollateralOf(who, asset) then payout
         else if f == AccountedIn(id) then -(payout as int) else 0
  {
    Delta3(Change(ClaimOf(who, id, side), -(claim as int)), Change(CollateralOf(who, asset), payout), Change(AccountedIn(id), -(payout as int)), f);
  }

  lemma RedeemEffect(s: State, id: string, who: Holder, side: Side, claim: nat, payout: nat)
    requires id in s.series && payout <= PoolOf(s.series[id], side)
    ensures var asset := s.series[id].asset; var changes := RedeemChanges(asset, id, who, side, claim, payout);
      var t := Redeemed(s, id, who, side, claim, payout);
      Effect(s, t, changes) && Backed(changes, who, asset, id, payout) && OnlyTouches(s, t, changes, id)
  {
    var asset := s.series[id].asset;
    var changes, t := RedeemChanges(asset, id, who, side, claim, payout), Redeemed(s, id, who, side, claim, payout);
    forall f ensures Moved(s, t, changes, f) { RedeemDelta(asset, id, who, side, claim, payout, f); }
    forall f ensures BackedAt(changes, who, asset, id, payout, f) { RedeemDelta(asset, id, who, side, claim, payout, f); }
    forall w, x, d ensures x == id || ClaimUnmoved(changes, w, x, d) { RedeemDelta(asset, id, who, side, claim, payout, ClaimOf(w, x, d)); }
  }

  /** Paying what the cumulative rule says keeps one side exact, and never asks for more than the pool holds. */
  lemma PaidSide(r: Series, side: Side, claim: nat)
    requires SideOk(r, side) && claim <= Supply(r, side)
    ensures Redemption.Entitled(Burned(r, side), OriginalPool(r, side), r.originalSupply)
            <= Redemption.Entitled(Burned(r, side) + claim, OriginalPool(r, side), r.originalSupply) <= OriginalPool(r, side)
    ensures claim == Supply(r, side) ==>
            Redemption.Entitled(Burned(r, side) + claim, OriginalPool(r, side), r.originalSupply) == OriginalPool(r, side)
  {
    var b, pool, supply := Burned(r, side), OriginalPool(r, side), r.originalSupply;
    Redemption.EntitledMonotone(b, b + claim, pool, supply);
    Redemption.EntitledAtMostPool(b + claim, pool, supply);
    Redemption.EntitledWhole(pool, supply);
  }

  /** A side without claims has an empty pool. */
  lemma EmptySide(r: Series, side: Side)
    requires SideOk(r, side) && Supply(r, side) == 0
    ensures PoolOf(r, side) == 0
  {
    Redemption.EntitledWhole(OriginalPool(r, side), r.originalSupply);
  }

  lemma PaidSideOk(r: Series, side: Side, claim: nat)
    requires SideOk(r, side) && 0 < claim <= Supply(r, side)
    ensures Owed(r, side, claim) <= PoolOf(r, side)
    ensures var next := Paid(r, side, claim, Owed(r, side, claim)); var other := if side.Pt? then Dr else Pt;
      SideOk(next, side) && (SideOk(r, other) ==> SideOk(next, other))
  {
    PaidSide(r, side, claim);
  }

  lemma PaidKeeps(e: Event, r: Series, side: Side, claim: nat)
    requires PhaseOk(e, r) && r.phase.Settled? && 0 < claim <= Supply(r, side)
    ensures r.originalSupply > 0 && Owed(r, side, claim) <= PoolOf(r, side) <= r.accounted
    ensures PhaseOk(e, Paid(r, side, claim, Owed(r, side, claim)))
  {
    PaidSideOk(r, side, claim);
    var next := Paid(r, side, claim, Owed(r, side, claim));
    if next.ptSupply == 0 && next.drSupply == 0 {
      EmptySide(next, Pt);
      EmptySide(next, Dr);
    }
  }

  lemma HolderWithin(cfg: Config, s: State, id: string, who: Holder, side: Side)
    requires Inv(cfg, s) && id in s.series
    ensures 0 <= ClaimBalance(ClaimsFor(s, who, id), side) <= Supply(s.series[id], side)
  {
    assert SeriesOk(cfg, s, id);
    assert NonNegative(s, ClaimOf(Seller, id, side)) && NonNegative(s, ClaimOf(Buyer, id, side));
    assert Held(s, id, side) == Supply(s.series[id], side);
  }

  /** What a holder may still receive of an asset fits, because nothing is ever created. */
  lemma CollateralFits(cfg: Config, s: State, id: string, who: Holder)
    requires ConfigOk(cfg) && Inv(cfg, s) && id in s.series
    ensures Lookup(s.collateral, (who, s.series[id].asset)) + s.series[id].accounted <= U64_MAX
    ensures s.series[id].asset in cfg.eventFor && cfg.eventFor[s.series[id].asset] == id
  {
    assert SeriesOk(cfg, s, id);
    var asset := s.series[id].asset;
    assert AssetConserved(cfg, s, asset);
    assert NonNegative(s, CollateralOf(Seller, asset)) && NonNegative(s, CollateralOf(Buyer, asset));
    assert Balance(s, CollateralOf(who, asset)) == Lookup(s.collateral, (who, asset));
    assert who.Seller? || who.Buyer?;
  }

  lemma RedeemableFacts(cfg: Config, s: State, id: string, who: Holder, side: Side, claim: nat)
    requires ConfigOk(cfg) && Inv(cfg, s) && id in s.series && s.series[id].phase.Settled?
    requires 0 < claim <= ClaimBalance(ClaimsFor(s, who, id), side)
    ensures id in cfg.events && claim <= Supply(s.series[id], side) && s.series[id].originalSupply > 0
    ensures Owed(s.series[id], side, claim) <= PoolOf(s.series[id], side) <= s.series[id].accounted
    ensures PhaseOk(cfg.events[id], Paid(s.series[id], side, claim, Owed(s.series[id], side, claim)))
    ensures IsRaw(Lookup(s.collateral, (who, s.series[id].asset)) + Owed(s.series[id], side, claim))
  {
    HolderWithin(cfg, s, id, who, side);
    assert SeriesOk(cfg, s, id);
    PaidKeeps(cfg.events[id], s.series[id], side, claim);
    CollateralFits(cfg, s, id, who);
    assert NonNegative(s, CollateralOf(who, s.series[id].asset));
  }

  /** In every reachable state a previewed redemption goes through: neither the pool nor the collateral check can fail. */
  lemma RedeemsWhatItPreviews(cfg: Config, s: State, id: string, who: Holder, side: Side, claim: int)
    requires ConfigOk(cfg) && Inv(cfg, s) && !s.condition.Paused?
    ensures var p := PreviewRedemption(s, id, who, side, claim); var r := Redeem(s, id, who, side, claim);
      if p.Err? then r == Err(p.error)
      else id in s.series && p.value <= PoolOf(s.series[id], side) && r == Ok(Redeemed(s, id, who, side, claim, p.value))
  {
    var p := PreviewRedemption(s, id, who, side, claim);
    if p.Ok? { RedeemableFacts(cfg, s, id, who, side, claim); }
  }

  lemma RedeemedHeld(s: State, id: string, who: Holder, side: Side, claim: nat, payout: nat, d: Side)
    requires id in s.series && payout <= PoolOf(s.series[id], side)
    ensures Held(Redeemed(s, id, who, side, claim, payout), id, d) == Held(s, id, d) - if d == side then claim else 0
  {
  }

  lemma RedeemedKeeps(cfg: Config, s: State, id: string, who: Holder, side: Side, claim: nat)
    requires ConfigOk(cfg) && Inv(cfg, s) && id in s.series && s.series[id].phase.Settled? && s.series[id].originalSupply > 0
    requires 0 < claim <= ClaimBalance(ClaimsFor(s, who, id), side)
    requires Owed(s.series[id], side, claim) <= PoolOf(s.series[id], side)
    ensures Inv(cfg, Redeemed(s, id, who, side, claim, Owed(s.series[id], side, claim)))
  {
    var payout := Owed(s.series[id], side, claim);
    var asset := s.series[id].asset;
    var changes, t := RedeemChanges(asset, id, who, side, claim, payout), Redeemed(s, id, who, side, claim, payout);
    RedeemableFacts(cfg, s, id, who, side, claim);
    RedeemEffect(s, id, who, side, claim, payout);
    CollateralFits(cfg, s, id, who);
    BackedIsBalanced(cfg, changes, who, asset, id, payout);
    RedeemedSeries(cfg, s, id, who, side, claim, payout);
    forall f ensures NonNegative(t, f) {
      assert NonNegative(s, f) && Moved(s, t, changes, f);
      RedeemDelta(asset, id, who, side, claim, payout, f);
    }
    CallKeeps(cfg, s, t, id, changes);
  }

  lemma RedeemedSeries(cfg: Config, s: State, id: string, who: Holder, side: Side, claim: nat, payout: nat)
    requires Inv(cfg, s) && id in s.series && id in cfg.events && payout <= PoolOf(s.series[id], side)
    requires PhaseOk(cfg.events[id], Paid(s.series[id], side, claim, payout))
    ensures SeriesOk(cfg, Redeemed(s, id, who, side, claim, payout), id)
  {
    assert SeriesOk(cfg, s, id);
    RedeemedHeld(s, id, who, side, claim, payout, Pt);
    RedeemedHeld(s, id, who, side, claim, payout, Dr);
  }

  // ----- recombination -----

  lemma RecombineDelta(asset: string, id: string, who: Holder, claim: int, f: Field)
    ensures Delta(RecombineChanges(asset, id, who, claim), f)
      == if f == CollateralOf(who, asset) then claim else if f == AccountedIn(id) || (f.ClaimOf? && f.who == who && f.series == id) then -claim else 0
  {
    Delta4(Change(ClaimOf(who, id, Pt), -claim), Change(ClaimOf(who, id, Dr), -claim), Change(CollateralOf(who, asset), claim), Change(AccountedIn(id), -claim), f);
    if f.ClaimOf? && f.who == who && f.series == id {
      assert f == ClaimOf(who, id, f.side) && (f.side.Pt? || f.side.Dr?);
    }
  }

  lemma RecombineEffect(s: State, id: string, who: Holder, claim: int)
    requires id in s.series
    ensures var asset := s.series[id].asset; var changes := RecombineChanges(asset, id, who, claim); var t := Recombined(s, id, who, claim);
      Effect(s, t, changes) && Backed(changes, who, asset, id, claim) && OnlyTouches(s, t, changes, id)
  {
    var asset := s.series[id].asset;
    var changes, t := RecombineChanges(asset, id, who, claim), Recombined(s, id, who, claim);
    forall f ensures Moved(s, t, changes, f) { RecombineDelta(asset, id, who, claim, f); }
    forall f ensures BackedAt(changes, who, asset, id, claim, f) { RecombineDelta(asset, id, who, claim, f); }
    forall w, x, d ensures x == id || ClaimUnmoved(changes, w, x, d) { RecombineDelta(asset, id, who, claim, ClaimOf(w, x, d)); }
  }

  /** The holder's claims are backed, and the collateral they give back fits. */
  lemma RecombinableFacts(cfg: Config, s: State, id: string, who: Holder, claim: int)
    requires ConfigOk(cfg) && Inv(cfg, s) && id in s.series && (s.series[id].phase.Open? || s.series[id].phase.Closed?)
    requires 0 < claim <= ClaimsFor(s, who, id).pt
    ensures id in cfg.events && EventOk(cfg.events[id]) && claim <= s.series[id].accounted
    ensures IsRaw(Lookup(s.collateral, (who, s.series[id].asset)) + claim)
  {
    HolderWithin(cfg, s, id, who, Pt);
    assert SeriesOk(cfg, s, id);
    CollateralFits(cfg, s, id, who);
    assert NonNegative(s, CollateralOf(who, s.series[id].asset));
  }

  /** In every reachable state recombination fails only for the reasons a holder can see. */
  lemma RecombineOkIff(cfg: Config, s: State, id: string, who: Holder, claim: int)
    requires ConfigOk(cfg) && Inv(cfg, s)
    ensures Recombine(cfg, s, id, who, claim).Ok? <==>
      && !s.condition.Paused? && 0 < claim <= U64_MAX && id in s.series && (s.series[id].phase.Open? || s.series[id].phase.Closed?)
      && claim <= ClaimsFor(s, who, id).pt && claim <= ClaimsFor(s, who, id).dr
      && (claim == s.series[id].accounted
          || (claim < s.series[id].accounted && id in cfg.events && EventOk(cfg.events[id]) && DrShare(cfg.events[id], s.series[id].accounted - claim) > 0))
  {
    if id in s.series && (s.series[id].phase.Open? || s.series[id].phase.Closed?) && 0 < claim <= ClaimsFor(s, who, id).pt {
      RecombinableFacts(cfg, s, id, who, claim);
    }
  }

  lemma RecombineKeeps(cfg: Config, s: State, id: string, who: Holder, claim: int)
    requires ConfigOk(cfg) && Inv(cfg, s) && Recombine(cfg, s, id, who, claim).Ok?
    ensures Inv(cfg, Recombine(cfg, s, id, who, claim).value)
  {
    RecombineOkIff(cfg, s, id, who, claim);
    RecombinedKeeps(cfg, s, id, who, claim);
  }

  lemma RecombinedKeeps(cfg: Config, s: State, id: string, who: Holder, claim: int)
    requires ConfigOk(cfg) && Inv(cfg, s) && id in s.series && (s.series[id].phase.Open? || s.series[id].phase.Closed?)
    requires 0 < claim <= s.series[id].accounted && claim <= ClaimsFor(s, who, id).pt && claim <= ClaimsFor(s, who, id).dr
    requires claim < s.series[id].accounted ==>
      id in cfg.events && EventOk(cfg.events[id]) && DrShare(cfg.events[id], s.series[id].accounted - claim) > 0
    ensures Inv(cfg, Recombined(s, id, who, claim))
  {
    var asset := s.series[id].asset;
    var changes, t := RecombineChanges(asset, id, who, claim), Recombined(s, id, who, claim);
    RecombineEffect(s, id, who, claim);
    CollateralFits(cfg, s, id, who);
    BackedIsBalanced(cfg, changes, who, asset, id, claim);
    RecombinedSeries(cfg, s, id, who, claim);
    forall f ensures NonNegative(t, f) {
      assert NonNegative(s, f) && Moved(s, t, changes, f);
      RecombineDelta(asset, id, who, claim, f);
    }
    CallKeeps(cfg, s, t, id, changes);
  }

  lemma RecombinedSeries(cfg: Config, s: State, id: string, who: Holder, claim: int)
    requires id in s.series && SeriesOk(cfg, s, id) && (s.series[id].phase.Open? || s.series[id].phase.Closed?)
    requires 0 < claim <= s.series[id].accounted
    requires claim < s.series[id].accounted ==>
      id in cfg.events && EventOk(cfg.events[id]) && DrShare(cfg.events[id], s.series[id].accounted - claim) > 0
    ensures SeriesOk(cfg, Recombined(s, id, who, claim), id)
  {
  }

  // ----- calls that move nothing -----

  lemma QuietKeeps(cfg: Config, s: State, t: State, id: string)
    requires Inv(cfg, s) && t.receipts == s.receipts + [[]] && SeriesOk(cfg, t, id)
    requires t.collateral == s.collateral && t.usdc == s.usdc && t.claims == s.claims && id in s.series
    requires exists r: Series :: r.accounted == s.series[id].accounted && t.series == s.series[id := r]
    ensures Inv(cfg, t)
  {
    forall f ensures Moved(s, t, [], f) { assert Delta([], f) == 0; }
    forall a ensures AssetBalanced(cfg, [], a) { }
    forall f ensures NonNegative(t, f) { assert NonNegative(s, f) && Moved(s, t, [], f); }
    CallKeeps(cfg, s, t, id, []);
  }

  lemma CloseKeeps(cfg: Config, s: State, id: string)
    requires Inv(cfg, s) && CloseDeposits(s, id).Ok?
    ensures Inv(cfg, CloseDeposits(s, id).value)
  {
    var t := CloseDeposits(s, id).value;
    assert SeriesOk(cfg, s, id);
    var r := s.series[id].(phase := Closed);
    assert t.series == s.series[id := r];
    QuietKeeps(cfg, s, t, id);
  }

  /** Once deposits are closed nothing but the demo condition can stop settlement. */
  lemma SettleOkIff(cfg: Config, s: State, id: string)
    requires ConfigOk(cfg) && Inv(cfg, s)
    ensures Settle(cfg, s, id).Ok? <==> s.condition.Ready? && id in s.series && s.series[id].phase.Closed?
  {
    if id in s.series && s.series[id].phase.Closed? {
      assert SeriesOk(cfg, s, id);
      CollateralFits(cfg, s, id, Seller);
      assert NonNegative(s, CollateralOf(Seller, s.series[id].asset));
    }
  }

  lemma FrozenSeries(e: Event, r: Series, dr: nat)
    requires PairedOk(e, r) && IsRaw(r.accounted) && dr == DrShare(e, r.accounted)
    ensures dr < r.accounted
    ensures dr * e.whole <= r.accounted * e.rise < (dr + 1) * e.whole
    ensures SettledOk(r.(originalSupply := r.accounted, originalPt := r.accounted - dr, originalDr := dr, ptPool := r.accounted - dr, drPool := dr, phase := Settled))
  {
    ShareBounds(e, r.accounted);
    ShareIsFloor(e, r.accounted);
    Redemption.EntitledWhole(r.accounted - dr, r.accounted);
    Redemption.EntitledWhole(dr, r.accounted);
  }

  lemma SettleKeeps(cfg: Config, s: State, id: string)
    requires ConfigOk(cfg) && Inv(cfg, s) && Settle(cfg, s, id).Ok?
    ensures Inv(cfg, Settle(cfg, s, id).value)
  {
    var t := Settle(cfg, s, id).value;
    assert SeriesOk(cfg, s, id);
    var series := s.series[id];
    var dr := DrShare(cfg.events[id], series.accounted);
    FrozenSeries(cfg.events[id], series, dr);
    assert t == Frozen(s, id, dr);
    assert t.series == s.series[id := t.series[id]] && t.series[id].accounted == series.accounted;
    QuietKeeps(cfg, s, t, id);
  }

  // ----- runs -----

  /** A call that changes no balance, series or receipt. */
  lemma BookkeepingKeeps(cfg: Config, s: State, t: State)
    requires Inv(cfg, s) && t == s.(version := t.version, condition := t.condition, quotes := t.quotes,
                                         generation := t.generation, quoteCounter := t.quoteCounter)
    ensures Inv(cfg, t)
  {
    assert forall f :: Balance(t, f) == Balance(s, f);
    forall f ensures Replayed(cfg, t, f) { assert Replayed(cfg, s, f); }
    forall a ensures AssetConserved(cfg, t, a) { assert AssetConserved(cfg, s, a); }
    forall f ensures NonNegative(t, f) { assert NonNegative(s, f); }
    forall id ensures SeriesOk(cfg, t, id) { assert SeriesOk(cfg, s, id); }
  }

  lemma InitialField(cfg: Config, f: Field)
    requires ConfigOk(cfg)
    ensures Replayed(cfg, Initial(cfg), f) && NonNegative(Initial(cfg), f)
  {
    assert Recorded([], f) == 0;
  }

  lemma InitialAsset(cfg: Config, a: string)
    requires ConfigOk(cfg)
    ensures AssetConserved(cfg, Initial(cfg), a)
  {
    assert (Buyer, a) !in cfg.opening;
  }

  lemma InitialSeries(cfg: Config, id: string)
    ensures SeriesOk(cfg, Initial(cfg), id)
  {
  }

  lemma InitialOk(cfg: Config)
    requires ConfigOk(cfg)
    ensures Inv(cfg, Initial(cfg))
  {
    var s := Initial(cfg);
    forall f ensures Replayed(cfg, s, f) && NonNegative(s, f) { InitialField(cfg, f); }
    forall a ensures AssetConserved(cfg, s, a) { InitialAsset(cfg, a); }
    forall id ensures SeriesOk(cfg, s, id) { InitialSeries(cfg, id); }
  }

  lemma ResetKeeps(cfg: Config, generation: nat, quoteCounter: nat)
    requires ConfigOk(cfg)
    ensures Inv(cfg, Initial(cfg).(generation := generation, quoteCounter := quoteCounter))
  {
    InitialOk(cfg);
    BookkeepingKeeps(cfg, Initial(cfg), Initial(cfg).(generation := generation, quoteCounter := quoteCounter));
  }

  /** Quotes are for positive amounts. */
  ghost predicate QuotesOk(s: State)
  {
    forall q | q in s.quotes :: s.quotes[q].drRaw > 0 && s.quotes[q].usdcRaw > 0
  }

  lemma AcceptFacts(s: State, quoteId: QuoteId, reject: bool, now: int)
    requires QuotesOk(s)
    ensures var t := AcceptSale(s, quoteId, reject, now);
      if t.1.Some? then t.0 == s.(quotes := t.0.quotes)
      else quoteId in s.quotes
           && var q := s.quotes[quoteId];
              t.0 == Sold(s, quoteId, q) && q.series in s.series && 0 <= q.drRaw <= ClaimsFor(s, Seller, q.series).dr
              && 0 <= q.usdcRaw <= Lookup(s.usdc, Buyer)
  {
  }

  lemma AcceptKeeps(cfg: Config, s: State, quoteId: QuoteId, reject: bool, now: int)
    requires Inv(cfg, s) && QuotesOk(s)
    ensures Inv(cfg, AcceptSale(s, quoteId, reject, now).0)
  {
    AcceptFacts(s, quoteId, reject, now);
    var t := AcceptSale(s, quoteId, reject, now);
    if t.1.Some? { BookkeepingKeeps(cfg, s, t.0); } else { SaleKeeps(cfg, s, quoteId, s.quotes[quoteId]); }
  }

  lemma QuoteKeeps(cfg: Config, s: State, id: string, drRaw: int, usdcRaw: int, now: int)
    requires Inv(cfg, s) && QuoteSale(s, id, drRaw, usdcRaw, now).Ok?
    ensures Inv(cfg, QuoteSale(s, id, drRaw, usdcRaw, now).value)
  {
    BookkeepingKeeps(cfg, s, QuoteSale(s, id, drRaw, usdcRaw, now).value);
  }

  lemma RedeemKeeps(cfg: Config, s: State, id: string, who: Holder, side: Side, claim: int)
    requires ConfigOk(cfg) && Inv(cfg, s) && Redeem(s, id, who, side, claim).Ok?
    ensures Inv(cfg, Redeem(s, id, who, side, claim).value)
  {
    RedeemsWhatItPreviews(cfg, s, id, who, side, claim);
    RedeemedKeeps(cfg, s, id, who, side, claim);
  }

  lemma OutcomeKeeps(cfg: Config, s: State, c: Call)
    requires ConfigOk(cfg) && Inv(cfg, s) && !c.AcceptCall? && !c.ConditionCall? && !c.ResetCall? && Outcome(cfg, s, c).Ok?
    ensures Inv(cfg, Outcome(cfg, s, c).value)
  {
    match c
    case DepositCall(asset, raw) => DepositKeeps(cfg, s, asset, raw);
    case QuoteCall(id, drRaw, usdcRaw, now) => QuoteKeeps(cfg, s, id, drRaw, usdcRaw, now);
    case CloseCall(id) => CloseKeeps(cfg, s, id);
    case SettleCall(id) => SettleKeeps(cfg, s, id);
    case RedeemCall(id, who, side, claim) => RedeemKeeps(cfg, s, id, who, side, claim);
    case RecombineCall(id, who, claim) => RecombineKeeps(cfg, s, id, who, claim);
  }

  lemma KeptOutcome(cfg: Config, s: State, r: Result<State, Error>)
    requires Inv(cfg, s) && (r.Ok? ==> Inv(cfg, r.value))
    ensures Inv(cfg, Kept(s, r))
  {
  }

  lemma AcceptStep(cfg: Config, s: State, c: Call)
    requires Inv(cfg, s) && QuotesOk(s) && c.AcceptCall?
    ensures Inv(cfg, Apply(cfg, s, c))
  {
    AcceptKeeps(cfg, s, c.quoteId, c.reject, c.now);
  }

  lemma ConditionStep(cfg: Config, s: State, c: Call)
    requires Inv(cfg, s) && c.ConditionCall?
    ensures Inv(cfg, Apply(cfg, s, c))
  {
    BookkeepingKeeps(cfg, s, Apply(cfg, s, c));
  }

  lemma ResetStep(cfg: Config, s: State, c: Call)
    requires ConfigOk(cfg) && c.ResetCall?
    ensures Inv(cfg, Apply(cfg, s, c))
  {
    ResetKeeps(cfg, s.generation + 1, s.quoteCounter);
  }

  lemma ApplyKeeps(cfg: Config, s: State, c: Call)
    requires ConfigOk(cfg) && Inv(cfg, s) && QuotesOk(s)
    ensures Inv(cfg, Apply(cfg, s, c))
  {
    if c.AcceptCall? { AcceptStep(cfg, s, c); }
    else if c.ConditionCall? { ConditionStep(cfg, s, c); }
    else if c.ResetCall? { ResetStep(cfg, s, c); }
    else { OutcomeStep(cfg, s, c); }
  }

  lemma OutcomeStep(cfg: Config, s: State, c: Call)
    requires ConfigOk(cfg) && Inv(cfg, s) && !c.AcceptCall? && !c.ConditionCall? && !c.ResetCall?
    ensures Inv(cfg, Apply(cfg, s, c))
  {
    if Outcome(cfg, s, c).Ok? { OutcomeKeeps(cfg, s, c); }
    KeptOutcome(cfg, s, Outcome(cfg, s, c));
  }

  lemma ApplyKeepsQuotes(cfg: Config, s: State, c: Call)
    requires QuotesOk(s)
    ensures QuotesOk(Apply(cfg, s, c))
  {
  }

  lemma {:induction false} RunKeeps(cfg: Config, s: State, calls: seq<Call>)
    requires ConfigOk(cfg) && Inv(cfg, s) && QuotesOk(s)
    ensures Inv(cfg, Run(cfg, s, calls))
    decreases |calls|
  {
    if calls != [] {
      ApplyKeeps(cfg, s, calls[0]);
      ApplyKeepsQuotes(cfg, s, calls[0]);
      RunKeeps(cfg, Apply(cfg, s, calls[0]), calls[1..]);
    }
  }

  /**
   After every run of calls, failed ones included: the opening balances plus all receipts since the last reset are the
   current balances, USDC and every asset are conserved, no balance is negative, and every series is sound.
   */
  lemma RunIsSound(cfg: Config, calls: seq<Call>)
    requires ConfigOk(cfg)
    ensures Inv(cfg, Run(cfg, Initial(cfg), calls))
  {
    InitialOk(cfg);
    RunKeeps(cfg, Initial(cfg), calls);
  }

  /** In every reachable state a closed series settles as soon as the condition is ready. */
  lemma ClosedSeriesSettles(cfg: Config, calls: seq<Call>, id: string)
    requires ConfigOk(cfg)
    ensures var s := Run(cfg, Initial(cfg), calls);
      id in s.series && s.series[id].phase.Closed? && s.condition.Ready? ==> Settle(cfg, s, id).Ok?
  {
    RunIsSound(cfg, calls);
    SettleOkIff(cfg, Run(cfg, Initial(cfg), calls), id);
  }

  lemma DepositFits(cfg: Config, s: State, asset: string, raw: int)
    requires ConfigOk(cfg) && Inv(cfg, s) && asset in cfg.eventFor && 0 < raw <= Lookup(s.collateral, (Seller, asset))
    requires cfg.eventFor[asset] in s.series ==> s.series[cfg.eventFor[asset]].phase.Open?
    ensures var id := cfg.eventFor[asset];
      IsRaw(raw) && IsRaw(Balance(s, AccountedIn(id)) + raw) && IsRaw(ClaimsFor(s, Seller, id).pt + raw) && IsRaw(ClaimsFor(s, Seller, id).dr + raw)
  {
    var id := cfg.eventFor[asset];
    assert AssetConserved(cfg, s, asset) && SeriesOk(cfg, s, id);
    assert NonNegative(s, CollateralOf(Buyer, asset)) && NonNegative(s, AccountedIn(id));
    assert Balance(s, CollateralOf(Seller, asset)) == Lookup(s.collateral, (Seller, asset));
    assert NonNegative(s, ClaimOf(Seller, id, Pt)) && NonNegative(s, ClaimOf(Buyer, id, Pt));
    assert NonNegative(s, ClaimOf(Seller, id, Dr)) && NonNegative(s, ClaimOf(Buyer, id, Dr));
  }

  /** In every reachable state a deposit is refused only by the condition, the fixtures, the balance, the phase or a zero dividend. */
  lemma DepositOkIff(cfg: Config, s: State, asset: string, raw: int)
    requires ConfigOk(cfg) && Inv(cfg, s)
    ensures Deposit(cfg, s, asset, raw).Ok? <==>
      && s.condition.Ready? && asset in cfg.eventFor && 0 < raw <= Lookup(s.collateral, (Seller, asset))
      && (cfg.eventFor[asset] in s.series ==> s.series[cfg.eventFor[asset]].phase.Open?)
      && Balance(s, AccountedIn(cfg.eventFor[asset])) + raw >= 0
      && DrShare(cfg.events[cfg.eventFor[asset]], Balance(s, AccountedIn(cfg.eventFor[asset])) + raw) > 0
  {
    if asset in cfg.eventFor && 0 < raw <= Lookup(s.collateral, (Seller, asset))
       && (cfg.eventFor[asset] in s.series ==> s.series[cfg.eventFor[asset]].phase.Open?) {
      DepositFits(cfg, s, asset, raw);
    }
  }

  /** Whoever holds a side's last claims can redeem them for the rest of its pool, and a series ends when both sides have. */
  lemma LastClaimsPayThePool(cfg: Config, s: State, id: string, who: Holder, side: Side)
    requires ConfigOk(cfg) && Inv(cfg, s) && !s.condition.Paused? && id in s.series && s.series[id].phase.Settled?
    requires Supply(s.series[id], side) > 0 && ClaimBalance(ClaimsFor(s, who, id), side) == Supply(s.series[id], side)
    ensures var r := Redeem(s, id, who, side, Supply(s.series[id], side));
      r.Ok? && id in r.value.series && PoolOf(r.value.series[id], side) == 0
      && Lookup(r.value.collateral, (who, s.series[id].asset)) == Lookup(s.collateral, (who, s.series[id].asset)) + PoolOf(s.series[id], side)
      && (r.value.series[id].phase.Complete? <==> Supply(s.series[id], if side.Pt? then Dr else Pt) == 0)
  {
    var claim := Supply(s.series[id], side);
    LastClaimsPreview(cfg, s, id, who, side);
    RedeemsWhatItPreviews(cfg, s, id, who, side, claim);
    RedeemableFacts(cfg, s, id, who, side, claim);
  }

  lemma LastClaimsPreview(cfg: Config, s: State, id: string, who: Holder, side: Side)
    requires ConfigOk(cfg) && Inv(cfg, s) && id in s.series && s.series[id].phase.Settled?
    requires Supply(s.series[id], side) > 0 && ClaimBalance(ClaimsFor(s, who, id), side) == Supply(s.series[id], side)
    ensures PreviewRedemption(s, id, who, side, Supply(s.series[id], side)) == Ok(PoolOf(s.series[id], side))
    ensures PoolOf(s.series[id], side) > 0
  {
    assert SeriesOk(cfg, s, id);
    LastPays(s.series[id], side);
  }

  lemma LastPays(r: Series, side: Side)
    requires SettledOk(r) && Supply(r, side) > 0
    ensures Owed(r, side, Supply(r, side)) == PoolOf(r, side) > 0
  {
    assert SideOk(r, side);
    PaidSide(r, side, Supply(r, side));
    Redemption.EntitledAtMostPool(Burned(r, side), OriginalPool(r, side), r.originalSupply);
  }
}
