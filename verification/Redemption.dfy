/**
 Cumulative redemption and custody: packages/transaction-sdk/src/arithmetic.ts and quotes.ts, and
 redemption_payout of programs/dividendx/src/math.rs.
 */
module Redemption {
  import opened Prelude
  import opened Numbers
  import opened Bytes
  import OnChain = OnChainMath

  const MAX_U64: nat := 0xffff_ffff_ffff_ffff

  datatype QuoteError = InvalidAmount | InvalidSeries | InvalidQuote

  // ----- entitlement -----

  /** What the first `claims` redeemed claims of one side are paid in total. */
  function Entitled(claims: nat, pool: nat, supply: nat): nat
    requires supply > 0
  {
    OnChain.Times(claims, pool) / supply
  }

  lemma EntitledMonotone(a: nat, b: nat, pool: nat, supply: nat)
    requires supply > 0 && a <= b
    ensures Entitled(a, pool, supply) <= Entitled(b, pool, supply)
  {
    FloorSpec(a * pool, supply);
    FloorSpec(b * pool, supply);
    MulMono(a, pool, b, pool);
    CancelMul(supply, Entitled(a, pool, supply), Entitled(b, pool, supply) + 1);
  }

  lemma EntitledWhole(pool: nat, supply: nat)
    requires supply > 0
    ensures Entitled(supply, pool, supply) == pool && Entitled(0, pool, supply) == 0
  {
    DivMul(OnChain.Times(supply, pool), supply, pool);
  }

  lemma EntitledAtMostPool(claims: nat, pool: nat, supply: nat)
    requires supply > 0 && claims <= supply
    ensures Entitled(claims, pool, supply) <= pool
    ensures claims < supply && pool > 0 ==> Entitled(claims, pool, supply) < pool
  {
    EntitledMonotone(claims, supply, pool, supply);
    EntitledWhole(pool, supply);
    if claims < supply && pool > 0 {
      MulLess(claims, pool, supply, pool);
      FloorSpec(claims * pool, supply);
      CancelMul(supply, Entitled(claims, pool, supply), pool);
    }
  }

  // ----- one payout -----

  /** cumulativeRedemptionPayout */
  function SdkPayout(pool: int, supply: int, before: int, burn: int): Result<nat, QuoteError>
  {
    if !(0 <= pool <= MAX_U64) || !(1 <= supply <= MAX_U64) || !(0 <= before <= MAX_U64) || !(1 <= burn <= MAX_U64) then Err(InvalidAmount)
    else if before + burn > supply then Err(InvalidAmount)
    else
      EntitledMonotone(before, before + burn, pool, supply);
      Ok(Entitled(before + burn, pool, supply) - Entitled(before, pool, supply))
  }

  /** redemption_payout; u128 holds every product of two u64 values. */
  function ChainPayout(before: U64, amount: U64, pool: U64, supply: U64): Result<nat, OnChain.ChainError>
  {
    if supply == 0 then if amount == 0 then Ok(0) else Err(OnChain.RedemptionExceedsSupply)
    else if before + amount > MAX_U64 then Err(OnChain.ArithmeticOverflow)
    else if before + amount > supply then Err(OnChain.RedemptionExceedsSupply)
    else
      EntitledMonotone(before, before + amount, pool, supply);
      var payout := Entitled(before + amount, pool, supply) - Entitled(before, pool, supply);
      if payout > MAX_U64 then Err(OnChain.ArithmeticOverflow) else Ok(payout)
  }

  /** Program and SDK refuse the same redemptions and pay the same amounts. */
  lemma PayoutsAgree(before: U64, amount: U64, pool: U64, supply: U64)
    requires amount > 0
    ensures SdkPayout(pool, supply, before, amount).Ok? <==> ChainPayout(before, amount, pool, supply).Ok?
    ensures SdkPayout(pool, supply, before, amount).Ok? ==>
      SdkPayout(pool, supply, before, amount).value == ChainPayout(before, amount, pool, supply).value
  {
    if supply > 0 && before + amount <= supply {
      EntitledAtMostPool(before + amount, pool, supply);
    }
  }

  /** Every call pays its proportional share rounded down or up, never off by more. */
  lemma PayoutIsRoundedShare(before: nat, amount: nat, pool: nat, supply: nat)
    requires supply > 0
    ensures var payout := Entitled(before + amount, pool, supply) - Entitled(before, pool, supply);
      var share := Entitled(amount, pool, supply);
      share <= payout <= share + if OnChain.Times(amount, pool) % supply == 0 then 0 else 1
  {
    var x, y := before * pool, amount * pool;
    assert (before + amount) * pool == x + y;
    FloorOfSum(x, y, supply);
  }

  lemma FloorOfSum(x: nat, y: nat, d: nat)
    requires d > 0
    ensures y / d <= (x + y) / d - x / d <= y / d + if y % d == 0 then 0 else 1
  {
    var a, b := x / d, y / d;
    var r, s := x % d, y % d;
    assert x == a * d + r && y == b * d + s;
    Distribute(d, a, b);
    if r + s < d {
      FloorUnique(x + y, d, a + b) by { assert (a + b + 1) * d == (a + b) * d + d; }
    } else {
      FloorUnique(x + y, d, a + b + 1) by {
        assert (a + b + 1) * d == (a + b) * d + d;
        assert (a + b + 2) * d == (a + b) * d + 2 * d;
      }
    }
  }

  // ----- whole redemption histories of one side -----

  /** Claims redeemed and units paid so far. */
  datatype Tally = Tally(redeemed: nat, paid: nat)

  /** Calls of cumulativeRedemptionPayout in order, each on what was redeemed before; a refused call changes nothing. */
  function Tallied(calls: seq<int>, pool: int, supply: int): Tally
  {
    if calls == [] then Tally(0, 0)
    else
      var before := Tallied(calls[..|calls| - 1], pool, supply);
      var burn := calls[|calls| - 1];
      var out := SdkPayout(pool, supply, before.redeemed, burn);
      if out.Err? || burn < 0 then before else Tally(before.redeemed + burn, before.paid + out.value)
  }

  /**
   However redemptions are split, ordered and interleaved with refused calls, the total paid is the floor of the share
   of the total redeemed; redeeming the whole supply pays the whole pool, and no more can be redeemed.
   */
  lemma {:induction false} PathIndependent(calls: seq<int>, pool: U64, supply: U64)
    requires supply > 0
    ensures var t := Tallied(calls, pool, supply);
      t.redeemed <= supply && t.paid == Entitled(t.redeemed, pool, supply) && (t.redeemed == supply ==> t.paid == pool)
  {
    EntitledWhole(pool, supply);
    if calls != [] { PathIndependent(calls[..|calls| - 1], pool, supply); }
  }

  /** The call that completes the supply is paid at least one unit of a non-empty pool. */
  lemma LastCallPays(before: nat, amount: nat, pool: nat, supply: nat)
    requires supply > 0 && amount > 0 && before + amount == supply && pool > 0
    ensures Entitled(supply, pool, supply) - Entitled(before, pool, supply) >= 1
  {
    EntitledWhole(pool, supply);
    EntitledAtMostPool(before, pool, supply);
  }

  // ----- custody -----

  datatype Side = Pt | Dr
  datatype Phase = Open | Sealing | Finalized

  datatype Series = Series(
    phase: Phase, accountable: int, finalSupply: int, ptPool: int, drPool: int,
    redeemedPt: int, redeemedDr: int, ptPaid: int, drPaid: int)

  predicate IsU64(x: int) { 0 <= x <= MAX_U64 }

  function FinalAmounts(s: Series): seq<int>
  {
    [s.finalSupply, s.ptPool, s.drPool, s.redeemedPt, s.redeemedDr, s.ptPaid, s.drPaid]
  }

  predicate AllU64(amounts: seq<int>)
  {
    forall i | 0 <= i < |amounts| :: IsU64(amounts[i])
  }

  /** The consistency checks of a finalized series with claims. */
  predicate Consistent(s: Series)
    requires AllU64(FinalAmounts(s)) && s.finalSupply > 0
  {
    FinalAmountsU64(s);
    && s.ptPool + s.drPool == s.finalSupply
    && s.redeemedPt <= s.finalSupply && s.redeemedDr <= s.finalSupply
    && s.ptPaid <= s.ptPool && s.drPaid <= s.drPool
    && s.ptPaid == Entitled(s.redeemedPt, s.ptPool, s.finalSupply)
    && s.drPaid == Entitled(s.redeemedDr, s.drPool, s.finalSupply)
  }

  lemma FinalAmountsU64(s: Series)
    requires AllU64(FinalAmounts(s))
    ensures IsU64(s.finalSupply) && IsU64(s.ptPool) && IsU64(s.drPool)
    ensures IsU64(s.redeemedPt) && IsU64(s.redeemedDr) && IsU64(s.ptPaid) && IsU64(s.drPaid)
  {
    var a := FinalAmounts(s);
    assert IsU64(a[0]) && IsU64(a[1]) && IsU64(a[2]) && IsU64(a[3]) && IsU64(a[4]) && IsU64(a[5]) && IsU64(a[6]);
  }

  predicate AllZero(s: Series)
  {
    s.ptPool == 0 && s.drPool == 0 && s.redeemedPt == 0 && s.redeemedDr == 0 && s.ptPaid == 0 && s.drPaid == 0
  }

  function RequiredCustody(s: Series): Result<int, QuoteError>
  {
    if !IsU64(s.accountable) then Err(InvalidAmount)
    else if !s.phase.Finalized? then Ok(s.accountable)
    else if !AllU64(FinalAmounts(s)) then Err(InvalidAmount)
    else
      FinalAmountsU64(s);
      if s.finalSupply == 0 then if AllZero(s) then Ok(0) else Err(InvalidSeries)
      else if !Consistent(s) then Err(InvalidSeries)
      else Ok(s.ptPool - s.ptPaid + s.drPool - s.drPaid)
  }

  method RequiredCustodyRaw(s: Series) returns (r: Result<int, QuoteError>)
    ensures r == RequiredCustody(s)
  {
    if !IsU64(s.accountable) { return Err(InvalidAmount); }
    if !s.phase.Finalized? { return Ok(s.accountable); }
    var amounts := FinalAmounts(s);
    for i := 0 to |amounts|
      invariant AllU64(amounts[..i])
    {
      if !IsU64(amounts[i]) { return Err(InvalidAmount); }
    }
    assert amounts[..|amounts|] == amounts;
    FinalAmountsU64(s);
    if s.finalSupply == 0 { return if AllZero(s) then Ok(0) else Err(InvalidSeries); }
    if s.ptPool + s.drPool != s.finalSupply { return Err(InvalidSeries); }
    if s.redeemedPt > s.finalSupply || s.redeemedDr > s.finalSupply { return Err(InvalidSeries); }
    if s.ptPaid > s.ptPool || s.drPaid > s.drPool { return Err(InvalidSeries); }
    if s.ptPaid != Entitled(s.redeemedPt, s.ptPool, s.finalSupply) { return Err(InvalidSeries); }
    if s.drPaid != Entitled(s.redeemedDr, s.drPool, s.finalSupply) { return Err(InvalidSeries); }
    return Ok(s.ptPool - s.ptPaid + s.drPool - s.drPaid);
  }

  predicate Healthy(s: Series, vault: int)
  {
    IsU64(vault) && RequiredCustody(s).Ok? && vault >= RequiredCustody(s).value
  }

  function PoolOf(s: Series, side: Side): int { if side.Pt? then s.ptPool else s.drPool }
  function RedeemedOf(s: Series, side: Side): int { if side.Pt? then s.redeemedPt else s.redeemedDr }

  /** quoteRedemption: the collateral output, or a refusal. */
  function QuoteRedemption(s: Series, vault: int, side: Side, amount: int, owned: int, allowZero: bool): Result<nat, QuoteError>
  {
    if !(1 <= amount <= MAX_U64) || !IsU64(owned) then Err(InvalidAmount)
    else if amount > owned || !s.phase.Finalized? || !Healthy(s, vault) then Err(InvalidQuote)
    else
      var out := SdkPayout(PoolOf(s, side), s.finalSupply, RedeemedOf(s, side), amount);
      if out.Err? then out else if out.value == 0 && !allowZero then Err(InvalidQuote) else out
  }

  /** The series after a redemption pays `output` for `amount` claims. */
  function AfterRedemption(s: Series, side: Side, amount: int, output: int): Series
  {
    if side.Pt? then s.(redeemedPt := s.redeemedPt + amount, ptPaid := s.ptPaid + output)
    else s.(redeemedDr := s.redeemedDr + amount, drPaid := s.drPaid + output)
  }

  /** Paying a quoted redemption keeps every consistency check and leaves a healthy vault healthy. */
  lemma QuotedRedemptionKeepsHealth(s: Series, vault: int, side: Side, amount: int, owned: int, allowZero: bool)
    requires QuoteRedemption(s, vault, side, amount, owned, allowZero).Ok?
    ensures var output := QuoteRedemption(s, vault, side, amount, owned, allowZero).value;
      var after := AfterRedemption(s, side, amount, output);
      && RequiredCustody(after).Ok?
      && RequiredCustody(after).value == RequiredCustody(s).value - output
      && Healthy(after, vault - output)
  {
    var output := QuoteRedemption(s, vault, side, amount, owned, allowZero).value;
    FinalAmountsU64(s);
    var pool, redeemed := PoolOf(s, side), RedeemedOf(s, side);
    EntitledAtMostPool(redeemed + amount, pool, s.finalSupply);
    var after := AfterRedemption(s, side, amount, output);
    var a := FinalAmounts(after);
    assert AllU64(a) by {
      assert IsU64(a[0]) && IsU64(a[1]) && IsU64(a[2]) && IsU64(a[3]) && IsU64(a[4]) && IsU64(a[5]) && IsU64(a[6]);
    }
    FinalAmountsU64(after);
    assert Consistent(after);
  }

  /** quoteRecombine */
  function QuoteRecombine(s: Series, vault: int, amount: int, ownedPt: int, ownedDr: int): Result<int, QuoteError>
  {
    if !(1 <= amount <= MAX_U64) || !IsU64(ownedPt) || !IsU64(ownedDr) then Err(InvalidAmount)
    else if amount > ownedPt || amount > ownedDr || s.phase.Finalized? || !Healthy(s, vault) || amount > s.accountable then Err(InvalidQuote)
    else Ok(amount)
  }

  lemma QuotedRecombineKeepsHealth(s: Series, vault: int, amount: int, ownedPt: int, ownedDr: int)
    requires QuoteRecombine(s, vault, amount, ownedPt, ownedDr).Ok?
    ensures Healthy(s.(accountable := s.accountable - amount), vault - amount)
  {
  }

  // ----- a whole redemption run -----

  datatype Order = Order(side: Side, amount: int, owned: int, allowZero: bool)

  /** A run of redemptions; a refused one changes nothing. */
  function Redeem(s: Series, vault: int, orders: seq<Order>): (Series, int)
    decreases |orders|
  {
    if orders == [] then (s, vault)
    else
      var o := orders[0];
      var quote := QuoteRedemption(s, vault, o.side, o.amount, o.owned, o.allowZero);
      if quote.Err? then Redeem(s, vault, orders[1..])
      else Redeem(AfterRedemption(s, o.side, o.amount, quote.value), vault - quote.value, orders[1..])
  }

  /** Over any run, each side has been paid exactly its entitlement, and the vault covers what is left. */
  lemma {:induction false} RunStaysHealthy(s: Series, vault: int, orders: seq<Order>)
    requires s.phase.Finalized? && s.finalSupply > 0 && Healthy(s, vault)
    ensures var (t, v) := Redeem(s, vault, orders);
      && Healthy(t, v) && t.phase.Finalized?
      && t.finalSupply == s.finalSupply && t.ptPool == s.ptPool && t.drPool == s.drPool
      && AllU64(FinalAmounts(t)) && Consistent(t)
      && vault - v == (t.ptPaid - s.ptPaid) + (t.drPaid - s.drPaid)
    decreases |orders|
  {
    if orders != [] {
      var o := orders[0];
      var quote := QuoteRedemption(s, vault, o.side, o.amount, o.owned, o.allowZero);
      if quote.Ok? {
        QuotedRedemptionKeepsHealth(s, vault, o.side, o.amount, o.owned, o.allowZero);
        RunStaysHealthy(AfterRedemption(s, o.side, o.amount, quote.value), vault - quote.value, orders[1..]);
      } else {
        RunStaysHealthy(s, vault, orders[1..]);
      }
    }
  }
}
