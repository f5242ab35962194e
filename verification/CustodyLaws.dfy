/** When custody is in order and a quote is given, in products and inequalities on the series' own fields. */
module CustodyLaws {
  import opened Prelude
  import opened Numbers
  import opened Redemption
  import ExactShares

  /** The side has been paid the floor of its share of the claims redeemed. */
  predicate PaidFloor(paid: int, redeemed: int, pool: int, supply: int)
  {
    paid * supply <= redeemed * pool < (paid + 1) * supply
  }

  predicate IsU64s(s: Series)
  {
    IsU64(s.finalSupply) && IsU64(s.ptPool) && IsU64(s.drPool) && IsU64(s.redeemedPt) && IsU64(s.redeemedDr) && IsU64(s.ptPaid) && IsU64(s.drPaid)
  }

  predicate Balanced(s: Series)
  {
    if s.finalSupply == 0
    then s.ptPool == 0 && s.drPool == 0 && s.redeemedPt == 0 && s.redeemedDr == 0 && s.ptPaid == 0 && s.drPaid == 0
    else s.ptPool + s.drPool == s.finalSupply && s.redeemedPt <= s.finalSupply && s.redeemedDr <= s.finalSupply
         && PaidFloor(s.ptPaid, s.redeemedPt, s.ptPool, s.finalSupply) && PaidFloor(s.drPaid, s.redeemedDr, s.drPool, s.finalSupply)
  }

  lemma AllU64Iff(s: Series)
    ensures AllU64(FinalAmounts(s)) <==> IsU64s(s)
  {
    var a := FinalAmounts(s);
    if IsU64s(s) {
      assert IsU64(a[0]) && IsU64(a[1]) && IsU64(a[2]) && IsU64(a[3]) && IsU64(a[4]) && IsU64(a[5]) && IsU64(a[6]);
    }
    if AllU64(a) { FinalAmountsU64(s); }
  }

  lemma PaidFloorIff(paid: nat, redeemed: nat, pool: nat, supply: nat)
    requires supply > 0
    ensures PaidFloor(paid, redeemed, pool, supply) <==> paid == Entitled(redeemed, pool, supply)
    ensures redeemed <= supply ==> Entitled(redeemed, pool, supply) <= pool
  {
    ExactShares.EntitledIsFloor(redeemed, pool, supply);
    if PaidFloor(paid, redeemed, pool, supply) { FloorUnique(redeemed * pool, supply, paid); }
    if redeemed <= supply { EntitledAtMostPool(redeemed, pool, supply); }
  }

  /**
   Custody can be told exactly when the amounts fit and, once finalized, the pools make up the supply and each side has
   been paid the floor of its share; before that the claim is the accountable amount, after it what is left of the pools.
   */
  lemma RequiredCustodyIff(s: Series)
    ensures RequiredCustody(s).Ok? <==> IsU64(s.accountable) && (s.phase.Finalized? ==> IsU64s(s) && Balanced(s))
    ensures RequiredCustody(s).Ok? ==>
      RequiredCustody(s).value == if s.phase.Finalized? then s.ptPool + s.drPool - s.ptPaid - s.drPaid else s.accountable
  {
    AllU64Iff(s);
    if s.phase.Finalized? && IsU64s(s) && s.finalSupply > 0 {
      PaidFloorIff(s.ptPaid, s.redeemedPt, s.ptPool, s.finalSupply);
      PaidFloorIff(s.drPaid, s.redeemedDr, s.drPool, s.finalSupply);
    }
  }

  /** The SDK pays for at least one claim within the supply; the program also accepts none, and an empty supply pays nothing. */
  lemma PayoutsOkIff(pool: int, supply: int, before: int, burn: int)
    ensures SdkPayout(pool, supply, before, burn).Ok? <==>
      0 <= pool <= MAX_U64 && 1 <= supply <= MAX_U64 && 0 <= before && 1 <= burn && before + burn <= supply
    ensures 0 <= pool <= MAX_U64 && 0 <= supply <= MAX_U64 && 0 <= before <= MAX_U64 && 0 <= burn <= MAX_U64 ==>
      (ChainPayout(before, burn, pool, supply).Ok? <==> if supply == 0 then burn == 0 else before + burn <= supply)
  {
    if 0 <= pool <= MAX_U64 && 0 < supply <= MAX_U64 && 0 <= before && 0 <= burn && before + burn <= supply {
      EntitledAtMostPool(before + burn, pool, supply);
    }
  }

  function Paid(s: Series, side: Side): int { if side.Pt? then s.ptPaid else s.drPaid }

  /** A redemption of claims the caller owns is quoted exactly from a finalized series with healthy custody, within the supply, for a payout. */
  lemma RedemptionQuotedIff(s: Series, vault: int, side: Side, amount: int, owned: int, allowZero: bool)
    ensures QuoteRedemption(s, vault, side, amount, owned, allowZero).Ok? <==>
      && 1 <= amount <= owned <= MAX_U64 && s.phase.Finalized? && RequiredCustody(s).Ok? && RequiredCustody(s).value <= vault <= MAX_U64
      && 0 < s.finalSupply && RedeemedOf(s, side) + amount <= s.finalSupply
      && (allowZero || !PaidFloor(Paid(s, side), RedeemedOf(s, side) + amount, PoolOf(s, side), s.finalSupply))
    ensures QuoteRedemption(s, vault, side, amount, owned, allowZero).Ok? ==>
      PaidFloor(Paid(s, side) + QuoteRedemption(s, vault, side, amount, owned, allowZero).value,
                RedeemedOf(s, side) + amount, PoolOf(s, side), s.finalSupply)
  {
    RequiredCustodyIff(s);
    if s.phase.Finalized? && RequiredCustody(s).Ok? && s.finalSupply > 0 && 1 <= amount && RedeemedOf(s, side) + amount <= s.finalSupply {
      var before, pool, supply := RedeemedOf(s, side), PoolOf(s, side), s.finalSupply;
      PaidFloorIff(Paid(s, side), before, pool, supply);
      PaidFloorIff(Paid(s, side), before + amount, pool, supply);
      PaidFloorIff(Entitled(before + amount, pool, supply), before + amount, pool, supply);
    }
  }

  /** Recombining owned pairs is quoted exactly before finalization, from healthy custody, up to the accountable amount, one for one. */
  lemma RecombineQuotedIff(s: Series, vault: int, amount: int, ownedPt: int, ownedDr: int)
    ensures QuoteRecombine(s, vault, amount, ownedPt, ownedDr).Ok? <==>
      && 1 <= amount <= ownedPt <= MAX_U64 && amount <= ownedDr <= MAX_U64 && !s.phase.Finalized?
      && 0 <= s.accountable <= MAX_U64 && s.accountable <= vault <= MAX_U64 && amount <= s.accountable
    ensures QuoteRecombine(s, vault, amount, ownedPt, ownedDr).Ok? ==> QuoteRecombine(s, vault, amount, ownedPt, ownedDr).value == amount
  {
  }
}
