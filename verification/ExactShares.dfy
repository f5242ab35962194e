/**
 What the pools and payouts are, in products and inequalities only: the dividend pool of program, SDK and annual model
 is the largest whole number of units not above the dividend's share, and a payout total is the floor of its share.
 */
module ExactShares {
  import opened Prelude
  import opened Numbers
  import opened Bytes
  import opened SdkArithmetic
  import opened RetentionIndex
  import opened AnnualModel
  import AnnualOrder
  import Redemption
  import OnChain = OnChainMath

  lemma ShareIsFloor(quantity: nat, n: nat, d: nat)
    requires 0 < d && n <= d
    ensures var dr := OnChain.Share(quantity, n, d); dr * d <= quantity * (d - n) < (dr + 1) * d
  {
    FloorSpec(quantity * (d - n), d);
  }

  /** split_pools accepts positive ratios of at most one, and pays the floor. */
  lemma ChainSplitIsFloor(quantity: U64, numeratorBytes: seq<Byte>, denominatorBytes: seq<Byte>)
    requires OnChain.SplitPools(quantity, numeratorBytes, denominatorBytes).Ok?
    ensures var (pt, dr) := OnChain.SplitPools(quantity, numeratorBytes, denominatorBytes).value;
      var n, d := LeValue(numeratorBytes), LeValue(denominatorBytes);
      0 < n <= d && pt + dr == quantity && dr * d <= quantity * (d - n) < (dr + 1) * d
  {
    ShareIsFloor(quantity, LeValue(numeratorBytes), LeValue(denominatorBytes));
  }

  /** allocationFromRetention accepts exactly the ratios of at most one, and pays the floor. */
  lemma SdkSplitIsFloor(accountable: U64, r: Rational)
    ensures AllocationFromRetention(accountable, r).Ok? <==> 0 < r.denominator && r.numerator <= r.denominator
    ensures AllocationFromRetention(accountable, r).Ok? ==>
      var (pt, dr) := AllocationFromRetention(accountable, r).value;
      pt + dr == accountable && dr * r.denominator <= accountable * (r.denominator - r.numerator) < (dr + 1) * r.denominator
  {
    if r.denominator > 0 {
      ReduceOk(r);
      var s := Reduce(r);
      SameOrder(s, r);
      if r.numerator <= r.denominator {
        FloorOfComplement(accountable, s.numerator, s.denominator, r.numerator, r.denominator);
        ShareIsFloor(accountable, r.numerator, r.denominator);
      }
    }
  }

  lemma SameOrder(s: Rational, r: Rational)
    requires s.denominator > 0 && r.denominator > 0 && SameRatio(s, r)
    ensures s.numerator <= s.denominator <==> r.numerator <= r.denominator
  {
    CancelMul(r.denominator, s.numerator, s.denominator);
    CancelMul(s.denominator, r.numerator, r.denominator);
  }

  /** What the first claims of a side are paid in total. */
  lemma EntitledIsFloor(claims: nat, pool: nat, supply: nat)
    requires supply > 0
    ensures var paid := Redemption.Entitled(claims, pool, supply); paid * supply <= claims * pool < (paid + 1) * supply
  {
    FloorSpec(claims * pool, supply);
  }

  /** previewAllocation */
  lemma AllocationIsFloor(cfg: Config, s: State)
    requires JournalOk(cfg, s) && s.accountable >= 0
    ensures var (pt, dr) := Allocation(cfg, s); var index := IndexNow(cfg, s);
      pt + dr == s.accountable
      && dr * index.denominator <= s.accountable * (index.denominator - index.numerator) < (dr + 1) * index.denominator
  {
    var index := IndexNow(cfg, s);
    ShareIsFloor(s.accountable, index.numerator, index.denominator);
  }

  /** The snapshot prices the accountable amount at the index of the recorded events. */
  ghost predicate Priced(cfg: Config, s: State)
    requires JournalOk(cfg, s)
  {
    s.snapshot.Some? ==>
      var snap, index := s.snapshot.value, IndexNow(cfg, s);
      && snap.index == index && snap.accountable == snap.denominator == s.accountable == snap.ptPool + snap.drPool
      && snap.drPool * index.denominator <= s.accountable * (index.denominator - index.numerator)
      && s.accountable * (index.denominator - index.numerator) < (snap.drPool + 1) * index.denominator
  }

  lemma FinalizePrices(cfg: Config, s: State, now: int, ledgerComplete: bool)
    requires JournalOk(cfg, s) && s.accountable >= 0 && Finalize(cfg, s, now, ledgerComplete).1.Ok?
    ensures var t := Finalize(cfg, s, now, ledgerComplete).0;
      JournalOk(cfg, t) && t.snapshot.Some? && Priced(cfg, t)
      && t.remainingPt == t.snapshot.value.ptPool && t.remainingDr == t.snapshot.value.drPool
  {
    var t := Finalize(cfg, s, now, ledgerComplete).0;
    JournalSame(cfg, s, t);
    assert IndexNow(cfg, t) == IndexNow(cfg, s);
    AllocationIsFloor(cfg, s);
  }

  lemma OnlyFinalizeSnapshots(cfg: Config, s: State, op: Op)
    requires JournalOk(cfg, s) && s.accountable >= 0 && s.snapshot.None? && !op.FinalizeOp?
    ensures Apply(cfg, s, op).0.snapshot.None?
  {
  }

  lemma PricedStays(cfg: Config, s: State, t: State)
    requires JournalOk(cfg, s) && JournalOk(cfg, t) && Priced(cfg, s) && SameTerms(s, t)
    ensures Priced(cfg, t)
  {
    AnnualOrder.SameEventsSameIndex(cfg, s, t);
  }

  lemma PricedStep(cfg: Config, s: State, op: Op)
    requires StateOk(cfg, s) && Priced(cfg, s)
    ensures JournalOk(cfg, Apply(cfg, s, op).0) && Priced(cfg, Apply(cfg, s, op).0)
  {
    ApplyKeeps(cfg, s, op);
    var t := Apply(cfg, s, op).0;
    if s.snapshot.Some? {
      SnapshotKept(cfg, s, op);
      PricedStays(cfg, s, t);
    } else if op.FinalizeOp? {
      if Finalize(cfg, s, op.now, op.ledgerComplete).1.Ok? { FinalizePrices(cfg, s, op.now, op.ledgerComplete); }
    } else {
      OnlyFinalizeSnapshots(cfg, s, op);
    }
  }

  lemma {:induction false} PricedRun(cfg: Config, s: State, ops: seq<Op>)
    requires StateOk(cfg, s) && Priced(cfg, s)
    ensures JournalOk(cfg, Run(cfg, s, ops)) && Priced(cfg, Run(cfg, s, ops))
    decreases |ops|
  {
    if ops != [] {
      PricedStep(cfg, s, ops[0]);
      ApplyKeeps(cfg, s, ops[0]);
      PricedRun(cfg, Apply(cfg, s, ops[0]).0, ops[1..]);
    }
  }

  /** In every reachable finalized state the DR pool is the floor of the dividend's share at the index of the events held. */
  lemma PoolsAreExact(cfg: Config, ops: seq<Op>)
    requires Distinct(cfg.ids)
    ensures StateOk(cfg, Initial(cfg))
    ensures JournalOk(cfg, Run(cfg, Initial(cfg), ops)) && Priced(cfg, Run(cfg, Initial(cfg), ops))
  {
    InitialOk(cfg);
    PricedRun(cfg, Initial(cfg), ops);
  }

  // ----- the factors -----

  /** An event qualifies exactly when both patterns are in range and the second is no smaller. */
  lemma QualifiedIff(e: OnChain.Event)
    ensures OnChain.Qualified(e) <==> (1023 - 32) * OnChain.TWO52 <= e.m0 <= e.m1 < (1023 + 32) * OnChain.TWO52
  {
    OnChain.DecodeSpec(e.m0);
    OnChain.DecodeSpec(e.m1);
  }

  /** The factor of an event is the first multiplier over the second. */
  lemma FactorIsRatio(e: OnChain.Event)
    requires OnChain.Qualified(e)
    ensures var m0, m1 := OnChain.DecodeMultiplier(e.m0).value, OnChain.DecodeMultiplier(e.m1).value;
      && m0.exponent <= m1.exponent <= 0
      && OnChain.NumeratorFactor(e) * (m1.significand * Pow2(-m0.exponent))
         == OnChain.DenominatorFactor(e) * (m0.significand * Pow2(-m1.exponent))
  {
    OnChain.BitOrderIsValueOrder(e.m0, e.m1);
    var m0, m1 := OnChain.DecodeMultiplier(e.m0).value, OnChain.DecodeMultiplier(e.m1).value;
    var step, low := Pow2(m1.exponent - m0.exponent), Pow2(-m1.exponent);
    Pow2Add(-m1.exponent, m1.exponent - m0.exponent);
    Regroup(m0.significand, m1.significand, step, low);
  }

  lemma Regroup(a: nat, b: nat, step: nat, low: nat)
    ensures a * (b * (low * step)) == b * step * (a * low)
  {
    Associate(b, low, step);
    Associate(a, b * low, step);
    Associate(a, b, low);
    Associate(b * step, a, low);
    assert a * b == b * a;
    var c := a * b;
    assert a * (b * low) * step == c * low * step;
    assert b * step * a == c * step;
    Commute(c, low, step);
  }

  lemma Commute(c: nat, low: nat, step: nat)
    ensures c * low * step == c * step * low
  {
    Associate(c, low, step);
    Associate(c, step, low);
  }
}
