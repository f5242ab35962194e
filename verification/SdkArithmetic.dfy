/**
 The SDK's exact arithmetic (packages/transaction-sdk/src/arithmetic.ts): reduced fractions, compared by
 cross-multiplication, and its agreement with the program.
 */
module SdkArithmetic {
  import opened Prelude
  import opened Numbers
  import opened Bytes
  import OnChain = OnChainMath

  type Event = OnChain.Event

  const MAX_RATIONAL_BYTES: nat := 1024

  datatype SdkError = InvalidF64Bits

  datatype Rational = Rational(numerator: nat, denominator: nat)

  datatype Binary64 = Binary64(significand: nat, exponent2: int, value: Rational)

  function Reduce(r: Rational): Rational
    requires r.denominator > 0
  {
    GcdPositive(r.numerator, r.denominator);
    var g := Gcd(r.numerator, r.denominator);
    Rational(r.numerator / g, r.denominator / g)
  }

  /** left >= right, by cross-multiplication. */
  predicate AtLeast(left: Rational, right: Rational)
  {
    left.numerator * right.denominator >= right.numerator * left.denominator
  }

  ghost predicate SameRatio(left: Rational, right: Rational)
  {
    left.numerator * right.denominator == right.numerator * left.denominator
  }

  /** Positive and in lowest terms. */
  ghost predicate Lowest(r: Rational)
  {
    r.numerator > 0 && r.denominator > 0 && Coprime(r.numerator, r.denominator)
  }

  lemma ReduceOk(r: Rational)
    requires r.denominator > 0
    ensures Reduce(r).denominator > 0 && SameRatio(Reduce(r), r) && Coprime(Reduce(r).numerator, Reduce(r).denominator)
    ensures r.numerator > 0 ==> Lowest(Reduce(r))
  {
    ReduceSpec(r.numerator, r.denominator);
  }

  function RawValue(significand: nat, exponent2: int): (r: Rational)
    ensures r.denominator > 0
  {
    if exponent2 >= 0 then Rational(significand * Pow2(exponent2), 1) else Rational(significand, Pow2(-exponent2))
  }

  function DecodeCanonical(bits: U64): Result<Binary64, SdkError>
  {
    var raw := OnChain.RawExponent(bits);
    if bits / 0x8000_0000_0000_0000 != 0 || raw == 0 || raw == 0x7ff then Err(InvalidF64Bits)
    else
      var significand := OnChain.TWO52 + OnChain.Fraction(bits);
      var exponent2 := raw - 1023 - 52;
      var reduced := Reduce(RawValue(significand, exponent2));
      if !AtLeast(reduced, Rational(1, Pow2(32))) || AtLeast(reduced, Rational(Pow2(32), 1)) then Err(InvalidF64Bits)
      else Ok(Binary64(significand, exponent2, reduced))
  }

  function EventRetention(e: Event): Result<Rational, SdkError>
  {
    var m0 := DecodeCanonical(e.m0);
    var m1 := DecodeCanonical(e.m1);
    if m0.Err? then Err(m0.error)
    else if m1.Err? then Err(m1.error)
    else if !AtLeast(m1.value.value, m0.value.value) then Err(InvalidF64Bits)
    else
      var d := OnChain.Times(m0.value.value.denominator, m1.value.value.numerator);
      if d == 0 then Err(InvalidF64Bits)  // reduceRational refuses a zero denominator
      else Ok(Reduce(Rational(OnChain.Times(m0.value.value.numerator, m1.value.value.denominator), d)))
  }

  predicate Fits(r: Rational)
  {
    |MinimalLe(r.numerator)| <= MAX_RATIONAL_BYTES && |MinimalLe(r.denominator)| <= MAX_RATIONAL_BYTES
  }

  /** One iteration of multiplyRetentionRatios. */
  function Combine(result: Rational, e: Event): Result<Rational, SdkError>
  {
    var ratio := EventRetention(e);
    if ratio.Err? then Err(ratio.error)
    else
      var d := OnChain.Times(result.denominator, ratio.value.denominator);
      if d == 0 then Err(InvalidF64Bits)
      else
        var next := Reduce(Rational(OnChain.Times(result.numerator, ratio.value.numerator), d));
        if Fits(next) then Ok(next) else Err(InvalidF64Bits)
  }

  function Product(events: seq<Event>): Result<Rational, SdkError>
  {
    if events == [] then Ok(Rational(1, 1))
    else
      var before := Product(events[..|events| - 1]);
      if before.Err? then before else Combine(before.value, events[|events| - 1])
  }

  /** The error of a failing prefix is the error of the whole list. */
  lemma {:induction false} ProductFails(events: seq<Event>, k: nat)
    requires k <= |events| && Product(events[..k]).Err?
    ensures Product(events) == Product(events[..k])
  {
    if k == |events| {
      assert events[..k] == events;
    } else {
      var init := events[..|events| - 1];
      assert init[..k] == events[..k];
      ProductFails(init, k);
    }
  }

  method MultiplyRetentionRatios(events: seq<Event>) returns (r: Result<Rational, SdkError>)
    ensures r == if |events| > OnChain.MAX_EVENTS then Err(InvalidF64Bits) else Product(events)
  {
    if |events| > OnChain.MAX_EVENTS { return Err(InvalidF64Bits); }
    var result := Rational(1, 1);
    for i := 0 to |events|
      invariant Product(events[..i]) == Ok(result)
    {
      assert events[..i + 1][..i] == events[..i];
      var next := Combine(result, events[i]);
      if next.Err? {
        ProductFails(events, i + 1);
        return Err(next.error);
      }
      result := next.value;
    }
    assert events[..|events|] == events;
    return Ok(result);
  }

  function AllocationFromRetention(accountable: U64, retention: Rational): Result<(nat, nat), SdkError>
  {
    if retention.denominator == 0 then Err(InvalidF64Bits)
    else
      ReduceOk(retention);
      var reduced := Reduce(retention);
      if reduced.numerator > reduced.denominator then Err(InvalidF64Bits)
      else
        OnChain.ShareAtMostWhole(accountable, reduced.numerator, reduced.denominator);
        var dr := OnChain.Share(accountable, reduced.numerator, reduced.denominator);
        Ok((accountable - dr, dr))
  }

  // ----- agreement of the decoders -----

  /** Comparing a reduced fraction is comparing the fraction. */
  lemma AtLeastOfRatio(a: Rational, a': Rational, b: Rational, b': Rational)
    requires a.denominator > 0 && a'.denominator > 0 && b.denominator > 0 && b'.denominator > 0
    requires SameRatio(a, a') && SameRatio(b, b')
    ensures AtLeast(a, b) <==> AtLeast(a', b')
  {
    var x, y := a.numerator * b.denominator, b.numerator * a.denominator;
    var k := a'.denominator * b'.denominator;
    var l := a.denominator * b.denominator;
    CrossScale(a.numerator, a.denominator, a'.numerator, a'.denominator, b.denominator, b'.denominator);
    CrossScale(b.numerator, b.denominator, b'.numerator, b'.denominator, a.denominator, a'.denominator);
    MulMono(1, 1, a'.denominator, b'.denominator);
    MulMono(1, 1, a.denominator, b.denominator);
    CancelMul(k, y, x);
    CancelMul(l, b'.numerator * a'.denominator, a'.numerator * b'.denominator);
  }

  lemma CrossScale(n: nat, d: nat, n': nat, d': nat, e: nat, e': nat)
    requires n * d' == n' * d
    ensures (d' * e') * (n * e) == (d * e) * (n' * e')
    ensures (e' * d') * (n * e) == (e * d) * (n' * e')
  {
    assert (d' * e') * (n * e) == (n * d') * (e * e');
    assert (d * e) * (n' * e') == (n' * d) * (e * e');
  }

  /** A number of w + 1 bits, shifted left by c, reaches 2^t exactly when t <= w + c. */
  lemma ReachesPower(value: nat, w: nat, c: nat, t: nat)
    requires Pow2(w) <= value < Pow2(w + 1)
    ensures value * Pow2(c) >= Pow2(t) <==> t <= w + c
  {
    if t <= w + c {
      Pow2Monotone(t, w + c);
      Pow2Add(w, c);
      MulMono(Pow2(w), Pow2(c), value, Pow2(c));
    } else {
      Pow2Monotone(w + 1 + c, t);
      Pow2Add(w + 1, c);
      MulLess(value, Pow2(c), Pow2(w + 1), Pow2(c));
    }
  }

  lemma AboveTwoToMinus32(significand: nat, exponent2: int)
    requires Pow2(52) <= significand < Pow2(52 + 1)
    ensures AtLeast(RawValue(significand, exponent2), Rational(1, Pow2(32))) <==> -84 <= exponent2
  {
    if exponent2 >= 0 {
      MulMono(1, 1, significand, Pow2(exponent2));
      MulMono(1, 1, significand * Pow2(exponent2), Pow2(32));
    } else {
      ReachesPower(significand, 52, 32, -exponent2);
    }
  }

  lemma BelowTwoTo32(significand: nat, exponent2: int)
    requires Pow2(52) <= significand < Pow2(52 + 1)
    ensures AtLeast(RawValue(significand, exponent2), Rational(Pow2(32), 1)) <==> exponent2 > -21
  {
    if exponent2 >= 0 {
      ReachesPower(significand, 52, exponent2, 32);
    } else {
      Pow2Add(32, -exponent2);
      ReachesPower(significand, 52, 0, 32 - exponent2);
    }
  }

  /** The SDK's range test is the exponent range -84 .. -21. */
  lemma RangeIsExponentRange(significand: nat, exponent2: int)
    requires OnChain.TWO52 <= significand < 2 * OnChain.TWO52
    ensures var reduced := Reduce(RawValue(significand, exponent2));
      (AtLeast(reduced, Rational(1, Pow2(32))) && !AtLeast(reduced, Rational(Pow2(32), 1))) <==> -84 <= exponent2 <= -21
  {
    var v := RawValue(significand, exponent2);
    ReduceOk(v);
    var low, high := Rational(1, Pow2(32)), Rational(Pow2(32), 1);
    AtLeastOfRatio(Reduce(v), v, low, low);
    AtLeastOfRatio(Reduce(v), v, high, high);
    Pow2Values();
    AboveTwoToMinus32(significand, exponent2);
    BelowTwoTo32(significand, exponent2);
  }

  /** Both decoders accept exactly the same patterns and read the same number from them. */
  lemma DecodersAgree(bits: U64)
    ensures DecodeCanonical(bits).Ok? <==> OnChain.DecodeMultiplier(bits).Ok?
    ensures DecodeCanonical(bits).Ok? ==>
      var sdk := DecodeCanonical(bits).value; var chain := OnChain.DecodeMultiplier(bits).value;
      && sdk.significand == chain.significand && sdk.exponent2 == chain.exponent <= 0
      && Lowest(sdk.value) && SameRatio(sdk.value, Rational(chain.significand, OnChain.Scale(chain)))
  {
    OnChain.DecodeByExponent(bits);
    var significand := OnChain.TWO52 + OnChain.Fraction(bits);
    var exponent2 := OnChain.RawExponent(bits) - 1075;
    RangeIsExponentRange(significand, exponent2);
    ReduceOk(RawValue(significand, exponent2));
  }

  // ----- agreement of the folds -----

  lemma QualificationAgrees(e: Event)
    ensures EventRetention(e).Ok? <==> OnChain.Qualified(e)
    ensures EventRetention(e).Ok? ==>
      && Lowest(EventRetention(e).value)
      && SameRatio(EventRetention(e).value, Rational(OnChain.NumeratorFactor(e), OnChain.DenominatorFactor(e)))
  {
    DecodersAgree(e.m0);
    DecodersAgree(e.m1);
    if OnChain.DecodeMultiplier(e.m0).Ok? && OnChain.DecodeMultiplier(e.m1).Ok? {
      var c0, c1 := OnChain.DecodeMultiplier(e.m0).value, OnChain.DecodeMultiplier(e.m1).value;
      var r0, r1 := DecodeCanonical(e.m0).value.value, DecodeCanonical(e.m1).value.value;
      OnChain.BitOrderIsValueOrder(e.m0, e.m1);
      AtLeastOfRatio(r1, Rational(c1.significand, OnChain.Scale(c1)), r0, Rational(c0.significand, OnChain.Scale(c0)));
      if e.m0 <= e.m1 {
        RetentionRatio(e);
      }
    }
  }

  lemma RetentionRatio(e: Event)
    requires OnChain.Qualified(e)
    ensures EventRetention(e).Ok? ==>
      && Lowest(EventRetention(e).value)
      && SameRatio(EventRetention(e).value, Rational(OnChain.NumeratorFactor(e), OnChain.DenominatorFactor(e)))
    ensures DecodeCanonical(e.m0).Ok? && DecodeCanonical(e.m1).Ok?
    ensures DecodeCanonical(e.m0).value.value.denominator * DecodeCanonical(e.m1).value.value.numerator > 0
  {
    DecodersAgree(e.m0);
    DecodersAgree(e.m1);
    var c0, c1 := OnChain.DecodeMultiplier(e.m0).value, OnChain.DecodeMultiplier(e.m1).value;
    var r0, r1 := DecodeCanonical(e.m0).value.value, DecodeCanonical(e.m1).value.value;
    OnChain.BitOrderIsValueOrder(e.m0, e.m1);
    OnChain.ScaleSteps(c0, c1);
    MulMono(1, 1, r0.numerator, r1.denominator);
    MulMono(1, 1, r0.denominator, r1.numerator);
    var raw := Rational(r0.numerator * r1.denominator, r0.denominator * r1.numerator);
    RetentionCore(r0, r1, c0.significand, OnChain.Scale(c0), c1.significand, OnChain.Scale(c1), Pow2(c1.exponent - c0.exponent));
    ReducedRatio(raw, Rational(OnChain.NumeratorFactor(e), OnChain.DenominatorFactor(e)));
  }

  /** m0 / m1 with m0 = s0/p0 and m1 = s1/p1, where p0 = p1 * step, is s0 / (s1 * step). */
  lemma RetentionCore(r0: Rational, r1: Rational, s0: nat, p0: nat, s1: nat, p1: nat, step: nat)
    requires SameRatio(r0, Rational(s0, p0)) && SameRatio(r1, Rational(s1, p1))
    requires p0 == p1 * step && p0 > 0 && s1 > 0
    ensures SameRatio(Rational(r0.numerator * r1.denominator, r0.denominator * r1.numerator), Rational(s0, s1 * step))
  {
    SameRatioProduct(r0.numerator, r0.denominator, s0, p0, r1.denominator, r1.numerator, p1, s1);
    StepCancels(s0, p1, p0, s1, step);
    MulMono(1, 1, p0, s1);
    SameRatioTransitive(r0.numerator * r1.denominator, r0.denominator * r1.numerator, s0 * p1, p0 * s1, s0, s1 * step);
  }

  lemma StepCancels(s0: nat, p1: nat, p0: nat, s1: nat, step: nat)
    requires p0 == p1 * step
    ensures (s0 * p1) * (s1 * step) == s0 * (p0 * s1)
  {
    assert (s0 * p1) * (s1 * step) == s0 * (p1 * step * s1);
  }

  /** Reducing keeps the ratio to any other fraction. */
  lemma ReducedRatio(raw: Rational, other: Rational)
    requires raw.numerator > 0 && raw.denominator > 0 && SameRatio(raw, other)
    ensures Lowest(Reduce(raw)) && SameRatio(Reduce(raw), other)
  {
    ReduceOk(raw);
    var r := Reduce(raw);
    SameRatioTransitive(r.numerator, r.denominator, raw.numerator, raw.denominator, other.numerator, other.denominator);
  }

  ghost function ChainIndex(events: seq<Event>): Rational
    requires OnChain.AllQualified(events)
  {
    Rational(OnChain.IndexNumerator(events), OnChain.IndexDenominator(events))
  }

  lemma CombineAgrees(result: Rational, e: Event, n: nat, d: nat)
    requires OnChain.Qualified(e) && Lowest(result) && d > 0 && SameRatio(result, Rational(n, d))
    requires |MinimalLe(n * OnChain.NumeratorFactor(e))| <= MAX_RATIONAL_BYTES
    requires |MinimalLe(d * OnChain.DenominatorFactor(e))| <= MAX_RATIONAL_BYTES
    ensures Combine(result, e).Ok?
    ensures Lowest(Combine(result, e).value)
    ensures SameRatio(Combine(result, e).value, Rational(n * OnChain.NumeratorFactor(e), d * OnChain.DenominatorFactor(e)))
  {
    QualificationAgrees(e);
    OnChain.FactorBounds(e);
    CombineCore(result, EventRetention(e).value, Rational(n, d), Rational(OnChain.NumeratorFactor(e), OnChain.DenominatorFactor(e)));
  }

  /** Multiplying reduced fractions and reducing again never grows past the unreduced product of equal fractions. */
  lemma CombineCore(a: Rational, b: Rational, c: Rational, f: Rational)
    requires Lowest(a) && Lowest(b) && c.denominator > 0 && f.denominator > 0 && SameRatio(a, c) && SameRatio(b, f)
    requires Fits(Rational(c.numerator * f.numerator, c.denominator * f.denominator))
    ensures a.denominator * b.denominator > 0
    ensures var next := Reduce(Rational(a.numerator * b.numerator, a.denominator * b.denominator));
      Lowest(next) && Fits(next) && SameRatio(next, Rational(c.numerator * f.numerator, c.denominator * f.denominator))
  {
    var raw := Rational(a.numerator * b.numerator, a.denominator * b.denominator);
    var full := Rational(c.numerator * f.numerator, c.denominator * f.denominator);
    MulMono(1, 1, a.numerator, b.numerator);
    MulMono(1, 1, a.denominator, b.denominator);
    MulMono(1, 1, c.denominator, f.denominator);
    SameRatioProduct(a.numerator, a.denominator, c.numerator, c.denominator, b.numerator, b.denominator, f.numerator, f.denominator);
    ReducedRatio(raw, full);
    var next := Reduce(raw);
    LowestTermsLeast(next.numerator, next.denominator, full.numerator, full.denominator);
    ShorterFits(next.numerator, full.numerator);
    ShorterFits(next.denominator, full.denominator);
  }

  lemma ShorterFits(a: nat, b: nat)
    requires a <= b && |MinimalLe(b)| <= MAX_RATIONAL_BYTES
    ensures |MinimalLe(a)| <= MAX_RATIONAL_BYTES
  {
    LengthBound(a, MAX_RATIONAL_BYTES);
    LengthBound(b, MAX_RATIONAL_BYTES);
  }

  /** On at most 64 qualified events the SDK product exists, is in lowest terms and equals the program's index. */
  lemma {:induction false} ProductAgrees(events: seq<Event>)
    requires OnChain.AllQualified(events) && |events| <= OnChain.MAX_EVENTS
    ensures Product(events).Ok? && Lowest(Product(events).value) && SameRatio(Product(events).value, ChainIndex(events))
  {
    if events != [] {
      var k := |events| - 1;
      var init := events[..k];
      ProductAgrees(init);
      OnChain.IndexBounds(init);
      OnChain.IndexFits(events);
      CombineAgrees(Product(init).value, events[k], OnChain.IndexNumerator(init), OnChain.IndexDenominator(init));
    } else {
      assert Gcd(1, 1) == Gcd(1, 0) == 1;
    }
  }

  lemma {:induction false} ProductOkIff(events: seq<Event>)
    requires |events| <= OnChain.MAX_EVENTS
    ensures Product(events).Ok? <==> OnChain.AllQualified(events)
  {
    if OnChain.AllQualified(events) {
      ProductAgrees(events);
    } else {
      OnChain.QualifiedSnoc(events);
      ProductOkIff(events[..|events| - 1]);
      QualificationAgrees(events[|events| - 1]);
    }
  }

  /**
   The two implementations accept the same event lists, and on them every quantity splits into the same pools.
   */
  lemma ArithmeticsAgree(events: seq<Event>, quantity: U64)
    requires |events| <= OnChain.MAX_EVENTS
    ensures OnChain.Accumulate(events).Ok? <==> Product(events).Ok?
    ensures Product(events).Ok? ==>
      var index := OnChain.Accumulate(events).value;
      var chain := OnChain.SplitPools(quantity, index.0, index.1);
      var sdk := AllocationFromRetention(quantity, Product(events).value);
      chain.Ok? && sdk.Ok? && chain.value == sdk.value
  {
    OnChain.AccumulateOkIff(events);
    ProductOkIff(events);
    if Product(events).Ok? {
      ProductAgrees(events);
      OnChain.SplitNeverFails(quantity, events);
      SharesAgree(quantity, Product(events).value, OnChain.IndexNumerator(events), OnChain.IndexDenominator(events));
    }
  }

  lemma SharesAgree(quantity: U64, r: Rational, n: nat, d: nat)
    requires Lowest(r) && 0 < n <= d && SameRatio(r, Rational(n, d))
    ensures AllocationFromRetention(quantity, r).Ok?
    ensures OnChain.Share(quantity, n, d) <= quantity
    ensures AllocationFromRetention(quantity, r).value == (quantity - OnChain.Share(quantity, n, d), OnChain.Share(quantity, n, d))
  {
    ReduceOk(r);
    var s := Reduce(r);
    SameRatioTransitive(s.numerator, s.denominator, r.numerator, r.denominator, n, d);
    MulMono(n, s.denominator, d, s.denominator);
    CancelMul(d, s.numerator, s.denominator);
    FloorOfComplement(quantity, s.numerator, s.denominator, n, d);
    OnChain.ShareAtMostWhole(quantity, n, d);
  }
}
