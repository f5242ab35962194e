/**
 The program's integer arithmetic (programs/dividendx/src/math.rs). Multipliers are binary64 bit patterns
 (section 3.4 of IEEE 754-2008); the retention index is an unreduced pair of big integers held as bytes.
 */
module OnChainMath {
  import opened Prelude
  import opened Numbers
  import opened Bytes

  const MAX_EVENTS: nat := 64
  const MAX_BIGINT_BYTES: nat := 1024
  const TWO52: nat := 0x10_0000_0000_0000
  const MIN_NORMAL_BITS: nat := (1023 - 32) * TWO52
  const MAX_EXCLUSIVE_BITS: nat := (1023 + 32) * TWO52

  datatype ChainError = InvalidMultiplier | ArithmeticBoundExceeded | InvalidAccountData
                      | ArithmeticOverflow | RedemptionExceedsSupply

  datatype Factor = Factor(significand: nat, exponent: int)

  /** One dividend event: the multiplier before and after. */
  datatype Event = Event(m0: U64, m1: U64)

  function RawExponent(bits: U64): nat { (bits / TWO52) % 2048 }

  function Fraction(bits: U64): nat { bits % TWO52 }

  function DecodeMultiplier(bits: U64): Result<Factor, ChainError>
  {
    if bits / 0x8000_0000_0000_0000 != 0 then Err(InvalidMultiplier)
    else if RawExponent(bits) == 0 || RawExponent(bits) == 0x7ff then Err(InvalidMultiplier)
    else if bits < MIN_NORMAL_BITS || bits >= MAX_EXCLUSIVE_BITS then Err(InvalidMultiplier)
    else Ok(Factor(TWO52 + Fraction(bits), RawExponent(bits) - 1023 - 52))
  }

  predicate Qualified(e: Event)
  {
    DecodeMultiplier(e.m0).Ok? && DecodeMultiplier(e.m1).Ok? && e.m1 >= e.m0
  }

  function BoundedBytes(value: nat): Result<seq<Byte>, ChainError>
  {
    var bytes := MinimalLe(value);
    if bytes == [] || |bytes| > MAX_BIGINT_BYTES then Err(ArithmeticBoundExceeded) else Ok(bytes)
  }

  function Times(a: nat, b: nat): nat { a * b }

  /** A left shift. */
  function Shifted(value: nat, k: nat): nat { value * Pow2(k) }

  function MultiplyRatio(numeratorBytes: seq<Byte>, denominatorBytes: seq<Byte>, e: Event): Result<(seq<Byte>, seq<Byte>), ChainError>
  {
    if |numeratorBytes| > MAX_BIGINT_BYTES || |denominatorBytes| > MAX_BIGINT_BYTES then Err(ArithmeticBoundExceeded)
    else if !Qualified(e) then Err(InvalidMultiplier)
    else
      var m0 := DecodeMultiplier(e.m0).value;
      var m1 := DecodeMultiplier(e.m1).value;
      var n := LeValue(numeratorBytes);
      var d := LeValue(denominatorBytes);
      if n == 0 || d == 0 then Err(InvalidAccountData)
      else
        var shift := m0.exponent - m1.exponent;
        var n' := if shift >= 0 then Shifted(Times(n, m0.significand), shift) else Times(n, m0.significand);
        var d' := if shift >= 0 then Times(d, m1.significand) else Shifted(Times(d, m1.significand), -shift);
        var nb := BoundedBytes(n');
        var db := BoundedBytes(d');
        if nb.Err? then Err(nb.error) else if db.Err? then Err(db.error) else Ok((nb.value, db.value))
  }

  /** The index accumulated over a list of events, from 1/1. */
  function Accumulate(events: seq<Event>): Result<(seq<Byte>, seq<Byte>), ChainError>
  {
    if events == [] then Ok(([1], [1]))
    else
      var before := Accumulate(events[..|events| - 1]);
      if before.Err? then before else MultiplyRatio(before.value.0, before.value.1, events[|events| - 1])
  }

  /** quantity times one minus n/d, before division. */
  function Scaled(quantity: nat, n: nat, d: nat): nat
    requires n <= d
  {
    quantity * (d - n)
  }

  /** quantity times one minus n/d, rounded down. */
  function Share(quantity: nat, n: nat, d: nat): nat
    requires 0 < d && n <= d
  {
    Scaled(quantity, n, d) / d
  }

  function SplitPools(quantity: U64, numeratorBytes: seq<Byte>, denominatorBytes: seq<Byte>): Result<(nat, nat), ChainError>
  {
    if |numeratorBytes| > MAX_BIGINT_BYTES || |denominatorBytes| > MAX_BIGINT_BYTES then Err(ArithmeticBoundExceeded)
    else
      var n := LeValue(numeratorBytes);
      var d := LeValue(denominatorBytes);
      if n == 0 || d == 0 || n > d then Err(InvalidAccountData)
      else if |MinimalLe(Scaled(quantity, n, d))| > MAX_BIGINT_BYTES then Err(ArithmeticBoundExceeded)
      else
        var dr := Share(quantity, n, d);
        if |MinimalLe(dr)| > 8 then Err(ArithmeticOverflow)
        else if dr > quantity then Err(ArithmeticOverflow)
        else Ok((quantity - dr, dr))
  }

  // ----- decoding -----

  /** What an accepted multiplier looks like: 2^52 <= significand < 2^53 and exponent -84 .. -21. */
  lemma DecodeSpec(bits: U64)
    ensures DecodeMultiplier(bits).Ok? <==> MIN_NORMAL_BITS <= bits < MAX_EXCLUSIVE_BITS
    ensures DecodeMultiplier(bits).Ok? ==>
      var m := DecodeMultiplier(bits).value;
      && TWO52 <= m.significand < 2 * TWO52
      && -84 <= m.exponent <= -21
      && bits == (m.exponent + 1075) * TWO52 + (m.significand - TWO52)
  {
    assert bits == TWO52 * (bits / TWO52) + bits % TWO52;
  }

  lemma DecodeByExponent(bits: U64)
    ensures DecodeMultiplier(bits).Ok? <==> bits / 0x8000_0000_0000_0000 == 0 && 991 <= RawExponent(bits) <= 1054
    ensures DecodeMultiplier(bits).Ok? ==> DecodeMultiplier(bits).value == Factor(TWO52 + Fraction(bits), RawExponent(bits) - 1075)
  {
    assert bits == TWO52 * (bits / TWO52) + bits % TWO52;
  }

  /** The value of a factor as a fraction: significand / 2^(-exponent). */
  function Scale(m: Factor): nat
    requires m.exponent <= 0
  {
    Pow2(-m.exponent)
  }

  lemma ScaleSteps(m0: Factor, m1: Factor)
    requires m0.exponent <= m1.exponent <= 0
    ensures Scale(m0) == Scale(m1) * Pow2(m1.exponent - m0.exponent)
  {
    Pow2Add(-m1.exponent, m1.exponent - m0.exponent);
  }

  lemma LowerExponentIsLess(m0: Factor, m1: Factor)
    requires TWO52 <= m0.significand < 2 * TWO52 && TWO52 <= m1.significand < 2 * TWO52
    requires m0.exponent < m1.exponent <= 0
    ensures m0.significand * Scale(m1) < m1.significand * Scale(m0)
  {
    ScaleSteps(m0, m1);
    var p := Scale(m1);
    var step := Pow2(m1.exponent - m0.exponent);
    Pow2Monotone(1, m1.exponent - m0.exponent);
    MulLess(m0.significand, p, 2 * m1.significand, p);
    MulMono(p, 2, p, step);
    MulMono(m1.significand, 2 * p, m1.significand, p * step);
    assert 2 * m1.significand * p == m1.significand * (2 * p);
  }

  /** On accepted patterns, comparing bits compares values. */
  lemma BitOrderIsValueOrder(b0: U64, b1: U64)
    requires DecodeMultiplier(b0).Ok? && DecodeMultiplier(b1).Ok?
    ensures var m0 := DecodeMultiplier(b0).value; var m1 := DecodeMultiplier(b1).value;
      && m0.exponent <= 0 && m1.exponent <= 0
      && (b0 <= b1 <==> m0.significand * Scale(m1) <= m1.significand * Scale(m0))
      && (b0 <= b1 ==> m0.exponent <= m1.exponent)
  {
    DecodeSpec(b0);
    DecodeSpec(b1);
    var m0 := DecodeMultiplier(b0).value;
    var m1 := DecodeMultiplier(b1).value;
    if m0.exponent < m1.exponent {
      LowerExponentIsLess(m0, m1);
    } else if m1.exponent < m0.exponent {
      LowerExponentIsLess(m1, m0);
    } else {
      CancelMul(Scale(m0), m0.significand, m1.significand);
    }
  }

  // ----- the size bound -----

  /** What one qualified event multiplies the numerator and the denominator by. */
  function NumeratorFactor(e: Event): nat
    requires Qualified(e)
  {
    DecodeMultiplier(e.m0).value.significand
  }

  function DenominatorFactor(e: Event): (f: nat)
    requires Qualified(e)
  {
    var m0 := DecodeMultiplier(e.m0).value;
    var m1 := DecodeMultiplier(e.m1).value;
    BitOrderIsValueOrder(e.m0, e.m1);
    m1.significand * Pow2(m1.exponent - m0.exponent)
  }

  lemma FactorBounds(e: Event)
    requires Qualified(e)
    ensures 0 < NumeratorFactor(e) <= DenominatorFactor(e)
    ensures NumeratorFactor(e) < Pow2(53) && DenominatorFactor(e) < Pow2(116)
  {
    DecodeSpec(e.m0);
    DecodeSpec(e.m1);
    BitOrderIsValueOrder(e.m0, e.m1);
    Pow2Values();
    var m0 := DecodeMultiplier(e.m0).value;
    var m1 := DecodeMultiplier(e.m1).value;
    var step := Pow2(m1.exponent - m0.exponent);
    ScaleSteps(m0, m1);
    Associate(m1.significand, Scale(m1), step);
    CancelMul(Scale(m1), m0.significand, m1.significand * step);
    Pow2Monotone(m1.exponent - m0.exponent, 63);
    MulLess(m1.significand, step, Pow2(53), Pow2(63));
    Pow2Add(53, 63);
  }

  ghost predicate AllQualified(events: seq<Event>)
  {
    forall i | 0 <= i < |events| :: Qualified(events[i])
  }

  /** The accumulated numerator and denominator as numbers. */
  function IndexNumerator(events: seq<Event>): nat
    requires AllQualified(events)
  {
    if events == [] then 1 else IndexNumerator(events[..|events| - 1]) * NumeratorFactor(events[|events| - 1])
  }

  function IndexDenominator(events: seq<Event>): nat
    requires AllQualified(events)
  {
    if events == [] then 1 else IndexDenominator(events[..|events| - 1]) * DenominatorFactor(events[|events| - 1])
  }

  lemma BoundStep(n: nat, f: nat, width: nat, bits: nat)
    requires f < Pow2(width) && n <= Pow2(bits)
    ensures n * f < Pow2(width + bits)
  {
    MulLess(f, n, Pow2(width), Pow2(bits));
    Pow2Add(width, bits);
  }

  lemma {:induction false} NumeratorPositive(events: seq<Event>)
    requires AllQualified(events)
    ensures 0 < IndexNumerator(events)
  {
    if events != [] {
      var k := |events| - 1;
      NumeratorPositive(events[..k]);
      FactorBounds(events[k]);
      MulMono(1, 1, IndexNumerator(events[..k]), NumeratorFactor(events[k]));
    }
  }

  lemma {:induction false} NumeratorBound(events: seq<Event>)
    requires AllQualified(events)
    ensures IndexNumerator(events) <= Pow2(53 * |events|)
    ensures events != [] ==> IndexNumerator(events) < Pow2(53 * |events|)
  {
    if events != [] {
      var k := |events| - 1;
      var init, f := events[..k], NumeratorFactor(events[k]);
      NumeratorBound(init);
      FactorBounds(events[k]);
      BoundStep(IndexNumerator(init), f, 53, 53 * k);
    }
  }

  lemma {:induction false} DenominatorBound(events: seq<Event>)
    requires AllQualified(events)
    ensures IndexDenominator(events) <= Pow2(116 * |events|)
    ensures events != [] ==> IndexDenominator(events) < Pow2(116 * |events|)
  {
    if events != [] {
      var k := |events| - 1;
      var init, f := events[..k], DenominatorFactor(events[k]);
      DenominatorBound(init);
      FactorBounds(events[k]);
      BoundStep(IndexDenominator(init), f, 116, 116 * k);
    }
  }

  lemma {:induction false} IndexAtMostOne(events: seq<Event>)
    requires AllQualified(events)
    ensures IndexNumerator(events) <= IndexDenominator(events)
  {
    if events != [] {
      var k := |events| - 1;
      var init, e := events[..k], events[k];
      IndexAtMostOne(init);
      FactorBounds(e);
      MulMono(IndexNumerator(init), NumeratorFactor(e), IndexDenominator(init), DenominatorFactor(e));
    }
  }

  /** k qualified events keep the numerator below 2^(53k), the denominator below 2^(116k) and the index at most one. */
  lemma IndexBounds(events: seq<Event>)
    requires AllQualified(events)
    ensures 0 < IndexNumerator(events) <= IndexDenominator(events)
    ensures events != [] ==> IndexNumerator(events) < Pow2(53 * |events|) && IndexDenominator(events) < Pow2(116 * |events|)
    ensures IndexNumerator(events) <= Pow2(53 * |events|) && IndexDenominator(events) <= Pow2(116 * |events|)
  {
    NumeratorPositive(events);
    NumeratorBound(events);
    DenominatorBound(events);
    IndexAtMostOne(events);
  }

  /** Below the bound, one multiplication succeeds and is exact. */
  lemma MultiplyExact(n: nat, d: nat, e: Event)
    requires Qualified(e) && n > 0 && d > 0
    requires |MinimalLe(n)| <= MAX_BIGINT_BYTES && |MinimalLe(d)| <= MAX_BIGINT_BYTES
    requires |MinimalLe(n * NumeratorFactor(e))| <= MAX_BIGINT_BYTES && |MinimalLe(d * DenominatorFactor(e))| <= MAX_BIGINT_BYTES
    ensures MultiplyRatio(MinimalLe(n), MinimalLe(d), e)
         == Ok((MinimalLe(n * NumeratorFactor(e)), MinimalLe(d * DenominatorFactor(e))))
  {
    RoundTrip(n);
    RoundTrip(d);
    BitOrderIsValueOrder(e.m0, e.m1);
    var m0 := DecodeMultiplier(e.m0).value;
    var m1 := DecodeMultiplier(e.m1).value;
    var n', d' := n * NumeratorFactor(e), d * DenominatorFactor(e);
    RoundTrip(n');
    RoundTrip(d');
    assert BoundedBytes(n') == Ok(MinimalLe(n')) && BoundedBytes(d') == Ok(MinimalLe(d'));
    if m0.exponent == m1.exponent {
      assert n * m0.significand * Pow2(0) == n';
      assert d * m1.significand == d';
    } else {
      Associate(d, m1.significand, Pow2(m1.exponent - m0.exponent));
      assert d * m1.significand * Pow2(-(m0.exponent - m1.exponent)) == d';
    }
  }

  lemma IndexBelow(events: seq<Event>)
    requires AllQualified(events) && |events| <= MAX_EVENTS
    ensures IndexNumerator(events) < Pow2(8192) && IndexDenominator(events) <= Pow2(7424) < Pow2(8192)
  {
    IndexBounds(events);
    Pow2Monotone(53 * |events|, 7424);
    Pow2Monotone(116 * |events|, 7424);
    Pow2Monotone(7425, 8192);
  }

  lemma IndexFits(events: seq<Event>)
    requires AllQualified(events) && |events| <= MAX_EVENTS
    ensures |MinimalLe(IndexNumerator(events))| <= MAX_BIGINT_BYTES && |MinimalLe(IndexDenominator(events))| <= MAX_BIGINT_BYTES
  {
    IndexBelow(events);
    LengthBound(IndexNumerator(events), 1024);
    LengthBound(IndexDenominator(events), 1024);
  }

  /** Up to 64 qualified events the bytes always fit, so accumulation never fails and is exact. */
  lemma {:induction false} AccumulateExact(events: seq<Event>)
    requires AllQualified(events) && |events| <= MAX_EVENTS
    ensures Accumulate(events) == Ok((MinimalLe(IndexNumerator(events)), MinimalLe(IndexDenominator(events))))
  {
    if events != [] {
      var k := |events| - 1;
      var init := events[..k];
      AccumulateExact(init);
      IndexFits(init);
      IndexFits(events);
      NumeratorPositive(init);
      IndexAtMostOne(init);
      MultiplyExact(IndexNumerator(init), IndexDenominator(init), events[k]);
    }
  }

  lemma QualifiedSnoc(events: seq<Event>)
    requires events != []
    ensures var k := |events| - 1; AllQualified(events) <==> AllQualified(events[..k]) && Qualified(events[k])
  {
    var k := |events| - 1;
    assert forall i | 0 <= i < k :: events[..k][i] == events[i];
  }

  /** A list holding an event that does not qualify is refused. */
  lemma {:induction false} AccumulateOkIff(events: seq<Event>)
    requires |events| <= MAX_EVENTS
    ensures Accumulate(events).Ok? <==> AllQualified(events)
  {
    if AllQualified(events) {
      AccumulateExact(events);
    } else {
      QualifiedSnoc(events);
      AccumulateOkIff(events[..|events| - 1]);
    }
  }

  lemma ShareAtMostWhole(quantity: nat, n: nat, d: nat)
    requires d > 0 && n <= d
    ensures Share(quantity, n, d) <= quantity
    ensures n > 0 && quantity > 0 ==> Share(quantity, n, d) < quantity
  {
    var scaled := Scaled(quantity, n, d);
    FloorSpec(scaled, d);
    MulMono(quantity, d - n, quantity, d);
    CancelMul(d, scaled / d, quantity);
    if n > 0 && quantity > 0 { MulLess(d - n, quantity, d, quantity); }
  }

  lemma ScaledFits(quantity: U64, n: nat, d: nat, bits: nat, bytes: nat)
    requires n <= d <= Pow2(bits) && bytes >= 1 && 64 + bits <= 8 * bytes
    ensures |MinimalLe(Scaled(quantity, n, d))| <= bytes
  {
    Pow2Values();
    MulLess(quantity, d - n, Pow2(64), Pow2(bits));
    Pow2Add(64, bits);
    Pow2Monotone(64 + bits, 8 * bytes);
    LengthBound(Scaled(quantity, n, d), bytes);
  }

  lemma U64Fits(value: U64)
    ensures |MinimalLe(value)| <= 8
  {
    Pow2Values();
    LengthBound(value, 8);
  }

  lemma SplitExact(quantity: U64, n: nat, d: nat)
    requires 0 < n <= d
    requires |MinimalLe(n)| <= MAX_BIGINT_BYTES && |MinimalLe(d)| <= MAX_BIGINT_BYTES
    requires |MinimalLe(Scaled(quantity, n, d))| <= MAX_BIGINT_BYTES
    ensures Share(quantity, n, d) <= quantity
    ensures SplitPools(quantity, MinimalLe(n), MinimalLe(d)) == Ok((quantity - Share(quantity, n, d), Share(quantity, n, d)))
  {
    RoundTrip(n);
    RoundTrip(d);
    ShareAtMostWhole(quantity, n, d);
    U64Fits(Share(quantity, n, d));
  }

  /** Any quantity splits under any accumulated index: no error, the pools add up and the principal pool is not empty. */
  lemma SplitNeverFails(quantity: U64, events: seq<Event>)
    requires AllQualified(events) && |events| <= MAX_EVENTS
    ensures Accumulate(events).Ok?
    ensures 0 < IndexNumerator(events) <= IndexDenominator(events)
    ensures var index := Accumulate(events).value;
      var dr := Share(quantity, IndexNumerator(events), IndexDenominator(events));
      && dr <= quantity && (quantity > 0 ==> dr < quantity)
      && SplitPools(quantity, index.0, index.1) == Ok((quantity - dr, dr))
  {
    AccumulateExact(events);
    IndexBounds(events);
    IndexFits(events);
    IndexBelow(events);
    var n, d := IndexNumerator(events), IndexDenominator(events);
    ScaledFits(quantity, n, d, 7424, MAX_BIGINT_BYTES);
    ShareAtMostWhole(quantity, n, d);
    SplitExact(quantity, n, d);
  }
}
