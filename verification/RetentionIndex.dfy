/**
 The retention index of the annual reference model (packages/sdk/src/annual-reference.ts): decimal
 multipliers, event records, the reduced index, and the pools it implies.
 */
module RetentionIndex {
  import opened Prelude
  import opened Numbers
  import opened SdkArithmetic
  import OnChain = OnChainMath

  const MAX_FACTOR_LENGTH: nat := 64
  const MAX_TEXT_LENGTH: nat := 128
  const MAX_SAFE_INTEGER: nat := 0x1f_ffff_ffff_ffff

  // ----- decimal multipliers -----

  predicate IsDigit(c: char) { '0' <= c <= '9' }

  predicate AllDigits(s: string) { forall i | 0 <= i < |s| :: IsDigit(s[i]) }

  function DecimalValue(digits: string): nat
    requires AllDigits(digits)
  {
    if digits == [] then 0
    else 10 * DecimalValue(digits[..|digits| - 1]) + (digits[|digits| - 1] as int - '0' as int)
  }

  function Pow10(k: nat): (p: nat)
    ensures p > 0
  {
    if k == 0 then 1 else 10 * Pow10(k - 1)
  }

  /** The position of the first dot, or the length. */
  function DotIndex(s: string): (k: nat)
    ensures k <= |s|
    ensures forall i | 0 <= i < k :: s[i] != '.'
    ensures k < |s| ==> s[k] == '.'
  {
    if s == [] || s[0] == '.' then 0 else 1 + DotIndex(s[1..])
  }

  /** The digits before and after the dot as a reduced fraction, if they are digits and not all zero. */
  function FromDigits(whole: string, fraction: string): (r: Option<Rational>)
    ensures r.Some? ==> Lowest(r.value)
  {
    if whole == [] || !AllDigits(whole) || !AllDigits(fraction) || DecimalValue(whole + fraction) == 0 then None
    else
      ReduceOk(Rational(DecimalValue(whole + fraction), Pow10(|fraction|)));
      Some(Reduce(Rational(DecimalValue(whole + fraction), Pow10(|fraction|))))
  }

  /** A plain decimal of at most 64 characters with a positive value, as a reduced fraction. */
  function ParsePositiveDecimal(s: string): (r: Option<Rational>)
    ensures r.Some? ==> Lowest(r.value)
  {
    var k := DotIndex(s);
    if |s| > MAX_FACTOR_LENGTH || k + 1 == |s| then None  // too long, or nothing after the dot
    else FromDigits(s[..k], if k < |s| then s[k + 1..] else [])
  }

  // ----- event records -----

  datatype Status = Qualified | ConfirmedZero | Cancelled | Pending | Unsupported

  datatype CivilDate = CivilDate(year: int, month: int, day: int)

  datatype Record = Record(
    id: string, revision: int, chain: string, issuer: string, mint: string, exDate: Option<CivilDate>,
    status: Status, m0: string, m1: string, finalized: bool)

  datatype Term = Term(chain: string, issuer: string, mint: string, year: int)

  predicate CheckedText(s: string) { 1 <= |s| <= MAX_TEXT_LENGTH }

  function DaysInMonth(year: int, month: int): int
  {
    if month == 2 then if year % 4 == 0 && (year % 100 != 0 || year % 400 == 0) then 29 else 28
    else if month == 4 || month == 6 || month == 9 || month == 11 then 30
    else 31
  }

  /** Four-digit civil dates; Date.UTC reads years below 100 as twentieth-century years, so they are refused. */
  predicate ValidCivilDate(d: CivilDate)
  {
    100 <= d.year <= 9999 && 1 <= d.month <= 12 && 1 <= d.day <= DaysInMonth(d.year, d.month)
  }

  /** validateEvent */
  predicate ValidRecord(term: Term, r: Record)
  {
    var m0 := ParsePositiveDecimal(r.m0);
    var m1 := ParsePositiveDecimal(r.m1);
    && CheckedText(r.id) && 0 <= r.revision <= MAX_SAFE_INTEGER
    && CheckedText(r.chain) && CheckedText(r.issuer) && CheckedText(r.mint)
    && r.chain == term.chain && r.issuer == term.issuer && r.mint == term.mint
    && (r.exDate.Some? ==> ValidCivilDate(r.exDate.value))
    && m0.Some? && m1.Some?
    && (AtLeast(m1.value, m0.value) || r.status.Pending? || r.status.Unsupported?)
  }

  predicate Counts(year: int, r: Record)
  {
    r.exDate.Some? && r.exDate.value.year == year && r.status.Qualified?
  }

  type Journal = map<string, Record>

  ghost predicate RecordOk(term: Term, events: Journal, id: string)
    requires id in events
  {
    ValidRecord(term, events[id]) && events[id].id == id
  }

  ghost predicate ValidJournal(term: Term, events: Journal)
  {
    forall id {:trigger RecordOk(term, events, id)} | id in events :: RecordOk(term, events, id)
  }

  lemma JournalWith(term: Term, events: Journal, r: Record)
    requires ValidJournal(term, events) && ValidRecord(term, r)
    ensures ValidJournal(term, events[r.id := r])
  {
    var more := events[r.id := r];
    forall id | id in more ensures RecordOk(term, more, id) {
      if id != r.id { assert RecordOk(term, events, id); }
    }
  }

  ghost predicate Distinct(order: seq<string>)
  {
    forall i, j | 0 <= i < j < |order| :: order[i] != order[j]
  }

  /** `order` names entries of the map, each at most once. */
  ghost predicate Lists<T>(order: seq<string>, entries: map<string, T>)
  {
    (forall i | 0 <= i < |order| :: order[i] in entries) && Distinct(order)
  }

  ghost predicate Covers<T>(order: seq<string>, entries: map<string, T>)
  {
    forall id | id in entries :: id in order
  }

  lemma ListsWith<T>(order: seq<string>, entries: map<string, T>, id: string, r: T)
    requires Lists(order, entries) && Covers(order, entries)
    ensures Lists(if id in entries then order else order + [id], entries[id := r])
    ensures Covers(if id in entries then order else order + [id], entries[id := r])
  {
    if id !in entries {
      assert forall i | 0 <= i < |order| :: order[i] in entries;
      assert (order + [id])[|order|] == id;
    }
  }

  // ----- the index -----

  /** What one record does to the index. */
  datatype Weight = Skip | Multiply(factor: Rational)

  predicate WeightOk(w: Weight)
  {
    w.Multiply? ==> 0 < w.factor.numerator <= w.factor.denominator
  }

  type Weights = map<string, Weight>

  ghost predicate WeightsOk(weights: Weights)
  {
    forall id | id in weights :: WeightOk(weights[id])
  }

  /** m0 / m1 for a qualified event of the year; every other record leaves the index alone. */
  function WeightOf(term: Term, r: Record): Weight
  {
    var m0 := ParsePositiveDecimal(r.m0);
    var m1 := ParsePositiveDecimal(r.m1);
    if !Counts(term.year, r) || m0.None? || m1.None? then Skip  // a recorded event always parses
    else Multiply(Rational(OnChain.Times(m0.value.numerator, m1.value.denominator),
                           OnChain.Times(m0.value.denominator, m1.value.numerator)))
  }

  function WeightsOf(term: Term, events: Journal): Weights
  {
    map id | id in events :: WeightOf(term, events[id])
  }

  lemma ValidWeight(term: Term, r: Record)
    requires ValidRecord(term, r)
    ensures WeightOk(WeightOf(term, r))
    ensures WeightOf(term, r).Multiply? <==> Counts(term.year, r)
  {
    var m0, m1 := ParsePositiveDecimal(r.m0).value, ParsePositiveDecimal(r.m1).value;
    MulMono(1, 1, m0.numerator, m1.denominator);
  }

  lemma ValidWeights(term: Term, events: Journal)
    requires ValidJournal(term, events)
    ensures WeightsOk(WeightsOf(term, events))
  {
    forall id | id in events ensures WeightOk(WeightOf(term, events[id])) {
      assert RecordOk(term, events, id);
      ValidWeight(term, events[id]);
    }
  }

  /** One iteration of currentIndex. */
  function NextIndex(index: Rational, w: Weight): (next: Rational)
    requires WeightOk(w) && index.denominator > 0
    ensures next.denominator > 0
  {
    if w.Skip? then index
    else
      MulMono(1, 1, index.denominator, w.factor.denominator);
      var raw := Rational(OnChain.Times(index.numerator, w.factor.numerator), OnChain.Times(index.denominator, w.factor.denominator));
      ReduceOk(raw);
      Reduce(raw)
  }

  /** currentIndex over the records in the given order. */
  function Index(order: seq<string>, weights: Weights): (index: Rational)
    requires WeightsOk(weights) && Lists(order, weights)
    ensures index.denominator > 0
  {
    if order == [] then Rational(1, 1)
    else NextIndex(Index(order[..|order| - 1], weights), weights[order[|order| - 1]])
  }

  /** The product of the weights of the named entries. */
  ghost function Product(order: seq<string>, weights: map<string, nat>): nat
    requires forall i | 0 <= i < |order| :: order[i] in weights
  {
    if order == [] then 1 else OnChain.Times(Product(order[..|order| - 1], weights), weights[order[|order| - 1]])
  }

  function FactorOf(w: Weight): Rational
  {
    if w.Skip? then Rational(1, 1) else w.factor
  }

  ghost function Numerators(weights: Weights): map<string, nat>
  {
    map id | id in weights :: FactorOf(weights[id]).numerator
  }

  ghost function Denominators(weights: Weights): map<string, nat>
  {
    map id | id in weights :: FactorOf(weights[id]).denominator
  }

  /** The unreduced product of all factors, an independent reading of the index. */
  ghost function FullProduct(order: seq<string>, weights: Weights): Rational
    requires Lists(order, weights)
  {
    Rational(Product(order, Numerators(weights)), Product(order, Denominators(weights)))
  }

  /** `r` is positive, in lowest terms and equal to the positive fraction `p`, which is at most one. */
  ghost predicate Represents(r: Rational, p: Rational)
  {
    Lowest(r) && 0 < p.numerator <= p.denominator && SameRatio(r, p)
  }

  lemma NextIndexSpec(index: Rational, w: Weight, p: Rational)
    requires WeightOk(w) && Represents(index, p)
    ensures var f := FactorOf(w);
      Represents(NextIndex(index, w), Rational(OnChain.Times(p.numerator, f.numerator), OnChain.Times(p.denominator, f.denominator)))
  {
    var f := FactorOf(w);
    MulMono(1, 1, p.numerator, f.numerator);
    MulMono(p.numerator, f.numerator, p.denominator, f.denominator);
    if w.Multiply? {
      var raw := Rational(index.numerator * f.numerator, index.denominator * f.denominator);
      MulMono(1, 1, index.numerator, f.numerator);
      MulMono(1, 1, index.denominator, f.denominator);
      SameRatioProduct(index.numerator, index.denominator, p.numerator, p.denominator, f.numerator, f.denominator, f.numerator, f.denominator);
      ReducedRatio(raw, Rational(p.numerator * f.numerator, p.denominator * f.denominator));
    }
  }

  /** The index is in lowest terms, equals the product of the factors and lies in (0, 1]. */
  lemma {:induction false} IndexSpec(order: seq<string>, weights: Weights)
    requires WeightsOk(weights) && Lists(order, weights)
    ensures Represents(Index(order, weights), FullProduct(order, weights))
    ensures 0 < Index(order, weights).numerator <= Index(order, weights).denominator
  {
    if order == [] {
      assert Gcd(1, 1) == Gcd(1, 0) == 1;
    } else {
      var k := |order| - 1;
      IndexSpec(order[..k], weights);
      NextIndexSpec(Index(order[..k], weights), weights[order[k]], FullProduct(order[..k], weights));
      AtMostOne(Index(order, weights), FullProduct(order, weights).numerator, FullProduct(order, weights).denominator);
    }
  }

  lemma AtMostOne(r: Rational, n: nat, d: nat)
    requires 0 < n <= d && r.denominator > 0 && SameRatio(r, Rational(n, d))
    ensures r.numerator <= r.denominator
  {
    MulMono(n, r.denominator, d, r.denominator);
    CancelMul(d, r.numerator, r.denominator);
  }

  // ----- independence of arrival order -----

  function Without(order: seq<string>, i: nat): seq<string>
    requires i < |order|
  {
    order[..i] + order[i + 1..]
  }

  lemma Unfold(order: seq<string>, weights: map<string, nat>, init: seq<string>, last: string)
    requires order == init + [last] && (forall i | 0 <= i < |order| :: order[i] in weights)
    ensures (forall i | 0 <= i < |init| :: init[i] in weights) && last in weights
    ensures Product(order, weights) == Product(init, weights) * weights[last]
  {
    assert order[..|order| - 1] == init && order[|order| - 1] == last;
  }

  /** Any one factor can be taken out of a product. */
  lemma {:induction false} TakeOut(order: seq<string>, weights: map<string, nat>, i: nat)
    requires i < |order| && forall j | 0 <= j < |order| :: order[j] in weights
    ensures forall j | 0 <= j < |Without(order, i)| :: Without(order, i)[j] in weights
    ensures Product(order, weights) == Product(Without(order, i), weights) * weights[order[i]]
    decreases |order|
  {
    var k := |order| - 1;
    var init, last := order[..k], order[k];
    Unfold(order, weights, init, last);
    if i == k {
      assert Without(order, i) == init;
    } else {
      TakeOut(init, weights, i);
      assert Without(order, i) == Without(init, i) + [last];
      Unfold(Without(order, i), weights, Without(init, i), last);
      Swap(Product(Without(init, i), weights), weights[order[i]], weights[last]);
    }
  }

  /** Taking the last name of `order` out of `other` leaves the earlier names. */
  lemma RestCovers(order: seq<string>, init: seq<string>, other: seq<string>, i: nat)
    requires order != [] && init == order[..|order| - 1] && i < |other| && other[i] == order[|order| - 1]
    requires forall j | 0 <= j < |order| :: order[j] in other
    requires Distinct(order)
    ensures forall j | 0 <= j < |init| :: init[j] in Without(other, i)
  {
    var rest := Without(other, i);
    forall j | 0 <= j < |init| ensures init[j] in rest {
      var at :| 0 <= at < |other| && other[at] == order[j];
      assert rest[if at < i then at else at - 1] == order[j];
    }
  }

  lemma Swap(a: nat, b: nat, c: nat)
    ensures (a * b) * c == (a * c) * b
  {
  }

  /** Two orders of the same names give the same product. */
  lemma {:induction false} ProductIgnoresOrder(order: seq<string>, other: seq<string>, weights: map<string, nat>)
    requires forall i | 0 <= i < |order| :: order[i] in weights
    requires forall i | 0 <= i < |other| :: other[i] in weights
    requires Distinct(order) && |order| == |other| && forall i | 0 <= i < |order| :: order[i] in other
    ensures Product(order, weights) == Product(other, weights)
    decreases |order|
  {
    if order != [] {
      var k := |order| - 1;
      var init, last := order[..k], order[k];
      var i :| 0 <= i < |other| && other[i] == last;
      TakeOut(other, weights, i);
      Unfold(order, weights, init, last);
      RestCovers(order, init, other, i);
      ProductIgnoresOrder(init, Without(other, i), weights);
    }
  }

  lemma EqualRepresentations(a: Rational, b: Rational, p: Rational)
    requires Represents(a, p) && Represents(b, p)
    ensures a == b
  {
    SameRatioTransitive(a.numerator, a.denominator, p.numerator, p.denominator, b.numerator, b.denominator);
    LowestTermsUnique(a.numerator, a.denominator, b.numerator, b.denominator);
  }

  /** The index depends on the recorded events, not on the order in which they arrived. */
  lemma IndexIgnoresOrder(order: seq<string>, other: seq<string>, weights: Weights)
    requires WeightsOk(weights) && Lists(order, weights) && Lists(other, weights)
    requires |order| == |other| && forall i | 0 <= i < |order| :: order[i] in other
    ensures Index(order, weights) == Index(other, weights)
  {
    ProductIgnoresOrder(order, other, Numerators(weights));
    ProductIgnoresOrder(order, other, Denominators(weights));
    IndexSpec(order, weights);
    IndexSpec(other, weights);
    EqualRepresentations(Index(order, weights), Index(other, weights), FullProduct(order, weights));
  }

  lemma IndexSnoc(order: seq<string>, weights: Weights, i: nat)
    requires WeightsOk(weights) && Lists(order, weights) && i < |order|
    ensures Lists(order[..i], weights) && Lists(order[..i + 1], weights)
    ensures Index(order[..i + 1], weights) == NextIndex(Index(order[..i], weights), weights[order[i]])
  {
    var longer := order[..i + 1];
    assert longer[..i] == order[..i] && longer[i] == order[i];
  }

  /** The loop of currentIndex. */
  method CurrentIndex(term: Term, order: seq<string>, events: Journal) returns (index: Rational)
    requires ValidJournal(term, events) && Lists(order, events)
    ensures WeightsOk(WeightsOf(term, events)) && Lists(order, WeightsOf(term, events))
    ensures index == Index(order, WeightsOf(term, events))
  {
    ValidWeights(term, events);
    ghost var weights := WeightsOf(term, events);
    assert Lists(order, weights);
    index := Rational(1, 1);
    for i := 0 to |order|
      invariant Lists(order[..i], weights)
      invariant index == Index(order[..i], weights)
    {
      IndexSnoc(order, weights, i);
      var w := WeightOf(term, events[order[i]]);
      if w.Multiply? { index := NextIndex(index, w); }
    }
    assert order[..|order|] == order;
  }

  // ----- pools -----

  /** A smaller index leaves a larger dividend share. */
  lemma ShareMonotone(quantity: nat, a: Rational, b: Rational)
    requires a.denominator > 0 && b.denominator > 0 && a.numerator <= a.denominator && b.numerator <= b.denominator
    requires AtLeast(a, b)
    ensures OnChain.Share(quantity, a.numerator, a.denominator) <= OnChain.Share(quantity, b.numerator, b.denominator)
  {
    var x, y := OnChain.Scaled(quantity, a.numerator, a.denominator), OnChain.Scaled(quantity, b.numerator, b.denominator);
    var p, q := x / a.denominator, y / b.denominator;
    ComplementOrder(a, b);
    MulMono(quantity, (a.denominator - a.numerator) * b.denominator, quantity, (b.denominator - b.numerator) * a.denominator);
    Associate(quantity, a.denominator - a.numerator, b.denominator);
    Associate(quantity, b.denominator - b.numerator, a.denominator);
    FloorOrder(x, a.denominator, y, b.denominator);
  }

  lemma ComplementOrder(a: Rational, b: Rational)
    requires a.numerator <= a.denominator && b.numerator <= b.denominator && AtLeast(a, b)
    ensures (a.denominator - a.numerator) * b.denominator <= (b.denominator - b.numerator) * a.denominator
  {
  }

  lemma FloorOrder(x: nat, d: nat, y: nat, e: nat)
    requires d > 0 && e > 0 && x * e <= y * d
    ensures x / d <= y / e
  {
    var p, q := x / d, y / e;
    FloorSpec(x, d);
    FloorSpec(y, e);
    if q < p {
      MulMono((q + 1) * d, e, p * d, e) by { MulMono(q + 1, d, p, d); }
      MulMono(p * d, e, x, e);
      MulLess(y, d, (q + 1) * e, d);
      Swap(q + 1, d, e);
      assert false;
    }
  }

  /** Recording one more event never lowers the dividend pool. */
  lemma MoreEventsMoreDividend(order: seq<string>, weights: Weights, id: string, w: Weight, quantity: nat)
    requires WeightsOk(weights) && Lists(order, weights) && WeightOk(w) && id !in weights
    ensures var more := weights[id := w];
      && WeightsOk(more) && Lists(order + [id], more)
      && var a := Index(order, weights); var b := Index(order + [id], more);
         a.numerator <= a.denominator && b.numerator <= b.denominator
         && OnChain.Share(quantity, a.numerator, a.denominator) <= OnChain.Share(quantity, b.numerator, b.denominator)
  {
    var more := weights[id := w];
    var longer := order + [id];
    assert Lists(longer, more) by { assert forall i | 0 <= i < |order| :: order[i] in weights; }
    assert longer[..|order|] == order;
    SameWeights(order, weights, more);
    IndexSpec(order, weights);
    IndexSpec(longer, more);
    var a, b, p, f := Index(order, weights), Index(longer, more), FullProduct(order, weights), FactorOf(w);
    NextIndexSpec(a, w, p);
    LowerByFactor(p.numerator, p.denominator, f);
    AtLeastOfRatio(a, p, b, Rational(p.numerator * f.numerator, p.denominator * f.denominator));
    ShareMonotone(quantity, a, b);
  }

  lemma LowerByFactor(n: nat, d: nat, f: Rational)
    requires 0 < f.numerator <= f.denominator
    ensures AtLeast(Rational(n, d), Rational(OnChain.Times(n, f.numerator), OnChain.Times(d, f.denominator)))
  {
    MulMono(n * d, f.numerator, n * d, f.denominator);
    Swap(n, f.numerator, d);
    Associate(n, d, f.denominator);
  }

  lemma {:induction false} SameWeights(order: seq<string>, weights: Weights, more: Weights)
    requires WeightsOk(weights) && WeightsOk(more) && Lists(order, weights) && Lists(order, more)
    requires forall i | 0 <= i < |order| :: weights[order[i]] == more[order[i]]
    ensures Index(order, weights) == Index(order, more)
  {
    if order != [] { SameWeights(order[..|order| - 1], weights, more); }
  }
}
