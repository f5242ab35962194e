/**
 What an event record says, checked against independent readings: the decimal multipliers by their digits, the civil
 calendar by its leap years, the weight of a record by its multipliers, and what the journal of a run can hold.
 */
module RecordLaws {
  import opened Prelude
  import opened Numbers
  import opened SdkArithmetic
  import opened RetentionIndex
  import opened AnnualModel
  import AnnualOrder

  // ----- decimal multipliers -----

  /** Digits are read most significant first, base ten. */
  lemma {:induction false} DecimalConcat(a: string, b: string)
    requires AllDigits(a) && AllDigits(b)
    ensures DecimalValue(a + b) == DecimalValue(a) * Pow10(|b|) + DecimalValue(b)
  {
    if b == [] {
      assert a + b == a;
    } else {
      var init := b[..|b| - 1];
      assert (a + b)[..|a + b| - 1] == a + init;
      DecimalConcat(a, init);
      Associate(DecimalValue(a), 10, Pow10(|init|));
    }
  }

  lemma DecimalDigit(c: char)
    requires IsDigit(c)
    ensures DecimalValue([c]) == c as int - '0' as int
  {
    assert [c][..0] == [];
  }

  /** How a multiplier is written: digits, and after a dot more digits if there are any. */
  function Written(whole: string, fraction: string): string
  {
    if fraction == [] then whole else whole + "." + fraction
  }

  function Thousandths(whole: string, fraction: string): nat
    requires AllDigits(whole) && AllDigits(fraction)
  {
    DecimalValue(whole) * Pow10(|fraction|) + DecimalValue(fraction)
  }

  lemma {:induction false} DotAfter(whole: string, rest: string)
    requires AllDigits(whole) && (rest == [] || rest[0] == '.')
    ensures DotIndex(whole + rest) == |whole|
  {
    if whole == [] {
      assert whole + rest == rest;
    } else {
      assert (whole + rest)[1..] == whole[1..] + rest;
      assert IsDigit(whole[0]);
      DotAfter(whole[1..], rest);
    }
  }

  lemma Shape(whole: string, fraction: string)
    requires AllDigits(whole) && AllDigits(fraction)
    ensures var s := Written(whole, fraction);
      && DotIndex(s) == |whole| <= |s| && s[..|whole|] == whole
      && (if fraction == [] then |whole| == |s| else |whole| < |s| && s[|whole| + 1..] == fraction)
  {
    var rest := if fraction == [] then "" else "." + fraction;
    assert Written(whole, fraction) == whole + rest;
    DotAfter(whole, rest);
  }

  /** A plain decimal is accepted exactly when it is short enough and not zero, and has the value its digits say. */
  lemma ParseReadsDigits(whole: string, fraction: string)
    requires AllDigits(whole) && AllDigits(fraction) && whole != []
    ensures var s, v := Written(whole, fraction), Thousandths(whole, fraction); var r := ParsePositiveDecimal(s);
      && (r.Some? <==> |s| <= 64 && v > 0)
      && (r.Some? ==> r.value.denominator > 0 && r.value.numerator * Pow10(|fraction|) == v * r.value.denominator)
  {
    var s, v := Written(whole, fraction), Thousandths(whole, fraction);
    Shape(whole, fraction);
    DecimalConcat(whole, fraction);
    ReduceOk(Rational(v, Pow10(|fraction|)));
  }

  /** Nothing else is accepted. */
  lemma ParseOnlyPlain(s: string) returns (whole: string, fraction: string)
    requires ParsePositiveDecimal(s).Some?
    ensures AllDigits(whole) && AllDigits(fraction) && whole != [] && s == Written(whole, fraction)
  {
    var k := DotIndex(s);
    whole, fraction := s[..k], if k < |s| then s[k + 1..] else [];
    if k < |s| { assert s == s[..k] + "." + s[k + 1..]; }
  }

  // ----- the calendar -----

  /** Leap years up to and including a year. */
  function Leaps(year: int): int { year / 4 - year / 100 + year / 400 }

  function DaysThrough(year: int, month: nat): int
  {
    if month == 0 then 0 else DaysThrough(year, month - 1) + DaysInMonth(year, month)
  }

  /** A year's twelve months have 365 days, and one more in a leap year. */
  lemma YearLength(year: int)
    ensures DaysThrough(year, 12) == 365 + Leaps(year) - Leaps(year - 1)
    ensures DaysThrough(year, 2) == DaysThrough(year, 12) - 306
  {
    assert DaysThrough(year, 1) == 31;
    assert DaysThrough(year, 2) == 31 + DaysInMonth(year, 2);
    assert DaysThrough(year, 4) == DaysThrough(year, 2) + 61;
    assert DaysThrough(year, 6) == DaysThrough(year, 4) + 61;
    assert DaysThrough(year, 8) == DaysThrough(year, 6) + 62;
    assert DaysThrough(year, 10) == DaysThrough(year, 8) + 61;
    assert DaysThrough(year, 12) == DaysThrough(year, 10) + 61;
    LeapStep(year);
  }

  lemma LeapStep(year: int)
    ensures Leaps(year) - Leaps(year - 1) == DaysInMonth(year, 2) - 28
  {
    Multiples(year, 4);
    Multiples(year, 100);
    Multiples(year, 400);
  }

  lemma Multiples(year: int, k: int)
    requires k > 1
    ensures year / k - (year - 1) / k == if year % k == 0 then 1 else 0
  {
    var q, r := year / k, year % k;
    assert year == q * k + r;
    if r == 0 {
      FloorUnique(year - 1, k, q - 1) by { assert (q - 1) * k == q * k - k; assert (q - 1 + 1) * k == q * k; }
    } else {
      FloorUnique(year - 1, k, q) by { assert (q + 1) * k == q * k + k; }
    }
  }

  // ----- weights -----

  lemma Commute(x: int, y: int)
    ensures x * y == y * x
  {
  }

  /** Only a qualified event of the series' year weighs, by its first multiplier over its second. */
  lemma WeightIsRatio(term: Term, r: Record)
    requires ValidRecord(term, r)
    ensures ParsePositiveDecimal(r.m0).Some? && ParsePositiveDecimal(r.m1).Some?
    ensures var w := WeightOf(term, r); var a, b := ParsePositiveDecimal(r.m0).value, ParsePositiveDecimal(r.m1).value;
      if r.exDate.Some? && r.exDate.value.year == term.year && r.status.Qualified?
      then w.Multiply? && w.factor.denominator > 0
           && w.factor.numerator * (a.denominator * b.numerator) == w.factor.denominator * (a.numerator * b.denominator)
      else w.Skip?
  {
    ValidWeight(term, r);
    var a, b := ParsePositiveDecimal(r.m0).value, ParsePositiveDecimal(r.m1).value;
    Commute(a.numerator * b.denominator, a.denominator * b.numerator);
  }

  // ----- the journal of a run -----

  /** A record enters before finalization exactly when it is well-formed, about this series, and new with room or a higher revision. */
  lemma AcceptedIff(cfg: Config, s: State, r: Record)
    requires StateOk(cfg, s)
    ensures RecordEvent(cfg, s, r).1 == Ok(Accepted) <==>
      && s.snapshot.None? && (if r.id in s.events then s.events[r.id].revision < r.revision else |s.events| < 64)
      && 1 <= |r.id| <= 128 && 0 <= r.revision <= MAX_SAFE_INTEGER
      && r.chain == cfg.term.chain && r.issuer == cfg.term.issuer && r.mint == cfg.term.mint
      && 1 <= |r.chain| <= 128 && 1 <= |r.issuer| <= 128 && 1 <= |r.mint| <= 128
      && (r.exDate.Some? ==> var d := r.exDate.value; 100 <= d.year <= 9999 && 1 <= d.month <= 12 && 1 <= d.day <= DaysInMonth(d.year, d.month))
      && var m0, m1 := ParsePositiveDecimal(r.m0), ParsePositiveDecimal(r.m1);
         m0.Some? && m1.Some?
         && (m0.value.numerator * m1.value.denominator <= m1.value.numerator * m0.value.denominator || r.status.Pending? || r.status.Unsupported?)
  {
    AnnualOrder.ListLength(s.eventOrder, s.events);
  }
}
