/** Powers of two, greatest common divisors, fractions in lowest terms and rounding down. */
module Numbers {

  function Pow2(k: nat): (p: nat)
    ensures p >= 1
  {
    if k == 0 then 1 else 2 * Pow2(k - 1)
  }

  lemma {:induction false} Pow2Add(a: nat, b: nat)
    ensures Pow2(a + b) == Pow2(a) * Pow2(b)
  {
    if a != 0 {
      Pow2Add(a - 1, b);
      assert 2 * Pow2(a - 1) * Pow2(b) == 2 * (Pow2(a - 1) * Pow2(b));
    }
  }

  lemma {:induction false} Pow2Monotone(a: nat, b: nat)
    requires a <= b
    ensures Pow2(a) <= Pow2(b)
    decreases b - a
  {
    if a < b { Pow2Monotone(a + 1, b); }
  }

  lemma Pow2Values()
    ensures Pow2(8) == 0x100 && Pow2(32) == 0x1_0000_0000
    ensures Pow2(52) == 0x10_0000_0000_0000 && Pow2(53) == 0x20_0000_0000_0000
    ensures Pow2(63) == 0x8000_0000_0000_0000 && Pow2(64) == 0x1_0000_0000_0000_0000
  {
    assert Pow2(8) == 0x100;
    Pow2Add(8, 8);
    Pow2Add(16, 16);
    Pow2Add(16, 4);
    assert Pow2(20) == 0x10_0000;
    Pow2Add(32, 20);
    Pow2Add(52, 1);
    Pow2Add(53, 8);
    Pow2Add(61, 2);
    Pow2Add(63, 1);
  }

  // ----- products -----

  lemma MulMono(a: nat, b: nat, c: nat, d: nat)
    requires a <= c && b <= d
    ensures a * b <= c * d
  {
    assert a * b <= a * d;
    assert a * d <= c * d;
  }

  lemma MulLess(a: nat, b: nat, c: nat, d: nat)
    requires a < c && b <= d && d > 0
    ensures a * b < c * d
  {
    MulMono(a, b, a, d);
    MulMono(a + 1, d, c, d);
    assert (a + 1) * d == a * d + d;
  }

  lemma CancelMul(g: int, a: int, b: int)
    requires g > 0
    ensures a == b <==> g * a == g * b
    ensures a <= b <==> g * a <= g * b
    ensures a < b <==> g * a < g * b
  {
    assert g * b - g * a == g * (b - a);
  }

  lemma MulSign(a: nat, b: int)
    ensures b <= 0 ==> a * b <= 0
    ensures b >= 1 ==> a * b >= a
  {
  }

  /** A factor of 1 is 1. */
  lemma ProductOne(a: nat, b: int)
    requires a * b == 1
    ensures a == 1
  {
    MulSign(a, b);
  }

  lemma Distribute(a: int, b: int, c: int)
    ensures a * (b + c) == a * b + a * c
  {
  }

  lemma Associate(a: int, b: int, c: int)
    ensures a * (b * c) == (a * b) * c == b * (a * c)
  {
  }

  // ----- division -----

  lemma DivMul(n: nat, g: nat, p: nat)
    requires g > 0 && n == g * p
    ensures n / g == p
  {
    FloorUnique(n, g, p);
  }

  /** The only number with q * d <= n < (q + 1) * d is n / d. */
  lemma FloorUnique(n: int, d: int, q: int)
    requires d > 0 && q * d <= n < (q + 1) * d
    ensures n / d == q
  {
    var f := n / d;
    assert n == f * d + n % d;
    CancelMul(d, f + 1, q);
    CancelMul(d, q + 1, f);
  }

  lemma FloorSpec(n: int, d: int)
    requires d > 0
    ensures (n / d) * d <= n < (n / d + 1) * d
  {
    assert n == (n / d) * d + n % d;
    assert (n / d + 1) * d == (n / d) * d + d;
  }

  // ----- gcd -----

  function Gcd(a: nat, b: nat): nat
    decreases b
  {
    if b == 0 then a else Gcd(b, a % b)
  }

  lemma EuclidStep(g: nat, p: nat, q: nat, k: nat)
    ensures (g * p) * k + g * q == g * (p * k + q)
  {
    Associate(g, p, k);
    Distribute(g, p * k, q);
  }

  /** The gcd divides both numbers; the quotients. */
  lemma {:induction false} GcdDivides(a: nat, b: nat) returns (p: nat, q: nat)
    ensures a == Gcd(a, b) * p && b == Gcd(a, b) * q
    decreases b
  {
    if b == 0 {
      p, q := 1, 0;
    } else {
      var p', q' := GcdDivides(b, a % b);
      EuclidStep(Gcd(a, b), p', q', a / b);
      p, q := p' * (a / b) + q', p';
    }
  }

  lemma BezoutStep(b: int, k: int, r: int, x: int, y: int)
    ensures (b * k + r) * y + b * (x - k * y) == b * x + r * y
  {
    Distribute(y, b * k, r);
    Distribute(b, x, -(k * y));
    Associate(b, k, y);
    assert b * -(k * y) == -(b * (k * y));
  }

  lemma {:induction false} Bezout(a: nat, b: nat) returns (x: int, y: int)
    ensures a * x + b * y == Gcd(a, b)
    decreases b
  {
    if b == 0 {
      x, y := 1, 0;
    } else {
      var x', y' := Bezout(b, a % b);
      x, y := y', x' - (a / b) * y';
      BezoutStep(b, a / b, a % b, x', y');
      assert a == b * (a / b) + a % b;
    }
  }

  lemma GcdPositive(a: nat, b: nat)
    requires a > 0 || b > 0
    ensures Gcd(a, b) > 0
  {
    var p, q := GcdDivides(a, b);
  }

  predicate Coprime(a: nat, b: nat)
  {
    Gcd(a, b) == 1
  }

  lemma BezoutScaled(g: int, p: int, q: int, x: int, y: int)
    ensures (g * p) * x + (g * q) * y == g * (p * x + q * y)
  {
    Associate(g, p, x);
    Associate(g, q, y);
    Distribute(g, p * x, q * y);
  }

  lemma CoprimeByBezout(p: nat, q: nat, x: int, y: int)
    requires p * x + q * y == 1
    ensures Coprime(p, q)
  {
    var h := Gcd(p, q);
    var s, t := GcdDivides(p, q);
    BezoutScaled(h, s, t, x, y);
    ProductOne(h, s * x + t * y);
  }

  /** Dividing out the gcd leaves a coprime pair with the same ratio. */
  lemma ReduceSpec(n: nat, d: nat)
    requires d > 0
    ensures var g := Gcd(n, d);
      && g > 0 && n == g * (n / g) && d == g * (d / g) && d / g > 0
      && Coprime(n / g, d / g)
      && (n / g) * d == n * (d / g)
      && (n > 0 ==> n / g > 0)
  {
    var g := Gcd(n, d);
    GcdPositive(n, d);
    var p, q := GcdDivides(n, d);
    DivMul(n, g, p);
    DivMul(d, g, q);
    var x, y := Bezout(n, d);
    BezoutScaled(g, p, q, x, y);
    CancelMul(g, p * x + q * y, 1);
    CoprimeByBezout(p, q, x, y);
    Associate(p, g, q);
  }

  lemma FactorOut(p: int, q: int, n: int, d: int, x: int, y: int)
    requires p * x + q * y == 1 && p * d == n * q
    ensures n == p * (n * x + d * y) && d == q * (n * x + d * y)
  {
    Distribute(n, p * x, q * y);
    Associate(n, p, x);
    Associate(n, q, y);
    Associate(p, d, y);
    Distribute(p, n * x, d * y);
    Distribute(d, p * x, q * y);
    Associate(d, p, x);
    Associate(d, q, y);
    Associate(q, n, x);
    Distribute(q, n * x, d * y);
  }

  /** A fraction in lowest terms divides out of every fraction of equal value. */
  lemma LowestTermsDivide(p: nat, q: nat, n: nat, d: nat) returns (k: nat)
    requires Coprime(p, q) && q > 0 && d > 0 && p * d == n * q
    ensures k > 0 && n == p * k && d == q * k
  {
    var x, y := Bezout(p, q);
    var m := n * x + d * y;
    FactorOut(p, q, n, d, x, y);
    MulSign(q, m);
    k := m;
  }

  lemma LowestTermsLeast(p: nat, q: nat, n: nat, d: nat)
    requires Coprime(p, q) && q > 0 && d > 0 && p * d == n * q
    ensures p <= n && q <= d
  {
    var k := LowestTermsDivide(p, q, n, d);
    MulMono(p, 1, p, k);
    MulMono(q, 1, q, k);
  }

  lemma LowestTermsUnique(p: nat, q: nat, n: nat, d: nat)
    requires Coprime(p, q) && Coprime(n, d) && q > 0 && d > 0 && p * d == n * q
    ensures p == n && q == d
  {
    LowestTermsLeast(p, q, n, d);
    LowestTermsLeast(n, d, p, q);
  }

  /** Equality of fractions is transitive through a positive denominator. */
  lemma SameRatioTransitive(a: nat, b: nat, c: nat, d: nat, e: nat, f: nat)
    requires d > 0 && a * d == c * b && c * f == e * d
    ensures a * f == e * b
  {
    assert d * (a * f) == (a * d) * f == (c * b) * f == b * (c * f) == b * (e * d) == d * (e * b);
    CancelMul(d, a * f, e * b);
  }

  /** Products of equal fractions are equal. */
  lemma SameRatioProduct(a: nat, b: nat, c: nat, d: nat, e: nat, f: nat, g: nat, h: nat)
    requires a * d == c * b && e * h == g * f
    ensures (a * e) * (d * h) == (c * g) * (b * f)
  {
    assert (a * e) * (d * h) == (a * d) * (e * h);
    assert (c * g) * (b * f) == (c * b) * (g * f);
  }

  /** Rounding down a quotient depends on the value of the fraction alone. */
  lemma FloorOfRatio(a: nat, d: nat, b: nat, d': nat)
    requires d > 0 && d' > 0 && a * d' == b * d
    ensures a / d == b / d'
  {
    var q := a / d;
    FloorSpec(a, d);
    CancelMul(d', q * d, a);
    CancelMul(d', a, (q + 1) * d);
    Associate(d', q, d);
    Associate(d', q + 1, d);
    CancelMul(d, q * d', b);
    CancelMul(d, b, (q + 1) * d');
    FloorUnique(b, d', q);
  }

  /** One minus a fraction, scaled and rounded down, depends on the value of the fraction alone. */
  lemma FloorOfComplement(quantity: nat, n: nat, d: nat, n': nat, d': nat)
    requires d > 0 && d' > 0 && n <= d && n' <= d' && n * d' == n' * d
    ensures quantity * (d - n) / d == quantity * (d' - n') / d'
  {
    assert (d - n) * d' == (d' - n') * d;
    Associate(quantity, d - n, d');
    Associate(quantity, d' - n', d);
    FloorOfRatio(quantity * (d - n), d, quantity * (d' - n'), d');
  }

  /** The iterative gcd of the sources. */
  method GcdLoop(left: nat, right: nat) returns (a: nat)
    ensures a == Gcd(left, right)
  {
    a := left;
    var b: nat := right;
    while b != 0
      invariant Gcd(a, b) == Gcd(left, right)
      decreases b
    {
      a, b := b, a % b;
    }
  }
}
