/**
 base58Encode (packages/devnet-runtime/src/transactions.ts): a digit array multiplied by 256 in place for every byte,
 then one '1' for each leading zero byte. It is proved against a positional specification that a decoder inverts.
 */
module Base58 {
  import opened Bytes

  type Digit = x: int | 0 <= x < 58

  /** Digits and letters without 0, I, O and l. */
  const ALPHABET: string := "123456789" + ("ABCDEFGH" + ("JKLMN" + ("PQRSTUVWXYZ" + ("abcdefghijk" + "mnopqrstuvwxyz"))))

  // ----- positional values -----

  /** The number a byte string denotes, most significant byte first. */
  function BeValue(bytes: seq<Byte>): nat
  {
    if bytes == [] then 0 else BeValue(bytes[..|bytes| - 1]) * 256 + bytes[|bytes| - 1]
  }

  /** The number a digit array denotes, least significant digit first. */
  function DigitsValue(digits: seq<Digit>): nat
  {
    if digits == [] then 0 else digits[0] + 58 * DigitsValue(digits[1..])
  }

  /** Low digits with a number on top of them. */
  ghost function Stacked(digits: seq<Digit>, top: nat): nat
  {
    if digits == [] then top else digits[0] + 58 * Stacked(digits[1..], top)
  }

  lemma {:induction false} StackedSnoc(digits: seq<Digit>, x: Digit, top: nat)
    ensures Stacked(digits + [x], top) == Stacked(digits, x + 58 * top)
  {
    if digits == [] {
      assert ([] + [x])[1..] == [];
    } else {
      assert (digits + [x])[1..] == digits[1..] + [x];
      StackedSnoc(digits[1..], x, top);
    }
  }

  lemma {:induction false} StackedZero(digits: seq<Digit>)
    ensures Stacked(digits, 0) == DigitsValue(digits)
  {
    if digits != [] { StackedZero(digits[1..]); }
  }

  /** No superfluous leading digit. */
  predicate Trimmed(digits: seq<Digit>)
  {
    digits != [] && (|digits| == 1 || digits[|digits| - 1] != 0)
  }

  /** The digits of a number, most significant first. */
  function Numeral(n: nat): (d: seq<Digit>)
    ensures d != [] && (n > 0 ==> d[0] != 0)
  {
    if n < 58 then [n] else Numeral(n / 58) + [n % 58]
  }

  function Reversed(s: seq<Digit>): seq<Digit>
  {
    if s == [] then [] else Reversed(s[1..]) + [s[0]]
  }

  /** A trimmed digit array is the numeral of its value: the representation is unique. */
  lemma {:induction false} TrimmedIsNumeral(digits: seq<Digit>)
    requires Trimmed(digits)
    ensures Reversed(digits) == Numeral(DigitsValue(digits))
    ensures |digits| > 1 ==> DigitsValue(digits) > 0
  {
    var rest := digits[1..];
    if rest == [] {
      assert DigitsValue(rest) == 0;
      assert Reversed(digits) == [] + [digits[0]] == [digits[0]];
    } else {
      assert rest[|rest| - 1] == digits[|digits| - 1];
      TrimmedIsNumeral(rest);
      assert |rest| == 1 ==> DigitsValue(rest) == rest[0] + 58 * DigitsValue(rest[1..]);
      var v := DigitsValue(rest);
      assert v > 0;
      assert DigitsValue(digits) / 58 == v && DigitsValue(digits) % 58 == digits[0];
    }
  }

  // ----- the encoder -----

  function LeadingZeros(bytes: seq<Byte>): nat
  {
    if bytes == [] || bytes[0] != 0 then 0 else 1 + LeadingZeros(bytes[1..])
  }

  function Ones(n: nat): string { seq(n, i => '1') }

  function Text(digits: seq<Digit>): string { seq(|digits|, i requires 0 <= i < |digits| => ALPHABET[digits[i]]) }

  /** One '1' per leading zero byte, then the numeral; the last byte, if all are zero, is the numeral itself. */
  function Encoding(input: seq<Byte>): string
  {
    if input == [] then ""
    else Ones(if LeadingZeros(input) == |input| then |input| - 1 else LeadingZeros(input)) + Text(Numeral(BeValue(input)))
  }

  lemma CarryStep(low: seq<Digit>, carry: nat, digit: Digit, rest: nat)
    ensures var c: nat := carry + digit * 256;
      && Stacked(low + [c % 58], c / 58 + 256 * rest) == Stacked(low, carry + 256 * (digit + 58 * rest))
      && (digit > 0 ==> c / 58 > 0)
  {
    var c: nat := carry + digit * 256;
    StackedSnoc(low, c % 58, c / 58 + 256 * rest);
    assert c % 58 + 58 * (c / 58 + 256 * rest) == carry + 256 * (digit + 58 * rest);
  }

  /** The digits below the index and the carry hold their part of digits * 256 + byte. */
  ghost predicate Scaling(before: seq<Digit>, digits: seq<Digit>, index: nat, carry: nat, byte: Byte)
  {
    && index <= |digits| == |before| && digits[index..] == before[index..]
    && Stacked(digits[..index], carry + 256 * DigitsValue(before[index..])) == byte + 256 * DigitsValue(before)
    && (index > 0 && before[index - 1] > 0 ==> carry > 0)
  }

  lemma ScaleStep(before: seq<Digit>, digits: seq<Digit>, index: nat, carry: nat, byte: Byte)
    requires Scaling(before, digits, index, carry, byte) && index < |digits|
    ensures digits[index] == before[index]
    ensures var c: nat := carry + 256 * (before[index] as int); Scaling(before, digits[index := c % 58], index + 1, c / 58, byte)
  {
    var low, rest, digit := digits[..index], DigitsValue(before[index + 1..]), before[index];
    assert digits[index] == digits[index..][0] == before[index..][0] == digit;
    assert before[index..][1..] == before[index + 1..];
    assert DigitsValue(before[index..]) == digit + 58 * rest;
    CarryStep(low, carry, digit, rest);
    var c: nat := carry + 256 * (digit as int);
    var next := digits[index := c % 58];
    assert next[..index + 1] == low + [c % 58];
    assert next[index + 1..] == digits[index..][1..];
  }

  /** The inner digit loop. */
  method ScaleDigits(before: seq<Digit>, byte: Byte) returns (digits: seq<Digit>, carry: nat)
    ensures |digits| == |before| && Stacked(digits, carry) == byte + 256 * DigitsValue(before)
    ensures before != [] && before[|before| - 1] > 0 ==> carry > 0
  {
    digits, carry := before, byte;
    var index := 0;
    assert before[0..] == before && digits[..0] == [];
    while index < |digits|
      invariant Scaling(before, digits, index, carry, byte)
    {
      ScaleStep(before, digits, index, carry, byte);
      var digit: int := digits[index];
      carry := carry + digit * 256;
      digits := digits[index := carry % 58];
      carry := carry / 58;
      index := index + 1;
    }
    assert before[index..] == [] && digits[..index] == digits;
  }

  /** The outer loop's body: digits * 256 + byte, still without a superfluous leading digit. */
  method MultiplyAdd(before: seq<Digit>, byte: Byte) returns (digits: seq<Digit>)
    requires Trimmed(before)
    ensures Trimmed(digits) && DigitsValue(digits) == DigitsValue(before) * 256 + byte
  {
    var carry: nat;
    digits, carry := ScaleDigits(before, byte);
    ghost var total := Stacked(digits, carry);
    while carry > 0
      invariant Stacked(digits, carry) == total
      invariant digits != [] && (|digits| == 1 || carry > 0 || digits[|digits| - 1] != 0)
      decreases carry
    {
      StackedSnoc(digits, carry % 58, carry / 58);
      digits := digits + [carry % 58];
      carry := carry / 58;
    }
    StackedZero(digits);
  }

  method Encode(input: seq<Byte>) returns (text: string)
    ensures text == Encoding(input)
  {
    if |input| == 0 { return ""; }
    var digits: seq<Digit> := [0];
    var k := 0;
    assert DigitsValue([0]) == 0 + 58 * DigitsValue([]);
    while k < |input|
      invariant 0 <= k <= |input|
      invariant Trimmed(digits) && DigitsValue(digits) == BeValue(input[..k])
    {
      assert input[..k + 1][..k] == input[..k];
      digits := MultiplyAdd(digits, input[k]);
      k := k + 1;
    }
    assert input[..k] == input;
    var leading := 0;
    while leading < |input| - 1 && input[leading] == 0
      invariant 0 <= leading <= |input| - 1
      invariant LeadingZeros(input) == leading + LeadingZeros(input[leading..])
    {
      assert input[leading..][1..] == input[leading + 1..];
      leading := leading + 1;
    }
    assert input[leading..][1..] == input[leading + 1..];
    TrimmedIsNumeral(digits);
    text := Ones(leading) + Text(Reversed(digits));
  }

  // ----- the decoder it is inverted by -----

  function DigitOf(c: char): int
  {
    if '1' <= c <= '9' then c as int - '1' as int
    else if 'A' <= c <= 'H' then c as int - 'A' as int + 9
    else if 'J' <= c <= 'N' then c as int - 'J' as int + 17
    else if 'P' <= c <= 'Z' then c as int - 'P' as int + 22
    else if 'a' <= c <= 'k' then c as int - 'a' as int + 33
    else if 'm' <= c <= 'z' then c as int - 'm' as int + 44
    else 0
  }

  function TextValue(s: string): int
  {
    if s == "" then 0 else TextValue(s[..|s| - 1]) * 58 + DigitOf(s[|s| - 1])
  }

  function LeadingOnes(s: string): nat
  {
    if s == "" || s[0] != '1' then 0 else 1 + LeadingOnes(s[1..])
  }

  function MinimalBe(n: int): seq<Byte>
  {
    if n <= 0 then [] else MinimalBe(n / 256) + [n % 256]
  }

  function Zeros(n: nat): seq<Byte> { seq(n, i => 0) }

  function Decode(s: string): seq<Byte> { Zeros(LeadingOnes(s)) + MinimalBe(TextValue(s)) }

  /** The characters stand for consecutive digits. */
  ghost predicate Counts(s: string, first: int)
  {
    forall i | 0 <= i < |s| :: DigitOf(s[i]) == first + i
  }

  lemma Joined(a: string, b: string, first: int)
    requires Counts(a, first) && Counts(b, first + |a|)
    ensures Counts(a + b, first)
  {
  }

  lemma UpperCounts()
    ensures Counts("123456789", 0) && Counts("ABCDEFGH", 9) && Counts("JKLMN", 17)
  {
  }

  lemma LowerCounts()
    ensures Counts("PQRSTUVWXYZ", 22) && Counts("abcdefghijk", 33) && Counts("mnopqrstuvwxyz", 44)
  {
  }

  lemma AlphabetCounts()
    ensures |ALPHABET| == 58 && Counts(ALPHABET, 0)
  {
    UpperCounts();
    LowerCounts();
    var lower := "abcdefghijk" + "mnopqrstuvwxyz";
    Joined("abcdefghijk", "mnopqrstuvwxyz", 33);
    Joined("PQRSTUVWXYZ", lower, 22);
    Joined("JKLMN", "PQRSTUVWXYZ" + lower, 17);
    Joined("ABCDEFGH", "JKLMN" + ("PQRSTUVWXYZ" + lower), 9);
    Joined("123456789", "ABCDEFGH" + ("JKLMN" + ("PQRSTUVWXYZ" + lower)), 0);
  }

  lemma {:induction false} TextOfNumeral(n: nat)
    ensures TextValue(Text(Numeral(n))) == n
  {
    AlphabetCounts();
    var d := Numeral(n);
    var t := Text(d);
    if n < 58 {
      assert t[..0] == "";
    } else {
      assert t[..|t| - 1] == Text(Numeral(n / 58));
      TextOfNumeral(n / 58);
    }
  }

  /** Leading '1's add nothing to the value and are counted up to the first other character. */
  lemma {:induction false} OnesPrefix(n: nat, t: string)
    requires t == "" || t[0] != '1'
    ensures LeadingOnes(Ones(n) + t) == n
  {
    if n > 0 {
      assert (Ones(n) + t)[1..] == Ones(n - 1) + t;
      OnesPrefix(n - 1, t);
    } else {
      assert Ones(0) + t == t;
    }
  }

  lemma {:induction false} OnesValue(n: nat, t: string)
    ensures TextValue(Ones(n) + t) == TextValue(t)
    decreases |t|, n
  {
    var s := Ones(n) + t;
    if t == "" {
      if n > 0 {
        assert s[..|s| - 1] == Ones(n - 1) + "";
        OnesValue(n - 1, "");
      }
    } else {
      assert s[..|s| - 1] == Ones(n) + t[..|t| - 1];
      OnesValue(n, t[..|t| - 1]);
    }
  }

  lemma {:induction false} ZerosPrefix(bytes: seq<Byte>)
    ensures LeadingZeros(bytes) <= |bytes|
    ensures bytes[..LeadingZeros(bytes)] == Zeros(LeadingZeros(bytes))
    ensures LeadingZeros(bytes) < |bytes| ==> bytes[LeadingZeros(bytes)] != 0
  {
    if bytes != [] && bytes[0] == 0 { ZerosPrefix(bytes[1..]); }
  }

  lemma {:induction false} ZerosValue(n: nat, bytes: seq<Byte>)
    ensures BeValue(Zeros(n) + bytes) == BeValue(bytes)
    decreases |bytes|, n
  {
    var s := Zeros(n) + bytes;
    if bytes == [] {
      if n > 0 {
        assert s[..|s| - 1] == Zeros(n - 1) + [];
        ZerosValue(n - 1, []);
      }
    } else {
      assert s[..|s| - 1] == Zeros(n) + bytes[..|bytes| - 1];
      ZerosValue(n, bytes[..|bytes| - 1]);
    }
  }

  /** Bytes that do not start with zero are the minimal bytes of their value. */
  lemma {:induction false} MinimalBytes(bytes: seq<Byte>)
    requires bytes == [] || bytes[0] != 0
    ensures MinimalBe(BeValue(bytes)) == bytes
    ensures bytes != [] ==> BeValue(bytes) > 0
  {
    if bytes != [] {
      var init, last := bytes[..|bytes| - 1], bytes[|bytes| - 1];
      MinimalBytes(init);
      var v := BeValue(init) * 256 + last;
      assert v / 256 == BeValue(init) && v % 256 == last;
      assert v > 0;
    }
  }

  lemma AllZero(n: nat)
    requires n > 0
    ensures Encoding(Zeros(n)) == Ones(n)
  {
    ZerosPrefix(Zeros(n));
    ZerosValue(n, []);
    assert Zeros(n) + [] == Zeros(n);
    assert ALPHABET[0] == '1';
    assert Text(Numeral(0)) == Ones(1);
  }

  lemma {:induction false} ZerosCounted(n: nat, rest: seq<Byte>)
    requires rest != [] && rest[0] != 0
    ensures LeadingZeros(Zeros(n) + rest) == n
  {
    if n > 0 {
      assert (Zeros(n) + rest)[1..] == Zeros(n - 1) + rest;
      ZerosCounted(n - 1, rest);
    }
  }

  lemma NotAllZero(n: nat, rest: seq<Byte>)
    requires rest != [] && rest[0] != 0
    ensures LeadingZeros(Zeros(n) + rest) == n
    ensures Encoding(Zeros(n) + rest) == Ones(n) + Text(Numeral(BeValue(rest))) && BeValue(rest) > 0
  {
    ZerosCounted(n, rest);
    ZerosValue(n, rest);
    MinimalBytes(rest);
  }

  lemma FirstSymbol(n: nat)
    requires n > 0
    ensures Text(Numeral(n))[0] != '1'
  {
    AlphabetCounts();
    assert DigitOf('1') == 0;
  }

  lemma ZeroCorresponds(n: nat)
    ensures LeadingOnes(Encoding(Zeros(n))) == n && TextValue(Encoding(Zeros(n))) == 0
  {
    if n > 0 { AllZero(n); }
    assert Ones(n) + "" == Ones(n);
    OnesPrefix(n, "");
    OnesValue(n, "");
  }

  lemma RestCorresponds(n: nat, rest: seq<Byte>)
    requires rest != [] && rest[0] != 0
    ensures var e := Encoding(Zeros(n) + rest); LeadingOnes(e) == n && TextValue(e) == BeValue(rest)
  {
    NotAllZero(n, rest);
    var v := BeValue(rest);
    FirstSymbol(v);
    OnesPrefix(n, Text(Numeral(v)));
    OnesValue(n, Text(Numeral(v)));
    TextOfNumeral(v);
  }

  /** Leading zero bytes and leading '1's correspond one to one, also when every byte is zero; values agree. */
  lemma LeadingCorrespond(input: seq<Byte>)
    ensures LeadingOnes(Encoding(input)) == LeadingZeros(input)
    ensures TextValue(Encoding(input)) == BeValue(input)
  {
    var z := LeadingZeros(input);
    ZerosPrefix(input);
    var rest := input[z..];
    assert input == Zeros(z) + rest;
    ZerosValue(z, rest);
    if rest != [] {
      RestCorresponds(z, rest);
    } else {
      assert input == Zeros(z);
      ZeroCorresponds(z);
    }
  }

  lemma BytesRecovered(input: seq<Byte>)
    ensures Zeros(LeadingZeros(input)) + MinimalBe(BeValue(input)) == input
  {
    var z := LeadingZeros(input);
    ZerosPrefix(input);
    var rest := input[z..];
    assert input == Zeros(z) + rest;
    ZerosValue(z, rest);
    MinimalBytes(rest);
  }

  /** Decoding inverts encoding on every byte string. */
  lemma RoundTrip(input: seq<Byte>)
    ensures Decode(Encoding(input)) == input
  {
    LeadingCorrespond(input);
    BytesRecovered(input);
  }

  lemma Injective(a: seq<Byte>, b: seq<Byte>)
    requires Encoding(a) == Encoding(b)
    ensures a == b
  {
    RoundTrip(a);
    RoundTrip(b);
  }
}
