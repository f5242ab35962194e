/** Little-endian bytes of natural numbers (packages/transaction-sdk/src/bytes.ts; num-bigint's to_bytes_le
    and from_bytes_le are the same functions). */
module Bytes {
  import opened Numbers

  type Byte = x: int | 0 <= x < 256
  type U64 = x: int | 0 <= x < 0x1_0000_0000_0000_0000

  function LeValue(bytes: seq<Byte>): nat
  {
    if bytes == [] then 0 else bytes[0] + 256 * LeValue(bytes[1..])
  }

  /** Minimal encoding; zero is one zero byte. */
  function MinimalLe(value: nat): (bytes: seq<Byte>)
  {
    if value < 256 then [value] else [value % 256] + MinimalLe(value / 256)
  }

  lemma {:induction false} RoundTrip(value: nat)
    ensures LeValue(MinimalLe(value)) == value
    ensures MinimalLe(value) != []
    ensures value > 0 ==> MinimalLe(value)[|MinimalLe(value)| - 1] != 0
  {
    if value >= 256 {
      RoundTrip(value / 256);
      assert MinimalLe(value)[1..] == MinimalLe(value / 256);
    }
  }

  /** A number fits k bytes exactly when it is below 2^(8k). */
  lemma {:induction false} LengthBound(value: nat, k: nat)
    requires k >= 1
    ensures |MinimalLe(value)| <= k <==> value < Pow2(8 * k)
  {
    Pow2Values();
    if k == 1 {
      if value >= 256 { RoundTrip(value / 256); }
    } else {
      Pow2Add(8, 8 * (k - 1));
      if value < 256 {
        Pow2Monotone(8, 8 * k);
      } else {
        LengthBound(value / 256, k - 1);
        var p := Pow2(8 * (k - 1));
        assert value == 256 * (value / 256) + value % 256;
      }
    }
  }

  method BytesToBigIntLe(bytes: seq<Byte>) returns (value: nat)
    ensures value == LeValue(bytes)
  {
    value := 0;
    var index := |bytes|;
    while index > 0
      invariant 0 <= index <= |bytes|
      invariant value == LeValue(bytes[index..])
    {
      index := index - 1;
      assert bytes[index..][1..] == bytes[index + 1..];
      value := value * 256 + bytes[index];
    }
  }

  /** The bytes still to be emitted. */
  ghost function Rest(remainder: nat): seq<Byte>
  {
    if remainder > 0 then MinimalLe(remainder) else []
  }

  lemma RestUnfolds(remainder: nat)
    requires remainder > 0
    ensures Rest(remainder) == [remainder % 256] + Rest(remainder / 256)
  {
  }

  method BigintToMinimalLe(value: nat) returns (bytes: seq<Byte>)
    ensures bytes == MinimalLe(value)
  {
    if value == 0 { return [0]; }
    bytes := [];
    var remainder: nat := value;
    ghost var whole := Rest(value);
    while remainder > 0
      invariant whole == bytes + Rest(remainder)
      decreases remainder
    {
      RestUnfolds(remainder);
      ghost var rest := Rest(remainder / 256);
      assert bytes + ([remainder % 256] + rest) == (bytes + [remainder % 256]) + rest;
      bytes := bytes + [remainder % 256];
      remainder := remainder / 256;
    }
  }
}
