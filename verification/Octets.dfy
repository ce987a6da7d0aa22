/**
 * Bytes as bit vectors, as the decoders of sensor records shift and mask them, and as the numbers that the layouts in
 * the IPMI specification speak of.
 */
module Octets {

  type Octet = x: nat | x < 256

  function ValueOf(x: bv8): Octet
  {
    x as int
  }

  /** The byte of a value, found by counting up to it. */
  function ByteOf(n: Octet): (x: bv8)
    ensures x as int == n
  {
    if n == 0 then 0 else ByteOf(n - 1) + 1
  }

  function Values(b: seq<bv8>): (v: seq<Octet>)
    ensures |v| == |b|
  {
    seq(|b|, i requires 0 <= i < |b| => ValueOf(b[i]))
  }

  function Bytes(v: seq<Octet>): (b: seq<bv8>)
    ensures |b| == |v|
  {
    seq(|v|, i requires 0 <= i < |v| => ByteOf(v[i]))
  }

  lemma {:induction false} ValueAt(b: seq<bv8>, i: nat)
    requires i < |b|
    ensures Values(b)[i] == ValueOf(b[i])
  {
  }

  lemma {:induction false} ValuesOfBytes(v: seq<Octet>)
    ensures Values(Bytes(v)) == v
  {
    forall i | 0 <= i < |v|
      ensures Values(Bytes(v))[i] == v[i]
    {
      ValueAt(Bytes(v), i);
    }
  }

  lemma {:induction false} ValuesFrom(b: seq<bv8>, i: nat)
    requires i <= |b|
    ensures Values(b[i..]) == Values(b)[i..]
  {
  }

  /* ---- Shifts and masks ---- */

  lemma {:induction false} LowSix(x: bv8)
    ensures ValueOf(x & 0x3f) == ValueOf(x) % 64
  {
  }

  lemma {:induction false} LowSeven(x: bv8)
    ensures ValueOf(x & 0x7f) == ValueOf(x) % 128
  {
  }

  lemma {:induction false} HighSix(x: bv8)
    ensures ValueOf(x >> 2) == ValueOf(x) / 4
  {
  }

  lemma {:induction false} HighTwo(x: bv8)
    ensures ValueOf(x >> 6) == ValueOf(x) / 64
  {
  }

  lemma {:induction false} HighFour(x: bv8)
    ensures ValueOf(x >> 4) == ValueOf(x) / 16
  {
  }

  lemma {:induction false} LowFour(x: bv8)
    ensures ValueOf(x & 0xf) == ValueOf(x) % 16
  {
  }

  lemma {:induction false} FourUp(y: bv8)
    ensures ValueOf((y & 0xf) << 2) == ValueOf(y) % 16 * 4
  {
  }

  lemma {:induction false} TwoUp(y: bv8)
    ensures ValueOf((y & 0x3) << 4) == ValueOf(y) % 4 * 16
  {
  }

  /** Parts that share no bit add up. */
  lemma {:induction false} OrAdds(x: bv8, y: bv8)
    requires x & y == 0
    ensures ValueOf(x | y) == ValueOf(x) + ValueOf(y)
  {
    assert x | y == x + y;
  }

  lemma {:induction false} Halves(x: bv8)
    ensures ValueOf((x >> 4) & 0xf) == ValueOf(x) / 16 && ValueOf((x >> 0) & 0xf) == ValueOf(x) % 16
  {
    HighFour(x);
    LowFour(x);
    assert (x >> 4) & 0xf == x >> 4;
    assert x >> 0 == x;
  }
}
