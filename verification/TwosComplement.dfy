/**
 * The sign extension that sensor record fields of fewer than sixteen bits go through, at every width: on the bits of
 * one byte, then on the low and on the high byte of a word (pkg/ipmi/types.go).
 */
module TwosComplement {
  import opened Octets
  import opened Powers

  /** A number of some bits, the highest of which is the sign. */
  function Signed(bits: nat, x: nat): int
  {
    if bits == 0 || x < Pow2(bits - 1) then x else x - Pow2(bits)
  }

  /** The bits of a number in two's complement. */
  function Unsigned(bits: nat, v: int): int
  {
    if v < 0 then v + Pow2(bits) else v
  }

  function Joined(hi: bv8, lo: bv8): bv16
  {
    (lo as bv16) | ((hi as bv16) << 8)
  }

  function Int16(x: bv16): int
  {
    if x < 0x8000 then x as int else x as int - 0x10000
  }

  function Extended(hi: bv8, lo: bv8, mask: bv16): int
  {
    Int16((Joined(hi, lo) ^ mask) - mask)
  }

  /** twos: sign extension by flipping the sign bit and taking it away again. */
  function Twos(hi: bv8, lo: bv8, bits: nat): int
    requires bits <= 16
  {
    Extended(hi, lo, if bits == 0 then 0 else (1 as bv16) << (bits - 1))
  }

  function Int8(x: bv8): int
  {
    if x < 0x80 then x as int else x as int - 0x100
  }

  predicate SignBit(m: bv8)
  {
    m != 0 && m & (m - 1) == 0
  }

  lemma {:induction false} TakeSignBit(x: bv8, m: bv8)
    requires SignBit(m)
    ensures (x - m) as int == if x >= m then x as int - m as int else x as int - m as int + 256
  {
    assert m == 0x1 || m == 0x2 || m == 0x4 || m == 0x8 || m == 0x10 || m == 0x20 || m == 0x40 || m == 0x80;
  }

  /** What twos does to a sign bit, on one byte. */
  function Flip(x: bv8, m: bv8): bv8
  {
    (x ^ m) - m
  }

  lemma {:induction false} FlipBits(x: bv8, m: bv8)
    requires SignBit(m) && (m == 0x80 || x < m + m)
    ensures Flip(x, m) == (if x < m then x else (x - m) - m)
    ensures (x < m ==> x < 0x80) && (x >= m ==> x - m < m && (x - m) - m >= 0x80)
  {
  }

  lemma {:induction false} FlipByte(x: bv8, m: bv8)
    requires SignBit(m) && (m == 0x80 || x < m + m)
    ensures Int8(Flip(x, m)) == Unflipped(ValueOf(x), ValueOf(m))
  {
    FlipBits(x, m);
    if x >= m {
      TakeSignBit(x, m);
      TakeSignBit(x - m, m);
    }
  }

  lemma {:induction false} JoinedHigh(hi: bv8, lo: bv8)
    ensures Int16(Joined(hi, lo)) == 256 * Int8(hi) + ValueOf(lo)
  {
  }

  lemma {:induction false} JoinedLow(lo: bv8)
    ensures Int16(Joined(if lo < 0x80 then 0 else 0xff, lo)) == Int8(lo)
  {
  }

  lemma {:induction false} FlipHighBits(hi: bv8, lo: bv8, m: bv8)
    ensures (Joined(hi, lo) ^ ((m as bv16) << 8)) - ((m as bv16) << 8) == Joined((hi ^ m) - m, lo)
  {
  }

  lemma {:induction false} FlipHigh(hi: bv8, lo: bv8, m: bv8)
    ensures Extended(hi, lo, (m as bv16) << 8) == Int16(Joined(Flip(hi, m), lo))
  {
    FlipHighBits(hi, lo, m);
  }

  lemma {:induction false} FlipLow(lo: bv8, m: bv8)
    requires SignBit(m) && (m == 0x80 || lo < m + m)
    ensures Extended(0, lo, m as bv16) == Int16(Joined(if Flip(lo, m) < 0x80 then 0 else 0xff, Flip(lo, m)))
  {
    assert (Joined(0, lo) ^ (m as bv16)) - (m as bv16) == Joined(if (lo ^ m) - m < 0x80 then 0 else 0xff, (lo ^ m) - m);
  }

  lemma {:induction false} LowRead(lo: bv8, m: bv8)
    requires SignBit(m) && (m == 0x80 || lo < m + m)
    ensures Extended(0, lo, m as bv16) == Unflipped(ValueOf(lo), ValueOf(m))
  {
    FlipByte(lo, m);
    FlipLow(lo, m);
    JoinedLow(Flip(lo, m));
  }

  lemma {:induction false} HighRead(hi: bv8, lo: bv8, m: bv8)
    requires SignBit(m) && (m == 0x80 || hi < m + m)
    ensures Extended(hi, lo, (m as bv16) << 8) == 256 * Unflipped(ValueOf(hi), ValueOf(m)) + ValueOf(lo)
  {
    FlipByte(hi, m);
    FlipHigh(hi, lo, m);
    JoinedHigh(Flip(hi, m), lo);
  }

  /** The sign bit of k + 1 bits, as a byte and in either byte of a word. */
  lemma {:induction false} SignBitAt(k: nat) returns (m: bv8)
    requires k < 8
    ensures SignBit(m) && ValueOf(m) == Pow2(k) && (m == 0x80 || ValueOf(m + m) == Pow2(k + 1))
    ensures (1 as bv16) << k == m as bv16 && (1 as bv16) << (k + 8) == (m as bv16) << 8
  {
    m := (1 as bv8) << k;
    assert Pow2(0) == 1 && Pow2(1) == 2 && Pow2(2) == 4 && Pow2(3) == 8;
    assert Pow2(4) == 16 && Pow2(5) == 32 && Pow2(6) == 64 && Pow2(7) == 128;
  }

  function Unflipped(x: int, m: int): int
  {
    if x < m then x else x - 2 * m
  }

  lemma {:induction false} MaskIs(hi: bv8, lo: bv8, bits: nat, mask: bv16)
    requires 1 <= bits <= 16 && mask == (1 as bv16) << (bits - 1)
    ensures Twos(hi, lo, bits) == Extended(hi, lo, mask)
  {
  }

  lemma {:induction false} LowTwos(lo: bv8, k: nat)
    requires k < 8 && ValueOf(lo) < Pow2(k + 1)
    ensures Twos(0, lo, k + 1) == Unflipped(ValueOf(lo), Pow2(k))
  {
    var m := SignBitAt(k);
    MaskIs(0, lo, k + 1, m as bv16);
    LowRead(lo, m);
  }

  lemma {:induction false} HighTwos(hi: bv8, lo: bv8, k: nat)
    requires k < 8 && ValueOf(hi) < Pow2(k + 1)
    ensures Twos(hi, lo, k + 9) == 256 * Unflipped(ValueOf(hi), Pow2(k)) + ValueOf(lo)
  {
    var m := SignBitAt(k);
    MaskIs(hi, lo, k + 9, (m as bv16) << 8);
    HighRead(hi, lo, m);
  }

  lemma {:induction false} SignedHigh(hi: nat, lo: nat, k: nat)
    requires lo < 256
    ensures 256 * Unflipped(hi, Pow2(k)) + lo == Signed(k + 9, 256 * hi + lo)
  {
    EightMoreBits(k);
  }

  lemma {:induction false} NoHighByte(hi: bv8, lo: bv8, bits: nat)
    requires bits <= 8 && 256 * ValueOf(hi) + ValueOf(lo) < Pow2(bits)
    ensures hi == 0 && ValueOf(hi) == 0
  {
    AtMost256(bits);
    assert ValueOf(hi) == 0;
  }

  lemma {:induction false} NoLowByte(lo: bv8)
    requires ValueOf(lo) < Pow2(0)
    ensures lo == 0 && ValueOf(lo) == 0
  {
    assert ValueOf(lo) == 0;
  }

  lemma {:induction false} HighBelow(hi: nat, lo: nat, bits: nat)
    requires 8 < bits && 256 * hi + lo < Pow2(bits)
    ensures hi < Pow2(bits - 8)
  {
    EightMoreBits(bits - 8);
  }

  lemma {:induction false} TwosHigh(hi: bv8, lo: bv8, k: nat)
    requires k < 8 && ValueOf(hi) < Pow2(k + 1)
    ensures Twos(hi, lo, k + 9) == Signed(k + 9, 256 * ValueOf(hi) + ValueOf(lo))
  {
    HighTwos(hi, lo, k);
    SignedHigh(ValueOf(hi), ValueOf(lo), k);
  }

  lemma {:induction false} TwosNone()
    ensures Twos(0, 0, 0) == 0
  {
  }

  /** twos reads a number of any width that fits into the two bytes. */
  lemma {:induction false} TwosIs(hi: bv8, lo: bv8, bits: nat)
    requires bits <= 16 && 256 * ValueOf(hi) + ValueOf(lo) < Pow2(bits)
    ensures Twos(hi, lo, bits) == Signed(bits, 256 * ValueOf(hi) + ValueOf(lo))
  {
    if bits <= 8 {
      NoHighByte(hi, lo, bits);
      if bits == 0 {
        NoLowByte(lo);
        TwosNone();
      } else {
        LowTwos(lo, bits - 1);
      }
    } else {
      HighBelow(ValueOf(hi), ValueOf(lo), bits);
      TwosHigh(hi, lo, bits - 9);
    }
  }

  lemma {:induction false} AtMost256(k: nat)
    requires k <= 8
    ensures Pow2(k) <= 256
  {
    assert Pow2(0) == 1 && Pow2(1) == 2 && Pow2(2) == 4 && Pow2(3) == 8;
    assert Pow2(4) == 16 && Pow2(5) == 32 && Pow2(6) == 64 && Pow2(7) == 128 && Pow2(8) == 256;
  }
}
