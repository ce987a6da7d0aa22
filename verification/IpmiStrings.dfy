/** The ID strings of IPMI sensor records (pkg/ipmi/types.go, sections 43.1 and 43.15 of IPMI v2.0). */
module IpmiStrings {
  import opened Octets
  import opened Powers

  /** The text and the number of bytes consumed, or an error. */
  datatype Decoded = Text(text: string, bytes: nat) | TooShort(expected: nat, got: nat)

  /* ---- Numbers ---- */

  /** The number that the bytes spell, least significant byte first. */
  function LittleEndian(b: seq<Octet>): nat
  {
    if b == [] then 0 else b[0] + 256 * LittleEndian(b[1..])
  }

  /* ---- Packed 6-bit ASCII ---- */

  /** Six bits of a number, from bit 6 * i on. */
  function SixBits(n: nat, i: nat): (r: nat)
    ensures r < 64
    decreases i
  {
    if i == 0 then n % 64 else SixBits(n / 64, i - 1)
  }

  /** Which is division by a power of two, and a remainder. */
  lemma {:induction false} SixBitsIs(n: nat, i: nat)
    ensures SixBits(n, i) == n / Pow2(6 * i) % 64
  {
    if i > 0 {
      SixBitsIs(n / 64, i - 1);
      SixMoreBits(6 * (i - 1));
      DivDiv(n, Pow2(6 * (i - 1)));
    }
  }

  /**
   * The characters that the bytes pack, as section 43.15 lays them out: six bits each, added to the code of the space.
   */
  function Unpacked(b: seq<Octet>, c: nat): string
  {
    seq(c, i requires 0 <= i => (0x20 + SixBits(LittleEndian(b), i)) as char)
  }

  /** The bytes that c characters take up: three for every four characters. */
  function PackedBytes(c: nat): nat
  {
    c - c / 4
  }

  /** The byte where the bits of character i start. */
  function Offset(i: nat): int
  {
    i - 1 - (i - 1) / 4
  }

  lemma {:induction false} LittleEndianNext(b: seq<Octet>, i: nat)
    requires i < |b|
    ensures LittleEndian(b[i..]) == b[i] + 256 * LittleEndian(b[i+1..])
  {
    assert b[i..][1..] == b[i+1..];
  }

  lemma {:induction false} SixBitsSkip(n: nat, i: nat)
    ensures SixBits(n, i + 4) == SixBits(n / 64 / 64 / 64 / 64, i)
  {
    assert SixBits(n, i + 4) == SixBits(n / 64, i + 3);
    assert SixBits(n / 64, i + 3) == SixBits(n / 64 / 64, i + 2);
    assert SixBits(n / 64 / 64, i + 2) == SixBits(n / 64 / 64 / 64, i + 1);
  }

  lemma {:induction false} FirstBytes(b: seq<Octet>, count: nat)
    requires count <= |b|
    ensures b[0..] == b
    ensures count > 0 ==> LittleEndian(b) == b[0] + 256 * LittleEndian(b[1..])
    ensures count > 1 ==> LittleEndian(b[1..]) == b[1] + 256 * LittleEndian(b[2..])
    ensures count > 2 ==> LittleEndian(b[2..]) == b[2] + 256 * LittleEndian(b[3..])
  {
    assert b[0..] == b;
    if count > 0 {
      LittleEndianNext(b, 0);
    }
    if count > 1 {
      LittleEndianNext(b, 1);
    }
    if count > 2 {
      LittleEndianNext(b, 2);
    }
  }

  /** The codes of the next group of three bytes. */
  lemma {:induction false} NextGroup(b: seq<Octet>, i: nat)
    requires |b| >= 3
    ensures SixBits(LittleEndian(b), i + 4) == SixBits(LittleEndian(b[3..]), i)
  {
    SixBitsSkip(LittleEndian(b), i);
    FirstBytes(b, 3);
    Shift1(LittleEndian(b), b[0], LittleEndian(b[1..]));
    Shift2(LittleEndian(b) / 64, b[0] / 64, LittleEndian(b[1..]), b[1], LittleEndian(b[2..]));
    Shift3(LittleEndian(b) / 64 / 64, b[1] / 16, LittleEndian(b[2..]), b[2], LittleEndian(b[3..]));
    Shift4(LittleEndian(b) / 64 / 64 / 64, b[2] / 4, LittleEndian(b[3..]));
  }

  /** The parts of the bytes that make up a code. */
  ghost predicate CodeAt(b: seq<Octet>, o: int, i: nat, code: nat)
  {
    && 0 <= o < |b|
    && (i % 4 == 0 ==> code == b[o] % 64)
    && (i % 4 == 1 ==> o + 1 < |b| && code == b[o] / 64 + b[o+1] % 16 * 4)
    && (i % 4 == 2 ==> o + 1 < |b| && code == b[o] / 16 + b[o+1] % 4 * 16)
    && (i % 4 == 3 ==> code == b[o] / 4)
  }

  lemma {:induction false} SixBitsSmall(n: nat)
    ensures SixBits(n, 0) == n % 64 && SixBits(n, 1) == n / 64 % 64
    ensures SixBits(n, 2) == n / 64 / 64 % 64 && SixBits(n, 3) == n / 64 / 64 / 64 % 64
  {
    assert SixBits(n, 2) == SixBits(n / 64, 1) && SixBits(n, 3) == SixBits(n / 64, 2);
  }

  lemma {:induction false} CodeAt0(b: seq<Octet>)
    requires |b| >= 1
    ensures CodeAt(b, 0, 0, SixBits(LittleEndian(b), 0))
  {
    SixBitsSmall(LittleEndian(b));
    FirstBytes(b, 1);
    Shift1(LittleEndian(b), b[0], LittleEndian(b[1..]));
  }

  lemma {:induction false} CodeAt1(b: seq<Octet>)
    requires |b| >= 2
    ensures CodeAt(b, 0, 1, SixBits(LittleEndian(b), 1))
  {
    var n := LittleEndian(b);
    SixBitsSmall(n);
    FirstBytes(b, 2);
    Shift1(n, b[0], LittleEndian(b[1..]));
    Shift2(n / 64, b[0] / 64, LittleEndian(b[1..]), b[1], LittleEndian(b[2..]));
  }

  lemma {:induction false} CodeAt2(b: seq<Octet>)
    requires |b| >= 3
    ensures CodeAt(b, 1, 2, SixBits(LittleEndian(b), 2))
  {
    var n := LittleEndian(b);
    SixBitsSmall(n);
    FirstBytes(b, 3);
    Shift1(n, b[0], LittleEndian(b[1..]));
    Shift2(n / 64, b[0] / 64, LittleEndian(b[1..]), b[1], LittleEndian(b[2..]));
    Shift3(n / 64 / 64, b[1] / 16, LittleEndian(b[2..]), b[2], LittleEndian(b[3..]));
  }

  lemma {:induction false} CodeAt3(b: seq<Octet>)
    requires |b| >= 3
    ensures CodeAt(b, 2, 3, SixBits(LittleEndian(b), 3))
  {
    var n := LittleEndian(b);
    SixBitsSmall(n);
    FirstBytes(b, 3);
    Shift1(n, b[0], LittleEndian(b[1..]));
    Shift2(n / 64, b[0] / 64, LittleEndian(b[1..]), b[1], LittleEndian(b[2..]));
    Shift3(n / 64 / 64, b[1] / 16, LittleEndian(b[2..]), b[2], LittleEndian(b[3..]));
    Shift4(n / 64 / 64 / 64, b[2] / 4, LittleEndian(b[3..]));
  }

  lemma {:induction false} FirstGroup(b: seq<Octet>, i: nat)
    requires i < 4 && PackedBytes(i + 1) <= |b|
    ensures CodeAt(b, Offset(i), i, SixBits(LittleEndian(b), i))
  {
    if i == 0 {
      CodeAt0(b);
    } else if i == 1 {
      CodeAt1(b);
    } else if i == 2 {
      CodeAt2(b);
    } else {
      CodeAt3(b);
    }
  }

  lemma {:induction false} GroupShift(i: nat)
    ensures Offset(i + 4) == Offset(i) + 3 && PackedBytes(i + 5) == PackedBytes(i + 1) + 3
  {
  }

  lemma {:induction false} CodeAtShift(b: seq<Octet>, o: int, i: nat, code: nat)
    requires |b| >= 3 && CodeAt(b[3..], o, i, code)
    ensures CodeAt(b, o + 3, i + 4, code)
  {
    assert (i + 4) % 4 == i % 4;
    assert b[3..][o] == b[o+3];
  }

  /** Every character's bits lie at its offset and in the byte after it, within the bytes that are required. */
  lemma {:induction false} CodeIs(b: seq<Octet>, i: nat)
    requires PackedBytes(i + 1) <= |b|
    ensures CodeAt(b, Offset(i), i, SixBits(LittleEndian(b), i))
  {
    if i < 4 {
      FirstGroup(b, i);
    } else {
      NextGroup(b, i - 4);
      GroupShift(i - 4);
      CodeIs(b[3..], i - 4);
      CodeAtShift(b, Offset(i - 4), i - 4, SixBits(LittleEndian(b), i));
    }
  }

  lemma {:induction false} CharOf(acc: bv8)
    requires ValueOf(acc) < 64
    ensures ValueOf(acc + 0x20) == 0x20 + ValueOf(acc)
  {
  }

  /** The upper two bits of one byte and the lower four of the next. */
  method TwoAndFour(x: bv8, y: bv8) returns (acc: bv8)
    ensures ValueOf(acc) == ValueOf(x) / 64 + ValueOf(y) % 16 * 4
  {
    HighTwo(x);
    FourUp(y);
    OrAdds(x >> 6, (y & 0xf) << 2);
    acc := x >> 6;
    acc := acc | ((y & 0xf) << 2);
  }

  /** The upper four bits of one byte and the lower two of the next. */
  method FourAndTwo(x: bv8, y: bv8) returns (acc: bv8)
    ensures ValueOf(acc) == ValueOf(x) / 16 + ValueOf(y) % 4 * 16
  {
    HighFour(x);
    TwoUp(y);
    OrAdds(x >> 4, (y & 0x3) << 4);
    acc := x >> 4;
    acc := acc | ((y & 0x3) << 4);
  }

  method SixOf(x: bv8, upper: bool) returns (acc: bv8)
    ensures ValueOf(acc) == if upper then ValueOf(x) / 4 else ValueOf(x) % 64
  {
    LowSix(x);
    HighSix(x);
    acc := if upper then x >> 2 else x & 0x3f;
  }

  /** The bits of one character, as the source picks them from the bytes at the offset. */
  method SixBitsAt(b: seq<bv8>, i: nat) returns (acc: bv8)
    requires PackedBytes(i + 1) <= |b|
    ensures ValueOf(acc) == SixBits(LittleEndian(Values(b)), i)
  {
    CodeIs(Values(b), i);
    var offset := i - 1 - (i - 1) / 4;
    match i % 4 {
      case 0 =>
        acc := SixOf(b[offset], false);
      case 1 =>
        acc := TwoAndFour(b[offset], b[offset+1]);
      case 2 =>
        acc := FourAndTwo(b[offset], b[offset+1]);
      case _ =>
        acc := SixOf(b[offset], true);
    }
  }

  lemma {:induction false} PackedBytesGrow(i: nat, c: nat)
    requires i < c
    ensures PackedBytes(i + 1) <= PackedBytes(c)
  {
  }

  function Packed6BitAscii(b: seq<Octet>, c: nat): Decoded
  {
    if |b| < PackedBytes(c) then TooShort(PackedBytes(c), |b|) else Text(Unpacked(b, c), PackedBytes(c))
  }

  method DecodePacked6BitAscii(b: seq<bv8>, c: nat) returns (r: Decoded)
    ensures r == Packed6BitAscii(Values(b), c)
  {
    var bytes := c - c / 4;
    if |b| < bytes {
      return TooShort(bytes, |b|);
    }
    var runes := new char[c];
    for i := 0 to c
      invariant forall k :: 0 <= k < i ==> runes[k] == (0x20 + SixBits(LittleEndian(Values(b)), k)) as char
    {
      PackedBytesGrow(i, c);
      var acc := SixBitsAt(b, i);
      CharOf(acc);
      runes[i] := ValueOf(acc + 0x20) as char;
    }
    assert runes[..] == Unpacked(Values(b), c);
    r := Text(runes[..], bytes);
  }

  /* ---- Packing ---- */

  /** Text that 6-bit ASCII can spell. */
  predicate Packable(text: string)
  {
    forall i :: 0 <= i < |text| ==> 0x20 <= text[i] as int < 0x60
  }

  /** The number that spells the text, six bits for each character, the first in the lowest bits. */
  function Number(text: string): (n: nat)
    requires Packable(text)
    ensures n < Pow2(6 * |text|)
  {
    if text == "" then 0
    else
      SixMoreBits(6 * |text[1..]|);
      text[0] as int - 0x20 + 64 * Number(text[1..])
  }

  /** The lowest bytes of a number, least significant first. */
  function ToBytes(n: nat, count: nat): (b: seq<Octet>)
    ensures |b| == count
  {
    if count == 0 then [] else [n % 256] + ToBytes(n / 256, count - 1)
  }

  function Pack(text: string): (b: seq<Octet>)
    requires Packable(text)
    ensures |b| == PackedBytes(|text|)
  {
    ToBytes(Number(text), PackedBytes(|text|))
  }

  lemma {:induction false} NumberCode(text: string, i: nat)
    requires Packable(text) && i < |text|
    ensures SixBits(Number(text), i) == text[i] as int - 0x20
  {
    Shift4(Number(text), text[0] as int - 0x20, Number(text[1..]));
    if i > 0 {
      NumberCode(text[1..], i - 1);
    }
  }

  /** Bytes enough for a number spell that number. */
  lemma {:induction false} ToBytesSpell(n: nat, count: nat)
    requires n < Pow2(8 * count)
    ensures LittleEndian(ToBytes(n, count)) == n
  {
    if count > 0 {
      EightMoreBits(8 * (count - 1));
      ToBytesSpell(n / 256, count - 1);
      assert ToBytes(n, count)[1..] == ToBytes(n / 256, count - 1);
    }
  }

  lemma {:induction false} SameParts(a: seq<Octet>, b: seq<Octet>, o: int, i: nat, x: nat, y: nat)
    requires a <= b && CodeAt(a, o, i, x) && CodeAt(b, o, i, y)
    ensures x == y
  {
  }

  /** A code depends only on the bytes of its own characters, whatever follows them. */
  lemma {:induction false} CodeKept(b: seq<Octet>, rest: seq<Octet>, i: nat)
    requires PackedBytes(i + 1) <= |b|
    ensures SixBits(LittleEndian(b + rest), i) == SixBits(LittleEndian(b), i)
  {
    CodeIs(b, i);
    CodeIs(b + rest, i);
    SameParts(b, b + rest, Offset(i), i, SixBits(LittleEndian(b), i), SixBits(LittleEndian(b + rest), i));
  }

  /** Unpacking what was packed gives the text back, whatever follows it. */
  lemma {:induction false} PackedRoundTrip(text: string, rest: seq<Octet>)
    requires Packable(text)
    ensures Packed6BitAscii(Pack(text) + rest, |text|) == Text(text, |Pack(text)|)
  {
    Pow2Monotone(6 * |text|, 8 * PackedBytes(|text|));
    ToBytesSpell(Number(text), PackedBytes(|text|));
    var u := Unpacked(Pack(text) + rest, |text|);
    forall i | 0 <= i < |text|
      ensures u[i] == text[i]
    {
      NumberCode(text, i);
      PackedBytesGrow(i, |text|);
      CodeKept(Pack(text), rest, i);
    }
  }

  lemma {:induction false} ExampleNumber(b: seq<Octet>)
    requires b == [0x29, 0xDC, 0xA6]
    ensures LittleEndian(b) == 0xA6DC29
  {
    FirstBytes(b, 3);
    assert b[3..] == [];
  }

  /** The example of section 43.15: the text IPMI in three bytes. */
  lemma {:induction false} PackedExample(b: seq<Octet>)
    requires b == [0x29, 0xDC, 0xA6]
    ensures Packed6BitAscii(b, 4) == Text("IPMI", 3)
  {
    ExampleNumber(b);
    SixBitsSmall(0xA6DC29);
    assert Unpacked(b, 4) == [0x49 as char, 0x50 as char, 0x4D as char, 0x49 as char];
  }

  /* ---- BCD plus ---- */

  const BCD_PLUS := "0123456789 -.:,_"

  /** The characters of section 43.15: the digits, and a space, dash, period, colon, comma and underscore. */
  lemma {:induction false} BcdCharacters(i: nat)
    requires i < |BCD_PLUS|
    ensures |BCD_PLUS| == 16
    ensures i <= 9 ==> BCD_PLUS[i] as int == '0' as int + i
    ensures i == 0xA ==> BCD_PLUS[i] == ' '
    ensures i == 0xB ==> BCD_PLUS[i] == '-'
    ensures i == 0xC ==> BCD_PLUS[i] == '.'
    ensures i == 0xD ==> BCD_PLUS[i] == ':'
    ensures i == 0xE ==> BCD_PLUS[i] == ','
    ensures i == 0xF ==> BCD_PLUS[i] == '_'
  {
    assert i == 0 || i == 1 || i == 2 || i == 3 || i == 4 || i == 5 || i == 6 || i == 7 || i == 8 || i == 9 || i >= 10;
  }

  /** The half byte at position i, the upper half of each byte first. */
  function Nibble(b: seq<Octet>, i: nat): (r: nat)
    requires i / 2 < |b|
    ensures r < 16
  {
    if i % 2 == 0 then b[i/2] / 16 else b[i/2] % 16
  }

  function BcdText(b: seq<Octet>, c: nat): string
    requires (c + 1) / 2 <= |b|
  {
    seq(c, i requires 0 <= i < c => BCD_PLUS[Nibble(b, i)])
  }

  function BcdPlus(b: seq<Octet>, c: nat): Decoded
  {
    if |b| < (c + 1) / 2 then TooShort((c + 1) / 2, |b|) else Text(BcdText(b, c), (c + 1) / 2)
  }

  /** All sixteen half bytes, in order. */
  lemma {:induction false} BcdExample(b: seq<Octet>)
    requires b == [0x01, 0x23, 0x45, 0x67, 0x89, 0xAB, 0xCD, 0xEF]
    ensures BcdPlus(b, 16) == Text("0123456789 -.:,_", 8)
  {
    forall i | 0 <= i < 16 ensures Nibble(b, i) == i {
      assert b[i/2] == 16 * (i / 2 * 2) + (i / 2 * 2 + 1);
    }
  }

  method DecodeBCDPlus(b: seq<bv8>, c: nat) returns (r: Decoded)
    ensures r == BcdPlus(Values(b), c)
  {
    var bytes := (c + 1) / 2;
    if |b| < bytes {
      return TooShort(bytes, |b|);
    }
    var runes := new char[c];
    for i := 0 to c
      invariant forall k :: 0 <= k < i ==> runes[k] == BCD_PLUS[Nibble(Values(b), k)]
    {
      var shift: bv8 := 0;
      if i % 2 == 0 {
        shift := 4;
      }
      Halves(b[i/2]);
      runes[i] := BCD_PLUS[ValueOf((b[i/2] >> shift) & 0xf)];
    }
    assert runes[..] == BcdText(Values(b), c);
    r := Text(runes[..], bytes);
  }

  predicate BcdPrintable(text: string)
  {
    forall i :: 0 <= i < |text| ==> text[i] in BCD_PLUS
  }

  /** The position of a character among those of BCD plus. */
  ghost function BcdCode(ch: char): (r: Half)
    requires ch in BCD_PLUS
    ensures BCD_PLUS[r] == ch
  {
    var i :| 0 <= i < |BCD_PLUS| && BCD_PLUS[i] == ch;
    i
  }

  function Pair(hi: nat, lo: nat): (r: Octet)
    requires hi < 16 && lo < 16
    ensures r / 16 == hi && r % 16 == lo
  {
    16 * hi + lo
  }

  type Half = x: nat | x < 16

  /** Two codes to a byte, the first in the upper half; the last half may stay empty. */
  function PackHalves(codes: seq<Half>): (b: seq<Octet>)
    ensures |b| == (|codes| + 1) / 2
  {
    if codes == [] then []
    else if |codes| == 1 then [Pair(codes[0], 0)]
    else [Pair(codes[0], codes[1])] + PackHalves(codes[2..])
  }

  lemma {:induction false} NibbleNext(x: Octet, b: seq<Octet>, i: nat)
    requires i / 2 < |b|
    ensures Nibble([x] + b, i + 2) == Nibble(b, i)
  {
    assert (i + 2) / 2 == i / 2 + 1 && (i + 2) % 2 == i % 2;
  }

  lemma {:induction false} PackHalvesAt(codes: seq<Half>, i: nat)
    requires i < |codes|
    ensures Nibble(PackHalves(codes), i) == codes[i]
  {
    if i >= 2 {
      PackHalvesAt(codes[2..], i - 2);
      NibbleNext(Pair(codes[0], codes[1]), PackHalves(codes[2..]), i - 2);
    }
  }

  ghost function BcdCodes(text: string): (codes: seq<Half>)
    requires BcdPrintable(text)
    ensures |codes| == |text| && forall i :: 0 <= i < |text| ==> BCD_PLUS[codes[i]] == text[i]
  {
    seq(|text|, i requires 0 <= i < |text| => BcdCode(text[i]))
  }

  /** Text in BCD plus. */
  ghost function PackBcd(text: string): (b: seq<Octet>)
    requires BcdPrintable(text)
    ensures |b| == (|text| + 1) / 2
  {
    PackHalves(BcdCodes(text))
  }

  /** Reading what was written in BCD plus gives the text back, whatever follows it. */
  lemma {:induction false} BcdRoundTrip(text: string, rest: seq<Octet>)
    requires BcdPrintable(text)
    ensures BcdPlus(PackBcd(text) + rest, |text|) == Text(text, |PackBcd(text)|)
  {
    var b := PackBcd(text) + rest;
    forall i | 0 <= i < |text|
      ensures BcdText(b, |text|)[i] == text[i]
    {
      PackHalvesAt(BcdCodes(text), i);
      assert b[i/2] == PackBcd(text)[i/2];
    }
  }

  /* ---- 8-bit ---- */

  function ByteText(b: seq<Octet>): string
  {
    seq(|b|, i requires 0 <= i < |b| => b[i] as char)
  }

  /** The decoder for 8-bit text, also used for the encoding called Unicode: it insists on two bytes of data. */
  function EightBit(b: seq<Octet>, c: nat): Decoded
  {
    if |b| < 2 then TooShort(2, |b|)
    else if |b| < c then TooShort(c, |b|)
    else Text(ByteText(b[..c]), c)
  }

  /** Each byte is the code of a character; the lengths that are required are those of an error. */
  lemma {:induction false} EightBitIs(b: seq<Octet>, c: nat)
    ensures EightBit(b, c).Text? <==> |b| >= 2 && |b| >= c
    ensures |b| < 2 ==> EightBit(b, c) == TooShort(2, |b|)
    ensures 2 <= |b| < c ==> EightBit(b, c) == TooShort(c, |b|)
    ensures EightBit(b, c).Text? ==> EightBit(b, c).bytes == c == |EightBit(b, c).text|
    ensures EightBit(b, c).Text? ==> forall i :: 0 <= i < c ==> EightBit(b, c).text[i] as int == b[i]
  {
  }

  /** Text of one byte per character is read back exactly when the data has two bytes or more. */
  lemma {:induction false} EightBitRoundTrip(b: seq<Octet>, rest: seq<Octet>)
    ensures EightBit(b + rest, |b|) == Text(ByteText(b), |b|) <==> |b| + |rest| >= 2
  {
    assert (b + rest)[..|b|] == b;
  }
}
