/**
 * IPMI full sensor records: their fields and names decoded and, by an encoder written from section 43.1 of IPMI v2.0,
 * read back (pkg/ipmi/types.go).
 */
module FullSensorRecords {
  import opened IpmiStrings
  import opened Octets
  import opened Powers
  import opened TwosComplement

  lemma {:induction false} PowersOfTwo()
    ensures Pow2(3) == 8 && Pow2(4) == 16 && Pow2(9) == 512 && Pow2(10) == 1024
  {
    assert Pow2(4) == 2 * Pow2(3);
    assert Pow2(6) == 2 * (2 * Pow2(4));
    assert Pow2(8) == 2 * (2 * Pow2(6));
    assert Pow2(10) == 2 * Pow2(9) == 2 * (2 * Pow2(8));
  }

  /* ---- The record ---- */

  datatype Record = Record(number: Octet, baseUnit: Octet, modifierUnit: Octet, linearisation: Octet,
                           m: int, tolerance: Octet, b: int, accuracy: int, accuracyExp: Octet,
                           rExp: int, bExp: int, identity: string)

  datatype Outcome = Success | RecordTooShort(got: nat) | BadIdentity(expected: nat, got: nat)

  /** Ten bits, the upper ones from another byte than the lower ones. */
  function Ten(upper: nat, unit: nat, lower: nat): int
  {
    Signed(10, unit * upper + lower)
  }

  /** The fields at their places in the record, as numbers. */
  function Fields(d: seq<Octet>, identity: string): Record
    requires |d| >= 51
  {
    Record(d[10], d[24], d[25], d[26] % 128,
           Ten(d[28] / 64, 256, d[27]), d[28] % 64, Ten(d[30] / 64, 256, d[29]),
           Ten(d[31] / 16, 64, d[30] % 64), d[31] / 4 % 4,
           Signed(4, d[32] / 16), Signed(4, d[32] % 16), identity)
  }

  /** The identity that follows, in the encoding and of the length that the type/length byte gives. */
  function Identity(d: seq<Octet>): Decoded
    requires |d| >= 51
  {
    var b, c := d[51..], d[50] % 32;
    match d[50] / 64
    case 1 => BcdPlus(b, c)
    case 2 => Packed6BitAscii(b, c)
    case _ => EightBit(b, c)
  }

  /** DecodeFromBytes on a record: the record afterwards, and the error if there is one. */
  function Decode(before: Record, d: seq<Octet>): (Record, Outcome)
  {
    if |d| < 51 then (before, RecordTooShort(|d|))
    else
      match Identity(d)
      case Text(text, bytes) => (Fields(d, text), Success)
      case TooShort(expected, got) => (Fields(d, before.identity), BadIdentity(expected, got))
  }

  lemma {:induction false} AccuracyHigh(y: bv8)
    ensures 256 * ValueOf((y & 0xf0) >> 6) + ValueOf((y & 0xf0) << 2) == 64 * (ValueOf(y) / 16)
  {
  }

  lemma {:induction false} MiddleTwo(y: bv8)
    ensures ValueOf((y & 0xc) >> 2) == ValueOf(y) / 4 % 4
  {
  }

  /** Ten bits: the upper two of one byte, then another byte. */
  method TenBits(upper: bv8, lower: bv8) returns (v: int)
    ensures v == Ten(ValueOf(upper) / 64, 256, ValueOf(lower))
  {
    var buf := [upper >> 6, lower];
    HighTwo(upper);
    PowersOfTwo();
    TwosIs(buf[0], buf[1], 10);
    v := Twos(buf[0], buf[1], 10);
  }

  /** The ten bits of the accuracy: the upper four of one byte, then the lower six of another. */
  method AccuracyTen(lower: bv8, upper: bv8) returns (v: int)
    ensures v == Ten(ValueOf(upper) / 16, 64, ValueOf(lower) % 64)
  {
    var buf := [(upper & 0xf0) >> 6, (lower & 0x3f) | ((upper & 0xf0) << 2)];
    OrAdds(lower & 0x3f, (upper & 0xf0) << 2);
    LowSix(lower);
    AccuracyHigh(upper);
    PowersOfTwo();
    TwosIs(buf[0], buf[1], 10);
    v := Twos(buf[0], buf[1], 10);
  }

  /** The exponents in the two halves of a byte. */
  method Exponents(x: bv8) returns (high: int, low: int)
    ensures high == Signed(4, ValueOf(x) / 16) && low == Signed(4, ValueOf(x) % 16)
  {
    HighFour(x);
    LowFour(x);
    PowersOfTwo();
    var buf: seq<bv8> := [0, x >> 4];
    TwosIs(buf[0], buf[1], 4);
    high := Twos(buf[0], buf[1], 4);
    buf := buf[1 := x & 0xf];
    TwosIs(buf[0], buf[1], 4);
    low := Twos(buf[0], buf[1], 4);
  }

  method Linearisation(x: bv8) returns (v: bv8)
    ensures ValueOf(v) == ValueOf(x) % 128
  {
    LowSeven(x);
    v := x & 0x7f;
  }

  method Tolerance(x: bv8) returns (v: bv8)
    ensures ValueOf(v) == ValueOf(x) % 64
  {
    LowSix(x);
    v := x & 0x3f;
  }

  method AccuracyExp(x: bv8) returns (v: bv8)
    ensures ValueOf(v) == ValueOf(x) / 4 % 4
  {
    MiddleTwo(x);
    v := (x & 0xc) >> 2;
  }

  /** The same fields, byte by byte. */
  function Pieces(d: seq<bv8>, identity: string): Record
    requires |d| >= 51
  {
    Record(ValueOf(d[10]), ValueOf(d[24]), ValueOf(d[25]), ValueOf(d[26]) % 128,
           Ten(ValueOf(d[28]) / 64, 256, ValueOf(d[27])), ValueOf(d[28]) % 64,
           Ten(ValueOf(d[30]) / 64, 256, ValueOf(d[29])),
           Ten(ValueOf(d[31]) / 16, 64, ValueOf(d[30]) % 64), ValueOf(d[31]) / 4 % 4,
           Signed(4, ValueOf(d[32]) / 16), Signed(4, ValueOf(d[32]) % 16), identity)
  }

  lemma {:induction false} PiecesAre(d: seq<bv8>, identity: string)
    requires |d| >= 51
    ensures Pieces(d, identity) == Fields(Values(d), identity)
  {
    var v := Values(d);
    assert v[10] == ValueOf(d[10]) && v[24] == ValueOf(d[24]) && v[25] == ValueOf(d[25]) && v[26] == ValueOf(d[26]);
    assert v[27] == ValueOf(d[27]) && v[28] == ValueOf(d[28]) && v[29] == ValueOf(d[29]);
    assert v[30] == ValueOf(d[30]) && v[31] == ValueOf(d[31]) && v[32] == ValueOf(d[32]);
  }

  class FullSensorRecord {
    var number: bv8
    var baseUnit: bv8
    var modifierUnit: bv8
    var linearisation: bv8
    var m: int
    var tolerance: bv8
    var b: int
    var accuracy: int
    var accuracyExp: bv8
    var rExp: int
    var bExp: int
    var identity: string

    function Contents(): Record
      reads this
    {
      Record(ValueOf(number), ValueOf(baseUnit), ValueOf(modifierUnit), ValueOf(linearisation), m,
             ValueOf(tolerance), b, accuracy, ValueOf(accuracyExp), rExp, bExp, identity)
    }

    /** The fields of fixed size. */
    method DecodeFields(data: seq<bv8>)
      requires |data| >= 51
      modifies this
      ensures Contents() == Pieces(data, old(identity))
    {
      number := data[10];
      baseUnit := data[24];
      modifierUnit := data[25];
      DecodeFactors(data);
      DecodeAccuracy(data);
    }

    /** What the readings are multiplied with and what is added to them. */
    method DecodeFactors(data: seq<bv8>)
      requires |data| >= 51
      modifies this`linearisation, this`m, this`tolerance, this`b
      ensures ValueOf(linearisation) == ValueOf(data[26]) % 128 && ValueOf(tolerance) == ValueOf(data[28]) % 64
      ensures m == Ten(ValueOf(data[28]) / 64, 256, ValueOf(data[27]))
        && b == Ten(ValueOf(data[30]) / 64, 256, ValueOf(data[29]))
    {
      linearisation := Linearisation(data[26]);
      m := TenBits(data[28], data[27]);
      tolerance := Tolerance(data[28]);
      b := TenBits(data[30], data[29]);
    }

    /** The accuracy and the exponents. */
    method DecodeAccuracy(data: seq<bv8>)
      requires |data| >= 51
      modifies this`accuracy, this`accuracyExp, this`rExp, this`bExp
      ensures accuracy == Ten(ValueOf(data[31]) / 16, 64, ValueOf(data[30]) % 64)
        && ValueOf(accuracyExp) == ValueOf(data[31]) / 4 % 4
      ensures rExp == Signed(4, ValueOf(data[32]) / 16) && bExp == Signed(4, ValueOf(data[32]) % 16)
    {
      accuracy := AccuracyTen(data[30], data[31]);
      accuracyExp := AccuracyExp(data[31]);
      rExp, bExp := Exponents(data[32]);
    }

    /** The decoder that the encoding selects; every encoding has one. */
    static method DecodeIdentity(data: seq<bv8>) returns (r: Decoded)
      requires |data| >= 51
      ensures r == Identity(Values(data))
    {
      var encoding, characters := data[50] >> 6, ValueOf(data[50] & 0x1f);
      TypeLength(data[50]);
      ValuesFrom(data, 51);
      if encoding == 1 {
        r := DecodeBCDPlus(data[51..], characters);
      } else if encoding == 2 {
        r := DecodePacked6BitAscii(data[51..], characters);
      } else {
        r := EightBit(Values(data[51..]), characters);
      }
    }

    method DecodeFromBytes(data: seq<bv8>) returns (err: Outcome)
      modifies this
      ensures (Contents(), err) == Decode(old(Contents()), Values(data))
    {
      if |data| < 51 {
        return RecordTooShort(|data|);
      }
      DecodeFields(data);
      PiecesAre(data, identity);
      var decoded := DecodeIdentity(data);
      if decoded.TooShort? {
        return BadIdentity(decoded.expected, decoded.got);
      }
      identity := decoded.text;
      err := Success;
    }
  }

  lemma {:induction false} TypeLength(x: bv8)
    ensures ValueOf(x & 0x1f) == ValueOf(x) % 32
    ensures x >> 6 == 1 <==> ValueOf(x) / 64 == 1
    ensures x >> 6 == 2 <==> ValueOf(x) / 64 == 2
  {
    HighTwo(x);
  }

  /* ---- An encoder, written from the layout ---- */

  /** Fields that the layout has room for. The accuracy may use all ten bits, with or without a sign. */
  predicate InRange(r: Record)
  {
    && r.linearisation < 128 && r.tolerance < 64 && r.accuracyExp < 4
    && -512 <= r.m < 512 && -512 <= r.b < 512 && -512 <= r.accuracy < 1024
    && -8 <= r.rExp < 8 && -8 <= r.bExp < 8
  }

  function TwoSix(hi: nat, lo: nat): (x: Octet)
    requires hi < 4 && lo < 64
    ensures x / 64 == hi && x % 64 == lo
  {
    64 * hi + lo
  }

  function OneSeven(hi: nat, lo: nat): (x: Octet)
    requires hi < 2 && lo < 128
    ensures x % 128 == lo
  {
    128 * hi + lo
  }

  function FourTwoTwo(hi: nat, mid: nat, lo: nat): (x: Octet)
    requires hi < 16 && mid < 4 && lo < 4
    ensures x / 16 == hi && x / 4 % 4 == mid
  {
    16 * hi + 4 * mid + lo
  }

  /** Byte i of the record; bits of other fields are kept. */
  function HeaderByte(r: Record, typeLength: Octet, i: nat, other: Octet): Octet
    requires InRange(r)
  {
    PowersOfTwo();
    var m, b, accuracy, rExp, bExp :=
      Unsigned(10, r.m), Unsigned(10, r.b), Unsigned(10, r.accuracy), Unsigned(4, r.rExp), Unsigned(4, r.bExp);
    match i
    case 10 => r.number
    case 24 => r.baseUnit
    case 25 => r.modifierUnit
    case 26 => OneSeven(other / 128, r.linearisation)
    case 27 => m % 256
    case 28 => TwoSix(m / 256, r.tolerance)
    case 29 => b % 256
    case 30 => TwoSix(b / 256, accuracy % 64)
    case 31 => FourTwoTwo(accuracy / 64, r.accuracyExp, other % 4)
    case 32 => Pair(rExp, bExp)
    case 50 => typeLength
    case _ => other
  }

  function Header(r: Record, typeLength: Octet, others: seq<Octet>): (d: seq<Octet>)
    requires InRange(r) && |others| == 51
    ensures |d| == 51
  {
    seq(51, i requires 0 <= i < 51 => HeaderByte(r, typeLength, i, others[i]))
  }

  /** What the decoder makes of a record: the accuracy is read with a sign. */
  function AsRead(r: Record): Record
    requires InRange(r)
  {
    r.(accuracy := if r.accuracy < 512 then r.accuracy else r.accuracy - 1024)
  }

  lemma {:induction false} TenSplit(v: int)
    requires -512 <= v < 1024
    ensures var u := Unsigned(10, v);
      && Ten(u / 256, 256, u % 256) == (if v < 512 then v else v - 1024)
      && Ten(u / 64, 64, u % 64) == (if v < 512 then v else v - 1024)
      && u / 256 < 4 && u / 64 < 16
  {
    PowersOfTwo();
  }

  lemma {:induction false} FourRead(v: int)
    requires -8 <= v < 8
    ensures Signed(4, Unsigned(4, v)) == v
  {
    PowersOfTwo();
  }

  /** Reading the fields of an encoded record. */
  lemma {:induction false} FieldsRead(r: Record, typeLength: Octet, others: seq<Octet>, rest: seq<Octet>)
    requires InRange(r) && |others| == 51
    ensures Fields(Header(r, typeLength, others) + rest, r.identity) == AsRead(r)
  {
    var d := Header(r, typeLength, others) + rest;
    PowersOfTwo();
    TenSplit(r.m);
    TenSplit(r.b);
    TenSplit(r.accuracy);
    FourRead(r.rExp);
    FourRead(r.bExp);
    assert d[28] == HeaderByte(r, typeLength, 28, others[28]);
    assert d[30] == HeaderByte(r, typeLength, 30, others[30]);
    assert d[31] == HeaderByte(r, typeLength, 31, others[31]);
    assert d[32] == HeaderByte(r, typeLength, 32, others[32]);
  }

  /** A record: the encoded fields, the identity in some encoding, and whatever follows. */
  function Encode(r: Record, encoding: nat, text: seq<Octet>, others: seq<Octet>, rest: seq<Octet>): seq<Octet>
    requires InRange(r) && |others| == 51 && encoding < 4 && |r.identity| < 32
  {
    Header(r, TypeLengthByte(encoding, |r.identity|), others) + (text + rest)
  }

  function TypeLengthByte(encoding: nat, length: nat): (x: Octet)
    requires encoding < 4 && length < 32
    ensures x / 64 == encoding && x % 32 == length
  {
    64 * encoding + length
  }

  lemma {:induction false} IdentityOf(r: Record, encoding: nat, text: seq<Octet>, others: seq<Octet>, rest: seq<Octet>)
    requires InRange(r) && |others| == 51 && encoding < 4 && |r.identity| < 32
    ensures var d := Encode(r, encoding, text, others, rest);
      |d| >= 51 && d[51..] == text + rest && d[50] / 64 == encoding && d[50] % 32 == |r.identity|
  {
    var h := Header(r, TypeLengthByte(encoding, |r.identity|), others);
    assert h[50] == TypeLengthByte(encoding, |r.identity|);
    assert (h + (text + rest))[51..] == text + rest;
  }

  lemma {:induction false} EncodedRead(before: Record, r: Record, encoding: nat, text: seq<Octet>, others: seq<Octet>,
      rest: seq<Octet>)
    requires InRange(r) && |others| == 51 && encoding < 4 && |r.identity| < 32
    ensures var d := Encode(r, encoding, text, others, rest);
      |d| >= 51 && (Identity(d).Text? && Identity(d).text == r.identity ==> Decode(before, d) == (AsRead(r), Success))
  {
    FieldsRead(r, TypeLengthByte(encoding, |r.identity|), others, text + rest);
  }

  /** A record with a name in packed 6-bit ASCII is read back. */
  lemma {:induction false} PackedRecordRead(before: Record, r: Record, others: seq<Octet>, rest: seq<Octet>)
    requires InRange(r) && |others| == 51 && |r.identity| < 32 && Packable(r.identity)
    ensures Decode(before, Encode(r, 2, Pack(r.identity), others, rest)) == (AsRead(r), Success)
  {
    IdentityOf(r, 2, Pack(r.identity), others, rest);
    PackedRoundTrip(r.identity, rest);
    EncodedRead(before, r, 2, Pack(r.identity), others, rest);
  }

  /** A record with a name in BCD plus is read back. */
  lemma {:induction false} BcdRecordRead(before: Record, r: Record, others: seq<Octet>, rest: seq<Octet>)
    requires InRange(r) && |others| == 51 && |r.identity| < 32 && BcdPrintable(r.identity)
    ensures Decode(before, Encode(r, 1, PackBcd(r.identity), others, rest)) == (AsRead(r), Success)
  {
    IdentityOf(r, 1, PackBcd(r.identity), others, rest);
    BcdRoundTrip(r.identity, rest);
    EncodedRead(before, r, 1, PackBcd(r.identity), others, rest);
  }

  /** A record with an 8-bit name is read back exactly when two bytes or more follow the fields. */
  lemma {:induction false} EightBitRecordRead(before: Record, r: Record, text: seq<Octet>, others: seq<Octet>,
      rest: seq<Octet>, encoding: nat)
    requires InRange(r) && |others| == 51 && |r.identity| < 32 && ByteText(text) == r.identity
      && (encoding == 0 || encoding == 3)
    ensures Decode(before, Encode(r, encoding, text, others, rest)) == (AsRead(r), Success) <==> |text| + |rest| >= 2
  {
    assert |text| == |r.identity|;
    IdentityOf(r, encoding, text, others, rest);
    EightBitRoundTrip(text, rest);
    EncodedRead(before, r, encoding, text, others, rest);
  }

  /** A record with a packed name comes back as it was exactly when the accuracy fits into ten bits with a sign. */
  lemma {:induction false} AccuracyKept(before: Record, r: Record, others: seq<Octet>, rest: seq<Octet>)
    requires InRange(r) && |others| == 51 && |r.identity| < 32 && Packable(r.identity)
    ensures Decode(before, Encode(r, 2, Pack(r.identity), others, rest)) == (r, Success) <==> r.accuracy < 512
  {
    PackedRecordRead(before, r, others, rest);
  }

  /** The same with a name in BCD plus. */
  lemma {:induction false} BcdAccuracyKept(before: Record, r: Record, others: seq<Octet>, rest: seq<Octet>)
    requires InRange(r) && |others| == 51 && |r.identity| < 32 && BcdPrintable(r.identity)
    ensures Decode(before, Encode(r, 1, PackBcd(r.identity), others, rest)) == (r, Success) <==> r.accuracy < 512
  {
    BcdRecordRead(before, r, others, rest);
  }

  /** An accuracy of 600 hundredths of a percent, unsigned in the layout, is read as minus 424. */
  lemma {:induction false} LargeAccuracyNegative(before: Record, r: Record, others: seq<Octet>, rest: seq<Octet>)
    requires InRange(r) && r.accuracy == 600 && |others| == 51 && |r.identity| < 32 && Packable(r.identity)
    ensures Decode(before, Encode(r, 2, Pack(r.identity), others, rest)) == (r.(accuracy := -424), Success)
  {
    PackedRecordRead(before, r, others, rest);
  }

  /* ---- The decoder itself on the bytes of an encoded record ---- */

  method ReadPackedRecord(decoder: FullSensorRecord, r: Record, others: seq<Octet>, rest: seq<Octet>)
      returns (err: Outcome)
    requires InRange(r) && |others| == 51 && |r.identity| < 32 && Packable(r.identity)
    modifies decoder
    ensures decoder.Contents() == AsRead(r) && err == Success
  {
    var d := Encode(r, 2, Pack(r.identity), others, rest);
    ValuesOfBytes(d);
    PackedRecordRead(decoder.Contents(), r, others, rest);
    err := decoder.DecodeFromBytes(Bytes(d));
  }

  method ReadBcdRecord(decoder: FullSensorRecord, r: Record, text: seq<Octet>, others: seq<Octet>, rest: seq<Octet>)
      returns (err: Outcome)
    requires InRange(r) && |others| == 51 && |r.identity| < 32 && BcdPrintable(r.identity)
      && text == PackBcd(r.identity)
    modifies decoder
    ensures decoder.Contents() == AsRead(r) && err == Success
  {
    var d := Encode(r, 1, text, others, rest);
    ValuesOfBytes(d);
    BcdRecordRead(decoder.Contents(), r, others, rest);
    err := decoder.DecodeFromBytes(Bytes(d));
  }
}
