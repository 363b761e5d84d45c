/** Bytes as the program reads them, and the numbers it builds from them. */
module Bytes {

  type u8 = x: int | 0 <= x < 256

  datatype Option<+T> = None | Some(value: T)

  /** A big-endian 16-bit field. */
  function BE16(hi: u8, lo: u8): (r: nat)
    ensures r < 0x1_0000
  {
    hi * 256 + lo
  }

  /** A big-endian 24-bit field. */
  function BE24(a: u8, b: u8, c: u8): (r: nat)
  {
    BE16(a, b) * 256 + c
  }

  /** A bit mask of one bit, as a number: `Bit(b, 0x40)` is the test `b & 0x40`. */
  predicate Bit(b: u8, mask: nat)
    requires mask > 0
  {
    (b / mask) % 2 == 1
  }

  function Octet(b: u8): bv8 { b as bv8 }

  function Number(v: bv8): u8 { v as int }

  lemma OctetNumber(v: bv8)
    ensures Octet(Number(v)) == v
  {}

  lemma NumberSuccessor(v: bv8)
    requires Number(v) != 255
    ensures Number(v + 1) == Number(v) + 1
  {}

  /** Every number of a byte is the number of some octet. */
  lemma {:induction false} NumberOnto(b: u8) returns (v: bv8)
    ensures Number(v) == b
  {
    if b == 0 {
      v := 0;
    } else {
      v := NumberOnto(b - 1);
      NumberSuccessor(v);
      v := v + 1;
    }
  }

  lemma NumberOctet(b: u8)
    ensures Number(Octet(b)) == b
  {
    hide Number, Octet;
    var v := NumberOnto(b);
    OctetNumber(v);
  }

  lemma OctetInjective(a: u8, b: u8)
    requires Octet(a) == Octet(b)
    ensures a == b
  {
    hide Octet, Number;
    NumberOctet(a);
    NumberOctet(b);
  }

  // ---------- Masks ----------

  function BitOf(v: bv8, mask: bv8): (r: nat)
    ensures r <= 1
  {
    if v & mask != 0 then 1 else 0
  }

  lemma NumberBits(v: bv8)
    ensures Number(v) == 128 * BitOf(v, 0x80) + 64 * BitOf(v, 0x40) + 32 * BitOf(v, 0x20) + 16 * BitOf(v, 0x10)
                       + 8 * BitOf(v, 0x08) + 4 * BitOf(v, 0x04) + 2 * BitOf(v, 0x02) + BitOf(v, 0x01)
  {}

  lemma Quotients(b: nat, a7: nat, a6: nat, a5: nat, a4: nat, a3: nat, a2: nat, a1: nat, a0: nat)
    requires a7 <= 1 && a6 <= 1 && a5 <= 1 && a4 <= 1 && a3 <= 1 && a2 <= 1 && a1 <= 1 && a0 <= 1
    requires b == 128 * a7 + 64 * a6 + 32 * a5 + 16 * a4 + 8 * a3 + 4 * a2 + 2 * a1 + a0
    ensures b / 128 == a7
    ensures b / 64 == 2 * a7 + a6
    ensures b / 32 == 4 * a7 + 2 * a6 + a5
    ensures b / 16 == 8 * a7 + 4 * a6 + 2 * a5 + a4
    ensures b / 8 == 16 * a7 + 8 * a6 + 4 * a5 + 2 * a4 + a3
    ensures b / 4 == 32 * a7 + 16 * a6 + 8 * a5 + 4 * a4 + 2 * a3 + a2
    ensures b / 2 == 64 * a7 + 32 * a6 + 16 * a5 + 8 * a4 + 4 * a3 + 2 * a2 + a1
  {}

  lemma Parity(k: nat, a: nat)
    requires a <= 1
    ensures (2 * k + a) % 2 == a
  {}

  lemma Octal(k: nat, a: nat)
    requires a <= 7
    ensures (8 * k + a) % 8 == a
  {}

  lemma HighDigits(b: nat, a7: nat, a6: nat, a5: nat, a4: nat, a3: nat, a2: nat, a1: nat, a0: nat)
    requires a7 <= 1 && a6 <= 1 && a5 <= 1 && a4 <= 1 && a3 <= 1 && a2 <= 1 && a1 <= 1 && a0 <= 1
    requires b == 128 * a7 + 64 * a6 + 32 * a5 + 16 * a4 + 8 * a3 + 4 * a2 + 2 * a1 + a0
    ensures (b / 128) % 2 == a7 && (b / 64) % 2 == a6 && (b / 32) % 2 == a5 && (b / 16) % 2 == a4
  {
    Quotients(b, a7, a6, a5, a4, a3, a2, a1, a0);
    Parity(0, a7);
    Parity(a7, a6);
    Parity(2 * a7 + a6, a5);
    Parity(4 * a7 + 2 * a6 + a5, a4);
  }

  lemma LowDigits(b: nat, a7: nat, a6: nat, a5: nat, a4: nat, a3: nat, a2: nat, a1: nat, a0: nat)
    requires a7 <= 1 && a6 <= 1 && a5 <= 1 && a4 <= 1 && a3 <= 1 && a2 <= 1 && a1 <= 1 && a0 <= 1
    requires b == 128 * a7 + 64 * a6 + 32 * a5 + 16 * a4 + 8 * a3 + 4 * a2 + 2 * a1 + a0
    ensures (b / 8) % 2 == a3 && (b / 4) % 2 == a2 && (b / 2) % 2 == a1 && (b / 1) % 2 == a0
    ensures (b / 2) % 8 == 4 * a3 + 2 * a2 + a1
  {
    Quotients(b, a7, a6, a5, a4, a3, a2, a1, a0);
    Parity(8 * a7 + 4 * a6 + 2 * a5 + a4, a3);
    Parity(16 * a7 + 8 * a6 + 4 * a5 + 2 * a4 + a3, a2);
    Parity(32 * a7 + 16 * a6 + 8 * a5 + 4 * a4 + 2 * a3 + a2, a1);
    Parity(64 * a7 + 32 * a6 + 16 * a5 + 8 * a4 + 4 * a3 + 2 * a2 + a1, a0);
    Octal(8 * a7 + 4 * a6 + 2 * a5 + a4, 4 * a3 + 2 * a2 + a1);
  }

  /** `Bit` is the mask test of the program, for each of the eight masks. */
  lemma BitIsMask(b: u8)
    ensures Bit(b, 0x80) <==> BitOf(Octet(b), 0x80) == 1
    ensures Bit(b, 0x40) <==> BitOf(Octet(b), 0x40) == 1
    ensures Bit(b, 0x20) <==> BitOf(Octet(b), 0x20) == 1
    ensures Bit(b, 0x10) <==> BitOf(Octet(b), 0x10) == 1
    ensures Bit(b, 0x08) <==> BitOf(Octet(b), 0x08) == 1
    ensures Bit(b, 0x04) <==> BitOf(Octet(b), 0x04) == 1
    ensures Bit(b, 0x02) <==> BitOf(Octet(b), 0x02) == 1
    ensures Bit(b, 0x01) <==> BitOf(Octet(b), 0x01) == 1
  {
    hide Number, Octet, BitOf;
    var v := Octet(b);
    NumberOctet(b);
    NumberBits(v);
    HighDigits(b, BitOf(v, 0x80), BitOf(v, 0x40), BitOf(v, 0x20), BitOf(v, 0x10),
               BitOf(v, 0x08), BitOf(v, 0x04), BitOf(v, 0x02), BitOf(v, 0x01));
    LowDigits(b, BitOf(v, 0x80), BitOf(v, 0x40), BitOf(v, 0x20), BitOf(v, 0x10),
              BitOf(v, 0x08), BitOf(v, 0x04), BitOf(v, 0x02), BitOf(v, 0x01));
  }

  /** The version field as the program extracts it, `(b & 0x2f) >> 1`. */
  function RxVersion(b: u8): (r: nat)
    ensures r <= 7 || 16 <= r <= 23
  {
    (b / 2) % 8 + 16 * ((b / 32) % 2)
  }

  function VersionBits(v: bv8): bv8 { (v & 0x2f) >> 1 }

  lemma RxVersionBits(v: bv8)
    ensures var w := VersionBits(v);
            && BitOf(w, 0x80) == 0 && BitOf(w, 0x40) == 0 && BitOf(w, 0x20) == 0
            && BitOf(w, 0x10) == BitOf(v, 0x20) && BitOf(w, 0x08) == 0
            && BitOf(w, 0x04) == BitOf(v, 0x08) && BitOf(w, 0x02) == BitOf(v, 0x04) && BitOf(w, 0x01) == BitOf(v, 0x02)
  {}

  lemma RxVersionIsMask(b: u8)
    ensures RxVersion(b) == Number(VersionBits(Octet(b)))
  {
    hide Number, Octet, BitOf, VersionBits;
    var v := Octet(b);
    NumberOctet(b);
    NumberBits(v);
    NumberBits(VersionBits(v));
    RxVersionBits(v);
    HighDigits(b, BitOf(v, 0x80), BitOf(v, 0x40), BitOf(v, 0x20), BitOf(v, 0x10),
               BitOf(v, 0x08), BitOf(v, 0x04), BitOf(v, 0x02), BitOf(v, 0x01));
    LowDigits(b, BitOf(v, 0x80), BitOf(v, 0x40), BitOf(v, 0x20), BitOf(v, 0x10),
              BitOf(v, 0x08), BitOf(v, 0x04), BitOf(v, 0x02), BitOf(v, 0x01));
  }

  function Byte3(w: bv32): bv8 { (w >> 24) as bv8 }

  function Byte2(w: bv32): bv8 { ((w >> 16) & 0xff) as bv8 }

  function Byte1(w: bv32): bv8 { ((w >> 8) & 0xff) as bv8 }

  function Byte0(w: bv32): bv8 { (w & 0xff) as bv8 }

  /** The four bytes of a word, most significant first. */
  function BE32Bytes(w: bv32): (s: seq<u8>)
    ensures |s| == 4
  {
    [Number(Byte3(w)), Number(Byte2(w)), Number(Byte1(w)), Number(Byte0(w))]
  }

  function Word(a: bv8, b: bv8, c: bv8, d: bv8): bv32 {
    ((a as bv32) << 24) + ((b as bv32) << 16) + ((c as bv32) << 8) + (d as bv32)
  }

  /** A big-endian 32-bit field. */
  function BE32(s: seq<u8>): bv32
    requires |s| == 4
  {
    Word(Octet(s[0]), Octet(s[1]), Octet(s[2]), Octet(s[3]))
  }

  lemma WordBytes(a: bv8, b: bv8, c: bv8, d: bv8)
    ensures Byte3(Word(a, b, c, d)) == a && Byte2(Word(a, b, c, d)) == b
    ensures Byte1(Word(a, b, c, d)) == c && Byte0(Word(a, b, c, d)) == d
  {}

  lemma BytesWord(w: bv32)
    ensures Word(Byte3(w), Byte2(w), Byte1(w), Byte0(w)) == w
  {}

  lemma BE32RoundTrip(w: bv32)
    ensures BE32(BE32Bytes(w)) == w
  {
    hide Word, Byte3, Byte2, Byte1, Byte0, Octet, Number;
    OctetNumber(Byte3(w));
    OctetNumber(Byte2(w));
    OctetNumber(Byte1(w));
    OctetNumber(Byte0(w));
    BytesWord(w);
  }
}
