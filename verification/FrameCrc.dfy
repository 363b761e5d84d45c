/**
 The checksum of control-channel frames (socket.cpp): section 3.2.9 of IEEE 802.3,
 computed least significant bit first. It is the mirror image of the section checksum.
 */
module FrameCrc {
  import opened Bytes
  import opened Gf2
  import M = MpegCrc

  function LowByte(crc: bv32): bv8 { (crc & 0xff) as bv8 }

  function Not(crc: bv32): bv32 { !crc }

  function DropLowByte(crc: bv32): bv32 { crc >> 8 }

  function Mix(crc: bv32, d: bv8): bv8 { Add8(LowByte(crc), d) }

  function Additions(crc: bv32, x: bv8): bv32 {
    M.XorIf(M.XorIf(M.XorIf(M.XorIf(M.XorIf(M.XorIf(M.XorIf(M.XorIf(crc,
      M.Has(x, 0x01), 0x7707_3096), M.Has(x, 0x02), 0xee0e_612c),
      M.Has(x, 0x04), 0x076d_c419), M.Has(x, 0x08), 0x0edb_8832),
      M.Has(x, 0x10), 0x1db7_1064), M.Has(x, 0x20), 0x3b6e_20c8),
      M.Has(x, 0x40), 0x76dc_4190), M.Has(x, 0x80), 0xedb8_8320)
  }

  /** One byte of the program's algorithm. */
  function ByteStep(crc: bv32, d: bv8): bv32 {
    Additions(DropLowByte(crc), Mix(crc, d))
  }

  function Register(r: bv32, s: seq<u8>): bv32 {
    if s == [] then r else ByteStep(Register(r, s[..|s| - 1]), Octet(s[|s| - 1]))
  }

  function Crc(s: seq<u8>): bv32 { Not(Register(M.ALL_ONES, s)) }

  /** tuner_calc_crc */
  method TunerCalcCrc(pkt: array<u8>, len: nat) returns (crc: bv32)
    requires len <= pkt.Length
    ensures crc == Crc(pkt[..len])
  {
    hide M.Has, Mix, DropLowByte, M.XorIf, Not;
    crc := M.ALL_ONES;
    var i := 0;
    while i < len
      invariant 0 <= i <= len
      invariant crc == Register(M.ALL_ONES, pkt[..i])
    {
      var x := Mix(crc, Octet(pkt[i]));
      ghost var s := pkt[..i + 1];
      assert s[..i] == pkt[..i];
      crc := DropLowByte(crc);
      crc := M.XorIf(crc, M.Has(x, 0x01), 0x7707_3096);
      crc := M.XorIf(crc, M.Has(x, 0x02), 0xee0e_612c);
      crc := M.XorIf(crc, M.Has(x, 0x04), 0x076d_c419);
      crc := M.XorIf(crc, M.Has(x, 0x08), 0x0edb_8832);
      crc := M.XorIf(crc, M.Has(x, 0x10), 0x1db7_1064);
      crc := M.XorIf(crc, M.Has(x, 0x20), 0x3b6e_20c8);
      crc := M.XorIf(crc, M.Has(x, 0x40), 0x76dc_4190);
      crc := M.XorIf(crc, M.Has(x, 0x80), 0xedb8_8320);
      i := i + 1;
    }
    crc := Not(crc);
  }

  // ---------- Bit reversal ----------

  function Reverse8(b: bv8): bv8 {
    ((b & 0x01) << 7) | ((b & 0x02) << 5) | ((b & 0x04) << 3) | ((b & 0x08) << 1) |
    ((b & 0x10) >> 1) | ((b & 0x20) >> 3) | ((b & 0x40) >> 5) | ((b & 0x80) >> 7)
  }

  function Reverse32(w: bv32): bv32 {
    Word(Reverse8(Byte0(w)), Reverse8(Byte1(w)), Reverse8(Byte2(w)), Reverse8(Byte3(w)))
  }

  function ReverseByte(b: u8): u8 { Number(Reverse8(Octet(b))) }

  /** Every byte with its bits in the opposite order. */
  function Mirrored(s: seq<u8>): (t: seq<u8>)
    ensures |t| == |s|
    ensures forall i | 0 <= i < |s| :: t[i] == ReverseByte(s[i])
  {
    if s == [] then [] else Mirrored(s[..|s| - 1]) + [ReverseByte(s[|s| - 1])]
  }

  lemma Reverse8Twice(b: bv8)
    ensures Reverse8(Reverse8(b)) == b
  {}

  function Add8(a: bv8, b: bv8): bv8 { a ^ b }

  lemma Reverse8Add(a: bv8, b: bv8)
    ensures Reverse8(Add8(a, b)) == Add8(Reverse8(a), Reverse8(b))
  {}

  lemma Byte0Add(a: bv32, b: bv32)
    ensures Byte0(Add(a, b)) == Add8(Byte0(a), Byte0(b))
  {}

  lemma Byte1Add(a: bv32, b: bv32)
    ensures Byte1(Add(a, b)) == Add8(Byte1(a), Byte1(b))
  {}

  lemma Byte2Add(a: bv32, b: bv32)
    ensures Byte2(Add(a, b)) == Add8(Byte2(a), Byte2(b))
  {}

  lemma Byte3Add(a: bv32, b: bv32)
    ensures Byte3(Add(a, b)) == Add8(Byte3(a), Byte3(b))
  {}

  lemma ReverseBytes(w: bv32)
    ensures Byte3(Reverse32(w)) == Reverse8(Byte0(w)) && Byte2(Reverse32(w)) == Reverse8(Byte1(w))
    ensures Byte1(Reverse32(w)) == Reverse8(Byte2(w)) && Byte0(Reverse32(w)) == Reverse8(Byte3(w))
  {
    hide Word, Reverse8, Byte0, Byte1, Byte2, Byte3;
    WordBytes(Reverse8(Byte0(w)), Reverse8(Byte1(w)), Reverse8(Byte2(w)), Reverse8(Byte3(w)));
  }

  lemma SameBytes(v: bv32, w: bv32)
    requires Byte3(v) == Byte3(w) && Byte2(v) == Byte2(w) && Byte1(v) == Byte1(w) && Byte0(v) == Byte0(w)
    ensures v == w
  {
    hide Word, Byte0, Byte1, Byte2, Byte3;
    BytesWord(v);
    BytesWord(w);
  }

  lemma ReverseAdd(a: bv32, b: bv32)
    ensures Reverse32(Add(a, b)) == Add(Reverse32(a), Reverse32(b))
  {
    hide Reverse8, Reverse32, Byte0, Byte1, Byte2, Byte3, Add, Add8;
    ReverseBytes(a);
    ReverseBytes(b);
    ReverseBytes(Add(a, b));
    Byte0Add(a, b); Byte1Add(a, b); Byte2Add(a, b); Byte3Add(a, b);
    Byte0Add(Reverse32(a), Reverse32(b)); Byte1Add(Reverse32(a), Reverse32(b));
    Byte2Add(Reverse32(a), Reverse32(b)); Byte3Add(Reverse32(a), Reverse32(b));
    Reverse8Add(Byte0(a), Byte0(b)); Reverse8Add(Byte1(a), Byte1(b));
    Reverse8Add(Byte2(a), Byte2(b)); Reverse8Add(Byte3(a), Byte3(b));
    SameBytes(Reverse32(Add(a, b)), Add(Reverse32(a), Reverse32(b)));
  }

  lemma ReverseXorIf(a: bv32, on: bool, v: bv32, w: bv32)
    requires Reverse32(v) == w
    ensures Reverse32(M.XorIf(a, on, v)) == M.XorIf(Reverse32(a), on, w)
  {
    hide Reverse32, Add;
    ReverseAdd(a, v);
  }

  lemma ReversedConstants()
    ensures Reverse32(0x7707_3096) == 0x690c_e0ee
    ensures Reverse32(0xee0e_612c) == 0x3486_7077
    ensures Reverse32(0x076d_c419) == 0x9823_b6e0
    ensures Reverse32(0x0edb_8832) == 0x4c11_db70
    ensures Reverse32(0x1db7_1064) == 0x2608_edb8
    ensures Reverse32(0x3b6e_20c8) == 0x1304_76dc
    ensures Reverse32(0x76dc_4190) == 0x0982_3b6e
    ensures Reverse32(0xedb8_8320) == 0x04c1_1db7
  {}

  // ---------- Order of additions ----------

  function Cond(on: bool, v: bv32): bv32 { if on then v else 0 }

  function Four(a: bv32, p: bv32, q: bv32, r: bv32, s: bv32): bv32 {
    Add(Add(Add(Add(a, p), q), r), s)
  }

  lemma SwapLast(a: bv32, p: bv32, q: bv32)
    ensures Add(Add(a, p), q) == Add(Add(a, q), p)
  {
    hide Add;
    AddAssoc(a, p, q);
    AddComm(p, q);
    AddAssoc(a, q, p);
  }

  lemma FourReversed(a: bv32, p: bv32, q: bv32, r: bv32, s: bv32)
    ensures Four(a, p, q, r, s) == Four(a, s, r, q, p)
  {
    hide Add;
    SwapLast(Add(Add(a, p), q), r, s);
    SwapLast(Add(a, p), q, s);
    SwapLast(a, p, s);
    SwapLast(Add(Add(a, s), p), q, r);
    SwapLast(Add(a, s), p, r);
    SwapLast(Add(Add(a, s), r), p, q);
  }

  lemma FourSum(a: bv32, p: bv32, q: bv32, r: bv32, s: bv32)
    ensures Four(a, p, q, r, s) == Add(a, Four(0, p, q, r, s))
  {
    hide Add;
    AddZero(p);
    AddAssoc(a, p, q);
    AddAssoc(a, Add(p, q), r);
    AddAssoc(a, Add(Add(p, q), r), s);
  }

  lemma EightReversed(a: bv32, p: bv32, q: bv32, r: bv32, s: bv32, t: bv32, u: bv32, v: bv32, w: bv32)
    ensures Four(Four(a, p, q, r, s), t, u, v, w) == Four(Four(a, w, v, u, t), s, r, q, p)
  {
    hide Four, Add;
    FourReversed(a, p, q, r, s);
    FourReversed(Four(a, s, r, q, p), t, u, v, w);
    FourSum(a, s, r, q, p);
    FourSum(Four(a, s, r, q, p), w, v, u, t);
    FourSum(a, w, v, u, t);
    FourSum(Four(a, w, v, u, t), s, r, q, p);
    SwapLast(a, Four(0, s, r, q, p), Four(0, w, v, u, t));
  }

  lemma XorIfIsAdd(a: bv32, on: bool, v: bv32)
    ensures M.XorIf(a, on, v) == Add(a, Cond(on, v))
  {
    AddZero(a);
  }

  /** The section checksum's conditional additions, taken in the opposite order. */
  function Backwards(crc: bv32, x: bv8): bv32 {
    M.XorIf(M.XorIf(M.XorIf(M.XorIf(M.XorIf(M.XorIf(M.XorIf(M.XorIf(crc,
      M.Has(x, 0x80), 0x690c_e0ee),
      M.Has(x, 0x40), 0x3486_7077),
      M.Has(x, 0x20), 0x9823_b6e0),
      M.Has(x, 0x10), 0x4c11_db70),
      M.Has(x, 0x08), 0x2608_edb8),
      M.Has(x, 0x04), 0x1304_76dc),
      M.Has(x, 0x02), 0x0982_3b6e),
      M.Has(x, 0x01), 0x04c1_1db7)
  }

  lemma OrderDoesNotMatter(crc: bv32, x: bv8)
    ensures M.Additions(crc, x) == Backwards(crc, x)
  {
    hide Add, M.XorIf, Cond, M.Has;
    var v0 := Cond(M.Has(x, 0x01), 0x04c1_1db7);
    var v1 := Cond(M.Has(x, 0x02), 0x0982_3b6e);
    var v2 := Cond(M.Has(x, 0x04), 0x1304_76dc);
    var v3 := Cond(M.Has(x, 0x08), 0x2608_edb8);
    var v4 := Cond(M.Has(x, 0x10), 0x4c11_db70);
    var v5 := Cond(M.Has(x, 0x20), 0x9823_b6e0);
    var v6 := Cond(M.Has(x, 0x40), 0x3486_7077);
    var v7 := Cond(M.Has(x, 0x80), 0x690c_e0ee);
    var f0 := M.XorIf(crc, M.Has(x, 0x01), 0x04c1_1db7);
    XorIfIsAdd(crc, M.Has(x, 0x01), 0x04c1_1db7);
    var f1 := M.XorIf(f0, M.Has(x, 0x02), 0x0982_3b6e);
    XorIfIsAdd(f0, M.Has(x, 0x02), 0x0982_3b6e);
    var f2 := M.XorIf(f1, M.Has(x, 0x04), 0x1304_76dc);
    XorIfIsAdd(f1, M.Has(x, 0x04), 0x1304_76dc);
    var f3 := M.XorIf(f2, M.Has(x, 0x08), 0x2608_edb8);
    XorIfIsAdd(f2, M.Has(x, 0x08), 0x2608_edb8);
    var f4 := M.XorIf(f3, M.Has(x, 0x10), 0x4c11_db70);
    XorIfIsAdd(f3, M.Has(x, 0x10), 0x4c11_db70);
    var f5 := M.XorIf(f4, M.Has(x, 0x20), 0x9823_b6e0);
    XorIfIsAdd(f4, M.Has(x, 0x20), 0x9823_b6e0);
    var f6 := M.XorIf(f5, M.Has(x, 0x40), 0x3486_7077);
    XorIfIsAdd(f5, M.Has(x, 0x40), 0x3486_7077);
    var f7 := M.XorIf(f6, M.Has(x, 0x80), 0x690c_e0ee);
    XorIfIsAdd(f6, M.Has(x, 0x80), 0x690c_e0ee);
    var b7 := M.XorIf(crc, M.Has(x, 0x80), 0x690c_e0ee);
    XorIfIsAdd(crc, M.Has(x, 0x80), 0x690c_e0ee);
    var b6 := M.XorIf(b7, M.Has(x, 0x40), 0x3486_7077);
    XorIfIsAdd(b7, M.Has(x, 0x40), 0x3486_7077);
    var b5 := M.XorIf(b6, M.Has(x, 0x20), 0x9823_b6e0);
    XorIfIsAdd(b6, M.Has(x, 0x20), 0x9823_b6e0);
    var b4 := M.XorIf(b5, M.Has(x, 0x10), 0x4c11_db70);
    XorIfIsAdd(b5, M.Has(x, 0x10), 0x4c11_db70);
    var b3 := M.XorIf(b4, M.Has(x, 0x08), 0x2608_edb8);
    XorIfIsAdd(b4, M.Has(x, 0x08), 0x2608_edb8);
    var b2 := M.XorIf(b3, M.Has(x, 0x04), 0x1304_76dc);
    XorIfIsAdd(b3, M.Has(x, 0x04), 0x1304_76dc);
    var b1 := M.XorIf(b2, M.Has(x, 0x02), 0x0982_3b6e);
    XorIfIsAdd(b2, M.Has(x, 0x02), 0x0982_3b6e);
    var b0 := M.XorIf(b1, M.Has(x, 0x01), 0x04c1_1db7);
    XorIfIsAdd(b1, M.Has(x, 0x01), 0x04c1_1db7);
    EightReversed(crc, v0, v1, v2, v3, v4, v5, v6, v7);
  }

  lemma ReverseShift(c: bv32)
    ensures Reverse32(DropLowByte(c)) == M.DropByte(Reverse32(c))
  {
    hide Reverse8, Reverse32, Byte0, Byte1, Byte2, Byte3, DropLowByte, M.DropByte;
    ReverseBytes(c);
    ReverseBytes(DropLowByte(c));
    ShiftedBytes(c);
    ShiftedBytes(Reverse32(c));
    SameBytes(Reverse32(DropLowByte(c)), M.DropByte(Reverse32(c)));
  }

  lemma ShiftedBytes(c: bv32)
    ensures Byte3(DropLowByte(c)) == 0 && Byte2(DropLowByte(c)) == Byte3(c)
    ensures Byte1(DropLowByte(c)) == Byte2(c) && Byte0(DropLowByte(c)) == Byte1(c)
    ensures Byte3(M.DropByte(c)) == Byte2(c) && Byte2(M.DropByte(c)) == Byte1(c)
    ensures Byte1(M.DropByte(c)) == Byte0(c) && Byte0(M.DropByte(c)) == 0
    ensures Reverse8(0) == 0
    ensures LowByte(c) == Byte0(c) && M.TopByte(c) == Byte3(c)
  {}

  lemma ReverseMix(c: bv32, d: bv8)
    ensures Reverse8(Mix(c, d)) == M.Mix(Reverse32(c), Reverse8(d))
  {
    hide Reverse8, Reverse32, Byte0, Byte1, Byte2, Byte3, M.DropByte, DropLowByte, LowByte, M.TopByte;
    ShiftedBytes(c);
    ShiftedBytes(Reverse32(c));
    ReverseBytes(c);
    Reverse8Add(LowByte(c), d);
  }

  lemma ReverseHas(x: bv8)
    ensures M.Has(Reverse8(x), 0x80) == M.Has(x, 0x01)
    ensures M.Has(Reverse8(x), 0x40) == M.Has(x, 0x02)
    ensures M.Has(Reverse8(x), 0x20) == M.Has(x, 0x04)
    ensures M.Has(Reverse8(x), 0x10) == M.Has(x, 0x08)
    ensures M.Has(Reverse8(x), 0x08) == M.Has(x, 0x10)
    ensures M.Has(Reverse8(x), 0x04) == M.Has(x, 0x20)
    ensures M.Has(Reverse8(x), 0x02) == M.Has(x, 0x40)
    ensures M.Has(Reverse8(x), 0x01) == M.Has(x, 0x80)
  {}

  /** The two byte steps are mirror images. */
  lemma ByteStepMirror(c: bv32, d: bv8)
    ensures Reverse32(ByteStep(c, d)) == M.ByteStep(Reverse32(c), Reverse8(d))
  {
    hide Reverse8, Reverse32, M.Has, M.XorIf, Mix, M.Mix, DropLowByte, M.DropByte, M.Additions;
    ReverseMix(c, d);
    ReverseShift(c);
    var x := Mix(c, d);
    ReverseHas(x);
    ReversedConstants();
    OrderDoesNotMatter(M.DropByte(Reverse32(c)), Reverse8(x));
    var f0 := M.XorIf(DropLowByte(c), M.Has(x, 0x01), 0x7707_3096);
    ReverseXorIf(DropLowByte(c), M.Has(x, 0x01), 0x7707_3096, 0x690c_e0ee);
    var f1 := M.XorIf(f0, M.Has(x, 0x02), 0xee0e_612c);
    ReverseXorIf(f0, M.Has(x, 0x02), 0xee0e_612c, 0x3486_7077);
    var f2 := M.XorIf(f1, M.Has(x, 0x04), 0x076d_c419);
    ReverseXorIf(f1, M.Has(x, 0x04), 0x076d_c419, 0x9823_b6e0);
    var f3 := M.XorIf(f2, M.Has(x, 0x08), 0x0edb_8832);
    ReverseXorIf(f2, M.Has(x, 0x08), 0x0edb_8832, 0x4c11_db70);
    var f4 := M.XorIf(f3, M.Has(x, 0x10), 0x1db7_1064);
    ReverseXorIf(f3, M.Has(x, 0x10), 0x1db7_1064, 0x2608_edb8);
    var f5 := M.XorIf(f4, M.Has(x, 0x20), 0x3b6e_20c8);
    ReverseXorIf(f4, M.Has(x, 0x20), 0x3b6e_20c8, 0x1304_76dc);
    var f6 := M.XorIf(f5, M.Has(x, 0x40), 0x76dc_4190);
    ReverseXorIf(f5, M.Has(x, 0x40), 0x76dc_4190, 0x0982_3b6e);
    var f7 := M.XorIf(f6, M.Has(x, 0x80), 0xedb8_8320);
    ReverseXorIf(f6, M.Has(x, 0x80), 0xedb8_8320, 0x04c1_1db7);
  }

  lemma ReverseAllOnes()
    ensures Reverse32(M.ALL_ONES) == M.ALL_ONES
  {}

  lemma {:induction false} RegisterMirror(c: bv32, s: seq<u8>)
    ensures Reverse32(Register(c, s)) == M.Register(Reverse32(c), Mirrored(s))
  {
    hide Reverse8, Reverse32, ByteStep, M.ByteStep, Octet, Number;
    if s != [] {
      var n := |s| - 1;
      RegisterMirror(c, s[..n]);
      ByteStepMirror(Register(c, s[..n]), Octet(s[n]));
      var t := Mirrored(s);
      assert t == Mirrored(s[..n]) + [ReverseByte(s[n])];
      assert t[..n] == Mirrored(s[..n]);
      OctetNumber(Reverse8(Octet(s[n])));
    }
  }

  lemma NotNot(c: bv32)
    ensures Not(Not(c)) == c
  {}

  /** The two checksums are mirror images on every byte string. */
  lemma CrcsAreMirrorImages(s: seq<u8>)
    ensures Reverse32(Not(Crc(s))) == M.Crc(Mirrored(s))
  {
    hide Reverse32, Register, Not;
    NotNot(Register(M.ALL_ONES, s));
    ReverseAllOnes();
    RegisterMirror(M.ALL_ONES, s);
  }

  // ---------- The check of a frame ----------

  /** The four bytes of a word, least significant first. */
  function LE32Bytes(w: bv32): (s: seq<u8>)
    ensures |s| == 4
  {
    [Number(Byte0(w)), Number(Byte1(w)), Number(Byte2(w)), Number(Byte3(w))]
  }

  /** The last four bytes are the checksum of the bytes before them. */
  predicate FrameOk(f: seq<u8>) {
    |f| >= 4 && f[|f| - 4..] == LE32Bytes(Crc(f[..|f| - 4]))
  }

  /** What the register holds after any good frame: all ones, clocked 32 times with zero input. */
  function Residue(): bv32 { Run(M.ALL_ONES, Zeros(32)) }

  lemma ReverseNot(w: bv32)
    ensures Reverse32(Not(w)) == Not(Reverse32(w))
  {
    hide Reverse32, Add;
    NotIsAdd(w);
    NotIsAdd(Reverse32(w));
    ReverseAllOnes();
    ReverseAdd(M.ALL_ONES, w);
  }

  lemma NotIsAdd(w: bv32)
    ensures Not(w) == Add(M.ALL_ONES, w)
  {}

  lemma AddIsAllOnes(a: bv32, b: bv32)
    ensures Add(a, b) == M.ALL_ONES <==> b == Not(a)
  {
    hide Add, Not;
    NotIsAdd(a);
    AddComm(M.ALL_ONES, a);
    AddAssoc(a, a, M.ALL_ONES);
    AddZero(a);
    AddZero(M.ALL_ONES);
    AddComm(a, b);
    if Add(a, b) == M.ALL_ONES {
      AddComm(a, Not(a));
      AddCancel(b, Not(a), a);
    }
  }

  lemma StoredByteMirror(x: u8, v: bv8)
    ensures x == Number(v) <==> Octet(ReverseByte(x)) == Reverse8(v)
  {
    hide Reverse8, Octet, Number;
    OctetNumber(v);
    OctetNumber(Reverse8(Octet(x)));
    Reverse8Twice(Octet(x));
    Reverse8Twice(v);
    NumberOctet(x);
  }

  lemma WordInjective(a: bv8, b: bv8, c: bv8, d: bv8, w: bv32)
    ensures Word(a, b, c, d) == w <==> a == Byte3(w) && b == Byte2(w) && c == Byte1(w) && d == Byte0(w)
  {
    hide Word, Byte0, Byte1, Byte2, Byte3;
    WordBytes(a, b, c, d);
    BytesWord(w);
  }

  /** The stored little-endian bytes, mirrored, are the big-endian bytes of the reversed word. */
  lemma StoredBytesMirror(t: seq<u8>, c: bv32)
    requires |t| == 4
    ensures t == LE32Bytes(c) <==> BE32(Mirrored(t)) == Reverse32(c)
  {
    hide Reverse8, Word, Byte0, Byte1, Byte2, Byte3, Octet, Number, Mirrored, ReverseByte, Reverse32;
    StoredByteMirror(t[0], Byte0(c));
    StoredByteMirror(t[1], Byte1(c));
    StoredByteMirror(t[2], Byte2(c));
    StoredByteMirror(t[3], Byte3(c));
    var m := Mirrored(t);
    WordInjective(Octet(m[0]), Octet(m[1]), Octet(m[2]), Octet(m[3]), Reverse32(c));
    ReverseBytes(c);
  }

  lemma {:induction false} MirroredAppend(s: seq<u8>, t: seq<u8>)
    ensures Mirrored(s + t) == Mirrored(s) + Mirrored(t)
  {
    hide Mirrored, ReverseByte;
  }

  lemma MirroredInjective(s: seq<u8>, t: seq<u8>)
    requires |s| == |t| && Mirrored(s) == Mirrored(t)
    ensures s == t
  {
    hide Reverse8, Octet, Number, Mirrored;
    forall i | 0 <= i < |s| ensures s[i] == t[i] {
      assert Mirrored(s)[i] == Mirrored(t)[i];
      OctetNumber(Reverse8(Octet(s[i])));
      OctetNumber(Reverse8(Octet(t[i])));
      Reverse8Twice(Octet(s[i]));
      Reverse8Twice(Octet(t[i]));
      OctetInjective(s[i], t[i]);
    }
  }

  /** A frame is good exactly when the section register over its mirror image ends in one fixed value. */
  lemma FrameOkMeansResidue(f: seq<u8>)
    requires |f| >= 4
    ensures FrameOk(f) <==> M.Crc(Mirrored(f)) == Residue()
  {
    hide Mirrored, Register, M.Register, Reverse32, Add, Not, Run, BE32, LE32Bytes, TopBits, Shift;
    var n := |f| - 4;
    var g, t := f[..n], f[n..];
    assert f == g + t;
    MirroredAppend(g, t);
    var c, m, w := Crc(g), M.Crc(Mirrored(g)), BE32(Mirrored(t));
    M.RegisterAppend(M.ALL_ONES, Mirrored(g), Mirrored(t));
    M.CrcIsDivision(m, Mirrored(t));
    M.BitsOfField(Mirrored(t));
    Absorb(m, w, 32);
    ShiftBy32(w);
    AddZero(Run(Add(m, w), Zeros(32)));
    CrcsAreMirrorImages(g);
    ReverseNot(c);
    NotNot(Reverse32(c));
    AddIsAllOnes(m, w);
    StoredBytesMirror(t, c);
    if M.Crc(Mirrored(f)) == Residue() {
      RunInjective(Add(m, w), M.ALL_ONES, Zeros(32));
    }
  }

  /**
   Any change to a good frame of the same length confined to 32 consecutive bits,
   counted least significant bit first, is rejected.
   */
  lemma FrameBurstIsRejected(f: seq<u8>, g: seq<u8>, start: nat)
    requires |g| == |f| && f != g
    requires DifferWithin32(M.Bits(Mirrored(f)), M.Bits(Mirrored(g)), start)
    requires FrameOk(f)
    ensures !FrameOk(g)
  {
    hide Run, M.Bits, M.Register, Mirrored, Register;
    if FrameOk(g) {
      FrameOkMeansResidue(f);
      FrameOkMeansResidue(g);
      M.CrcIsDivision(M.ALL_ONES, Mirrored(f));
      M.CrcIsDivision(M.ALL_ONES, Mirrored(g));
      BurstChangesRegister(M.ALL_ONES, M.Bits(Mirrored(f)), M.Bits(Mirrored(g)), start);
      M.BitsInjective(Mirrored(f), Mirrored(g));
      MirroredInjective(f, g);
    }
  }
}
