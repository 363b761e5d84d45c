/**
 The checksum of sections (mpgatsc.cpp): a register of all ones, most significant
 bit first, eight conditional additions a byte.
 */
module MpegCrc {
  import opened Bytes
  import opened Gf2

  const ALL_ONES: bv32 := 0xffff_ffff

  function XorIf(crc: bv32, on: bool, v: bv32): bv32 { if on then Add(crc, v) else crc }

  function TopByte(crc: bv32): bv8 { (crc >> 24) as bv8 }

  predicate Has(x: bv8, mask: bv8) { x & mask != 0 }

  function DropByte(crc: bv32): bv32 { crc << 8 }

  function Mix(crc: bv32, d: bv8): bv8 { TopByte(crc) ^ d }

  /** One byte of the program's algorithm. */
  function ByteStep(crc: bv32, d: bv8): bv32 {
    Additions(DropByte(crc), Mix(crc, d))
  }

  /** The four additions for the low half of a byte. */
  function LowAdditions(crc: bv32, x: bv8): bv32 {
    XorIf(XorIf(XorIf(XorIf(crc,
      Has(x, 0x01), 0x04c1_1db7), Has(x, 0x02), 0x0982_3b6e),
      Has(x, 0x04), 0x1304_76dc), Has(x, 0x08), 0x2608_edb8)
  }

  function HighAdditions(crc: bv32, x: bv8): bv32 {
    XorIf(XorIf(XorIf(XorIf(crc,
      Has(x, 0x10), 0x4c11_db70), Has(x, 0x20), 0x9823_b6e0),
      Has(x, 0x40), 0x3486_7077), Has(x, 0x80), 0x690c_e0ee)
  }

  function Additions(crc: bv32, x: bv8): bv32 { HighAdditions(LowAdditions(crc, x), x) }

  /** The register after the bytes of `s`. */
  function Register(r: bv32, s: seq<u8>): bv32 {
    if s == [] then r else ByteStep(Register(r, s[..|s| - 1]), Octet(s[|s| - 1]))
  }

  function Crc(s: seq<u8>): bv32 { Register(ALL_ONES, s) }

  /** mpeg2_crc */
  method Mpeg2Crc(pkt: array<u8>, ofs: nat, len: nat) returns (crc: bv32)
    requires ofs + len <= pkt.Length
    ensures crc == Crc(pkt[ofs..ofs + len])
  {
    hide Has, Mix, DropByte, XorIf;
    crc := ALL_ONES;
    var i := 0;
    while i < len
      invariant 0 <= i <= len
      invariant crc == Crc(pkt[ofs..ofs + i])
    {
      var x := Mix(crc, Octet(pkt[ofs + i]));
      ghost var s := pkt[ofs..ofs + i + 1];
      assert s[..i] == pkt[ofs..ofs + i];
      crc := DropByte(crc);
      crc := XorIf(crc, Has(x, 0x01), 0x04c1_1db7);
      crc := XorIf(crc, Has(x, 0x02), 0x0982_3b6e);
      crc := XorIf(crc, Has(x, 0x04), 0x1304_76dc);
      crc := XorIf(crc, Has(x, 0x08), 0x2608_edb8);
      crc := XorIf(crc, Has(x, 0x10), 0x4c11_db70);
      crc := XorIf(crc, Has(x, 0x20), 0x9823_b6e0);
      crc := XorIf(crc, Has(x, 0x40), 0x3486_7077);
      crc := XorIf(crc, Has(x, 0x80), 0x690c_e0ee);
      i := i + 1;
    }
  }

  // ---------- A byte is eight clocks of the register ----------

  /** The bits of a byte, most significant first. */
  function ByteBits(d: bv8): (bits: seq<bool>)
    ensures |bits| == 8
  {
    [Has(d, 0x80), Has(d, 0x40), Has(d, 0x20), Has(d, 0x10), Has(d, 0x08), Has(d, 0x04), Has(d, 0x02), Has(d, 0x01)]
  }

  /** The bits of a byte string in transmission order. */
  function Bits(s: seq<u8>): (bits: seq<bool>)
    ensures |bits| == 8 * |s|
  {
    if s == [] then [] else Bits(s[..|s| - 1]) + ByteBits(Octet(s[|s| - 1]))
  }

  lemma BitsDetermineByte(a: bv8, b: bv8)
    requires ByteBits(a) == ByteBits(b)
    ensures a == b
  {
    hide Has;
    assert forall i | 0 <= i < 8 :: ByteBits(a)[i] == ByteBits(b)[i];
    MasksDetermineByte(a, b);
  }

  lemma MasksDetermineByte(a: bv8, b: bv8)
    requires Has(a, 0x80) == Has(b, 0x80)
    requires Has(a, 0x40) == Has(b, 0x40)
    requires Has(a, 0x20) == Has(b, 0x20)
    requires Has(a, 0x10) == Has(b, 0x10)
    requires Has(a, 0x08) == Has(b, 0x08)
    requires Has(a, 0x04) == Has(b, 0x04)
    requires Has(a, 0x02) == Has(b, 0x02)
    requires Has(a, 0x01) == Has(b, 0x01)
    ensures a == b
  {}

  lemma {:induction false} BitsInjective(s: seq<u8>, t: seq<u8>)
    requires |s| == |t| && Bits(s) == Bits(t)
    ensures s == t
  {
    hide ByteBits, Octet;
    if s != [] {
      var n := |s| - 1;
      var a, b := Bits(s[..n]), Bits(t[..n]);
      assert a == Bits(s)[..8 * n] == b;
      assert ByteBits(Octet(s[n])) == Bits(s)[8 * n..] == ByteBits(Octet(t[n]));
      BitsInjective(s[..n], t[..n]);
      BitsDetermineByte(Octet(s[n]), Octet(t[n]));
      OctetInjective(s[n], t[n]);
      assert s == s[..n] + [s[n]] && t == t[..n] + [t[n]];
    }
  }

  lemma {:induction false} BitsAppend(s: seq<u8>, t: seq<u8>)
    ensures Bits(s + t) == Bits(s) + Bits(t)
    decreases |t|
  {
    hide ByteBits;
    if t == [] {
      assert s + t == s;
    } else {
      var n := |t| - 1;
      assert (s + t)[..|s| + n] == s + t[..n];
      BitsAppend(s, t[..n]);
    }
  }

  lemma EightBits(d: bv8, hi: seq<bool>, lo: seq<bool>)
    requires hi == [Has(d, 0x80), Has(d, 0x40), Has(d, 0x20), Has(d, 0x10)]
    requires lo == [Has(d, 0x08), Has(d, 0x04), Has(d, 0x02), Has(d, 0x01)]
    ensures ByteBits(d) == hi + lo
  {
    hide Has;
  }

  /** The leading eight bits of a word are the bits of its top byte. */
  lemma TopBitsOfWord(w: bv32)
    ensures TopBits(w, 8) == ByteBits(TopByte(w))
  {
    hide Double, Top, Has, TopByte, TopBits, Shift, ByteBits;
    var a := Double(w);
    var b := Double(a);
    var c := Double(b);
    var d := Double(c);
    var e := Double(d);
    var f := Double(e);
    var g := Double(f);
    TopFour(w, a, b, c, d);
    TopFour(d, e, f, g, Double(g));
    TopBitsAppend(w, 4, 4);
    TopOfDoubles(w, a, b, c, d, e, f, g);
    EightBits(TopByte(w), TopBits(w, 4), TopBits(d, 4));
  }

  lemma TopFour(w: bv32, a: bv32, b: bv32, c: bv32, d: bv32)
    requires a == Double(w) && b == Double(a) && c == Double(b) && d == Double(c)
    ensures TopBits(w, 4) == [Top(w), Top(a), Top(b), Top(c)]
    ensures Shift(w, 4) == d
  {
    hide Double, Top;
    assert TopBits(w, 4) == [Top(w)] + TopBits(a, 3);
    assert TopBits(a, 3) == [Top(a)] + TopBits(b, 2);
    assert TopBits(b, 2) == [Top(b)] + TopBits(c, 1);
    assert Shift(w, 4) == Shift(a, 3) == Shift(b, 2);
    assert Shift(b, 2) == Shift(c, 1) == Shift(d, 0);
  }

  lemma TopOfDoubles(w: bv32, a: bv32, b: bv32, c: bv32, d: bv32, e: bv32, f: bv32, g: bv32)
    requires a == Double(w) && b == Double(a) && c == Double(b) && d == Double(c)
    requires e == Double(d) && f == Double(e) && g == Double(f)
    ensures Top(w) == Has(TopByte(w), 0x80) && Top(a) == Has(TopByte(w), 0x40)
    ensures Top(b) == Has(TopByte(w), 0x20) && Top(c) == Has(TopByte(w), 0x10)
    ensures Top(d) == Has(TopByte(w), 0x08) && Top(e) == Has(TopByte(w), 0x04)
    ensures Top(f) == Has(TopByte(w), 0x02) && Top(g) == Has(TopByte(w), 0x01)
  {}

  /** Eight clocks with zero input. */
  function Clear8(r: bv32): bv32 { Run(r, Zeros(8)) }

  function Twice(r: bv32): bv32 { Step(Step(r, false), false) }

  lemma Clear8IsEightSteps(r: bv32)
    ensures Clear8(r) == Twice(Twice(Twice(Twice(r))))
  {
    hide Step;
    RunTwice(r, 6);
    RunTwice(Twice(r), 4);
    RunTwice(Twice(Twice(r)), 2);
    RunTwice(Twice(Twice(Twice(r))), 0);
  }

  lemma RunTwice(r: bv32, n: nat)
    ensures Run(r, Zeros(n + 2)) == Run(Twice(r), Zeros(n))
  {
    hide Step;
    assert Zeros(n + 2)[1..] == Zeros(n + 1);
    assert Zeros(n + 1)[1..] == Zeros(n);
  }

  lemma Clear8Linear(a: bv32, b: bv32)
    ensures Clear8(Add(a, b)) == Add(Clear8(a), Clear8(b))
  {
    hide Run, Add;
    RunLinear(a, Zeros(8), b, Zeros(8));
    assert Xor(Zeros(8), Zeros(8)) == Zeros(8);
  }

  lemma StepTable()
    ensures Step(0x0100_0000, false) == 0x0200_0000
    ensures Step(0x0200_0000, false) == 0x0400_0000
    ensures Step(0x0400_0000, false) == 0x0800_0000
    ensures Step(0x0800_0000, false) == 0x1000_0000
    ensures Step(0x1000_0000, false) == 0x2000_0000
    ensures Step(0x2000_0000, false) == 0x4000_0000
    ensures Step(0x4000_0000, false) == 0x8000_0000
    ensures Step(0x8000_0000, false) == 0x04c1_1db7
    ensures Step(0x04c1_1db7, false) == 0x0982_3b6e
    ensures Step(0x0982_3b6e, false) == 0x1304_76dc
    ensures Step(0x1304_76dc, false) == 0x2608_edb8
    ensures Step(0x2608_edb8, false) == 0x4c11_db70
    ensures Step(0x4c11_db70, false) == 0x9823_b6e0
    ensures Step(0x9823_b6e0, false) == 0x3486_7077
    ensures Step(0x3486_7077, false) == 0x690c_e0ee
  {}

  /** The eight constants of the program are the remainders of the eight bits of a byte. */
  lemma Remainders()
    ensures Clear8(0x0100_0000) == 0x04c1_1db7
    ensures Clear8(0x0200_0000) == 0x0982_3b6e
    ensures Clear8(0x0400_0000) == 0x1304_76dc
    ensures Clear8(0x0800_0000) == 0x2608_edb8
    ensures Clear8(0x1000_0000) == 0x4c11_db70
    ensures Clear8(0x2000_0000) == 0x9823_b6e0
    ensures Clear8(0x4000_0000) == 0x3486_7077
    ensures Clear8(0x8000_0000) == 0x690c_e0ee
  {
    hide Step, Clear8;
    StepTable();
    Clear8IsEightSteps(0x0100_0000);
    Clear8IsEightSteps(0x0200_0000);
    Clear8IsEightSteps(0x0400_0000);
    Clear8IsEightSteps(0x0800_0000);
    Clear8IsEightSteps(0x1000_0000);
    Clear8IsEightSteps(0x2000_0000);
    Clear8IsEightSteps(0x4000_0000);
    Clear8IsEightSteps(0x8000_0000);
  }

  function Without(r: bv32, m: bv32): bv32 { r & !m }

  /** Taking one input bit out of the register takes its remainder out of the result. */
  lemma Peel(r: bv32, rest: bv32, m: bv32, on: bool, v: bv32)
    requires r == if on then Add(rest, m) else rest
    requires Clear8(m) == v
    ensures Clear8(r) == XorIf(Clear8(rest), on, v)
  {
    hide Clear8, Add;
    if on {
      Clear8Linear(rest, m);
    }
  }

  function Low(r: bv32, mask: bv32): bv32 { r & mask }

  predicate AllOrNothing(r: bv32, m: bv32) { r & m == 0 || r & m == m }

  lemma LowIsAllOrNothing(r: bv32, m: bv32)
    requires AllOrNothing(r, m)
    ensures Low(r, m) == 0 || Low(r, m) == m
  {}

  lemma LowOfSum(r: bv32, small: bv32, m: bv32)
    ensures Low(r, small ^ m) == Add(Low(r, small), Low(r, m))
  {}

  lemma MeetsLow(r: bv32, m: bv32)
    ensures Meet(r, m) <==> Low(r, m) != 0
  {}

  /** A mask with one more bit keeps that bit too. */
  lemma SplitBit(r: bv32, small: bv32, m: bv32)
    requires AllOrNothing(r, m) && m != 0
    ensures Low(r, small ^ m) == if Meet(r, m) then Add(Low(r, small), m) else Low(r, small)
  {
    hide Low, Add, Meet, AllOrNothing;
    LowIsAllOrNothing(r, m);
    LowOfSum(r, small, m);
    MeetsLow(r, m);
    AddZero(Low(r, small));
  }

  lemma OneBit(r: bv32)
    ensures AllOrNothing(r, 0x0100_0000)
    ensures AllOrNothing(r, 0x0200_0000)
    ensures AllOrNothing(r, 0x0400_0000)
    ensures AllOrNothing(r, 0x0800_0000)
    ensures AllOrNothing(r, 0x1000_0000)
    ensures AllOrNothing(r, 0x2000_0000)
    ensures AllOrNothing(r, 0x4000_0000)
    ensures AllOrNothing(r, 0x8000_0000)
  {}

  lemma BitOfTopByte(r: bv32)
    ensures Meet(r, 0x0100_0000) == Has(TopByte(r), 0x01)
    ensures Meet(r, 0x0200_0000) == Has(TopByte(r), 0x02)
    ensures Meet(r, 0x0400_0000) == Has(TopByte(r), 0x04)
    ensures Meet(r, 0x0800_0000) == Has(TopByte(r), 0x08)
    ensures Meet(r, 0x1000_0000) == Has(TopByte(r), 0x10)
    ensures Meet(r, 0x2000_0000) == Has(TopByte(r), 0x20)
    ensures Meet(r, 0x4000_0000) == Has(TopByte(r), 0x40)
    ensures Meet(r, 0x8000_0000) == Has(TopByte(r), 0x80)
  {}

  lemma LowAll(r: bv32)
    ensures Low(r, 0xffff_ffff) == r
  {}

  lemma SplitLow(r: bv32)
    ensures Low(r, 0xffff_ffff) == r
    ensures Low(r, 0x01ff_ffff) ==
              if Has(TopByte(r), 0x01) then Add(Low(r, 0x00ff_ffff), 0x0100_0000) else Low(r, 0x00ff_ffff)
    ensures Low(r, 0x03ff_ffff) ==
              if Has(TopByte(r), 0x02) then Add(Low(r, 0x01ff_ffff), 0x0200_0000) else Low(r, 0x01ff_ffff)
    ensures Low(r, 0x07ff_ffff) ==
              if Has(TopByte(r), 0x04) then Add(Low(r, 0x03ff_ffff), 0x0400_0000) else Low(r, 0x03ff_ffff)
    ensures Low(r, 0x0fff_ffff) ==
              if Has(TopByte(r), 0x08) then Add(Low(r, 0x07ff_ffff), 0x0800_0000) else Low(r, 0x07ff_ffff)
    ensures Low(r, 0x1fff_ffff) ==
              if Has(TopByte(r), 0x10) then Add(Low(r, 0x0fff_ffff), 0x1000_0000) else Low(r, 0x0fff_ffff)
    ensures Low(r, 0x3fff_ffff) ==
              if Has(TopByte(r), 0x20) then Add(Low(r, 0x1fff_ffff), 0x2000_0000) else Low(r, 0x1fff_ffff)
    ensures Low(r, 0x7fff_ffff) ==
              if Has(TopByte(r), 0x40) then Add(Low(r, 0x3fff_ffff), 0x4000_0000) else Low(r, 0x3fff_ffff)
    ensures Low(r, 0xffff_ffff) ==
              if Has(TopByte(r), 0x80) then Add(Low(r, 0x7fff_ffff), 0x8000_0000) else Low(r, 0x7fff_ffff)
  {
    hide Has, TopByte, Add, Meet, Low, AllOrNothing;
    LowAll(r);
    OneBit(r);
    BitOfTopByte(r);
    SplitBit(r, 0x00ff_ffff, 0x0100_0000);
    SplitBit(r, 0x01ff_ffff, 0x0200_0000);
    SplitBit(r, 0x03ff_ffff, 0x0400_0000);
    SplitBit(r, 0x07ff_ffff, 0x0800_0000);
    SplitBit(r, 0x0fff_ffff, 0x1000_0000);
    SplitBit(r, 0x1fff_ffff, 0x2000_0000);
    SplitBit(r, 0x3fff_ffff, 0x4000_0000);
    SplitBit(r, 0x7fff_ffff, 0x8000_0000);
  }

  function Quadruple(a: bv32): bv32 { a << 2 }

  lemma TwiceOfSmall(a: bv32)
    requires Low(a, 0xc000_0000) == 0
    ensures Twice(a) == Quadruple(a)
  {}

  lemma SmallQuadruple(a: bv32, b: bv32)
    requires Low(a, b) == 0
    ensures Low(Quadruple(a), b << 2) == 0
  {
    assert (a << 2) & (b << 2) == (a & b) << 2;
  }

  lemma SmallMask(a: bv32, b: bv32)
    requires Low(a, b) == 0 && b & 0xc000_0000 == 0xc000_0000
    ensures Low(a, 0xc000_0000) == 0
  {
    assert (a & b) & 0xc000_0000 == a & (b & 0xc000_0000);
  }

  lemma FourQuadruples(r: bv32)
    ensures Low(Low(r, 0x00ff_ffff), 0xff00_0000) == 0
    ensures Quadruple(Quadruple(Quadruple(Quadruple(Low(r, 0x00ff_ffff))))) == DropByte(r)
  {}

  lemma Clear8OfSmall(r: bv32)
    ensures Clear8(Low(r, 0x00ff_ffff)) == DropByte(r)
  {
    hide Clear8, Twice, Quadruple, Low, DropByte;
    var a := Low(r, 0x00ff_ffff);
    Clear8IsEightSteps(a);
    var b := Quadruple(a);
    var c := Quadruple(b);
    var d := Quadruple(c);
    FourQuadruples(r);
    SmallQuadruple(a, 0xff00_0000);
    SmallQuadruple(b, 0xfc00_0000);
    SmallQuadruple(c, 0xf000_0000);
    SmallMask(a, 0xff00_0000);
    SmallMask(b, 0xfc00_0000);
    SmallMask(c, 0xf000_0000);
    TwiceOfSmall(a);
    TwiceOfSmall(b);
    TwiceOfSmall(c);
    TwiceOfSmall(d);
  }

  lemma Clear8LowHalf(r: bv32)
    ensures Clear8(Low(r, 0x0fff_ffff)) == LowAdditions(DropByte(r), TopByte(r))
  {
    hide Clear8, Low, Has, Add, DropByte, TopByte, XorIf;
    var x := TopByte(r);
    Remainders();
    SplitLow(r);
    Clear8OfSmall(r);
    Peel(Low(r, 0x01ff_ffff), Low(r, 0x00ff_ffff), 0x0100_0000, Has(x, 0x01), 0x04c1_1db7);
    Peel(Low(r, 0x03ff_ffff), Low(r, 0x01ff_ffff), 0x0200_0000, Has(x, 0x02), 0x0982_3b6e);
    Peel(Low(r, 0x07ff_ffff), Low(r, 0x03ff_ffff), 0x0400_0000, Has(x, 0x04), 0x1304_76dc);
    Peel(Low(r, 0x0fff_ffff), Low(r, 0x07ff_ffff), 0x0800_0000, Has(x, 0x08), 0x2608_edb8);
  }

  lemma Clear8HighHalf(r: bv32)
    ensures Clear8(r) == HighAdditions(Clear8(Low(r, 0x0fff_ffff)), TopByte(r))
  {
    hide Clear8, Low, Has, Add, TopByte, XorIf;
    var x := TopByte(r);
    Remainders();
    SplitLow(r);
    Peel(Low(r, 0x1fff_ffff), Low(r, 0x0fff_ffff), 0x1000_0000, Has(x, 0x10), 0x4c11_db70);
    Peel(Low(r, 0x3fff_ffff), Low(r, 0x1fff_ffff), 0x2000_0000, Has(x, 0x20), 0x9823_b6e0);
    Peel(Low(r, 0x7fff_ffff), Low(r, 0x3fff_ffff), 0x4000_0000, Has(x, 0x40), 0x3486_7077);
    Peel(Low(r, 0xffff_ffff), Low(r, 0x7fff_ffff), 0x8000_0000, Has(x, 0x80), 0x690c_e0ee);
  }

  /** Eight clocks with zero input are the eight conditional additions. */
  lemma Clear8IsAdditions(r: bv32)
    ensures Clear8(r) == Additions(DropByte(r), TopByte(r))
  {
    hide Clear8, Low, DropByte, TopByte, LowAdditions, HighAdditions;
    Clear8LowHalf(r);
    Clear8HighHalf(r);
  }

  /** The byte in the top eight bits of a word. */
  function Place(d: bv8): bv32 { (d as bv32) << 24 }

  lemma PlaceShape(c: bv32, d: bv8)
    ensures TopByte(Place(d)) == d
    ensures Place(d) << 8 == 0
    ensures TopByte(Add(c, Place(d))) == Mix(c, d)
    ensures DropByte(Add(c, Place(d))) == DropByte(c)
  {}

  /** The program's byte step is eight clocks of the division register, fed the byte most significant bit first. */
  lemma ByteStepIsDivision(c: bv32, d: bv8)
    ensures ByteStep(c, d) == Run(c, ByteBits(d))
  {
    hide Run, ByteBits, Additions, Place, Add, DropByte, TopByte, Mix, Shift;
    PlaceShape(c, d);
    TopBitsOfWord(Place(d));
    Absorb(c, Place(d), 8);
    ShiftBy8(Place(d));
    AddZero(Run(Add(c, Place(d)), Zeros(8)));
    Clear8IsAdditions(Add(c, Place(d)));
  }

  /** The checksum of a byte string is the remainder of the bitwise division of its bits. */
  lemma {:induction false} CrcIsDivision(r: bv32, s: seq<u8>)
    ensures Register(r, s) == Run(r, Bits(s))
  {
    hide ByteStep, ByteBits, Octet;
    if s != [] {
      var n := |s| - 1;
      CrcIsDivision(r, s[..n]);
      RunAppend(r, Bits(s[..n]), ByteBits(Octet(s[n])));
      ByteStepIsDivision(Register(r, s[..n]), Octet(s[n]));
    }
  }

  // ---------- The check of a section ----------

  /** The stored checksum agrees with the computed one. */
  predicate CrcOk(s: seq<u8>) {
    |s| >= 4 && BE32(s[|s| - 4..]) == Crc(s[..|s| - 4])
  }

  lemma {:induction false} RegisterAppend(r: bv32, s: seq<u8>, t: seq<u8>)
    ensures Register(r, s + t) == Register(Register(r, s), t)
  {
    CrcIsDivision(r, s + t);
    CrcIsDivision(r, s);
    CrcIsDivision(Register(r, s), t);
    BitsAppend(s, t);
    RunAppend(r, Bits(s), Bits(t));
  }

  lemma BitsOfFour(a: u8, b: u8, c: u8, d: u8)
    ensures Bits([a, b, c, d]) == ByteBits(Octet(a)) + ByteBits(Octet(b)) + ByteBits(Octet(c)) + ByteBits(Octet(d))
  {
    hide ByteBits, Octet;
    assert [a, b, c, d][..3] == [a, b, c];
    assert [a, b, c][..2] == [a, b];
    assert [a, b][..1] == [a];
    assert [a][..0] == [];
    assert Bits([a]) == ByteBits(Octet(a));
    assert Bits([a, b]) == Bits([a]) + ByteBits(Octet(b));
    assert Bits([a, b, c]) == Bits([a, b]) + ByteBits(Octet(c));
  }

  lemma BytesOfShifts(w: bv32)
    ensures TopByte(w) == Byte3(w) && TopByte(DropByte(w)) == Byte2(w)
    ensures TopByte(DropByte(DropByte(w))) == Byte1(w)
    ensures TopByte(DropByte(DropByte(DropByte(w)))) == Byte0(w)
  {}

  lemma BitsByByte(w: bv32, n: nat)
    requires n >= 8
    ensures TopBits(w, n) == ByteBits(TopByte(w)) + TopBits(DropByte(w), n - 8)
  {
    hide TopBits, Shift, ByteBits, TopByte;
    ShiftBy8(w);
    TopBitsAppend(w, 8, n - 8);
    TopBitsOfWord(w);
  }

  /** The four bytes of a big-endian field, in transmission order, are the bits of the word. */
  lemma BitsOfField(s: seq<u8>)
    requires |s| == 4
    ensures Bits(s) == TopBits(BE32(s), 32)
  {
    hide ByteBits, Octet, TopBits, Word, Byte3, Byte2, Byte1, Byte0, TopByte, DropByte;
    var w := BE32(s);
    assert s == [s[0], s[1], s[2], s[3]];
    BitsOfFour(s[0], s[1], s[2], s[3]);
    WordBytes(Octet(s[0]), Octet(s[1]), Octet(s[2]), Octet(s[3]));
    BytesOfShifts(w);
    BitsByByte(w, 32);
    BitsByByte(DropByte(w), 24);
    BitsByByte(DropByte(DropByte(w)), 16);
    BitsByByte(DropByte(DropByte(DropByte(w))), 8);
    assert TopBits(DropByte(DropByte(DropByte(DropByte(w)))), 0) == [];
  }

  /** The stored checksum matches exactly when the register over the whole section is empty. */
  lemma CrcOkMeansEmptyRegister(s: seq<u8>)
    requires |s| >= 4
    ensures CrcOk(s) <==> Crc(s) == 0
  {
    hide ByteStep, ByteBits, Octet, BE32, TopBits;
    var n := |s| - 4;
    assert s == s[..n] + s[n..];
    RegisterAppend(ALL_ONES, s[..n], s[n..]);
    CrcIsDivision(Crc(s[..n]), s[n..]);
    BitsOfField(s[n..]);
    OwnBitsEmptyTheRegister(Crc(s[..n]), BE32(s[n..]));
  }

  /** Appending the checksum makes a section that passes. */
  function Sealed(body: seq<u8>): (s: seq<u8>)
    ensures |s| == |body| + 4
    ensures CrcOk(s) && s[..|body|] == body
  {
    BE32RoundTrip(Crc(body));
    var s := body + BE32Bytes(Crc(body));
    assert s[|body|..] == BE32Bytes(Crc(body));
    s
  }

  /**
   Any change to a section of the same length confined to 32 consecutive bits,
   in the body, in the stored checksum or across both, is rejected.
   */
  lemma BurstIsRejected(s: seq<u8>, t: seq<u8>, start: nat)
    requires |t| == |s| && s != t
    requires DifferWithin32(Bits(s), Bits(t), start)
    requires CrcOk(s)
    ensures !CrcOk(t)
  {
    hide Run, Bits, Register;
    if CrcOk(t) {
      CrcOkMeansEmptyRegister(s);
      CrcOkMeansEmptyRegister(t);
      CrcIsDivision(ALL_ONES, s);
      CrcIsDivision(ALL_ONES, t);
      BurstChangesRegister(ALL_ONES, Bits(s), Bits(t), start);
      BitsInjective(s, t);
    }
  }
}
