/**
 The bit-serial division register that both checksums of the program rest on:
 Annex A of ISO/IEC 13818-1, polynomial 0x04c11db7, most significant bit first.

 Everything here is about single bits and sequences of bits. What the register
 can and cannot tell apart is proved here once; the byte-at-a-time algorithms
 of the program are shown equal to it elsewhere. The operations on words are
 named so that the proofs about runs can hide them.
 */
module Gf2 {

  const POLY: bv32 := 0x04c1_1db7

  /** Addition over GF(2). */
  function Add(a: bv32, b: bv32): bv32 { a ^ b }

  function Double(a: bv32): bv32 { a << 1 }

  predicate Top(r: bv32) { r & 0x8000_0000 != 0 }

  function Feedback(on: bool): bv32 { if on then POLY else 0 }

  /** One clock of the register with input bit `b`. */
  function Step(r: bv32, b: bool): bv32 {
    Add(Double(r), Feedback(Top(r) != b))
  }

  function Run(r: bv32, bits: seq<bool>): bv32
    decreases |bits|
  {
    if bits == [] then r else Run(Step(r, bits[0]), bits[1..])
  }

  function Zeros(n: nat): (bits: seq<bool>)
    ensures |bits| == n
    ensures forall i | 0 <= i < n :: !bits[i]
  {
    seq(n, i => false)
  }

  function Xor(xs: seq<bool>, ys: seq<bool>): (zs: seq<bool>)
    requires |xs| == |ys|
    ensures |zs| == |xs|
    ensures forall i | 0 <= i < |xs| :: zs[i] == (xs[i] != ys[i])
  {
    seq(|xs|, i requires 0 <= i < |xs| => xs[i] != ys[i])
  }

  // ---------- Words: facts about 32-bit values only ----------

  lemma AddAssoc(a: bv32, b: bv32, c: bv32)
    ensures Add(Add(a, b), c) == Add(a, Add(b, c))
  {}

  lemma AddComm(a: bv32, b: bv32)
    ensures Add(a, b) == Add(b, a)
  {}

  lemma AddZero(a: bv32)
    ensures Add(a, 0) == a && Add(0, a) == a && Add(a, a) == 0
  {}

  lemma AddIsZero(a: bv32, b: bv32)
    requires Add(a, b) == 0
    ensures a == b
  {}

  lemma AddCancel(a: bv32, b: bv32, c: bv32)
    requires Add(a, c) == Add(b, c)
    ensures a == b
  {}

  lemma AddExchange(a: bv32, b: bv32, c: bv32, d: bv32)
    ensures Add(Add(a, b), Add(c, d)) == Add(Add(a, c), Add(b, d))
  {
    hide Add;
    AddAssoc(a, b, Add(c, d));
    AddAssoc(b, c, d);
    AddComm(b, c);
    AddAssoc(c, b, d);
    AddAssoc(a, c, Add(b, d));
  }

  lemma DoubleAdd(a: bv32, b: bv32)
    ensures Double(Add(a, b)) == Add(Double(a), Double(b))
  {}

  lemma FeedbackAdd(x: bool, y: bool)
    ensures Feedback(x != y) == Add(Feedback(x), Feedback(y))
  {}

  lemma TopMask(a: bv32)
    ensures a & 0x8000_0000 == if Top(a) then 0x8000_0000 else 0
  {}

  lemma TopAdd(a: bv32, b: bv32)
    ensures Top(Add(a, b)) == (Top(a) != Top(b))
  {
    TopMask(a);
    TopMask(b);
    assert Add(a, b) & 0x8000_0000 == (a & 0x8000_0000) ^ (b & 0x8000_0000);
  }

  lemma DoubleAndTopDetermine(a: bv32, b: bv32)
    requires Double(a) == Double(b) && a & 0x8000_0000 == b & 0x8000_0000
    ensures a == b
  {}

  // ---------- One step ----------

  lemma StepLinear(a: bv32, x: bool, b: bv32, y: bool)
    ensures Step(Add(a, b), x != y) == Add(Step(a, x), Step(b, y))
  {
    hide Add, Double, Top, Feedback;
    DoubleAdd(a, b);
    TopAdd(a, b);
    FeedbackAdd(Top(a) != x, Top(b) != y);
    AddExchange(Double(a), Feedback(Top(a) != x), Double(b), Feedback(Top(b) != y));
    assert (Top(Add(a, b)) != (x != y)) == ((Top(a) != x) != (Top(b) != y));
  }

  lemma LowBit(a: bv32, on: bool)
    ensures Add(Double(a), Feedback(on)) & 1 == if on then 1 else 0
  {}

  /** The feedback bit is visible in the low bit of the next state. */
  lemma StepLowBit(r: bv32, b: bool)
    ensures (Step(r, b) & 1 == 0) == (Top(r) == b)
  {
    hide Add, Double, Top, Feedback;
    LowBit(r, Top(r) != b);
  }

  lemma StepInjective(a: bv32, b: bv32, x: bool)
    requires Step(a, x) == Step(b, x)
    ensures a == b
  {
    hide Add, Double, Top, Feedback;
    StepLowBit(a, x);
    StepLowBit(b, x);
    assert Top(a) == Top(b);
    AddCancel(Double(a), Double(b), Feedback(Top(a) != x));
    TopMask(a);
    TopMask(b);
    DoubleAndTopDetermine(a, b);
  }

  // ---------- Runs ----------

  lemma {:induction false} RunAppend(r: bv32, xs: seq<bool>, ys: seq<bool>)
    ensures Run(r, xs + ys) == Run(Run(r, xs), ys)
    decreases |xs|
  {
    hide Step;
    if xs == [] {
      assert xs + ys == ys;
    } else {
      assert (xs + ys)[1..] == xs[1..] + ys;
      RunAppend(Step(r, xs[0]), xs[1..], ys);
    }
  }

  /** The register is linear over GF(2) in its start value and its input together. */
  lemma {:induction false} RunLinear(a: bv32, xs: seq<bool>, b: bv32, ys: seq<bool>)
    requires |xs| == |ys|
    ensures Run(Add(a, b), Xor(xs, ys)) == Add(Run(a, xs), Run(b, ys))
    decreases |xs|
  {
    hide Step, Add;
    if xs != [] {
      StepLinear(a, xs[0], b, ys[0]);
      assert Xor(xs, ys)[1..] == Xor(xs[1..], ys[1..]);
      RunLinear(Step(a, xs[0]), xs[1..], Step(b, ys[0]), ys[1..]);
    }
  }

  /** For a fixed input, different start values stay different. */
  lemma {:induction false} RunInjective(a: bv32, b: bv32, bits: seq<bool>)
    requires Run(a, bits) == Run(b, bits)
    ensures a == b
    decreases |bits|
  {
    hide Step;
    if bits != [] {
      RunInjective(Step(a, bits[0]), Step(b, bits[0]), bits[1..]);
      StepInjective(a, b, bits[0]);
    }
  }

  lemma StepZero()
    ensures Step(0, false) == 0
  {}

  lemma {:induction false} RunZeros(bits: seq<bool>)
    requires forall i | 0 <= i < |bits| :: !bits[i]
    ensures Run(0, bits) == 0
    decreases |bits|
  {
    hide Step;
    if bits != [] {
      StepZero();
      RunZeros(bits[1..]);
    }
  }

  // ---------- 32 input bits inject into the register ----------

  function Half(a: bv32): bv32 { a >> 1 }

  function And(a: bv32, b: bv32): bv32 { a & b }

  predicate Meet(a: bv32, b: bv32) { And(a, b) != 0 }

  predicate Odd(a: bv32) { a & 1 != 0 }

  /** The low 32 - j bits set. */
  function LowOnes(j: nat): bv32 {
    if j == 0 then 0xffff_ffff else Half(LowOnes(j - 1))
  }

  predicate Ones(h: bv32) { h & (h + 1) == 0 }

  lemma HalfOnes(h: bv32)
    requires Ones(h)
    ensures Ones(Half(h))
    ensures h != 0 ==> Odd(h)
    ensures Half(h) != 0 ==> h != 0
  {}

  lemma {:induction false} LowOnesShape(j: nat)
    ensures Ones(LowOnes(j))
  {
    hide Ones, Half;
    if j > 0 {
      LowOnesShape(j - 1);
      HalfOnes(LowOnes(j - 1));
    } else {
      assert Ones(0xffff_ffff) by { OnesAtStart(); }
    }
  }

  lemma OnesAtStart()
    ensures Ones(0xffff_ffff)
  {}

  lemma HalfFourTimes(a: bv32)
    ensures Half(Half(Half(Half(a)))) == a >> 4
  {}

  lemma LowOnesBy4(j: nat)
    ensures LowOnes(j + 4) == LowOnes(j) >> 4
  {
    hide Half;
    HalfFourTimes(LowOnes(j));
    assert LowOnes(j + 1) == Half(LowOnes(j));
    assert LowOnes(j + 2) == Half(LowOnes(j + 1));
    assert LowOnes(j + 3) == Half(LowOnes(j + 2));
    assert LowOnes(j + 4) == Half(LowOnes(j + 3));
  }

  lemma LowOnesLast()
    ensures LowOnes(31) != 0
  {
    LowOnesBy4(0); LowOnesBy4(4); LowOnesBy4(8); LowOnesBy4(12);
    LowOnesBy4(16); LowOnesBy4(20); LowOnesBy4(24);
    assert LowOnes(28) == 0xf;
    assert LowOnes(29) == 0x7;
    assert LowOnes(30) == 0x3;
  }

  lemma {:induction false} LowOnesOdd(j: nat)
    requires j <= 31
    ensures LowOnes(j) != 0 && Odd(LowOnes(j))
    decreases 31 - j
  {
    hide Half, Ones, Odd;
    LowOnesShape(j);
    HalfOnes(LowOnes(j));
    if j == 31 {
      LowOnesLast();
    } else {
      LowOnesOdd(j + 1);
    }
  }

  lemma AndHalf(s: bv32, h: bv32)
    ensures !Top(And(s, Half(h)))
    ensures Double(And(s, Half(h))) == And(And(Double(s), h), Double(Half(h)))
  {}

  lemma DoubleIsZero(x: bv32)
    requires !Top(x) && Double(x) == 0
    ensures x == 0
  {}

  lemma AndZero(x: bv32)
    ensures And(0, x) == 0
  {}

  lemma DoubleUnderMask(s: bv32, h: bv32)
    requires !Meet(Double(s), h)
    ensures !Meet(s, Half(h))
  {
    hide And, Double, Half, Top;
    AndHalf(s, h);
    AndZero(Double(Half(h)));
    DoubleIsZero(And(s, Half(h)));
  }

  lemma OddMask(s: bv32, h: bv32)
    requires !Meet(s, h) && Odd(h)
    ensures s & 1 == 0
  {}

  lemma ZeroMeetsNothing(h: bv32)
    ensures !Meet(0, h) && !Top(0)
  {}

  /**
   No more than 32 input bits can be fed into the zero register and leave no trace:
   a register whose low 32 - j bits are clear after `bits` saw only zero bits.
   */
  lemma {:induction false} ShortInputLeavesTrace(bits: seq<bool>, j: nat)
    requires |bits| + j <= 32
    requires !Meet(Run(0, bits), LowOnes(j))
    ensures forall i | 0 <= i < |bits| :: !bits[i]
    decreases |bits|
  {
    hide Step, Meet, Half, Odd, Top;
    if bits != [] {
      var n := |bits| - 1;
      var q, b := Run(0, bits[..n]), bits[n];
      assert bits == bits[..n] + [b];
      RunAppend(0, bits[..n], [b]);
      assert Run(q, [b]) == Step(q, b);
      LowOnesOdd(j);
      OddMask(Step(q, b), LowOnes(j));
      StepWithoutFeedback(q, b);
      DoubleUnderMask(q, LowOnes(j));
      ShortInputLeavesTrace(bits[..n], j + 1);
      RunZeros(bits[..n]);
      ZeroMeetsNothing(0);
    }
  }

  lemma StepWithoutFeedback(q: bv32, b: bool)
    requires Step(q, b) & 1 == 0
    ensures Top(q) == b && Step(q, b) == Double(q)
  {
    hide Double, Top;
    StepLowBit(q, b);
    AddZero(Double(q));
  }

  // ---------- Error bursts ----------

  /** Two bit strings that differ at most inside the 32 positions from `start`. */
  ghost predicate DifferWithin32(xs: seq<bool>, ys: seq<bool>, start: nat) {
    |xs| == |ys| &&
    forall k | 0 <= k < |xs| && !(start <= k < start + 32) :: xs[k] == ys[k]
  }

  lemma EmptyTraceMeansEmptyInput(a: seq<bool>, e: seq<bool>, z: seq<bool>)
    requires forall i | 0 <= i < |a| :: !a[i]
    requires forall i | 0 <= i < |z| :: !z[i]
    requires |e| <= 32
    requires Run(0, a + (e + z)) == 0
    ensures forall i | 0 <= i < |e| :: !e[i]
  {
    hide Run, Meet, LowOnes;
    RunAppend(0, a, e + z);
    RunZeros(a);
    RunAppend(0, e, z);
    RunZeros(z);
    RunInjective(Run(0, e), 0, z);
    ZeroMeetsNothing(LowOnes(0));
    ShortInputLeavesTrace(e, 0);
  }

  /** From any start value, two different inputs that agree outside 32 consecutive bits end in different registers. */
  lemma BurstChangesRegister(r: bv32, xs: seq<bool>, ys: seq<bool>, start: nat)
    requires DifferWithin32(xs, ys, start)
    requires Run(r, xs) == Run(r, ys)
    ensures xs == ys
  {
    hide Run, Add;
    var zs := Xor(xs, ys);
    var n := |xs|;
    RunLinear(r, xs, r, ys);
    AddZero(r);
    AddZero(Run(r, xs));
    var i := if start < n then start else n;
    var m := if start + 32 < n then start + 32 else n;
    var a, e, z := zs[..i], zs[i..m], zs[m..];
    assert zs == a + (e + z);
    EmptyTraceMeansEmptyInput(a, e, z);
    forall k | 0 <= k < n ensures xs[k] == ys[k] {
      if i <= k < m {
        assert zs[k] == e[k - i];
      }
    }
  }

  // ---------- Feeding a word, most significant bit first ----------

  function Shift(w: bv32, n: nat): bv32
    decreases n
  {
    if n == 0 then w else Shift(Double(w), n - 1)
  }

  function TopBits(w: bv32, n: nat): (bits: seq<bool>)
    ensures |bits| == n
    decreases n
  {
    if n == 0 then [] else [Top(w)] + TopBits(Double(w), n - 1)
  }

  lemma {:induction false} TopBitsAppend(w: bv32, m: nat, n: nat)
    ensures TopBits(w, m + n) == TopBits(w, m) + TopBits(Shift(w, m), n)
    ensures Shift(w, m + n) == Shift(Shift(w, m), n)
    decreases m
  {
    hide Double, Top;
    if m > 0 {
      TopBitsAppend(Double(w), m - 1, n);
      assert TopBits(w, m + n) == [Top(w)] + TopBits(Double(w), m - 1 + n);
    } else {
      assert TopBits(w, 0) == [];
    }
  }

  lemma DoubleFourTimes(w: bv32)
    ensures Double(Double(Double(Double(w)))) == w << 4
  {}

  lemma ShiftBy4(w: bv32)
    ensures Shift(w, 4) == w << 4
  {
    hide Double;
    DoubleFourTimes(w);
    var a, b, c := Double(w), Double(Double(w)), Double(Double(Double(w)));
    assert Shift(w, 4) == Shift(a, 3) == Shift(b, 2);
    assert Shift(b, 2) == Shift(c, 1) == Shift(Double(c), 0);
  }

  lemma ShiftBy8(w: bv32)
    ensures Shift(w, 8) == w << 8
  {
    hide Double, Shift;
    TopBitsAppend(w, 4, 4);
    ShiftBy4(w);
    ShiftBy4(w << 4);
    TwoShifts(w);
  }

  lemma TwoShifts(w: bv32)
    ensures w << 4 << 4 == w << 8
  {}

  /**
   Feeding the leading n bits of `w` into `r` is the same as clocking their sum
   with zero input, up to the bits of `w` not yet fed.
   */
  lemma {:induction false} Absorb(r: bv32, w: bv32, n: nat)
    ensures Run(r, TopBits(w, n)) == Add(Run(Add(r, w), Zeros(n)), Shift(w, n))
    decreases n
  {
    hide Step, Add, Double, Top;
    if n == 0 {
      AddAssoc(r, w, w);
      AddZero(w);
      AddZero(r);
    } else {
      StepOwnTop(w);
      StepLinear(r, Top(w), w, Top(w));
      assert TopBits(w, n)[1..] == TopBits(Double(w), n - 1);
      assert Zeros(n)[1..] == Zeros(n - 1);
      Absorb(Step(r, Top(w)), Double(w), n - 1);
    }
  }

  lemma StepOwnTop(w: bv32)
    ensures Step(w, Top(w)) == Double(w)
  {
    hide Double, Top;
    AddZero(Double(w));
  }

  /** A register fed its own 32 bits runs empty, and only those bits empty it. */
  lemma OwnBitsEmptyTheRegister(r: bv32, w: bv32)
    ensures Run(r, TopBits(w, 32)) == 0 <==> r == w
  {
    hide Step, Add, Double, Top;
    ShiftBy32(w);
    Absorb(r, w, 32);
    AddZero(Run(Add(r, w), Zeros(32)));
    RunZeros(Zeros(32));
    AddZero(w);
    if Run(r, TopBits(w, 32)) == 0 {
      RunInjective(Add(r, w), 0, Zeros(32));
      AddIsZero(r, w);
    }
  }

  lemma ShiftBy32(w: bv32)
    ensures Shift(w, 32) == 0
  {
    hide Double, Shift, TopBits;
    TopBitsAppend(w, 8, 24);
    ShiftBy8(w);
    var a := w << 8;
    TopBitsAppend(a, 8, 16);
    ShiftBy8(a);
    var b := a << 8;
    TopBitsAppend(b, 8, 8);
    ShiftBy8(b);
    ShiftBy8(b << 8);
    FourByteShifts(w);
  }

  lemma FourByteShifts(w: bv32)
    ensures w << 8 << 8 << 8 << 8 == 0
  {}
}
