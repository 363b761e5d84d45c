/**
 Antenna, channels and amplifiers of one tuner (tuner.cpp): the state kept by the program, the word
 it writes to the GPIO pins, and what stays true of them over every run of successful calls.
 */
module Tuner {
  import opened Bytes

  const NUM_CHANNELS := 2
  const TVCH_MIN := 2
  const TVCH_MAX := 51

  datatype Antenna = Nc | Ant1 | Ant2 | Coax

  datatype Amp = Off | Vhf1 | Vhf2 | Uhf1 | Uhf2 | External

  datatype Band = LowVhf | HighVhf | Uhf

  /** One of the two receivers; -1 is a channel never tuned. */
  datatype Channel = Channel(amp: Amp, tvch: int)

  /** What a receiver's tuner chip is told: the divider of its PLL, in 15 bits, and the byte that switches its bands. */
  datatype Setting = Setting(divider: nat, bandswitch: nat)

  /** `told` is what the two chips were last told. */
  datatype State = State(ant: Antenna, chs: seq<Channel>, told: seq<Setting>)

  // ---------- Frequencies ----------

  const LOW_VHF: seq<nat> := [57, 63, 69, 79, 85]

  const HIGH_VHF: seq<nat> := [177, 183, 189, 195, 201, 207, 213]

  const UHF: seq<nat> := [
    473, 479, 485, 491, 497, 503, 509, 515, 521, 527, 533, 539, 545, 551, 557, 563, 569, 575, 581, 587, 593,
    599, 605, 611, 617, 623, 629, 635, 641, 647, 653, 659, 665, 671, 677, 683, 689, 695]

  /** Frequencies in MHz of channels 2 to 51. */
  const CH_FREQ: seq<nat> := LOW_VHF + HIGH_VHF + UHF

  /** The frequency of a channel. */
  function TrueFreq(tvch: int): nat
    requires TVCH_MIN <= tvch <= TVCH_MAX
  {
    CH_FREQ[tvch - TVCH_MIN]
  }

  /**
   The frequency set_freq uses: the table is read at the channel number itself, two entries
   too far. For the last two channels that is whatever follows the table, `beyond`.
   */
  function FreqRead(tvch: int, beyond: int -> nat): nat
    requires TVCH_MIN <= tvch <= TVCH_MAX
  {
    if tvch < |CH_FREQ| then CH_FREQ[tvch] else beyond(tvch)
  }

  function BandOfFreq(freq: nat): Option<Band> {
    if freq < 158 then Some(LowVhf) else if freq < 452 then Some(HighVhf) else if freq < 862 then Some(Uhf) else None
  }

  function BandOf(tvch: int, beyond: int -> nat): Option<Band>
    requires TVCH_MIN <= tvch <= TVCH_MAX
  {
    BandOfFreq(FreqRead(tvch, beyond))
  }

  lemma UhfShape(i: nat)
    requires i < |UHF|
    ensures UHF[i] == 473 + 6 * i
  {}

  lemma HighVhfShape(i: nat)
    requires i < |HIGH_VHF|
    ensures HIGH_VHF[i] == 177 + 6 * i
  {}

  lemma LowVhfShape(i: nat)
    requires i < |LOW_VHF|
    ensures LOW_VHF[i] == if i < 3 then 57 + 6 * i else 79 + 6 * (i - 3)
  {}

  lemma TableSize()
    ensures |LOW_VHF| == 5 && |HIGH_VHF| == 7 && |UHF| == 38 && |CH_FREQ| == 50
  {}

  lemma TableShape(i: nat)
    requires i < |CH_FREQ|
    ensures i >= 12 ==> CH_FREQ[i] == 473 + 6 * (i - 12)
    ensures 5 <= i < 12 ==> CH_FREQ[i] == 177 + 6 * (i - 5)
    ensures i < 5 ==> CH_FREQ[i] == if i < 3 then 57 + 6 * i else 79 + 6 * (i - 3)
  {
    TableSize();
    hide LOW_VHF, HIGH_VHF, UHF;
    if i >= 12 {
      UhfShape(i - 12);
    } else if i >= 5 {
      HighVhfShape(i - 5);
    } else {
      LowVhfShape(i);
    }
  }

  /** The channel plan: three carriers 6 MHz apart, two more, seven from 177 MHz on, and the rest from 473 MHz on. */
  lemma ChannelPlan(tvch: int)
    requires 2 <= tvch <= 51
    ensures tvch <= 4 ==> TrueFreq(tvch) == 57 + 6 * (tvch - 2)
    ensures 5 <= tvch <= 6 ==> TrueFreq(tvch) == 79 + 6 * (tvch - 5)
    ensures 7 <= tvch <= 13 ==> TrueFreq(tvch) == 177 + 6 * (tvch - 7)
    ensures tvch >= 14 ==> TrueFreq(tvch) == 473 + 6 * (tvch - 14)
  {
    TableSize();
    hide CH_FREQ;
    TableShape(tvch - 2);
  }

  /** Up to channel 49 the band set is the channel's own exactly when the channel is not 5, 6, 12 or 13. */
  lemma BandIsRight(tvch: int, beyond: int -> nat)
    requires TVCH_MIN <= tvch <= 49
    ensures FreqRead(tvch, beyond) == TrueFreq(tvch + 2) > TrueFreq(tvch)
    ensures BandOf(tvch, beyond) == BandOfFreq(TrueFreq(tvch)) <==> tvch !in {5, 6, 12, 13}
  {
    TableSize();
    hide CH_FREQ;
    TableShape(tvch);
    TableShape(tvch - 2);
  }

  lemma FreqIsPositive(tvch: int)
    requires TVCH_MIN <= tvch <= TVCH_MAX
    ensures TrueFreq(tvch) > 0
  {}

  // ---------- What amplifier a channel needs ----------

  function TunedAmp(ant: Antenna, band: Band): Amp
    requires ant != Nc
  {
    match ant
    case Coax => External
    case Ant2 => if band == Uhf then Uhf2 else Vhf2
    case _ => if band == Uhf then Uhf1 else Vhf1
  }

  /**
   The amplifier does not tell the two VHF bands apart: on an antenna it is the channel's own exactly when the
   channel is not 12 or 13, and on the cable it always is.
   */
  lemma AmpIsRight(ant: Antenna, tvch: int, beyond: int -> nat)
    requires TVCH_MIN <= tvch <= 49 && ant != Nc
    ensures Tunable(tvch, beyond) && BandOfFreq(TrueFreq(tvch)).Some?
    ensures TunedAmp(ant, BandOf(tvch, beyond).value) == TunedAmp(ant, BandOfFreq(TrueFreq(tvch)).value)
            <==> ant == Coax || tvch !in {12, 13}
  {
    TableSize();
    hide CH_FREQ;
    TableShape(tvch);
    TableShape(tvch - 2);
  }

  /** The amplifier for a channel number from 2 to 49 under an antenna: channels from 12 on get the one for UHF. */
  predicate Serves(amp: Amp, ant: Antenna, tvch: int) {
    match ant
    case Nc => false
    case Ant1 => amp == if tvch < 12 then Vhf1 else Uhf1
    case Ant2 => amp == if tvch < 12 then Vhf2 else Uhf2
    case Coax => amp == External
  }

  lemma TunedServes(ant: Antenna, tvch: int, beyond: int -> nat)
    requires 2 <= tvch <= 49 && ant != Nc
    ensures Tunable(tvch, beyond) && Tuned(ant, tvch, beyond).tvch == tvch
    ensures Serves(Tuned(ant, tvch, beyond).amp, ant, tvch)
  {
    TableSize();
    hide CH_FREQ;
    TableShape(tvch);
  }

  // ---------- What the chip is told ----------

  function BandSwitch(band: Band): nat {
    match band
    case LowVhf => 1
    case HighVhf => 2
    case Uhf => 4
  }

  /** The PLL counts in 1/16 MHz and is set 44 MHz above the carrier. */
  function SettingOf(freq: nat, band: Band): Setting {
    Setting((16 * freq + 704) % 0x8000, BandSwitch(band))
  }

  function Wanted(tvch: int, beyond: int -> nat): Setting
    requires Tunable(tvch, beyond)
  {
    SettingOf(FreqRead(tvch, beyond), BandOf(tvch, beyond).value)
  }

  /** Up to channel 49 the divider loses nothing: it is that of the frequency read, and of no other below 2 GHz. */
  lemma DividerIsExact(tvch: int, beyond: int -> nat, freq: nat, band: Band)
    requires TVCH_MIN <= tvch <= 49 && freq < 2000
    ensures Tunable(tvch, beyond)
    ensures Wanted(tvch, beyond) == SettingOf(freq, band) <==>
            freq == TrueFreq(tvch + 2) && Some(band) == BandOfFreq(TrueFreq(tvch + 2))
  {
    TableSize();
    hide CH_FREQ;
    TableShape(tvch);
  }

  predicate Tunable(tvch: int, beyond: int -> nat) {
    TVCH_MIN <= tvch <= TVCH_MAX && BandOf(tvch, beyond).Some?
  }

  /** A channel tuned under an antenna. */
  function Tuned(ant: Antenna, tvch: int, beyond: int -> nat): Channel
    requires ant != Nc && Tunable(tvch, beyond)
  {
    Channel(TunedAmp(ant, BandOf(tvch, beyond).value), tvch)
  }

  /** Off, or as tuned under the antenna. */
  predicate ChannelOk(ant: Antenna, c: Channel, beyond: int -> nat) {
    c.amp == Off || (ant != Nc && Tunable(c.tvch, beyond) && c == Tuned(ant, c.tvch, beyond))
  }

  /** What the chip is told, by channel number: the divider of the channel two up, and the byte of that band. */
  lemma WantedByNumber(tvch: int, beyond: int -> nat)
    requires 2 <= tvch <= 49
    ensures Tunable(tvch, beyond)
    ensures Wanted(tvch, beyond).divider == 16 * (TrueFreq(tvch + 2) + 44)
    ensures Wanted(tvch, beyond).bandswitch == if tvch <= 4 then 1 else if tvch <= 11 then 2 else 4
  {
    TableSize();
    hide CH_FREQ;
    TableShape(tvch);
  }

  /** Channels 50 and 51 are tuned to whatever follows the table, if it is below 862. */
  lemma PastTheTable(ant: Antenna, tvch: int, beyond: int -> nat)
    requires 50 <= tvch <= 51 && ant != Nc
    ensures var freq := beyond(tvch);
            && (Tunable(tvch, beyond) <==> freq < 862)
            && (freq < 862 ==>
                  && Wanted(tvch, beyond).divider == 16 * (freq + 44) % 32768
                  && Wanted(tvch, beyond).bandswitch == (if freq < 158 then 1 else if freq < 452 then 2 else 4)
                  && Serves(Tuned(ant, tvch, beyond).amp, ant, if freq < 452 then 2 else 49))
  {
    TableSize();
    hide CH_FREQ;
  }

  /** The chip of a receiver that is on was last told what its channel needs. */
  predicate ChipOk(c: Channel, told: Setting, beyond: int -> nat) {
    c.amp == Off || (Tunable(c.tvch, beyond) && told == Wanted(c.tvch, beyond))
  }

  predicate Consistent(s: State, beyond: int -> nat) {
    && |s.chs| == NUM_CHANNELS && |s.told| == NUM_CHANNELS
    && (forall c | c in s.chs :: ChannelOk(s.ant, c, beyond))
    && forall ch | 0 <= ch < NUM_CHANNELS :: ChipOk(s.chs[ch], s.told[ch], beyond)
  }

  // ---------- The word on the GPIO pins ----------

  function Code(a: Amp): bv16 {
    match a
    case Off => 0
    case Vhf1 => 1
    case Vhf2 => 2
    case Uhf1 => 3
    case Uhf2 => 4
    case External => 5
  }

  function Filter0(a: Amp): bv16 {
    match a
    case Off => 4
    case Vhf1 => 3
    case Vhf2 => 1
    case Uhf1 => 5
    case Uhf2 => 2
    case External => 0
  }

  function Filter1(a: Amp): bv16 {
    match a
    case Off => 0
    case Vhf1 => 3
    case Vhf2 => 1
    case Uhf1 => 4
    case Uhf2 => 2
    case External => 5
  }

  function Kept(w: bv16): bv16 { w & 0x80f0 }

  function GpioWord(kept: bv16, c0: bv16, c1: bv16, f0: bv16, f1: bv16): bv16 {
    kept | c0 | c1 | (f0 << 8) | (f1 << 11)
  }

  function Field0(w: bv16): bv16 { (w >> 8) & 7 }

  function Field1(w: bv16): bv16 { (w >> 11) & 7 }

  function AmpBits(w: bv16): bv16 { w & 0x000f }

  function Both(a: bv16, b: bv16): bv16 { a | b }

  /** The amplifiers a word selects: its two filter fields, and the numbers of both in its low bits. */
  predicate Selects(w: bv16, a0: Amp, a1: Amp) {
    Field0(w) == Filter0(a0) && Field1(w) == Filter1(a1) && AmpBits(w) == Both(Code(a0), Code(a1))
  }

  /** The two filter fields and the low bits of a word, amplifier by amplifier. */
  lemma WordByAmp(w: bv16, a0: Amp, a1: Amp)
    requires Selects(w, a0, a1)
    ensures (w >> 8) & 7 == match a0 case Off => 4 case Vhf1 => 3 case Vhf2 => 1 case Uhf1 => 5 case Uhf2 => 2
                                     case External => 0
    ensures (w >> 11) & 7 == match a1 case Off => 0 case Vhf1 => 3 case Vhf2 => 1 case Uhf1 => 4 case Uhf2 => 2
                                      case External => 5
    ensures a1 == Off ==> w & 0x000f == match a0 case Off => 0 case Vhf1 => 1 case Vhf2 => 2 case Uhf1 => 3
                                                 case Uhf2 => 4 case External => 5
    ensures w & 0x000f == Code(a0) | Code(a1)
  {}

  /** The amplifier bits of the program's own table, which it does not read. */
  function Intended(a: Amp): bv16 {
    match a
    case Off => 0
    case Vhf1 => 1
    case Vhf2 => 4
    case Uhf1 => 2
    case Uhf2 => 8
    case External => 0
  }

  /**
   The number of an amplifier is written where its bit from the table was meant: the low bits are as meant exactly
   when both amplifiers are off or the first antenna's VHF one, or one is that and the other the first antenna's UHF
   one.
   */
  lemma AmpBitsAsMeant(w: bv16, a0: Amp, a1: Amp)
    requires Selects(w, a0, a1)
    ensures w & 0x000f == Intended(a0) | Intended(a1) <==>
              || (a0 in {Off, Vhf1} && a1 in {Off, Vhf1})
              || (a0 == Vhf1 && a1 == Uhf1) || (a0 == Uhf1 && a1 == Vhf1)
  {}

  lemma WordFields(w: bv16, c0: bv16, c1: bv16, f0: bv16, f1: bv16)
    requires c0 < 8 && c1 < 8 && f0 < 8 && f1 < 8
    ensures var v := GpioWord(Kept(w), c0, c1, f0, f1);
            Field0(v) == f0 && Field1(v) == f1 && AmpBits(v) == Both(c0, c1) && Kept(v) == Kept(w)
  {}

  /** The bits that stay are those of the mask. */
  lemma KeptBits(v: bv16, w: bv16)
    ensures Kept(v) == Kept(w) <==> v & 0x80f0 == w & 0x80f0
  {}

  lemma CodesAreSmall(a: Amp)
    ensures Code(a) < 8 && Filter0(a) < 8 && Filter1(a) < 8
  {}

  /** A word decodes to one pair of amplifiers. */
  lemma SelectionIsUnique(w: bv16, a0: Amp, a1: Amp, b0: Amp, b1: Amp)
    requires Selects(w, a0, a1) && Selects(w, b0, b1)
    ensures a0 == b0 && a1 == b1
  {}

  /** The filter field of the first receiver for a channel number from 2 to 49 under an antenna. */
  predicate Filters0(w: bv16, ant: Antenna, tvch: int) {
    match ant
    case Nc => false
    case Ant1 => (w >> 8) & 7 == if tvch < 12 then 3 else 5
    case Ant2 => (w >> 8) & 7 == if tvch < 12 then 1 else 2
    case Coax => (w >> 8) & 7 == 0
  }

  /** That of the second. */
  predicate Filters1(w: bv16, ant: Antenna, tvch: int) {
    match ant
    case Nc => false
    case Ant1 => (w >> 11) & 7 == if tvch < 12 then 3 else 4
    case Ant2 => (w >> 11) & 7 == if tvch < 12 then 1 else 2
    case Coax => (w >> 11) & 7 == 5
  }

  /** What a word and a state say of one receiver, by channel number. */
  predicate RightlyTuned(w: bv16, s: State, ch: nat)
    requires ch < |s.chs| && ch < |s.told|
  {
    var tvch := s.chs[ch].tvch;
    s.chs[ch].amp != Off && 2 <= tvch <= 49 ==>
      && Serves(s.chs[ch].amp, s.ant, tvch)
      && (if ch == 0 then Filters0(w, s.ant, tvch) else Filters1(w, s.ant, tvch))
      && s.told[ch] == Setting(16 * (TrueFreq(tvch + 2) + 44), if tvch <= 4 then 1 else if tvch <= 11 then 2 else 4)
  }

  lemma ServingWord(w: bv16, s: State)
    requires |s.chs| == 2 && Selects(w, s.chs[0].amp, s.chs[1].amp)
    ensures Serves(s.chs[0].amp, s.ant, s.chs[0].tvch) ==> Filters0(w, s.ant, s.chs[0].tvch)
    ensures Serves(s.chs[1].amp, s.ant, s.chs[1].tvch) ==> Filters1(w, s.ant, s.chs[1].tvch)
  {
    WordByAmp(w, s.chs[0].amp, s.chs[1].amp);
    hide Selects;
  }

  lemma OneIsRight(s: State, ch: nat, beyond: int -> nat)
    requires Consistent(s, beyond) && ch < 2 && s.chs[ch].amp != Off && 2 <= s.chs[ch].tvch <= 49
    ensures Serves(s.chs[ch].amp, s.ant, s.chs[ch].tvch)
    ensures var tvch := s.chs[ch].tvch;
            s.told[ch] == Setting(16 * (TrueFreq(tvch + 2) + 44), if tvch <= 4 then 1 else if tvch <= 11 then 2 else 4)
  {
    hide Serves, Tuned, Wanted, Tunable;
    assert s.chs[ch] in s.chs;
    TunedServes(s.ant, s.chs[ch].tvch, beyond);
    WantedByNumber(s.chs[ch].tvch, beyond);
  }

  /** In a consistent state, with a word that selects its amplifiers, both receivers are rightly tuned. */
  lemma ConsistentIsRight(w: bv16, s: State, beyond: int -> nat)
    requires Consistent(s, beyond) && Selects(w, s.chs[0].amp, s.chs[1].amp)
    ensures RightlyTuned(w, s, 0) && RightlyTuned(w, s, 1)
  {
    hide Selects, Serves, Filters0, Filters1, Consistent, TrueFreq;
    TwoOfEach(s, beyond);
    ServingWord(w, s);
    if s.chs[0].amp != Off && 2 <= s.chs[0].tvch <= 49 {
      OneIsRight(s, 0, beyond);
    }
    if s.chs[1].amp != Off && 2 <= s.chs[1].tvch <= 49 {
      OneIsRight(s, 1, beyond);
    }
  }

  // ---------- What successful calls do ----------

  function SetAmps(s: State, amp: Amp): State {
    s.(chs := seq(|s.chs|, i requires 0 <= i < |s.chs| => s.chs[i].(amp := amp)))
  }

  function Tune(s: State, ch: nat, tvch: int, beyond: int -> nat): State
    requires ch < |s.chs| == |s.told| && (tvch == -1 || (s.ant != Nc && Tunable(tvch, beyond)))
  {
    if tvch == -1 then s.(chs := s.chs[ch := s.chs[ch].(amp := Off)])
    else s.(chs := s.chs[ch := Tuned(s.ant, tvch, beyond)], told := s.told[ch := Wanted(tvch, beyond)])
  }

  /** A channel after the antenna changes: off stays off, and a tuned channel is tuned again. */
  function Retuned(ant: Antenna, c: Channel, beyond: int -> nat): Channel {
    if c.amp == Off then c
    else if ant == Nc || !Tunable(c.tvch, beyond) then c.(amp := Off)
    else Tuned(ant, c.tvch, beyond)
  }

  function Switch(s: State, ant: Antenna, beyond: int -> nat): State {
    State(ant, seq(|s.chs|, i requires 0 <= i < |s.chs| => Retuned(ant, s.chs[i], beyond)), s.told)
  }

  datatype Call = Reset | SetFreq(ch: nat, tvch: int) | SetAntenna(ant: Antenna)

  /** A call that can succeed in a state. */
  predicate CanDo(s: State, c: Call, beyond: int -> nat) {
    match c
    case SetFreq(ch, tvch) => ch < |s.chs| == |s.told| && s.ant != Nc && (tvch == -1 || Tunable(tvch, beyond))
    case _ => true
  }

  function Do(s: State, c: Call, beyond: int -> nat): State
    requires CanDo(s, c, beyond)
  {
    match c
    case Reset => SetAmps(s, Off)
    case SetFreq(ch, tvch) => Tune(s, ch, tvch, beyond)
    case SetAntenna(ant) => Switch(s, ant, beyond)
  }

  predicate CanRun(s: State, cs: seq<Call>, beyond: int -> nat)
    decreases |cs|
  {
    cs == [] || (CanDo(s, cs[0], beyond) && CanRun(Do(s, cs[0], beyond), cs[1..], beyond))
  }

  function Run(s: State, cs: seq<Call>, beyond: int -> nat): State
    requires CanRun(s, cs, beyond)
    decreases |cs|
  {
    if cs == [] then s else Run(Do(s, cs[0], beyond), cs[1..], beyond)
  }

  /** Which requests can be met: with an antenna, turning off and channels up to 49; 50 and 51 by what they read. */
  lemma CanTuneExactly(s: State, ch: nat, tvch: int, beyond: int -> nat)
    requires |s.chs| == |s.told| == 2
    ensures CanDo(s, SetFreq(ch, tvch), beyond) <==>
              && ch < 2 && s.ant != Nc
              && (tvch == -1 || 2 <= tvch <= 49 || (50 <= tvch <= 51 && beyond(tvch) < 862))
  {
    TableSize();
    hide CH_FREQ;
    if 2 <= tvch <= 49 {
      TableShape(tvch);
    }
  }

  lemma TwoOfEach(s: State, beyond: int -> nat)
    requires Consistent(s, beyond)
    ensures |s.chs| == NUM_CHANNELS && |s.told| == NUM_CHANNELS
  {}

  lemma DoIsConsistent(s: State, c: Call, beyond: int -> nat)
    requires Consistent(s, beyond) && CanDo(s, c, beyond)
    ensures Consistent(Do(s, c, beyond), beyond)
  {
    hide BandOf;
  }

  /**
   Over every run of successful calls each channel is off, or it is as tuned under the antenna in force and its chip was
   told the channel's setting.
   */
  lemma {:induction false} RunsAreConsistent(s: State, cs: seq<Call>, beyond: int -> nat)
    requires Consistent(s, beyond) && CanRun(s, cs, beyond)
    ensures Consistent(Run(s, cs, beyond), beyond)
    decreases |cs|
  {
    hide Consistent, Do;
    if cs != [] {
      DoIsConsistent(s, cs[0], beyond);
      RunsAreConsistent(Do(s, cs[0], beyond), cs[1..], beyond);
    }
  }

  /**
   However the antenna was switched among connected ones, the result is that of the last switch alone:
   each channel is as if it had been tuned under it.
   */
  lemma {:induction false} LastAntennaDecides(s: State, ants: seq<Antenna>, beyond: int -> nat)
    requires Consistent(s, beyond) && ants != [] && Nc !in ants
    ensures var cs := seq(|ants|, i requires 0 <= i < |ants| => SetAntenna(ants[i]));
            CanRun(s, cs, beyond) && Run(s, cs, beyond) == Switch(s, ants[|ants| - 1], beyond)
    decreases |ants|
  {
    hide BandOf, Consistent;
    var cs := seq(|ants|, i requires 0 <= i < |ants| => SetAntenna(ants[i]));
    var t := Switch(s, ants[0], beyond);
    DoIsConsistent(s, cs[0], beyond);
    if |ants| > 1 {
      var rest := ants[1..];
      assert cs[1..] == seq(|rest|, i requires 0 <= i < |rest| => SetAntenna(rest[i]));
      LastAntennaDecides(t, rest, beyond);
      SwitchTwice(s, ants[0], ants[|ants| - 1], beyond);
    } else {
      assert cs[1..] == [];
    }
  }

  lemma SwitchTwice(s: State, a: Antenna, b: Antenna, beyond: int -> nat)
    requires Consistent(s, beyond) && a != Nc
    ensures Switch(Switch(s, a, beyond), b, beyond) == Switch(s, b, beyond)
  {
    hide BandOf;
    forall i | 0 <= i < |s.chs|
      ensures Retuned(b, Retuned(a, s.chs[i], beyond), beyond) == Retuned(b, s.chs[i], beyond)
    {
      assert s.chs[i] in s.chs;
    }
  }

  // ---------- What get_freq reports ----------

  /** The channel a receiver is on, or -1 when its amplifier is off. */
  function FreqOf(s: State, ch: nat): int {
    if ch >= |s.chs| then 0 else if s.chs[ch].amp == Off then -1 else s.chs[ch].tvch
  }

  /** There is no third receiver to report. */
  lemma FreqOfNone(s: State, ch: nat)
    requires |s.chs| == 2 && ch >= 2
    ensures FreqOf(s, ch) == 0
  {}

  /** What was set is what is reported, and the other receivers report what they did. */
  lemma FreqAfterTune(s: State, ch: nat, tvch: int, beyond: int -> nat, other: nat)
    requires CanDo(s, SetFreq(ch, tvch), beyond)
    ensures FreqOf(Do(s, SetFreq(ch, tvch), beyond), other) == if other == ch then tvch else FreqOf(s, other)
  {
    hide BandOf;
  }

  /** Switching among antennas leaves what is reported, and taking the antenna away reports -1. */
  lemma FreqAfterSwitch(s: State, ant: Antenna, beyond: int -> nat, ch: nat)
    requires Consistent(s, beyond) && ch < NUM_CHANNELS
    ensures FreqOf(Switch(s, ant, beyond), ch) == if ant == Nc then -1 else FreqOf(s, ch)
  {
    hide BandOf;
    assert s.chs[ch] in s.chs;
  }

  /** A call that leaves a receiver on its channel. */
  predicate Leaves(c: Call, ch: nat) {
    match c
    case Reset => false
    case SetFreq(other, _) => other != ch
    case SetAntenna(ant) => ant != Nc
  }

  /**
   A receiver reports the channel last set on it, over every run of tunings of the other one and switches among
   connected antennas.
   */
  lemma {:induction false} FreqSurvives(s: State, cs: seq<Call>, ch: nat, beyond: int -> nat)
    requires Consistent(s, beyond) && CanRun(s, cs, beyond) && ch < NUM_CHANNELS
    requires forall c | c in cs :: Leaves(c, ch)
    ensures FreqOf(Run(s, cs, beyond), ch) == FreqOf(s, ch)
    decreases |cs|
  {
    hide Consistent, Tune, Switch, FreqOf, BandOf;
    if cs != [] {
      var c := cs[0];
      assert c in cs && Leaves(c, ch);
      DoIsConsistent(s, c, beyond);
      match c {
        case SetFreq(other, tvch) => FreqAfterTune(s, other, tvch, beyond, ch);
        case SetAntenna(ant) => FreqAfterSwitch(s, ant, beyond, ch);
      }
      FreqSurvives(Do(s, c, beyond), cs[1..], ch, beyond);
    }
  }

  // ---------- The program ----------

  class Tuner {
    const beyond: int -> nat

    var curGpio: bv16
    var activeAnt: Antenna
    var chState: seq<Channel>

    /** The last word the device took. */
    var pins: bv16

    /** What the two tuner chips were last told. */
    var chips: seq<Setting>

    /** A device call has failed. */
    ghost var broken: bool

    function Now(): State
      reads this
    {
      State(activeAnt, chState, chips)
    }

    /** The last word written is the one kept, and selects both amplifiers. */
    predicate WordOk()
      reads this
    {
      |chState| == NUM_CHANNELS && pins == curGpio && Selects(pins, chState[0].amp, chState[1].amp)
    }

    predicate Valid()
      reads this
    {
      Consistent(Now(), beyond) && WordOk()
    }

    constructor (b: int -> nat)
      ensures activeAnt == Nc && chState == [Channel(Off, -1), Channel(Off, -1)] && curGpio == 0
      ensures Consistent(Now(), beyond) && beyond == b
    {
      beyond := b;
      curGpio, pins, broken := 0, 0, false;
      activeAnt := Nc;
      chState := [Channel(Off, -1), Channel(Off, -1)];
      chips := [Setting(0, 0), Setting(0, 0)];
    }

    /** set_gpio: the device takes the word, or fails. */
    method SetGpio(w: bv16) returns (failed: bool)
      modifies this`pins, this`broken
      ensures broken == (old(broken) || failed)
      ensures !failed ==> pins == w
    {
      failed, pins := *, *;
      if failed {
        broken := true;
      } else {
        pins := w;
      }
    }

    /** set_amp. A change writes a word for both channels; no change writes nothing. */
    method SetAmp(ch: nat, amp: Amp) returns (failed: bool)
      requires |chState| == NUM_CHANNELS
      modifies this`curGpio, this`pins, this`chState, this`broken
      ensures (old(broken) ==> broken) && (failed ==> broken || ch >= NUM_CHANNELS)
      ensures failed ==> chState == old(chState)
      ensures !failed ==> ch < NUM_CHANNELS && chState == old(chState)[ch := old(chState[ch]).(amp := amp)]
      ensures !failed && amp != old(chState)[ch].amp ==> WordOk()
      ensures !failed && amp == old(chState)[ch].amp ==> curGpio == old(curGpio) && pins == old(pins)
      ensures Kept(curGpio) == Kept(old(curGpio))
    {
      hide GpioWord, Kept, Field0, Field1, Code, Filter0, Filter1;
      if ch >= NUM_CHANNELS {
        return true;
      }
      if amp == chState[ch].amp {
        return false;
      }
      var a0 := if ch == 0 then amp else chState[0].amp;
      var a1 := if ch == 1 then amp else chState[1].amp;
      CodesAreSmall(a0);
      CodesAreSmall(a1);
      WordFields(curGpio, Code(a0), Code(a1), Filter0(a0), Filter1(a1));
      curGpio := GpioWord(Kept(curGpio), Code(a0), Code(a1), Filter0(a0), Filter1(a1));
      failed := SetGpio(curGpio);
      if failed {
        return;
      }
      chState := chState[ch := chState[ch].(amp := amp)];
    }

    /** The commands to the tuner and demodulator chips, which may fail. */
    method Device() returns (failed: bool)
      modifies this`broken
      ensures broken == (old(broken) || failed)
    {
      failed := *;
      if failed {
        broken := true;
      }
    }

    /** The command to the tuner chip of a receiver. After a failure it may have been told anything. */
    method TellChip(ch: nat, setting: Setting) returns (failed: bool)
      requires ch < |chips|
      modifies this`chips, this`broken
      ensures broken == (old(broken) || failed) && |chips| == old(|chips|)
      ensures !failed ==> chips == old(chips)[ch := setting]
    {
      failed := *;
      if failed {
        broken := true;
        var garbled: Setting := *;
        chips := chips[ch := garbled];
      } else {
        chips := chips[ch := setting];
      }
    }

    /** init */
    method Init() returns (failed: bool)
      requires |chState| == NUM_CHANNELS && |chips| == NUM_CHANNELS
      modifies this`curGpio, this`pins, this`chState, this`broken
      ensures |chState| == NUM_CHANNELS && (old(broken) ==> broken) && (failed ==> broken)
      ensures !failed ==> WordOk() && Now() == SetAmps(old(Now()), Off)
      ensures !failed ==> Consistent(Now(), beyond)
      ensures Kept(curGpio) == Kept(old(curGpio))
    {
      hide GpioWord, Kept, Field0, Field1, BandOf, Selects;
      ghost var before := chState;
      failed := Device(); // the version
      if failed {
        return;
      }
      var v := 0;
      while v < NUM_CHANNELS
        invariant 0 <= v <= NUM_CHANNELS && |chState| == NUM_CHANNELS && (old(broken) ==> broken)
        invariant forall i | 0 <= i < v :: chState[i] == before[i].(amp := Off)
        invariant forall i | v <= i < NUM_CHANNELS :: chState[i] == before[i]
        invariant v > 0 ==> WordOk()
        invariant Kept(curGpio) == Kept(old(curGpio))
      {
        chState := chState[v := chState[v].(amp := Vhf1)]; // so that SetAmp sees a change
        failed := SetAmp(v, Off);
        if failed {
          return;
        }
        failed := Device();
        if failed {
          return;
        }
        v := v + 1;
      }
      failed := false;
    }

    /** Amplifier, tuner and demodulator of one receiver; the amplifier goes off again if the tuner fails. */
    method TuneTo(ch: nat, amp: Amp, freq: nat, band: Band, tvch: int) returns (failed: bool)
      requires |chState| == NUM_CHANNELS && |chips| == NUM_CHANNELS && ch < NUM_CHANNELS
      modifies this`curGpio, this`pins, this`chState, this`chips, this`broken
      ensures |chState| == NUM_CHANNELS && |chips| == NUM_CHANNELS && (old(broken) ==> broken) && (failed ==> broken)
      ensures !failed ==> chState == old(chState)[ch := Channel(amp, tvch)]
      ensures !failed ==> chips == old(chips)[ch := SettingOf(freq, band)]
      ensures !failed && old(WordOk()) ==> WordOk()
      ensures Kept(curGpio) == Kept(old(curGpio))
    {
      hide Kept, Selects;
      failed := SetAmp(ch, amp);
      if failed {
        return;
      }
      var pll := 16 * freq + 704;
      failed := TellChip(ch, Setting(pll % 0x8000, BandSwitch(band)));
      if failed {
        var ignored := SetAmp(ch, Off);
        return;
      }
      failed := Device(); // the demodulator's reset
      if failed {
        return;
      }
      chState := chState[ch := chState[ch].(tvch := tvch)];
    }

    /** set_freq; -1 turns the amplifier off. */
    method SetFreq(ch: nat, tvch: int) returns (failed: bool)
      requires |chState| == NUM_CHANNELS && |chips| == NUM_CHANNELS
      modifies this`curGpio, this`pins, this`chState, this`chips, this`broken
      ensures (old(broken) ==> broken) && (failed ==> broken || !CanDo(old(Now()), Call.SetFreq(ch, tvch), beyond))
      ensures !failed ==> CanDo(old(Now()), Call.SetFreq(ch, tvch), beyond)
      ensures !failed ==> Now() == Tune(old(Now()), ch, tvch, beyond)
      ensures !failed && 2 <= tvch <= 49 ==> Serves(chState[ch].amp, activeAnt, tvch)
      ensures !failed && old(WordOk()) ==> WordOk()
      ensures |chState| == NUM_CHANNELS && |chips| == NUM_CHANNELS && Kept(curGpio) == Kept(old(curGpio))
    {
      hide Kept, Selects, TrueFreq, FreqRead, CH_FREQ, SettingOf, Serves;
      if ch >= NUM_CHANNELS || ((tvch < TVCH_MIN || tvch > TVCH_MAX) && tvch != -1) {
        return true;
      }
      if activeAnt == Nc {
        return true;
      }
      if tvch == -1 {
        failed := SetAmp(ch, Off);
        return;
      }
      FreqIsPositive(tvch);
      if tvch <= 49 {
        TunedServes(activeAnt, tvch, beyond);
      }
      if TrueFreq(tvch) == 0 {
        return true;
      }
      var freq := FreqRead(tvch, beyond);
      var amp: Amp, band: Band;
      if freq < 158 {
        band := LowVhf;
        amp := Vhf1;
      } else if freq < 452 {
        band := HighVhf;
        amp := Vhf1;
      } else if freq < 862 {
        band := Uhf;
        amp := Uhf1;
      } else {
        return true;
      }
      if activeAnt == Ant2 {
        amp := if amp == Vhf1 then Vhf2 else Uhf2;
      } else if activeAnt == Coax {
        amp := External;
      }
      failed := TuneTo(ch, amp, freq, band, tvch);
    }

    /** What set_antenna does with one receiver. */
    method Reconnect(ch: nat) returns (failed: bool)
      requires WordOk() && ch < NUM_CHANNELS == |chips| && ChipOk(chState[ch], chips[ch], beyond)
      requires exists ant :: ChannelOk(ant, chState[ch], beyond)
      modifies this`curGpio, this`pins, this`chState, this`chips, this`broken
      ensures (old(broken) ==> broken) && (failed ==> broken)
      ensures !failed ==> chState == old(chState)[ch := Retuned(activeAnt, old(chState[ch]), beyond)] && WordOk()
      ensures !failed ==> chips == old(chips)
      ensures |chState| == NUM_CHANNELS && |chips| == NUM_CHANNELS && Kept(curGpio) == Kept(old(curGpio))
    {
      hide Kept, Selects, BandOf;
      failed := false;
      var amp := chState[ch].amp;
      if amp == Vhf2 {
        amp := Vhf1;
      } else if amp == Uhf2 {
        amp := Uhf1;
      }
      if amp == Off {
        // not tuned
      } else if activeAnt == Nc {
        failed := SetAmp(ch, Off);
      } else if activeAnt == Coax {
        failed := SetAmp(ch, External);
      } else if amp == External {
        // find the band again
        failed := SetFreq(ch, chState[ch].tvch);
      } else {
        if activeAnt == Ant2 {
          amp := if amp == Vhf1 then Vhf2 else Uhf2;
        }
        if TVCH_MIN <= chState[ch].tvch <= TVCH_MAX {
          failed := SetAmp(ch, amp);
        }
      }
    }

    /** set_antenna */
    method SetAntenna(ant: Antenna) returns (failed: bool)
      requires Valid()
      modifies this`activeAnt, this`curGpio, this`pins, this`chState, this`chips, this`broken
      ensures (old(broken) ==> broken) && (failed ==> broken)
      ensures !failed ==> Valid() && Now() == Switch(old(Now()), ant, beyond)
      ensures |chState| == NUM_CHANNELS && Kept(curGpio) == Kept(old(curGpio))
    {
      hide Kept, Selects, BandOf, Retuned, ChannelOk;
      ghost var before := Now();
      activeAnt := ant;
      var ch := 0;
      while ch < NUM_CHANNELS
        invariant 0 <= ch <= NUM_CHANNELS && |chState| == NUM_CHANNELS && activeAnt == ant && (old(broken) ==> broken)
        invariant forall i | 0 <= i < ch :: chState[i] == Retuned(ant, before.chs[i], beyond)
        invariant forall i | ch <= i < NUM_CHANNELS :: chState[i] == before.chs[i]
        invariant WordOk() && chips == before.told
        invariant Kept(curGpio) == Kept(old(curGpio))
      {
        assert before.chs[ch] in before.chs;
        assert ChannelOk(before.ant, chState[ch], beyond);
        failed := Reconnect(ch);
        if failed {
          return;
        }
        ch := ch + 1;
      }
      failed := false;
      assert Now() == Switch(before, ant, beyond);
      DoIsConsistent(before, Call.SetAntenna(ant), beyond);
    }

    /** get_freq */
    method GetFreq(ch: nat) returns (tvch: int)
      requires |chState| == NUM_CHANNELS
      ensures tvch == FreqOf(Now(), ch)
    {
      if ch >= NUM_CHANNELS {
        return 0;
      }
      if chState[ch].amp == Off {
        return -1;
      }
      return chState[ch].tvch;
    }

    /** One call of a program. */
    method Perform(c: Call) returns (failed: bool)
      requires Valid()
      modifies this`activeAnt, this`curGpio, this`pins, this`chState, this`chips, this`broken
      ensures (old(broken) ==> broken) && (failed ==> broken || !CanDo(old(Now()), c, beyond))
      ensures !failed ==> CanDo(old(Now()), c, beyond) && Now() == Do(old(Now()), c, beyond) && Valid()
      ensures Kept(curGpio) == Kept(old(curGpio))
    {
      hide Kept, Selects, Tune, Switch, SetAmps, Consistent;
      TwoOfEach(Now(), beyond);
      match c {
        case Reset => failed := Init();
        case SetFreq(ch, tvch) => failed := SetFreq(ch, tvch);
        case SetAntenna(ant) => failed := SetAntenna(ant);
      }
      if !failed {
        DoIsConsistent(old(Now()), c, beyond);
      }
    }

    /**
     init and then any calls. They fail only if a device call failed or one of them cannot be done where it comes;
     otherwise the state is that of the whole run, the last word taken selects both amplifiers, of its other
     bits those of 0x80f0 are as they were, and both receivers have the amplifier, the filter and the chip setting for
     their channel number.
     */
    method RunCalls(cs: seq<Call>) returns (failed: bool)
      requires |chState| == NUM_CHANNELS && |chips| == NUM_CHANNELS
      modifies this`activeAnt, this`curGpio, this`pins, this`chState, this`chips, this`broken
      ensures old(broken) ==> broken
      ensures failed ==> broken || !CanRun(SetAmps(old(Now()), Off), cs, beyond)
      ensures !failed ==> CanRun(SetAmps(old(Now()), Off), cs, beyond)
      ensures !failed ==> Now() == Run(SetAmps(old(Now()), Off), cs, beyond)
      ensures !failed ==> Valid() && pins & 0x80f0 == old(curGpio) & 0x80f0
      ensures !failed ==> RightlyTuned(pins, Now(), 0) && RightlyTuned(pins, Now(), 1)
    {
      hide Kept, Selects, Do, CanDo, SetAmps, Consistent, BandOf, RightlyTuned;
      ghost var s := SetAmps(Now(), Off);
      failed := Init();
      if failed {
        return;
      }
      var i := 0;
      assert cs[0..] == cs;
      while i < |cs|
        invariant 0 <= i <= |cs| && Valid() && (old(broken) ==> broken) && Kept(curGpio) == Kept(old(curGpio))
        invariant CanRun(s, cs, beyond) <==> CanRun(Now(), cs[i..], beyond)
        invariant CanRun(s, cs, beyond) ==> Run(s, cs, beyond) == Run(Now(), cs[i..], beyond)
      {
        assert cs[i..][0] == cs[i] && cs[i..][1..] == cs[i + 1..];
        failed := Perform(cs[i]);
        if failed {
          return;
        }
        i := i + 1;
      }
      TwoOfEach(Now(), beyond);
      KeptBits(pins, old(curGpio));
      ConsistentIsRight(pins, Now(), beyond);
    }
  }
}
