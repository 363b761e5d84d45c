/**
 The reset handshake (mpgts.cpp): a control thread raises a flag and polls it; the demultiplexer thread
 clears the flag, resets the decoder and goes on feeding packets. Each shared access is a step of
 its own, and the threads are interleaved in any way.
 */
module Handshake {
  import opened Bytes
  import opened Transport
  import opened Reassembly
  import opened Psi
  import opened Decoder
  import Vct

  // ---------- The demultiplexer thread, one datagram ----------

  const DATAGRAM := 1328

  /** The packets of a datagram, after its 12-byte header. */
  function PacketsOf(rx: seq<u8>): (ps: seq<Packet>)
    requires |rx| == DATAGRAM
    ensures |ps| == 7
  {
    seq(7, i requires 0 <= i < 7 => rx[12 + 188 * i..200 + 188 * i])
  }

  /** A datagram of 1328 bytes is a header of 12 and its seven packets, with nothing over. */
  lemma DatagramLayout(rx: seq<u8>)
    requires |rx| == 1328
    ensures |rx| == DATAGRAM
    ensures var ps := PacketsOf(rx); rx == rx[..12] + ps[0] + ps[1] + ps[2] + ps[3] + ps[4] + ps[5] + ps[6]
  {
    var ps := PacketsOf(rx);
    CutInTwo(rx, 12, 200);
    CutInTwo(rx, 200, 388);
    CutInTwo(rx, 388, 576);
    CutInTwo(rx, 576, 764);
    CutInTwo(rx, 764, 952);
    CutInTwo(rx, 952, 1140);
    CutInTwo(rx, 1140, 1328);
    assert rx[..1328] == rx;
  }

  lemma CutInTwo(rx: seq<u8>, a: nat, b: nat)
    requires a <= b <= |rx|
    ensures rx[..b] == rx[..a] + rx[a..b]
  {}

  /** How many of the packets are fed: up to the first with a bad sync byte, that one included. */
  function FedCount(ps: seq<Packet>): (n: nat)
    ensures n <= |ps|
    decreases |ps|
  {
    if ps == [] then 0 else if ps[0][0] != 0x47 then 1 else 1 + FedCount(ps[1..])
  }

  /** Those fed are good but for the last, which is bad unless all are fed. */
  lemma {:induction false} FedExactly(ps: seq<Packet>)
    ensures var n := FedCount(ps);
            && (ps != [] ==> n > 0)
            && (forall k | 0 <= k < n - 1 :: ps[k][0] == 0x47)
            && (0 < n < |ps| ==> ps[n - 1][0] != 0x47)
    decreases |ps|
  {
    if ps != [] && ps[0][0] == 0x47 {
      var n := FedCount(ps);
      FedExactly(ps[1..]);
      forall k | 0 <= k < n - 1 ensures ps[k][0] == 0x47 {
        if k > 0 {
          assert ps[k] == ps[1..][k - 1];
        }
      }
    }
  }

  // ---------- The two threads ----------

  /** What start_ts has done on a channel: between reading and writing the flag, polling it, or past it. */
  datatype Control = Quiet | Writing(value: nat) | Polling(tries: nat) | Seen | GaveUp

  /**
   One channel. `fed` are all packets ever demultiplexed on it, `from` how many there were at the last
   reset and `raisedAt` how many when the flag was last raised. The decoder's state is that of `base`
   after `hist`.
   */
  datatype Chan = Chan(
    want: nat, control: Control, base: Tables, hist: seq<Packet>, fed: seq<Packet>, from: nat, raisedAt: nat)

  /** Where the demultiplexer thread is; `ready` are the sockets with data. */
  datatype Pc =
    | Wait
    | Check(i: nat, ready: seq<bool>)
    | Clear(i: nat, ready: seq<bool>)
    | Recv(i: nat, ready: seq<bool>)
    | Feeding(i: nat, ready: seq<bool>, rest: seq<Packet>)
    | Stopped

  datatype State = State(pc: Pc, chans: seq<Chan>)

  datatype Event =
    | Wake(ready: seq<bool>)
    | Demux(datagram: seq<Packet>)
    | StartTs(ch: nat)
    | Raise(ch: nat)
    | Poll(ch: nat)

  const NEW_CHAN := Chan(0, Quiet, FRESH, [], [], 0, 0)

  const START := State(Wait, [NEW_CHAN, NEW_CHAN])

  function AfterCheck(i: nat, ready: seq<bool>): Pc {
    if i == 0 then Check(1, ready) else if true in ready then Recv(0, ready) else Wait
  }

  function AfterRecv(i: nat, ready: seq<bool>): Pc {
    if i == 0 then Recv(1, ready) else Wait
  }

  function Update(s: State, ch: nat, c: Chan): State
    requires ch < |s.chans|
  {
    s.(chans := s.chans[ch := c])
  }

  /** One packet through the decoder of a channel. */
  function FedOne(c: Chan, p: Packet): Chan {
    c.(hist := c.hist + [p], fed := c.fed + [p])
  }

  /** init, on the decoder of a channel. */
  function Cleared(c: Chan): Chan {
    c.(base := Reset(TablesAfter(c.base, c.hist)), hist := [], from := |c.fed|)
  }

  predicate Formed(s: State) {
    && |s.chans| == 2
    && match s.pc
       case Wait => true
       case Stopped => true
       case Check(i, r) => i < 2 && |r| == 2
       case Clear(i, r) => i < 2 && |r| == 2
       case Recv(i, r) => i < 2 && |r| == 2
       case Feeding(i, r, rest) => i < 2 && |r| == 2 && rest != []
  }

  /** A step of the demultiplexer thread; `datagram` is what the receive call returns, empty if it is to be ignored. */
  function DemuxStep(s: State, datagram: seq<Packet>): (t: Option<State>)
    requires Formed(s)
    ensures t.Some? ==> Formed(t.value)
  {
    match s.pc
    case Wait => None
    case Stopped => None
    case Check(i, r) =>
      if s.chans[i].want != 0 then Some(Update(s, i, s.chans[i].(want := 0)).(pc := Clear(i, r)))
      else Some(s.(pc := AfterCheck(i, r)))
    case Clear(i, r) => Some(Update(s, i, Cleared(s.chans[i])).(pc := AfterCheck(i, r)))
    case Recv(i, r) =>
      if r[i] && |datagram| == 7 then Some(s.(pc := Feeding(i, r, datagram)))
      else Some(s.(pc := AfterRecv(i, r)))
    case Feeding(i, r, rest) =>
      var next :=
        if rest[0][0] != 0x47 then Stopped else if |rest| == 1 then AfterRecv(i, r) else Feeding(i, r, rest[1..]);
      Some(Update(s, i, FedOne(s.chans[i], rest[0])).(pc := next))
  }

  /** One step of either thread; none if the event cannot happen. */
  function Step(s: State, e: Event): (t: Option<State>)
    requires Formed(s)
    ensures t.Some? ==> Formed(t.value)
  {
    match e
    case Wake(ready) => if s.pc == Wait && |ready| == 2 then Some(s.(pc := Check(0, ready))) else None
    case Demux(d) => DemuxStep(s, d)
    case StartTs(ch) =>
      if ch >= 2 || s.chans[ch].control.Writing? || s.chans[ch].control.Polling? then None
      else Some(Update(s, ch, s.chans[ch].(control := Writing(s.chans[ch].want))))
    case Raise(ch) =>
      if ch >= 2 || !s.chans[ch].control.Writing? then None
      else
        var c := s.chans[ch];
        Some(Update(s, ch, c.(want := c.control.value + 1, control := Polling(0), raisedAt := |c.fed|)))
    case Poll(ch) =>
      if ch >= 2 || !s.chans[ch].control.Polling? then None
      else
        var c := s.chans[ch];
        var next := if c.want == 0 then Seen else if c.control.tries == 2 then GaveUp else Polling(c.control.tries + 1);
        Some(Update(s, ch, c.(control := next)))
  }

  function Run(s: State, es: seq<Event>): (t: Option<State>)
    requires Formed(s)
    ensures t.Some? ==> Formed(t.value)
  {
    if es == [] then Some(s) else
      match Run(s, es[..|es| - 1])
      case None => None
      case Some(t) => Step(t, es[|es| - 1])
  }

  ghost predicate Reachable(s: State) {
    exists es :: Run(START, es) == Some(s)
  }

  // ---------- The invariant ----------

  /** The last reset is not older than the last raise, unless it is just about to happen. */
  predicate ResetSinceRaise(c: Chan, clearing: bool) {
    clearing || c.raisedAt <= c.from
  }

  predicate ChanOk(c: Chan, clearing: bool) {
    && c.from <= |c.fed| && c.raisedAt <= |c.fed|
    && c.hist == c.fed[c.from..]
    && c.base == Reset(c.base)
    && (c.control.Seen? ==> ResetSinceRaise(c, clearing))
    && (c.control.Polling? && c.want == 0 ==> ResetSinceRaise(c, clearing))
  }

  /** The demultiplexer thread has cleared the flag of a channel and not yet reset its decoder. */
  predicate Clearing(s: State, ch: nat) {
    s.pc.Clear? && s.pc.i == ch
  }

  predicate Inv(s: State) {
    Formed(s) && forall ch | 0 <= ch < 2 :: ChanOk(s.chans[ch], Clearing(s, ch))
  }

  lemma StepKeepsInv(s: State, e: Event)
    requires Inv(s) && Step(s, e).Some?
    ensures Inv(Step(s, e).value)
  {
    hide TablesAfter;
    var t := Step(s, e).value;
    forall ch | 0 <= ch < 2 ensures ChanOk(t.chans[ch], Clearing(t, ch)) {
      assert ChanOk(s.chans[ch], Clearing(s, ch));
    }
  }

  lemma {:induction false} RunsKeepInv(es: seq<Event>)
    requires Run(START, es).Some?
    ensures Inv(Run(START, es).value)
    decreases |es|
  {
    hide Inv, Step;
    if es == [] {
      assert Inv(START) by { StartIsOk(); }
    } else {
      RunsKeepInv(es[..|es| - 1]);
      StepKeepsInv(Run(START, es[..|es| - 1]).value, es[|es| - 1]);
    }
  }

  lemma StartIsOk()
    ensures Inv(START)
  {}

  // ---------- What start_ts may rely on ----------

  /** The section that feeding the next packet delivers. */
  function NextDelivery(s: State): Option<seq<u8>>
    requires Formed(s) && s.pc.Feeding?
  {
    DeliveredBy(s.chans[s.pc.i].hist + [s.pc.rest[0]])
  }

  /**
   Once start_ts has seen the flag clear, every section delivered on its channel is one that a newly
   built decoder delivers on the packets since the reset, and all of these were demultiplexed
   after the flag was raised.
   */
  lemma NoStaleSections(s: State)
    requires Reachable(s) && s.pc.Feeding? && Formed(s)
    requires s.chans[s.pc.i].control.Seen?
    ensures var c := s.chans[s.pc.i];
            && c.raisedAt <= c.from <= |c.fed|
            && NextDelivery(s) == DeliveredBy(c.fed[c.from..] + [s.pc.rest[0]])
  {
    var es :| Run(START, es) == Some(s);
    RunsKeepInv(es);
  }

  /** The decoder's tables are then those of a newly built decoder, but for the program array. */
  lemma TablesAreFresh(s: State, ch: nat)
    requires Reachable(s) && Formed(s) && ch < 2
    requires s.chans[ch].control.Seen? && !Clearing(s, ch)
    ensures var c := s.chans[ch];
            && c.raisedAt <= c.from <= |c.fed|
            && Visible(TablesAfter(c.base, c.hist)) == Visible(TablesAfter(FRESH, c.fed[c.from..]))
  {
    hide TablesAfter;
    var es :| Run(START, es) == Some(s);
    RunsKeepInv(es);
    var c := s.chans[ch];
    assert ChanOk(c, Clearing(s, ch));
    ResetIsVisiblyFresh(c.base, c.hist);
  }

  // ---------- What it may not rely on ----------

  lemma {:induction false} RunAppend(s: State, es: seq<Event>, fs: seq<Event>)
    requires Formed(s) && Run(s, es).Some?
    ensures Run(s, es + fs) == Run(Run(s, es).value, fs)
    decreases |fs|
  {
    hide Step, Formed;
    if fs == [] {
      assert es + fs == es;
    } else {
      var n := |fs| - 1;
      assert (es + fs)[..|es| + n] == es + fs[..n];
      RunAppend(s, es, fs[..n]);
    }
  }

  lemma RunOne(s: State, e: Event)
    requires Formed(s)
    ensures Run(s, [e]) == Step(s, e)
  {
    assert [e][..0] == [];
    assert Run(s, []) == Some(s);
  }

  lemma Extend(s: State, e: Event)
    requires Reachable(s) && Formed(s) && Step(s, e).Some?
    ensures Reachable(Step(s, e).value)
  {
    hide Step;
    var es :| Run(START, es) == Some(s);
    RunAppend(START, es, [e]);
    RunOne(s, e);
  }

  lemma Forward(s: State, e: Event) returns (t: State)
    requires Reachable(s) && Formed(s) && Step(s, e).Some?
    ensures Step(s, e) == Some(t) && Reachable(t) && Formed(t)
  {
    Extend(s, e);
    t := Step(s, e).value;
  }

  lemma FeedStep(s: State)
    requires Formed(s) && s.pc.Feeding? && s.pc.rest[0][0] == 0x47
    ensures var i, r, rest := s.pc.i, s.pc.ready, s.pc.rest;
            Step(s, Demux([])) ==
            Some(State(if |rest| == 1 then AfterRecv(i, r) else Feeding(i, r, rest[1..]),
                       s.chans[i := FedOne(s.chans[i], rest[0])]))
  {}

  /** Feeding the rest of a datagram with good sync bytes. */
  lemma {:induction false} FeedRest(s: State) returns (t: State)
    requires Reachable(s) && Formed(s) && s.pc.Feeding?
    requires forall p | p in s.pc.rest :: p[0] == 0x47
    ensures Reachable(t) && Formed(t) && t.pc == AfterRecv(s.pc.i, s.pc.ready)
    ensures var c := s.chans[s.pc.i];
            t.chans == s.chans[s.pc.i := c.(hist := c.hist + s.pc.rest, fed := c.fed + s.pc.rest)]
    decreases |s.pc.rest|
  {
    hide Step, Reachable, AfterRecv;
    var i, rest, c := s.pc.i, s.pc.rest, s.chans[s.pc.i];
    assert rest[0] in rest;
    FeedStep(s);
    var u := Forward(s, Demux([]));
    assert rest == [rest[0]] + rest[1..];
    assert c.hist + rest == c.hist + [rest[0]] + rest[1..];
    assert c.fed + rest == c.fed + [rest[0]] + rest[1..];
    if |rest| == 1 {
      t := u;
      assert rest == [rest[0]];
    } else {
      t := FeedRest(u);
    }
  }

  /** One datagram on either channel, from a waiting state with both flags clear. */
  lemma OneDatagram(t: State, ch: nat, d: seq<Packet>) returns (s: State)
    requires Reachable(t) && Formed(t) && t.pc == Wait && t.chans[0].want == t.chans[1].want == 0
    requires ch < 2 && |d| == 7 && forall p | p in d :: p[0] == 0x47
    ensures Reachable(s) && Formed(s)
    ensures var c := t.chans[ch]; s == State(Wait, t.chans[ch := c.(hist := c.hist + d, fed := c.fed + d)])
  {
    hide TablesAfter, Reachable;
    var ready := [ch == 0, ch == 1];
    var a := Forward(t, Wake(ready));
    a := Forward(a, Demux([]));    // flag of channel 0 is clear
    a := Forward(a, Demux([]));    // flag of channel 1 is clear
    assert ready[ch];
    if ch == 1 {
      a := Forward(a, Demux([]));  // nothing on channel 0
    }
    a := Forward(a, Demux(d));
    a := FeedRest(a);
    s := a;
    if ch == 0 {
      s := Forward(a, Demux([]));  // nothing on channel 1
    }
  }

  /** Any number of datagrams. */
  lemma {:induction false} Datagrams(t: State, ch: nat, ps: seq<Packet>) returns (s: State)
    requires Reachable(t) && Formed(t) && t.pc == Wait && t.chans[0].want == t.chans[1].want == 0
    requires ch < 2 && |ps| % 7 == 0 && forall p | p in ps :: p[0] == 0x47
    ensures Reachable(s) && Formed(s)
    ensures var c := t.chans[ch]; s == State(Wait, t.chans[ch := c.(hist := c.hist + ps, fed := c.fed + ps)])
    decreases |ps|
  {
    hide Reachable;
    var c := t.chans[ch];
    if ps == [] {
      s := t;
      assert c.hist + ps == c.hist && c.fed + ps == c.fed;
    } else {
      var d, rest := ps[..7], ps[7..];
      assert ps == d + rest;
      var u := OneDatagram(t, ch, d);
      s := Datagrams(u, ch, rest);
      assert c.hist + d + rest == c.hist + ps && c.fed + d + rest == c.fed + ps;
    }
  }

  lemma StartIsReachable()
    ensures Reachable(START)
  {
    assert Run(START, []) == Some(START);
  }

  /** Woken up, the demultiplexer thread comes to the flag of a channel and leaves that channel as it is. */
  lemma ComeToCheck(t: State, ch: nat) returns (s: State)
    requires Reachable(t) && Formed(t) && t.pc == Wait && ch < 2
    ensures Reachable(s) && Formed(s) && s.pc.Check? && s.pc.i == ch && s.chans[ch] == t.chans[ch]
  {
    hide TablesAfter, Reachable;
    s := Forward(t, Wake([false, false]));
    if ch == 1 {
      s := Forward(s, Demux([]));    // looks at the flag of channel 0
      if s.pc.Clear? {
        s := Forward(s, Demux([]));  // and resets channel 0 if it was raised
      }
    }
  }

  /**
   The flag is cleared before the decoder is reset. So from every reachable state in which the demultiplexer thread
   waits, and for either channel not in the middle of a start_ts, start_ts can see the flag clear while the
   decoder's state is still what it was, with no packet demultiplexed since the flag was raised.
   */
  lemma StaleTablesInTheWindow(t: State, ch: nat) returns (s: State)
    requires Reachable(t) && Formed(t) && t.pc == Wait && ch < 2
    requires !t.chans[ch].control.Writing? && !t.chans[ch].control.Polling?
    ensures Reachable(s) && Formed(s) && Clearing(s, ch)
    ensures var c := s.chans[ch];
            && c.control.Seen? && c.raisedAt == |c.fed|
            && c.fed == t.chans[ch].fed && c.base == t.chans[ch].base && c.hist == t.chans[ch].hist
  {
    hide TablesAfter, Reachable;
    var a := Forward(t, StartTs(ch));
    a := Forward(a, Raise(ch));
    a := ComeToCheck(a, ch);
    a := Forward(a, Demux([]));  // clears the flag
    s := Forward(a, Poll(ch));
  }

  /**
   In particular the text of the old stream's channel table can still be there, on either channel: of any table, cut
   into packets in any way, sent with null packets after it that fill the last datagram.
   */
  lemma StaleTextInTheWindow(
    ch: nat, tableId: u8, tsid: nat, ver: nat, cs: seq<Vct.Channel>, extra: seq<u8>, shapes: seq<Shape>)
    returns (s: State)
    requires ch < 2 && VctOk(tableId, tsid, ver, cs, extra)
    requires Fits(VctSection(tableId, tsid, ver, cs, extra), shapes, true)
    ensures Reachable(s) && Formed(s) && Clearing(s, ch)
    ensures s.chans[ch].control.Seen? && s.chans[ch].raisedAt == |s.chans[ch].fed|
    ensures var v := TablesAfter(s.chans[ch].base, s.chans[ch].hist).vct; v.Lines? && Vct.AllDescribed(v.entries, cs)
  {
    hide TablesAfter, Only, Fits, VctSection, VctOk, Cut, PidOf, Reachable, NullPacket, Vct.AllDescribed;
    var cut := Cut(PSIP_PID, VctSection(tableId, tsid, ver, cs, extra), shapes, true);
    var nulls := seq(6 - (|cut| + 6) % 7, i => NullPacket());
    var ps := cut + nulls;
    CutPackets(PSIP_PID, VctSection(tableId, tsid, ver, cs, extra), shapes, true);
    OthersDoNotCount(cut, nulls, PSIP_PID);
    StartIsReachable();
    var t := Datagrams(START, ch, ps);
    assert [] + ps == ps;
    s := StaleTablesInTheWindow(t, ch);
    VctEndToEnd(FRESH, tableId, tsid, ver, cs, extra, shapes, ps);
  }

  /** Every channel table can be the stale one. */
  lemma EveryTextCanBeStale(ch: nat, tableId: u8, tsid: nat, ver: nat, cs: seq<Vct.Channel>, extra: seq<u8>)
    returns (s: State)
    requires ch < 2 && VctOk(tableId, tsid, ver, cs, extra)
    ensures Reachable(s) && Formed(s) && Clearing(s, ch)
    ensures s.chans[ch].control.Seen? && s.chans[ch].raisedAt == |s.chans[ch].fed|
    ensures var v := TablesAfter(s.chans[ch].base, s.chans[ch].hist).vct; v.Lines? && Vct.AllDescribed(v.entries, cs)
  {
    hide TablesAfter, Fits, VctSection, VctOk, Reachable, Vct.AllDescribed;
    VctSectionShape(tableId, tsid, ver, cs, extra);
    var shapes := PlainCut(VctSection(tableId, tsid, ver, cs, extra), true);
    s := StaleTextInTheWindow(ch, tableId, tsid, ver, cs, extra, shapes);
  }

  lemma {:induction false} CutPackets(pid: Pid, data: seq<u8>, shapes: seq<Shape>, start: bool)
    requires Fits(data, shapes, start)
    ensures forall p | p in Cut(pid, data, shapes, start) :: PidOf(p) == pid && p[0] == 0x47
    decreases |shapes|
  {
    hide PidOf, MakePacket;
    if |shapes| > 1 {
      CutPackets(pid, data[Transport.Room(shapes[0], start)..], shapes[1..], false);
    }
  }
}
