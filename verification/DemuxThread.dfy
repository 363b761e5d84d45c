/**
 The demultiplexer thread as the program runs it (mpgts.cpp, thread_main), on two real decoders, with the control
 thread stepping in between. Whatever it does is a run of the state machine of module Handshake.
 */
module DemuxThread {
  import opened Bytes
  import opened Transport
  import opened Psi
  import opened Decoder
  import opened Handshake
  import opened Reassembly
  import D = Mpgatsc
  import Mpgts

  /** The events that are steps of the demultiplexer thread. */
  function OwnEvents(es: seq<Event>): seq<Event> {
    if es == [] then [] else
      var before, e := OwnEvents(es[..|es| - 1]), es[|es| - 1];
      if e.Wake? || e.Demux? then before + [e] else before
  }

  lemma OwnSnoc(es: seq<Event>, e: Event)
    ensures OwnEvents(es + [e]) == if e.Wake? || e.Demux? then OwnEvents(es) + [e] else OwnEvents(es)
  {
    assert (es + [e])[..|es|] == es;
  }

  lemma RunSnoc(s: State, es: seq<Event>, t: State, e: Event)
    requires Formed(s) && Run(s, es) == Some(t)
    ensures Run(s, es + [e]) == Step(t, e)
  {
    hide Step, Formed;
    assert (es + [e])[..|es|] == es;
  }

  /** The packets that a datagram gives the decoder of a channel. */
  function Taken(ready: bool, data: seq<u8>): (ps: seq<Packet>) {
    if ready && |data| == DATAGRAM then PacketsOf(data)[..FedCount(PacketsOf(data))] else []
  }

  /** A bad sync byte among them, which ends the thread. */
  predicate Bad(ps: seq<Packet>) {
    ps != [] && ps[|ps| - 1][0] != 0x47
  }

  /** Packet `k` of a datagram starts with a wrong byte. */
  predicate WrongSync(data: seq<u8>, k: nat) {
    |data| == 1328 && k < 7 && data[12 + 188 * k] != 0x47
  }

  /** A datagram ends the thread exactly when it is one of 1328 bytes with such a packet. */
  lemma BadExactly(data: seq<u8>)
    ensures Bad(Taken(true, data)) <==> exists k: nat :: WrongSync(data, k)
  {
    if |data| == 1328 {
      var ps := PacketsOf(data);
      FedExactly(ps);
      var n := FedCount(ps);
      assert ps[..n][n - 1] == ps[n - 1];
      forall k: nat | k < 7 ensures WrongSync(data, k) <==> ps[k][0] != 0x47 {
        assert ps[k] == data[12 + 188 * k..200 + 188 * k];
      }
      if Bad(ps[..n]) {
        assert WrongSync(data, n - 1);
      }
    }
  }

  predicate SameDecoder(c: Chan, d: Chan) {
    d.base == c.base && d.hist == c.hist && d.fed == c.fed && d.from == c.from
  }

  /** Nothing that the demultiplexer thread has done is changed. */
  predicate SameDecoders(s: State, t: State)
    requires Formed(s) && Formed(t)
  {
    SameDecoder(s.chans[0], t.chans[0]) && SameDecoder(s.chans[1], t.chans[1])
  }

  /** What the two channels have been fed. */
  predicate HasFed(s: State, ps: seq<Packet>, qs: seq<Packet>)
    requires Formed(s)
  {
    s.chans[0].fed == ps && s.chans[1].fed == qs
  }

  /** Looking at flags and resetting decoders feeds nothing. */
  lemma CheckFeedsNothing(s: State)
    requires Formed(s) && (s.pc.Check? || s.pc.Clear?)
    ensures DemuxStep(s, []).Some? && HasFed(DemuxStep(s, []).value, s.chans[0].fed, s.chans[1].fed)
    ensures s.pc.Check? ==> DemuxStep(s, []).value.pc in {Clear(s.pc.i, s.pc.ready), AfterCheck(s.pc.i, s.pc.ready)}
    ensures s.pc.Clear? ==> DemuxStep(s, []).value.pc == AfterCheck(s.pc.i, s.pc.ready)
  {
    hide TablesAfter;
  }

  function AfterFeed(i: nat, ready: seq<bool>, rest: seq<Packet>): Pc
    requires rest != []
  {
    if rest[0][0] != 0x47 then Stopped else if |rest| == 1 then AfterRecv(i, ready) else Feeding(i, ready, rest[1..])
  }

  /** What channel `k` has been fed once packets are fed to channel `i`. */
  function FedTo(i: nat, k: nat, fed: seq<Packet>, ps: seq<Packet>): seq<Packet> {
    if i == k then fed + ps else fed
  }

  lemma NothingTaken(ready: seq<bool>, data: seq<seq<u8>>)
    requires |ready| == 2 && |data| == 2
    ensures !ready[0] ==> Taken(ready[0], data[0]) == [] && !Bad(Taken(ready[0], data[0]))
    ensures !ready[1] ==> Taken(ready[1], data[1]) == [] && !Bad(Taken(ready[1], data[1]))
  {}

  lemma NothingFed(i: nat, k: nat, fed: seq<Packet>)
    ensures FedTo(i, k, fed, []) == fed
  {}

  lemma FedOneMore(i: nat, k: nat, fed: seq<Packet>, ps: seq<Packet>, p: Packet)
    ensures FedTo(i, k, FedTo(i, k, fed, ps), [p]) == FedTo(i, k, fed, ps + [p])
  {
    assert fed + ps + [p] == fed + (ps + [p]);
  }

  lemma FeedEffect(s: State)
    requires Formed(s) && s.pc.Feeding?
    ensures DemuxStep(s, []).Some?
    ensures var t, i, p := DemuxStep(s, []).value, s.pc.i, s.pc.rest[0];
            && t.pc == AfterFeed(i, s.pc.ready, s.pc.rest)
            && HasFed(t, FedTo(i, 0, s.chans[0].fed, [p]), FedTo(i, 1, s.chans[1].fed, [p]))
  {}

  /** What the two threads share. `state` is where the state machine is, `trace` how it came there from `start`. */
  class Shared {
    const a: D.Mpgatsc
    const b: D.Mpgatsc

    var want: seq<nat>
    var control: seq<Control>

    ghost var state: State
    ghost var start: State
    ghost var trace: seq<Event>

    function Atsc(i: nat): D.Mpgatsc { if i == 0 then a else b }

    ghost function Repr(): set<object>
      reads this, a, b
    {
      {this} + a.Repr + b.Repr
    }

    /** The decoders are apart from each other. */
    ghost predicate Apart()
      reads this, a, b, a.Repr, b.Repr
    {
      a.Valid() && b.Valid() && a.Repr !! b.Repr && this !in a.Repr && this !in b.Repr
    }

    ghost predicate ChanAgrees(i: nat)
      requires i < 2 && |state.chans| == |want| == |control| == 2
      reads this, a, b
    {
      var c := state.chans[i];
      c.want == want[i] && c.control == control[i] && c.base == Atsc(i).base && c.hist == Atsc(i).hist
    }

    /** Flags, control thread and decoders are as in the state, and the state is where the trace leads. */
    ghost predicate Agrees()
      reads this, a, b
    {
      && Formed(state) && Formed(start) && Run(start, trace) == Some(state)
      && |want| == 2 && |control| == 2 && ChanAgrees(0) && ChanAgrees(1)
    }

    ghost predicate Valid()
      reads this, a, b, a.Repr, b.Repr
      ensures Valid() ==> Formed(state) && Formed(start)
    {
      Apart() && Agrees()
    }

    constructor ()
      ensures Valid() && fresh(Repr()) && state == START && trace == []
    {
      a := new D.Mpgatsc();
      b := new D.Mpgatsc();
      want, control := [0, 0], [Quiet, Quiet];
      state, start, trace := START, START, [];
    }

    ghost method StartTrace()
      requires Valid()
      modifies this`start, this`trace
      ensures Valid() && trace == [] && start == state
    {
      start, trace := state, [];
    }

    /** The state machine takes a step. */
    ghost method Did(e: Event)
      requires Formed(state) && Formed(start) && Run(start, trace) == Some(state) && Step(state, e).Some?
      modifies this`state, this`trace
      ensures Some(state) == Step(old(state), e) && trace == old(trace) + [e]
      ensures Formed(state) && Run(start, trace) == Some(state)
      ensures OwnEvents(trace) == if e.Wake? || e.Demux? then old(OwnEvents(trace)) + [e] else old(OwnEvents(trace))
    {
      hide Step, Run, Formed, OwnEvents;
      RunSnoc(start, trace, state, e);
      OwnSnoc(trace, e);
      state := Step(state, e).value;
      trace := trace + [e];
    }

    /** What start_ts does next on a channel. */
    ghost function NextControl(ch: nat, starts: bool): seq<Event>
      requires |control| == 2
      reads this
    {
      if ch >= 2 then [] else
        match control[ch]
        case Writing(_) => [Raise(ch)]
        case Polling(_) => [Poll(ch)]
        case _ => if starts then [StartTs(ch)] else []
    }

    /** One step of start_ts on a channel: it reads the flag, writes it, or polls it; or it does nothing now. */
    method ControlStep(ch: nat, starts: bool)
      requires Agrees()
      modifies this`want, this`control, this`state, this`trace
      ensures trace == old(trace) + old(NextControl(ch, starts))
      ensures Agrees() && state.pc == old(state.pc) && OwnEvents(trace) == old(OwnEvents(trace))
      ensures SameDecoders(old(state), state)
    {
      hide OwnEvents, Run;
      if ch >= 2 {
        return;
      }
      match control[ch] {
        case Writing(value) =>
          want := want[ch := value + 1];
          control := control[ch := Polling(0)];
          Did(Raise(ch));
        case Polling(tries) =>
          control := control[ch := if want[ch] == 0 then Seen else if tries == 2 then GaveUp else Polling(tries + 1)];
          Did(Poll(ch));
        case _ =>
          if starts {
            control := control[ch := Writing(want[ch])];
            Did(StartTs(ch));
          }
      }
    }

    /** Any number of steps of the control thread. */
    method Others()
      requires Agrees()
      modifies this`want, this`control, this`state, this`trace
      ensures Agrees() && state.pc == old(state.pc) && OwnEvents(trace) == old(OwnEvents(trace))
      ensures SameDecoders(old(state), state)
    {
      hide OwnEvents, Run;
      var n: nat :| n >= 0;
      for k := 0 to n
        invariant Agrees() && state.pc == old(state.pc) && OwnEvents(trace) == old(OwnEvents(trace))
        invariant SameDecoders(old(state), state)
      {
        var ch: nat, starts: bool := *, *;
        ControlStep(ch, starts);
      }
    }

    /** They leave the decoders alone. */
    method Interfere()
      requires Valid()
      modifies this`want, this`control, this`state, this`trace
      ensures Valid() && state.pc == old(state.pc) && OwnEvents(trace) == old(OwnEvents(trace))
      ensures SameDecoders(old(state), state)
    {
      hide OwnEvents, Run, D.Mpgatsc.Valid, Agrees, SameDecoders;
      Others();
    }

    /** init, on the decoder of a channel. */
    method ResetAtsc(i: nat)
      requires Valid() && i < 2 && state.pc.Clear? && state.pc.i == i
      modifies this`state, this`trace, Atsc(i).Repr
      ensures Valid() && fresh(Repr() - old(Repr())) && want == old(want) && control == old(control)
      ensures Some(state) == DemuxStep(old(state), []) && OwnEvents(trace) == old(OwnEvents(trace)) + [Demux([])]
    {
      hide OwnEvents, Run, TablesAfter;
      Atsc(i).Init();
      Did(Demux([]));
    }

    /** The flag of a channel is looked at, and cleared if it is up. */
    method TestFlag(i: nat) returns (up: bool)
      requires Valid() && i < 2 && state.pc.Check? && state.pc.i == i
      modifies this`want, this`state, this`trace
      ensures Valid() && control == old(control)
      ensures Some(state) == DemuxStep(old(state), []) && OwnEvents(trace) == old(OwnEvents(trace)) + [Demux([])]
      ensures up <==> state.pc == Clear(i, old(state).pc.ready)
    {
      hide OwnEvents, Run, TablesAfter, D.Mpgatsc.Valid;
      up := want[i] != 0;
      if up {
        want := want[i := 0];
      }
      Did(Demux([]));
    }

    /** The check of a channel's flag; if it was up, the decoder is reset. */
    method CheckFlag(i: nat)
      requires Valid() && i < 2 && state.pc.Check? && state.pc.i == i
      modifies Repr()
      ensures Valid() && fresh(Repr() - old(Repr())) && start == old(start)
      ensures state.pc == AfterCheck(i, old(state).pc.ready)
      ensures HasFed(state, old(state).chans[0].fed, old(state).chans[1].fed)
      ensures old(OwnEvents(trace)) <= OwnEvents(trace)
    {
      hide OwnEvents, Run, TablesAfter, D.Mpgatsc.Valid, AfterCheck, DemuxStep;
      Interfere();
      CheckFeedsNothing(state);
      var up := TestFlag(i);
      if up {
        Interfere();
        CheckFeedsNothing(state);
        ResetAtsc(i);
      }
    }

    /** A packet through the decoder of a channel. */
    method FeedAtsc(i: nat, rx: array<u8>, k: nat) returns (stop: bool)
      requires Valid() && rx !in Repr() && DATAGRAM <= rx.Length && k < 7 && i < 2
      requires state.pc.Feeding? && state.pc.i == i && state.pc.rest[0] == PacketsOf(rx[..DATAGRAM])[k]
      modifies this`state, this`trace, Atsc(i).Repr
      ensures Valid() && fresh(Repr() - old(Repr())) && want == old(want) && control == old(control)
      ensures Some(state) == DemuxStep(old(state), []) && OwnEvents(trace) == old(OwnEvents(trace)) + [Demux([])]
      ensures stop <==> old(state).pc.rest[0][0] != 0x47
    {
      hide OwnEvents, Run, TablesAfter, PacketsOf;
      stop := Mpgts.FeedNth(Atsc(i), rx, k);
      Did(Demux([]));
    }

    /** One of the packets of a datagram, with the control thread stepping in before it. */
    method FeedOne(i: nat, rx: array<u8>, k: nat, ghost ready: seq<bool>, ghost rest: seq<Packet>) returns (stop: bool)
      requires Valid() && rx !in Repr() && DATAGRAM <= rx.Length && k < 7 && i < 2
      requires rest != [] && state.pc == Feeding(i, ready, rest) && rest[0] == PacketsOf(rx[..DATAGRAM])[k]
      modifies Repr()
      ensures Valid() && fresh(Repr() - old(Repr())) && start == old(start)
      ensures stop <==> rest[0][0] != 0x47
      ensures state.pc == AfterFeed(i, ready, rest)
      ensures HasFed(state, FedTo(i, 0, old(state).chans[0].fed, [rest[0]]),
                     FedTo(i, 1, old(state).chans[1].fed, [rest[0]]))
      ensures old(OwnEvents(trace)) <= OwnEvents(trace)
    {
      hide OwnEvents, Run, TablesAfter, D.Mpgatsc.Valid, PacketsOf, DemuxStep, AfterFeed;
      Interfere();
      FeedEffect(state);
      stop := FeedAtsc(i, rx, k);
    }

    /** The packets of a datagram, in order, up to the first with a bad sync byte. */
    method FeedAll(i: nat, rx: array<u8>, ghost ready: seq<bool>) returns (stop: bool)
      requires Valid() && rx !in Repr() && rx.Length == DATAGRAM && i < 2
      requires state.pc == Feeding(i, ready, PacketsOf(rx[..]))
      modifies Repr()
      ensures Valid() && fresh(Repr() - old(Repr())) && start == old(start)
      ensures var taken := Taken(true, rx[..]);
              && (stop <==> Bad(taken)) && state.pc == (if stop then Stopped else AfterRecv(i, ready))
              && HasFed(state, FedTo(i, 0, old(state).chans[0].fed, taken), FedTo(i, 1, old(state).chans[1].fed, taken))
      ensures old(OwnEvents(trace)) <= OwnEvents(trace)
    {
      hide OwnEvents, Run, TablesAfter, Valid, PacketsOf, FedCount, AfterRecv, FedTo;
      stop := false;
      assert rx[..DATAGRAM] == rx[..];
      ghost var data := rx[..];
      ghost var ps, f0, f1 := PacketsOf(data), state.chans[0].fed, state.chans[1].fed;
      NothingFed(i, 0, f0);
      NothingFed(i, 1, f1);
      assert ps[0..] == ps && ps[..0] == [];
      for k := 0 to 7
        invariant Valid() && fresh(Repr() - old(Repr())) && rx !in Repr() && start == old(start)
        invariant rx[..DATAGRAM] == data
        invariant forall j | 0 <= j < k :: ps[j][0] == 0x47
        invariant state.pc == if k < 7 then Feeding(i, ready, ps[k..]) else AfterRecv(i, ready)
        invariant HasFed(state, FedTo(i, 0, f0, ps[..k]), FedTo(i, 1, f1, ps[..k]))
        invariant old(OwnEvents(trace)) <= OwnEvents(trace)
      {
        Mpgts.GoodPackets(ps, k);
        ghost var owned := Repr();
        stop := FeedOne(i, rx, k, ready, ps[k..]);
        assert Repr() - old(Repr()) <= (owned - old(Repr())) + (Repr() - owned);
        assert ps[..k + 1] == ps[..k] + [ps[k]] && ps[k..][1..] == ps[k + 1..];
        FedOneMore(i, 0, f0, ps[..k], ps[k]);
        FedOneMore(i, 1, f1, ps[..k], ps[k]);
        if stop {
          Mpgts.StopsHere(ps, k);
          return;
        }
      }
      Mpgts.GoodPackets(ps, 7);
      Mpgts.NoMore(ps[7..]);
      assert ps[..7] == ps;
    }

    /** What the thread does with the socket of a channel. A datagram of another size is ignored. */
    method Receive(i: nat, ready: seq<bool>, data: seq<u8>) returns (stop: bool)
      requires Valid() && i < 2 && state.pc == Recv(i, ready)
      modifies Repr()
      ensures Valid() && fresh(Repr() - old(Repr())) && start == old(start)
      ensures var taken := Taken(ready[i], data);
              && (stop <==> Bad(taken)) && state.pc == (if stop then Stopped else AfterRecv(i, ready))
              && HasFed(state, FedTo(i, 0, old(state).chans[0].fed, taken), FedTo(i, 1, old(state).chans[1].fed, taken))
      ensures old(OwnEvents(trace)) <= OwnEvents(trace)
    {
      hide OwnEvents, Run, TablesAfter, D.Mpgatsc.Valid, PacketsOf, FedCount, AfterRecv;
      Interfere();
      stop := false;
      if !ready[i] || |data| != DATAGRAM {
        Did(Demux([]));
        return;
      }
      var rx := new u8[DATAGRAM](k requires 0 <= k < DATAGRAM => data[k]);
      assert rx[..] == data;
      Did(Demux(PacketsOf(data)));
      stop := FeedAll(i, rx, ready);
    }

    /** The second loop of a turn. */
    method ReceiveBoth(ready: seq<bool>, data: seq<seq<u8>>) returns (stop: bool)
      requires Valid() && |ready| == 2 && |data| == 2 && state.pc == Recv(0, ready)
      modifies Repr()
      ensures Valid() && fresh(Repr() - old(Repr())) && start == old(start)
      ensures old(OwnEvents(trace)) <= OwnEvents(trace)
      ensures state.pc == if stop then Stopped else Wait
      ensures var t0, t1 := Taken(ready[0], data[0]), Taken(ready[1], data[1]);
              && (stop <==> Bad(t0) || Bad(t1))
              && HasFed(state, old(state).chans[0].fed + t0, old(state).chans[1].fed + if Bad(t0) then [] else t1)
    {
      hide Run, TablesAfter, D.Mpgatsc.Valid, Agrees, Taken, Bad, OwnEvents;
      stop := Receive(0, ready, data[0]);
      if !stop {
        stop := Receive(1, ready, data[1]);
      }
    }

    /**
     One turn of the loop of thread_main: `ready` are the sockets with data and `data` what they hold. With the control
     thread stepping in anywhere, the turn is a run of the state machine that begins with this wake-up. It feeds each
     channel the packets of its datagram up to the first with a bad sync byte, which ends the thread.
     */
    method Turn(ready: seq<bool>, data: seq<seq<u8>>) returns (stop: bool)
      requires Valid() && |ready| == 2 && |data| == 2 && state.pc == Wait
      modifies Repr()
      ensures Valid() && fresh(Repr() - old(Repr())) && start == old(state)
      ensures [Wake(ready)] <= OwnEvents(trace)
      ensures state.pc == if stop then Stopped else Wait
      ensures var t0, t1 := Taken(ready[0], data[0]), Taken(ready[1], data[1]);
              && (stop <==> Bad(t0) || Bad(t1))
              && HasFed(state, old(state).chans[0].fed + t0, old(state).chans[1].fed + if Bad(t0) then [] else t1)
    {
      hide Run, TablesAfter, D.Mpgatsc.Valid, Agrees, Taken, Bad;
      StartTrace();
      Interfere();
      WakeUp(ready);
      CheckFlag(0);
      CheckFlag(1);
      stop := false;
      NothingTaken(ready, data);
      if ready[0] || ready[1] {
        stop := ReceiveBoth(ready, data);
      }
    }

    /** The select call returns. */
    ghost method WakeUp(ready: seq<bool>)
      requires Valid() && |ready| == 2 && state.pc == Wait
      modifies this`state, this`trace
      ensures Valid() && state == old(state).(pc := Check(0, ready))
      ensures OwnEvents(trace) == old(OwnEvents(trace)) + [Wake(ready)]
    {
      hide Run, TablesAfter, D.Mpgatsc.Valid, OwnEvents;
      Did(Wake(ready));
    }

    /** A run from a reachable state ends in one. */
    lemma StateIsReachable()
      requires Valid() && Reachable(start)
      ensures Reachable(state)
    {
      hide Run, D.Mpgatsc.Valid;
      var es :| Run(START, es) == Some(start);
      RunAppend(START, es, trace);
    }

    /**
     Once start_ts has seen the flag of a channel clear, and unless the decoder is just about to be reset, the fields
     of the real decoder are those of a new one fed what came since the reset, but for the program array.
     */
    lemma DecoderIsFresh(i: nat)
      requires Valid() && Reachable(state) && i < 2 && control[i].Seen? && !Clearing(state, i)
      ensures var c := state.chans[i];
              && c.raisedAt <= c.from <= |c.fed|
              && Visible(Atsc(i).Now()) == Visible(TablesAfter(FRESH, c.fed[c.from..]))
    {
      hide Run, TablesAfter, Reachable, Visible;
      TablesAreFresh(state, i);
    }

    /** Once start_ts saw the flag of a channel clear, its decoder is as a new one fed what came since the reset. */
    ghost predicate SeenIsFresh(i: nat)
      requires Valid() && i < 2
      reads this, a, b, a.Repr, b.Repr
    {
      var c := state.chans[i];
      control[i].Seen? ==>
        c.raisedAt <= c.from <= |c.fed| && Visible(Atsc(i).Now()) == Visible(TablesAfter(FRESH, c.fed[c.from..]))
    }

    /** thread_main, over any number of turns. */
    method ThreadMain(turns: seq<(seq<bool>, seq<seq<u8>>)>) returns (stop: bool)
      requires Valid() && state.pc == Wait && Reachable(state)
      requires forall k | 0 <= k < |turns| :: |turns[k].0| == 2 && |turns[k].1| == 2
      modifies Repr()
      ensures Valid() && fresh(Repr() - old(Repr())) && Reachable(state)
      ensures state.pc == if stop then Stopped else Wait
      ensures SeenIsFresh(0) && SeenIsFresh(1)
    {
      hide Run, TablesAfter, Valid, Reachable, SeenIsFresh, HasFed;
      stop := false;
      var k := 0;
      while k < |turns| && !stop
        invariant 0 <= k <= |turns|
        invariant Valid() && fresh(Repr() - old(Repr())) && Reachable(state)
        invariant state.pc == if stop then Stopped else Wait
      {
        stop := Turn(turns[k].0, turns[k].1);
        StateIsReachable();
        k := k + 1;
      }
      BothAreFresh();
    }

    lemma BothAreFresh()
      requires Valid() && Reachable(state) && !state.pc.Clear?
      ensures SeenIsFresh(0) && SeenIsFresh(1)
    {
      hide Run, TablesAfter, Reachable, Visible;
      if control[0].Seen? {
        DecoderIsFresh(0);
      }
      if control[1].Seen? {
        DecoderIsFresh(1);
      }
    }
  }
}
