/** One turn of the demultiplexer thread (mpgts.cpp, thread_main), on real decoders. */
module Mpgts {
  import opened Bytes
  import opened Transport
  import opened Psi
  import opened Handshake
  import D = Mpgatsc
  import opened Reassembly
  import opened Decoder

  lemma {:induction false} GoodPackets(ps: seq<Packet>, n: nat)
    requires n <= |ps| && forall k | 0 <= k < n :: ps[k][0] == 0x47
    ensures FedCount(ps) == n + FedCount(ps[n..])
    decreases n
  {
    if n == 0 {
      assert ps[0..] == ps;
    } else {
      assert ps[1..][n - 1..] == ps[n..];
      GoodPackets(ps[1..], n - 1);
    }
  }

  lemma PacketAt(rx: seq<u8>, i: nat)
    requires |rx| == DATAGRAM && i < 7
    ensures PacketsOf(rx)[i] == rx[12 + 188 * i..200 + 188 * i]
  {}

  lemma StopsHere(ps: seq<Packet>, i: nat)
    requires i < |ps| && ps[i][0] != 0x47 && FedCount(ps) == i + FedCount(ps[i..])
    ensures FedCount(ps) == i + 1
  {}

  lemma NoMore(ps: seq<Packet>)
    requires ps == []
    ensures FedCount(ps) == 0
  {}

  /** One of the packets, at its place in the datagram. */
  method FeedAt(a: D.Mpgatsc, rx: array<u8>, ofs: nat) returns (stop: bool)
    requires a.Valid() && rx !in a.Repr && ofs + 188 <= rx.Length
    modifies a.Repr
    ensures a.Valid() && fresh(a.Repr - old(a.Repr)) && a.base == old(a.base)
    ensures a.hist == old(a.hist) + [rx[ofs..ofs + 188]] && (stop <==> rx[ofs] != 0x47)
  {
    var pkt := new u8[188];
    forall k | 0 <= k < 188 { pkt[k] := rx[ofs + k]; }
    assert pkt[..] == rx[ofs..ofs + 188];
    ghost var d;
    stop, d := a.ThreadDemux(pkt);
  }

  /** The packet of that index. */
  method FeedNth(a: D.Mpgatsc, rx: array<u8>, i: nat) returns (stop: bool)
    requires a.Valid() && rx !in a.Repr && DATAGRAM <= rx.Length && i < 7
    modifies a.Repr
    ensures a.Valid() && fresh(a.Repr - old(a.Repr)) && a.base == old(a.base)
    ensures a.hist == old(a.hist) + [PacketsOf(rx[..DATAGRAM])[i]]
    ensures stop <==> PacketsOf(rx[..DATAGRAM])[i][0] != 0x47
  {
    hide TablesAfter, Fragments, Pending, PacketsOf;
    var ofs := 12 + 188 * i;
    PacketAt(rx[..DATAGRAM], i);
    assert rx[ofs..ofs + 188] == rx[..DATAGRAM][ofs..ofs + 188];
    stop := FeedAt(a, rx, ofs);
  }

  /**
   A datagram of the right size is fed packet by packet until one has a bad sync byte, which stops the
   thread; any other datagram is ignored.
   */
  method FeedDatagram(a: D.Mpgatsc, rx: array<u8>, r: nat) returns (stop: bool)
    requires a.Valid() && rx !in a.Repr && r <= rx.Length
    modifies a.Repr
    ensures a.Valid() && fresh(a.Repr - old(a.Repr)) && a.base == old(a.base)
    ensures r != DATAGRAM ==> !stop && a.hist == old(a.hist)
    ensures r == DATAGRAM ==>
              var ps := PacketsOf(rx[..r]);
              var fed := ps[..FedCount(ps)];
              a.hist == old(a.hist) + fed && (stop <==> fed[|fed| - 1][0] != 0x47)
  {
    hide TablesAfter, Fragments, Pending, FedCount, PacketsOf;
    stop := false;
    if r != DATAGRAM {
      return;
    }
    ghost var ps := PacketsOf(rx[..r]);
    var i := 0;
    while i < 7
      invariant 0 <= i <= 7
      invariant a.Valid() && fresh(a.Repr - old(a.Repr)) && rx !in a.Repr && a.base == old(a.base)
      invariant rx[..r] == old(rx[..r])
      invariant forall k | 0 <= k < i :: ps[k][0] == 0x47
      invariant a.hist == old(a.hist) + ps[..i]
    {
      GoodPackets(ps, i);
      stop := FeedNth(a, rx, i);
      assert ps[..i + 1] == ps[..i] + [ps[i]];
      if stop {
        StopsHere(ps, i);
        return;
      }
      i := i + 1;
    }
    GoodPackets(ps, 7);
    NoMore(ps[7..]);
    assert ps[..7] == ps;
  }

  /** The check of one channel's flag: cleared first, then the decoder is reset. */
  method CheckReset(a: D.Mpgatsc, want: nat) returns (left: nat)
    requires a.Valid()
    modifies a.Repr
    ensures a.Valid() && fresh(a.Repr - old(a.Repr)) && left == 0
    ensures if want == 0 then a.hist == old(a.hist) && a.base == old(a.base)
            else a.hist == [] && a.base == Reset(old(a.Now()))
  {
    left := want;
    if want != 0 {
      left := 0;
      a.Init();
    }
  }
}
