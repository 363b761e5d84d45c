/**
 A writer and a reader at the two ends of one connection (socket.cpp, write and read), stepping in any order:
 each step is one system call of one of the two loops.
 */
module StreamSession {
  import opened Bytes
  import opened FrameCrc
  import opened Framing

  // ---------- The writer ----------

  /** socket::write over a list of packets, stopped between its system calls. */
  class Writer {
    const sock: Socket
    const packets: seq<Packet>

    /** How many packets were begun, the frame of the last of them, and how much of it is written. */
    var next: nat
    var pkt: array<u8>
    var ofs: nat

    ghost predicate Valid()
      reads this, pkt
    {
      && next <= |packets| && ofs <= pkt.Length
      && if next == 0 then pkt.Length == 0 else pkt[..] == Frame(packets[next - 1].kind, packets[next - 1].payload)
    }

    /** The bytes written. */
    ghost function Written(): seq<u8>
      requires Valid()
      reads this, pkt
    {
      if next == 0 then [] else Stream(packets[..next - 1]) + pkt[..ofs]
    }

    predicate Done()
      reads this
    {
      ofs == pkt.Length && next == |packets|
    }

    constructor (s: Socket, ps: seq<Packet>)
      ensures Valid() && sock == s && packets == ps && Written() == [] && fresh(pkt)
    {
      sock, packets := s, ps;
      next, ofs := 0, 0;
      pkt := new u8[0];
    }

    /** The frame of the next packet is made. */
    method Begin()
      requires Valid() && ofs == pkt.Length && next < |packets|
      modifies this`next, this`pkt, this`ofs
      ensures Valid() && Written() == old(Written()) && ofs == 0 && pkt.Length > 0 && fresh(pkt)
    {
      hide Frame;
      var p := packets[next];
      var len := |p.payload| + 8;
      var frame := new u8[len];
      forall k | 0 <= k < |p.payload| { frame[4 + k] := p.payload[k]; }
      assert frame[4..len - 4] == p.payload;
      PktAddCrc(frame, len, p.kind);
      assert frame[..] == frame[..len];
      WholeFrames(packets, next, pkt[..]);
      pkt, ofs, next := frame, 0, next + 1;
      assert pkt[..0] == [];
    }

    /** The system call for the frame at hand. */
    method Send() returns (failed: bool)
      requires Valid() && ofs < pkt.Length
      modifies this`ofs, sock`sent, sock`broken
      ensures sock.broken == (old(sock.broken) || failed)
      ensures Valid() && next == old(next)
      ensures old(sock.sent) <= sock.sent && Written() == old(Written()) + sock.sent[|old(sock.sent)|..]
      ensures if failed then sock.sent == old(sock.sent) else |sock.sent| > |old(sock.sent)|
    {
      hide Frame, Stream;
      ghost var f := pkt[..];
      var r := sock.SysWrite(pkt[ofs..]);
      if r < 0 {
        return true;
      }
      assert pkt[ofs..] == f[ofs..ofs + (pkt.Length - ofs)];
      TakeMore(f, ofs, pkt.Length - ofs, r);
      ofs := ofs + r;
      assert pkt[..ofs] == f[..ofs];
      return false;
    }

    /** One system call. */
    method Step() returns (failed: bool)
      requires Valid() && !Done()
      modifies this`next, this`pkt, this`ofs, sock`sent, sock`broken
      ensures sock.broken == (old(sock.broken) || failed)
      ensures Valid() && (pkt == old(pkt) || fresh(pkt))
      ensures old(sock.sent) <= sock.sent && Written() == old(Written()) + sock.sent[|old(sock.sent)|..]
      ensures if failed then sock.sent == old(sock.sent) else |sock.sent| > |old(sock.sent)|
    {
      hide Frame, Stream;
      if ofs == pkt.Length {
        Begin();
      }
      failed := Send();
    }

    /** What was written is a beginning of the stream of all packets, all of it once the writer is done. */
    lemma WrittenIsPrefix()
      requires Valid()
      ensures Written() <= Stream(packets)
      ensures Done() ==> Written() == Stream(packets)
    {
      hide Frame;
      if next > 0 {
        StreamSplit(packets, next);
        StreamSnoc(packets[..next - 1], packets[next - 1]);
        assert packets[..next] == packets[..next - 1] + [packets[next - 1]];
        assert pkt[..ofs] <= pkt[..];
        if Done() {
          assert packets[next..] == [];
          assert pkt[..ofs] == pkt[..];
        }
      }
    }
  }

  /** Once its frame is written, a packet belongs to the stream. */
  lemma WholeFrames(packets: seq<Packet>, next: nat, f: seq<u8>)
    requires next <= |packets|
    requires if next == 0 then f == [] else f == Frame(packets[next - 1].kind, packets[next - 1].payload)
    ensures (if next == 0 then [] else Stream(packets[..next - 1]) + f) == Stream(packets[..next])
  {
    hide Frame;
    if next > 0 {
      assert packets[..next] == packets[..next - 1] + [packets[next - 1]];
      StreamSnoc(packets[..next - 1], packets[next - 1]);
    }
  }

  lemma {:induction false} StreamSplit(ps: seq<Packet>, k: nat)
    requires k <= |ps|
    ensures Stream(ps) == Stream(ps[..k]) + Stream(ps[k..])
    decreases |ps|
  {
    hide Frame;
    if k == 0 {
      assert ps[..0] == [] && ps[0..] == ps;
    } else {
      var rest := ps[1..];
      StreamSplit(rest, k - 1);
      assert ps[..k][1..] == rest[..k - 1] && rest[k - 1..] == ps[k..];
    }
  }

  // ---------- The reader ----------

  /** Exactly as many bytes as their header says. */
  predicate IsFrame(s: seq<u8>) {
    |s| >= 4 && |s| == FrameLen(s)
  }

  function PacketIn(s: seq<u8>): Packet
    requires IsFrame(s)
  {
    Packet(s[1], s[4..|s| - 4])
  }

  /** socket::read, over and over, stopped between its system calls. */
  class Reader {
    const sock: Socket
    const buf: array<u8>

    /** How much of a frame is read, and the packets read before it. */
    var at: nat
    var received: seq<Packet>

    /** What is read of a frame is less than all of it. */
    ghost predicate Valid()
      reads this, buf
    {
      buf.Length == 0xffff + 8 && at < buf.Length && (at >= 4 ==> at < FrameLen(buf[..at]))
    }

    /** A first call needs a header; once a frame is begun any byte will do. */
    predicate Ready()
      reads this, sock
    {
      if at == 0 then |sock.incoming| >= 4 else sock.incoming != []
    }

    constructor (s: Socket)
      ensures Valid() && sock == s && at == 0 && received == [] && fresh(buf)
    {
      sock := s;
      buf := new u8[0xffff + 8];
      at, received := 0, [];
    }

    /**
     One system call. It adds some bytes to those of the frame; once they are a whole frame they are checked, and the
     packet is received.
     */
    method Step() returns (failed: bool, ghost bytes: seq<u8>)
      requires Valid() && Ready()
      modifies this`at, this`received, buf, sock`incoming, sock`broken
      ensures Valid() && (old(sock.broken) ==> sock.broken)
      ensures bytes + sock.incoming == old(buf[..at]) + old(sock.incoming)
      ensures failed ==> received == old(received) && (sock.broken || (IsFrame(bytes) && !FrameOk(bytes)))
      ensures !failed ==> sock.broken == old(sock.broken) && |sock.incoming| < |old(sock.incoming)|
      ensures !failed && IsFrame(bytes) ==>
                FrameOk(bytes) && at == 0 && received == old(received) + [PacketIn(bytes)]
      ensures !failed && !IsFrame(bytes) ==> buf[..at] == bytes && received == old(received)
    {
      hide FrameOk;
      var n := 4;
      if at >= 4 {
        SameLength(buf, at);
        n := BE16(buf[2], buf[3]) + 8;
      }
      failed, bytes := Fetch(n);
      if !failed {
        SameStart(old(buf[..at]), bytes);
        failed := Finish();
      }
    }

    /** The system call. */
    method Fetch(n: nat) returns (failed: bool, ghost bytes: seq<u8>)
      requires Valid() && Ready() && at < n <= buf.Length
      modifies this`at, buf, sock`incoming, sock`broken
      ensures old(at) <= at <= n && bytes == buf[..at] && old(buf[..at]) <= bytes
      ensures bytes + sock.incoming == old(buf[..at]) + old(sock.incoming)
      ensures (old(sock.broken) ==> sock.broken) && (failed ==> sock.broken && at == old(at))
      ensures !failed ==> sock.broken == old(sock.broken) && |sock.incoming| < |old(sock.incoming)| && at > old(at)
    {
      bytes := buf[..at];
      ghost var before, coming := bytes, sock.incoming;
      var r := sock.SysRead(buf, at, n - at);
      failed := r < 0;
      if failed {
        return;
      }
      at := at + r;
      bytes := buf[..at];
      assert bytes == before + coming[..r];
      assert coming == coming[..r] + coming[r..];
      assert before + coming[..r] + coming[r..] == before + coming;
    }

    /** The check of a frame that has just become whole. */
    method Finish() returns (failed: bool)
      requires 0 < at <= buf.Length == 0xffff + 8 && (at >= 4 ==> at <= FrameLen(buf[..at]))
      modifies this`at, this`received
      ensures Valid()
      ensures failed <==> old(IsFrame(buf[..at]) && !FrameOk(buf[..at]))
      ensures failed ==> received == old(received)
      ensures old(IsFrame(buf[..at])) && !failed ==>
                at == 0 && received == old(received) + [PacketIn(old(buf[..at]))]
      ensures old(!IsFrame(buf[..at])) ==> at == old(at) && received == old(received)
    {
      hide FrameOk;
      failed := false;
      if at < 4 {
        return;
      }
      SameLength(buf, at);
      if at < BE16(buf[2], buf[3]) + 8 {
        LengthFits(buf[..at]);
        return;
      }
      var ok := CheckCrc(buf, at);
      failed := !ok;
      if ok {
        SamePayload(buf, at - 4, buf[..at]);
        received := received + [Packet(buf[1], buf[4..at - 4])];
      }
      at := 0;
    }
  }

  lemma SameLength(buf: array<u8>, at: nat)
    requires 4 <= at <= buf.Length
    ensures FrameLen(buf[..at]) == BE16(buf[2], buf[3]) + 8
  {}

  /** The header says the same however much more was read. */
  lemma SameStart(s: seq<u8>, t: seq<u8>)
    requires s <= t
    ensures |s| >= 4 ==> FrameLen(t) == FrameLen(s)
  {}

  lemma LengthFits(s: seq<u8>)
    requires |s| >= 4
    ensures FrameLen(s) <= 0xffff + 8
  {}

  // ---------- Both ends, in any order ----------

  /** Bytes that are a frame by their own header, at the front of a stream of packets, are the first one's frame. */
  lemma FirstFrame(ps: seq<Packet>, bytes: seq<u8>, more: seq<u8>)
    requires forall p | p in ps :: |p.payload| < 0x1_0000
    requires bytes + more == Stream(ps) && |bytes| >= 4
    ensures ps != [] && FrameLen(bytes) == |Frame(ps[0].kind, ps[0].payload)|
    ensures IsFrame(bytes) ==> bytes == Frame(ps[0].kind, ps[0].payload) && more == Stream(ps[1..])
  {
    hide Frame, FrameLen;
    assert ps != [] by {
      NoPackets();
    }
    var f, rest := Frame(ps[0].kind, ps[0].payload), Stream(ps[1..]);
    assert ps[0] in ps;
    FrameHeader(ps[0].kind, ps[0].payload, rest);
    SameStart(bytes, f + rest);
    if IsFrame(bytes) {
      assert bytes == (f + rest)[..|f|] == f;
      assert more == (f + rest)[|f|..] == rest;
    }
  }

  lemma FrameIsItsPacket(p: Packet)
    requires |p.payload| < 0x1_0000
    ensures var f := Frame(p.kind, p.payload); FrameOk(f) && IsFrame(f) && PacketIn(f) == p
  {
    hide Frame, FrameOk, FrameLen;
    FrameIsGood(p.kind, p.payload);
    FrameHeader(p.kind, p.payload, []);
    FramePayload(p.kind, p.payload);
    assert Frame(p.kind, p.payload) + [] == Frame(p.kind, p.payload);
  }

  /** What is written is what is received, then what is read of the next frame, then what is under way. */
  ghost predicate InTransit(
    packets: seq<Packet>, received: seq<Packet>, part: seq<u8>, coming: seq<u8>, written: seq<u8>)
  {
    && received <= packets && written <= Stream(packets)
    && Stream(received) + (part + coming) == written
  }

  lemma Cancel(a: seq<u8>, b: seq<u8>, c: seq<u8>)
    requires a + b == a + c
    ensures b == c
  {
    assert (a + b)[|a|..] == b && (a + c)[|a|..] == c;
  }

  /** So the part and what follows it are the stream of the packets still to be received. */
  lemma StillToCome(packets: seq<Packet>, received: seq<Packet>, part: seq<u8>, coming: seq<u8>, written: seq<u8>)
    returns (tail: seq<u8>)
    requires InTransit(packets, received, part, coming, written)
    ensures part + (coming + tail) == Stream(packets[|received|..])
    ensures written == Stream(packets) ==> tail == []
  {
    hide Stream;
    tail := Stream(packets)[|written|..];
    var k := |received|;
    assert packets[..k] == received;
    StreamSplit(packets, k);
    assert Stream(received) + (part + (coming + tail)) == written + tail == Stream(packets);
    Cancel(Stream(received), part + (coming + tail), Stream(packets[k..]));
  }

  /** Reading some more of what is under way never damages anything, and a whole frame is the next packet. */
  lemma ReadMore(
    packets: seq<Packet>, received: seq<Packet>, part: seq<u8>, coming: seq<u8>, written: seq<u8>, bytes: seq<u8>,
    left: seq<u8>)
    requires forall p | p in packets :: |p.payload| < 0x1_0000
    requires InTransit(packets, received, part, coming, written) && bytes + left == part + coming
    ensures if IsFrame(bytes)
            then FrameOk(bytes) && InTransit(packets, received + [PacketIn(bytes)], [], left, written)
            else InTransit(packets, received, bytes, left, written)
  {
    hide Stream, FrameOk, FrameLen;
    if IsFrame(bytes) {
      var tail := StillToCome(packets, received, part, coming, written);
      var k := |received|;
      var rest := packets[k..];
      assert bytes + (left + tail) == (bytes + left) + tail == (part + coming) + tail == part + (coming + tail);
      FirstFrame(rest, bytes, left + tail);
      FrameIsItsPacket(rest[0]);
      assert received + [rest[0]] == packets[..k + 1];
      StreamSnoc(received, rest[0]);
      assert Stream(received) + (bytes + left) == (Stream(received) + bytes) + ([] + left);
    }
  }

  lemma WriteMore(
    packets: seq<Packet>, received: seq<Packet>, part: seq<u8>, coming: seq<u8>, written: seq<u8>, chunk: seq<u8>)
    requires InTransit(packets, received, part, coming, written) && written + chunk <= Stream(packets)
    ensures InTransit(packets, received, part, coming + chunk, written + chunk)
  {
    hide Stream;
    assert Stream(received) + (part + (coming + chunk)) == Stream(received) + (part + coming) + chunk;
  }

  /** When all is written and no more can be read, all is received. */
  lemma AllReceived(packets: seq<Packet>, received: seq<Packet>, part: seq<u8>, coming: seq<u8>)
    requires forall p | p in packets :: |p.payload| < 0x1_0000
    requires InTransit(packets, received, part, coming, Stream(packets))
    requires if part == [] then |coming| < 4 else coming == [] && (|part| >= 4 ==> |part| < FrameLen(part))
    ensures received == packets && coming == []
  {
    hide Stream, FrameLen;
    var tail := StillToCome(packets, received, part, coming, Stream(packets));
    var rest := packets[|received|..];
    assert part + (coming + tail) == part + coming;
    assert part + coming == if part == [] then coming else part;
    if rest == [] {
      NoPackets();
      assert packets == packets[..|received|];
    } else {
      FirstFrameFits(rest);
      assert false;
    }
  }

  lemma StreamLength(ps: seq<Packet>)
    requires ps != []
    ensures |Stream(ps)| >= 8
  {
    hide Crc;
  }

  /** The stream of some packets is not shorter than its first frame. */
  lemma FirstFrameFits(ps: seq<Packet>)
    requires forall p | p in ps :: |p.payload| < 0x1_0000
    requires ps != []
    ensures |Stream(ps)| >= 8 && FrameLen(Stream(ps)) <= |Stream(ps)|
  {
    hide FrameLen, Frame;
    StreamLength(ps);
    assert Stream(ps) + [] == Stream(ps);
    FirstFrame(ps, Stream(ps), []);
  }

  /** Moves what has just been sent to the other end. */
  method Carry(a: Socket, b: Socket, n: nat)
    requires a != b && n <= |a.sent|
    modifies b`incoming
    ensures b.incoming == old(b.incoming) + a.sent[n..]
  {
    b.incoming := b.incoming + a.sent[n..];
  }

  /** The two ends belong together; `before` was sent earlier. */
  ghost predicate Linked(w: Writer, r: Reader, before: seq<u8>)
    reads w, w.pkt, w.sock, r, r.buf, r.sock
  {
    && w.Valid() && r.Valid() && w.sock != r.sock && w.pkt != r.buf
    && (forall p | p in w.packets :: |p.payload| < 0x1_0000)
    && w.sock.sent == before + w.Written()
    && InTransit(w.packets, r.received, r.buf[..r.at], r.sock.incoming, w.Written())
  }

  /** What there is still to do: each byte has to be written and read. */
  ghost function Left(w: Writer, r: Reader): int
    requires w.Valid()
    reads w, w.pkt, r, r.sock
  {
    2 * (|Stream(w.packets)| - |w.Written()|) + |r.sock.incoming|
  }

  method WriteStep(w: Writer, r: Reader, ghost before: seq<u8>) returns (failed: bool)
    requires Linked(w, r, before) && !w.Done()
    modifies w`next, w`pkt, w`ofs, w.sock`sent, w.sock`broken, r.sock`incoming
    ensures w.sock.broken == (old(w.sock.broken) || failed)
    ensures w.pkt == old(w.pkt) || fresh(w.pkt)
    ensures !failed ==> Linked(w, r, before) && Left(w, r) < old(Left(w, r))
  {
    hide Stream, FrameLen, Frame;
    ghost var written, part, coming := w.Written(), r.buf[..r.at], r.sock.incoming;
    var n := |w.sock.sent|;
    failed := w.Step();
    if failed {
      return;
    }
    w.WrittenIsPrefix();
    WriteMore(w.packets, r.received, part, coming, written, w.sock.sent[n..]);
    assert before + (written + w.sock.sent[n..]) == (before + written) + w.sock.sent[n..];
    Carry(w.sock, r.sock, n);
  }

  method ReadStep(w: Writer, r: Reader, ghost before: seq<u8>) returns (failed: bool)
    requires Linked(w, r, before) && r.Ready()
    modifies r`at, r`received, r.buf, r.sock`incoming, r.sock`broken
    ensures old(r.sock.broken) ==> r.sock.broken
    ensures failed ==> r.sock.broken && r.received == old(r.received)
    ensures !failed ==> Linked(w, r, before) && Left(w, r) < old(Left(w, r))
  {
    hide Stream, FrameLen, Frame, FrameOk;
    ghost var part, coming, got := r.buf[..r.at], r.sock.incoming, r.received;
    ghost var bytes;
    failed, bytes := r.Step();
    ReadMore(w.packets, got, part, coming, w.Written(), bytes, r.sock.incoming);
    assert r.at == 0 ==> r.buf[..r.at] == [];
  }

  /**
   Packets written to one end of a connection while they are read from the other, the two taking their system calls
   in any order and moving any number of bytes at each. At every moment the packets received are a beginning of those
   written. Nothing but a failing system call stops it before all are received, in order, with nothing left.
   */
  method Session(a: Socket, b: Socket, packets: seq<Packet>) returns (received: seq<Packet>)
    requires a != b && forall p | p in packets :: |p.payload| < 0x1_0000
    modifies a`sent, a`broken, b`incoming, b`broken
    ensures (old(a.broken) ==> a.broken) && (old(b.broken) ==> b.broken)
    ensures received <= packets
    ensures !a.broken && !b.broken ==>
              received == packets && b.incoming == [] && a.sent == old(a.sent) + Stream(packets)
  {
    hide Stream, FrameOk, FrameLen, Frame, InTransit, Left;
    b.incoming := [];
    var w := new Writer(a, packets);
    var r := new Reader(b);
    Nothing(packets);
    assert r.buf[..0] == [] && a.sent + [] == a.sent;
    while true
      invariant fresh(w) && fresh(r) && fresh(w.pkt) && fresh(r.buf) && Linked(w, r, old(a.sent))
      invariant (old(a.broken) ==> a.broken) && (old(b.broken) ==> b.broken)
      decreases Left(w, r)
    {
      received := r.received;
      ReceivedIsPrefix(w, r, old(a.sent));
      var writes: bool := *;
      var failed;
      if w.Done() && !r.Ready() {
        break;
      } else if !r.Ready() || (writes && !w.Done()) {
        failed := WriteStep(w, r, old(a.sent));
      } else {
        failed := ReadStep(w, r, old(a.sent));
      }
      if failed {
        return;
      }
    }
    w.WrittenIsPrefix();
    AllReceived(packets, r.received, r.buf[..r.at], b.incoming);
  }

  lemma ReceivedIsPrefix(w: Writer, r: Reader, before: seq<u8>)
    requires Linked(w, r, before)
    ensures r.received <= w.packets && Left(w, r) >= 0
  {
    w.WrittenIsPrefix();
  }

  lemma Nothing(packets: seq<Packet>)
    ensures InTransit(packets, [], [], [], [])
  {}
}
