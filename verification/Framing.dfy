/**
 Frames of the control channel (socket.cpp): one printer, a stream reader that
 takes whatever pieces the connection hands it, and a datagram reader.
 */
module Framing {
  import opened Bytes
  import opened FrameCrc
  import M = MpegCrc
  import Gf2

  // ---------- Frames ----------

  function Body(kind: u8, payload: seq<u8>): (s: seq<u8>)
    ensures |s| == |payload| + 4
  {
    [0, kind, (|payload| / 256) % 256, |payload| % 256] + payload
  }

  /** Two bytes of type, two of length, the payload and the checksum. The length field keeps 16 bits. */
  function Frame(kind: u8, payload: seq<u8>): (s: seq<u8>)
    ensures |s| == |payload| + 8
  {
    Body(kind, payload) + LE32Bytes(Crc(Body(kind, payload)))
  }

  /** The length a frame says it has. */
  function FrameLen(s: seq<u8>): nat
    requires |s| >= 4
  {
    BE16(s[2], s[3]) + 8
  }

  datatype Parsed =
    | Incomplete
    | Corrupt(rest: seq<u8>)
    | Accepted(kind: u8, payload: seq<u8>, rest: seq<u8>)

  /** The first frame of a byte stream. */
  function ParseOne(s: seq<u8>): Parsed {
    if |s| < 4 || |s| < FrameLen(s) then Incomplete
    else
      var n := FrameLen(s);
      if FrameOk(s[..n]) then Accepted(s[1], s[4..n - 4], s[n..]) else Corrupt(s[n..])
  }

  datatype Packet = Packet(kind: u8, payload: seq<u8>)

  /** Reading frames off a stream until one is not there or not good. */
  function ParseAll(s: seq<u8>): (r: (seq<Packet>, seq<u8>))
    decreases |s|
  {
    match ParseOne(s)
    case Accepted(kind, payload, rest) =>
      var (ps, left) := ParseAll(rest);
      ([Packet(kind, payload)] + ps, left)
    case _ => ([], s)
  }

  function Stream(ps: seq<Packet>): seq<u8> {
    if ps == [] then [] else Frame(ps[0].kind, ps[0].payload) + Stream(ps[1..])
  }

  lemma FrameIsGood(kind: u8, payload: seq<u8>)
    ensures FrameOk(Frame(kind, payload))
  {
    hide Crc, Body, LE32Bytes;
    var f := Frame(kind, payload);
    assert f[..|f| - 4] == Body(kind, payload);
    assert f[|f| - 4..] == LE32Bytes(Crc(Body(kind, payload)));
  }

  lemma FrameStart(kind: u8, payload: seq<u8>, rest: seq<u8>)
    ensures (Frame(kind, payload) + rest)[..4] == [0, kind, (|payload| / 256) % 256, |payload| % 256]
  {
    hide Crc, LE32Bytes;
    assert Frame(kind, payload)[..4] == Body(kind, payload)[..4];
  }

  /** Two bytes keep a length modulo 65536. */
  lemma LengthField(n: nat)
    ensures BE16((n / 256) % 256, n % 256) == n % 0x1_0000
  {
    var q, hi, lo := n / 0x1_0000, (n / 256) % 256, n % 256;
    assert n == 0x1_0000 * q + (256 * hi + lo) by {
      assert n == 256 * (n / 256) + lo;
      assert n / 256 == 256 * (n / 256 / 256) + hi;
      assert n / 256 / 256 == q;
    }
  }

  lemma FrameHeader(kind: u8, payload: seq<u8>, rest: seq<u8>)
    ensures var s := Frame(kind, payload) + rest;
            && s[1] == kind
            && FrameLen(s) == |payload| % 0x1_0000 + 8
  {
    hide Frame, BE16;
    var s := Frame(kind, payload) + rest;
    FrameStart(kind, payload, rest);
    LengthField(|payload|);
    assert s[1] == s[..4][1] && s[2] == s[..4][2] && s[3] == s[..4][3];
  }

  /** The layout of a frame: its type in the second byte, the length of the payload, the payload and the checksum. */
  lemma FrameLayout(kind: u8, payload: seq<u8>)
    requires |payload| < 0x1_0000
    ensures var f, n := Frame(kind, payload), |payload|;
            && |f| == n + 8 && f[0] == 0 && f[1] == kind && f[2] == n / 256 && f[3] == n % 256
            && f[4..n + 4] == payload
            && f[n + 4..] == LE32Bytes(Crc([0, kind, n / 256, n % 256] + payload))
  {
    hide Crc, LE32Bytes;
    var n := |payload|;
    assert (n / 256) % 256 == n / 256;
    assert Body(kind, payload) == [0, kind, n / 256, n % 256] + payload;
  }

  lemma FramePayload(kind: u8, payload: seq<u8>)
    ensures Frame(kind, payload)[4..|payload| + 4] == payload
  {
    hide Crc, LE32Bytes;
  }

  /** The reader undoes the printer exactly when the length field can hold the payload's length. */
  lemma FrameRoundTrip(kind: u8, payload: seq<u8>, rest: seq<u8>)
    ensures ParseOne(Frame(kind, payload) + rest) == Accepted(kind, payload, rest) <==> |payload| < 0x1_0000
  {
    hide Frame, FrameOk, FrameLen;
    var f := Frame(kind, payload);
    var s := f + rest;
    FrameIsGood(kind, payload);
    FrameHeader(kind, payload, rest);
    if |payload| < 0x1_0000 {
      FramePayload(kind, payload);
      var n := FrameLen(s);
      assert s[..n] == f;
      assert s[4..n - 4] == f[4..n - 4];
      assert s[n..] == rest;
    }
  }

  /** Any list of packets comes back from its stream in order, with nothing left over. */
  lemma {:induction false} StreamRoundTrip(ps: seq<Packet>)
    requires forall p | p in ps :: |p.payload| < 0x1_0000
    ensures ParseAll(Stream(ps)) == (ps, [])
  {
    if ps == [] {
    } else {
      var rest := Stream(ps[1..]);
      FrameRoundTrip(ps[0].kind, ps[0].payload, rest);
      StreamRoundTrip(ps[1..]);
      assert [Packet(ps[0].kind, ps[0].payload)] + ps[1..] == ps;
    }
  }

  /** Writing one more packet extends the stream by its frame. */
  lemma {:induction false} StreamSnoc(ps: seq<Packet>, p: Packet)
    ensures Stream(ps + [p]) == Stream(ps) + Frame(p.kind, p.payload)
  {
    hide Frame;
    if ps == [] {
      assert ps + [p] == [p];
      assert [p][1..] == [];
      assert Stream([p]) == Frame(p.kind, p.payload) + Stream([]);
    } else {
      assert (ps + [p])[1..] == ps[1..] + [p];
      StreamSnoc(ps[1..], p);
    }
  }

  /** A frame damaged within 32 consecutive bits never passes as a datagram. */
  lemma DamagedFrameIsNotAccepted(kind: u8, payload: seq<u8>, d: seq<u8>, start: nat)
    requires |d| == |payload| + 8 && d != Frame(kind, payload)
    requires Gf2.DifferWithin32(M.Bits(Mirrored(Frame(kind, payload))), M.Bits(Mirrored(d)), start)
    ensures !DatagramOk(d)
  {
    FrameIsGood(kind, payload);
    FrameBurstIsRejected(Frame(kind, payload), d, start);
  }

  // ---------- Printing ----------

  /** The header in front of the payload. */
  method PktHead(pkt: array<u8>, n: nat, kind: u8)
    requires n + 8 <= pkt.Length
    modifies pkt
    ensures pkt[..n + 4] == Body(kind, old(pkt[4..n + 4]))
    ensures pkt[n + 4..] == old(pkt[n + 4..])
  {
    pkt[0] := 0;
    pkt[1] := kind;
    pkt[2] := (n / 256) % 256;
    pkt[3] := n % 256;
  }

  /** The checksum, least significant byte first. */
  method PutCrc(pkt: array<u8>, at: nat, crc: bv32)
    requires at + 4 <= pkt.Length
    modifies pkt
    ensures pkt[..at + 4] == old(pkt[..at]) + LE32Bytes(crc)
    ensures pkt[at + 4..] == old(pkt[at + 4..])
  {
    hide Number, Byte0, Byte1, Byte2, Byte3;
    pkt[at] := Number(Byte0(crc));
    pkt[at + 1] := Number(Byte1(crc));
    pkt[at + 2] := Number(Byte2(crc));
    pkt[at + 3] := Number(Byte3(crc));
  }

  /** pkt_add_crc */
  method PktAddCrc(pkt: array<u8>, len: nat, kind: u8)
    requires 8 <= len <= pkt.Length
    modifies pkt
    ensures pkt[..len] == Frame(kind, old(pkt[4..len - 4]))
    ensures pkt[len..] == old(pkt[len..])
  {
    hide Crc, Body, LE32Bytes;
    var n := len - 8;
    PktHead(pkt, n, kind);
    assert pkt[len..] == pkt[n + 4..][4..] == old(pkt[n + 4..])[4..];
    var crc := TunerCalcCrc(pkt, n + 4);
    PutCrc(pkt, n + 4, crc);
  }

  /** The comparison both readers make between the last four bytes and the checksum of those before. */
  method CheckCrc(pkt: array<u8>, r: nat) returns (ok: bool)
    requires 4 <= r <= pkt.Length
    ensures ok <==> FrameOk(pkt[..r])
  {
    hide Crc, Number, Byte0, Byte1, Byte2, Byte3;
    ghost var f := pkt[..r];
    assert f[..r - 4] == pkt[..r - 4];
    assert f[r - 4..] == [pkt[r - 4], pkt[r - 3], pkt[r - 2], pkt[r - 1]];
    var crc := TunerCalcCrc(pkt, r - 4);
    ok := pkt[r - 4] == Number(Byte0(crc)) && pkt[r - 3] == Number(Byte1(crc)) &&
          pkt[r - 2] == Number(Byte2(crc)) && pkt[r - 1] == Number(Byte3(crc));
  }

  lemma SamePayload(pkt: array<u8>, n: nat, s: seq<u8>)
    requires 4 <= n && n + 4 <= pkt.Length && n + 4 <= |s| && pkt[..n + 4] == s[..n + 4]
    ensures pkt[1] == s[1] && pkt[4..n] == s[4..n]
  {
    forall i | 0 <= i < n + 4 ensures pkt[i] == s[i] {
      assert pkt[i] == pkt[..n + 4][i];
    }
  }

  lemma TakeMore(f: seq<u8>, ofs: nat, left: nat, r: nat)
    requires ofs + left <= |f| && r <= left
    ensures f[..ofs + r] == f[..ofs] + f[ofs..ofs + left][..r]
  {}

  /** `RunsOff` is a frame longer than the buffer: what the program does then is not modelled. */
  datatype Outcome = NotEnough | Received(n: nat) | IoFailed | BadCrc | RunsOff

  /** A connection: the bytes sent so far and the bytes still to come. `broken` says that a system call failed. */
  class Socket {
    var sent: seq<u8>
    var incoming: seq<u8>

    ghost var broken: bool

    constructor ()
      ensures sent == [] && incoming == [] && !broken
    {
      sent, incoming, broken := [], [], false;
    }

    /** The write call: takes a non-empty part of the bytes, or fails. */
    method SysWrite(data: seq<u8>) returns (r: int)
      requires data != []
      modifies this`sent, this`broken
      ensures broken == (old(broken) || r < 0)
      ensures r < 0 ==> sent == old(sent)
      ensures r >= 0 ==> 1 <= r <= |data| && sent == old(sent) + data[..r]
    {
      if * {
        broken := true;
        r := -1;
      } else {
        r :| 1 <= r <= |data|;
        sent := sent + data[..r];
      }
    }

    /** The read call: hands over at least one byte and at most `n`, or fails. Where nothing is to come it fails too. */
    method SysRead(pkt: array<u8>, ofs: nat, n: nat) returns (r: int)
      requires n > 0 && ofs + n <= pkt.Length
      modifies this`incoming, this`broken, pkt
      ensures broken == (old(broken) || (r < 0 && old(incoming) != []))
      ensures r < 0 ==> incoming == old(incoming) && pkt[..] == old(pkt[..])
      ensures r >= 0 ==> 1 <= r <= n && r <= |old(incoming)|
      ensures r >= 0 ==> incoming == old(incoming)[r..]
      ensures r >= 0 ==> pkt[..] == old(pkt[..ofs]) + old(incoming)[..r] + old(pkt[ofs + r..])
    {
      var fails: bool := *;
      if incoming == [] || fails {
        broken := broken || incoming != [];
        return -1;
      }
      r :| 1 <= r <= n && r <= |incoming|;
      forall k | 0 <= k < r { pkt[ofs + k] := incoming[k]; }
      incoming := incoming[r..];
    }

    /** socket::write */
    method Write(pkt: array<u8>, pktlen: nat, kind: u8) returns (failed: bool)
      requires 8 <= pktlen <= pkt.Length
      modifies this`sent, this`broken, pkt
      ensures broken == (old(broken) || failed)
      ensures !failed ==> sent == old(sent) + Frame(kind, old(pkt[4..pktlen - 4]))
      ensures failed ==> old(sent) <= sent < old(sent) + Frame(kind, old(pkt[4..pktlen - 4]))
    {
      hide Frame, FrameOk, Crc;
      PktAddCrc(pkt, pktlen, kind);
      ghost var f := pkt[..pktlen];
      var ofs: nat, left: nat := 0, pktlen;
      while left > 0
        invariant ofs + left == pktlen
        invariant pkt[..pktlen] == f
        invariant sent == old(sent) + f[..ofs] && broken == old(broken)
        decreases left
      {
        var r := SysWrite(pkt[ofs..ofs + left]);
        if r < 0 {
          return true;
        }
        assert pkt[ofs..ofs + left] == f[ofs..ofs + left];
        TakeMore(f, ofs, left, r);
        ofs := ofs + r;
        left := left - r;
      }
      assert f[..pktlen] == f;
      return false;
    }

    /** One of the two loops of socket::read: fill `n` bytes at `ofs` from any pieces. */
    method Fill(pkt: array<u8>, ofs: nat, n: nat) returns (failed: bool)
      requires ofs + n <= pkt.Length
      modifies this`incoming, this`broken, pkt
      ensures failed ==> broken || |old(incoming)| < n
      ensures old(broken) ==> broken
      ensures !failed ==> broken == old(broken)
      ensures !failed ==> n <= |old(incoming)| && incoming == old(incoming)[n..]
      ensures !failed ==> pkt[..ofs + n] == old(pkt[..ofs]) + old(incoming)[..n]
    {
      var at: nat, left: nat := ofs, n;
      while left > 0
        invariant at + left == ofs + n && at >= ofs && broken == old(broken)
        invariant at - ofs <= |old(incoming)| && incoming == old(incoming)[at - ofs..]
        invariant pkt[..at] == old(pkt[..ofs]) + old(incoming)[..at - ofs]
        decreases left
      {
        ghost var before, got := pkt[..at], incoming;
        var r := SysRead(pkt, at, left);
        if r < 0 {
          return true;
        }
        assert pkt[..at + r] == before + got[..r];
        at := at + r;
        left := left - r;
      }
      return false;
    }

    /**
     socket::read, into a buffer of `limit` bytes when `nread` bytes have arrived. It fails only if a system call
     failed, the stream ends within the frame, or the frame is damaged.
     */
    method Read(pkt: array<u8>, limit: nat, nread: nat) returns (out: Outcome)
      requires limit <= pkt.Length
      requires nread <= |incoming|
      modifies this`incoming, this`broken, pkt
      ensures old(broken) ==> broken
      ensures out.IoFailed? ==> broken || ParseOne(old(incoming)).Incomplete?
      ensures !out.IoFailed? ==> broken == old(broken)
      ensures out.NotEnough? <==> nread < 4 || limit < 4
      ensures out.NotEnough? ==> incoming == old(incoming)
      ensures out.RunsOff? ==> |old(incoming)| >= 4 && FrameLen(old(incoming)) > pkt.Length
      ensures out.Received? || out.BadCrc? ==> |old(incoming)| >= 4 && FrameLen(old(incoming)) <= |old(incoming)|
      ensures out.Received? ==> 4 <= out.n <= pkt.Length && out.n == FrameLen(old(incoming)) - 4
      ensures out.Received? ==> ParseOne(old(incoming)) == Accepted(pkt[1], pkt[4..out.n], incoming)
      ensures out.BadCrc? ==> ParseOne(old(incoming)) == Corrupt(incoming)
    {
      hide FrameOk;
      var n := limit;
      if nread < n {
        n := nread;
      }
      if n < 4 {
        return NotEnough;
      }
      var failed := Fill(pkt, 0, 4);
      if failed {
        return IoFailed;
      }
      ghost var s := old(incoming);
      assert pkt[..4] == s[..4];
      assert pkt[2] == pkt[..4][2] && pkt[3] == pkt[..4][3];
      n := BE16(pkt[2], pkt[3]) + 4;
      if n + 4 > pkt.Length {
        return RunsOff;
      }
      failed := Fill(pkt, 4, n);
      if failed {
        return IoFailed;
      }
      assert pkt[..n + 4] == s[..4] + s[4..][..n] == s[..n + 4];
      var ok := CheckCrc(pkt, n + 4);
      if !ok {
        return BadCrc;
      }
      SamePayload(pkt, n, s);
      return Received(n);
    }

    /** Writes packets one after another. */
    method SendAll(packets: seq<Packet>) returns (failed: bool)
      modifies this`sent, this`broken
      ensures broken == (old(broken) || failed)
      ensures !failed ==> sent == old(sent) + Stream(packets)
    {
      hide Frame, Stream;
      var i := 0;
      NoPackets();
      while i < |packets|
        invariant 0 <= i <= |packets| && broken == old(broken)
        invariant sent == old(sent) + Stream(packets[..i])
      {
        var p := packets[i];
        var len := |p.payload| + 8;
        var pkt := new u8[len];
        forall k | 0 <= k < |p.payload| { pkt[4 + k] := p.payload[k]; }
        assert pkt[4..len - 4] == p.payload;
        failed := Write(pkt, len, p.kind);
        if failed {
          return;
        }
        StreamSnoc(packets[..i], p);
        assert packets[..i + 1] == packets[..i] + [p];
        i := i + 1;
      }
      failed := false;
      assert packets[..i] == packets;
    }

    /** Reads packets while there are bytes for a header and each read gives one. */
    method ReceiveAll() returns (received: seq<Packet>)
      modifies this`incoming, this`broken
      ensures old(broken) ==> broken
      ensures received <= ParseAll(old(incoming)).0
      ensures !broken ==> received == ParseAll(old(incoming)).0
      ensures !broken && ParseAll(old(incoming)).1 == [] ==> incoming == []
    {
      hide FrameOk, FrameLen, ParseAll, ParseOne;
      var pkt := new u8[0xffff + 8];
      received := [];
      assert [] + ParseAll(incoming).0 == ParseAll(incoming).0;
      while |incoming| >= 4
        invariant ParseAll(old(incoming)).0 == received + ParseAll(incoming).0
        invariant ParseAll(old(incoming)).1 == ParseAll(incoming).1
        invariant broken == old(broken)
        decreases |incoming|
      {
        ghost var s := incoming;
        var nread: nat :| 4 <= nread <= |incoming|;
        var out := Read(pkt, pkt.Length, nread);
        if out.RunsOff? {
          LongestFrame(s);
          assert false;
        }
        if !out.Received? {
          if !broken {
            NoFrame(s);
          }
          return;
        }
        OneFrame(s, received);
        RestIsShorter(s);
        received := received + [Packet(pkt[1], pkt[4..out.n])];
      }
      assert ParseOne(incoming).Incomplete? by { ShortStream(incoming); }
      NoFrame(incoming);
    }
  }

  lemma ShortStream(s: seq<u8>)
    requires |s| < 4
    ensures ParseOne(s).Incomplete?
  {}

  lemma NoPackets()
    ensures Stream([]) == []
  {}

  lemma LongestFrame(s: seq<u8>)
    requires |s| >= 4
    ensures FrameLen(s) <= 0xffff + 8
  {}

  lemma NoFrame(s: seq<u8>)
    requires !ParseOne(s).Accepted?
    ensures ParseAll(s) == ([], s)
  {}

  /** A frame taken off the front is the next packet. */
  lemma OneFrame(s: seq<u8>, before: seq<Packet>)
    requires ParseOne(s).Accepted?
    ensures var p := ParseOne(s);
            && before + ParseAll(s).0 == (before + [Packet(p.kind, p.payload)]) + ParseAll(p.rest).0
            && ParseAll(s).1 == ParseAll(p.rest).1
  {
    hide ParseOne;
  }

  lemma RestIsShorter(s: seq<u8>)
    requires ParseOne(s).Accepted?
    ensures |ParseOne(s).rest| < |s|
  {
    hide FrameOk;
  }

  // ---------- Datagrams ----------

  /** A datagram is one whole frame. */
  predicate DatagramOk(d: seq<u8>) {
    |d| >= 4 && FrameOk(d) && FrameLen(d) == |d|
  }

  /** The two readers agree on single frames: same bytes accepted, same type, same payload. */
  lemma DatagramIsOneFrame(d: seq<u8>)
    ensures DatagramOk(d) <==> ParseOne(d).Accepted? && ParseOne(d).rest == []
    ensures DatagramOk(d) ==> ParseOne(d) == Accepted(d[1], d[4..|d| - 4], [])
  {
    if |d| >= 4 && FrameLen(d) == |d| {
      assert d[..|d|] == d;
    }
  }

  /**
   `Closed` is an empty datagram. On one `TooShort` for a checksum the program's length goes below zero; what it does
   then is not modelled.
   */
  datatype Arrival = Taken(rxlen: nat) | Refused | Closed | TooShort

  /** udp_pkt_recv, after a datagram of `r` bytes has arrived in `rx`. */
  method UdpPktRecv(rx: array<u8>, r: nat) returns (out: Arrival)
    requires r <= rx.Length
    modifies rx
    ensures out.Taken? <==> DatagramOk(old(rx[..r]))
    ensures out.Taken? ==> out.rxlen == r - 6 && rx[..out.rxlen] == old(rx[..2]) + old(rx[4..r - 4])
    ensures !out.Taken? ==> rx[..] == old(rx[..])
    ensures (out.Closed? <==> r == 0) && (out.TooShort? <==> 0 < r < 4)
  {
    hide FrameOk;
    if r == 0 {
      return Closed;
    }
    if r < 4 {
      return TooShort;
    }
    var ok := CheckCrc(rx, r);
    if !ok {
      return Refused;
    }
    if BE16(rx[2], rx[3]) + 8 != r {
      return Refused;
    }
    // remove the 2-byte length
    forall k | 0 <= k < r - 6 { rx[2 + k] := rx[4 + k]; }
    return Taken(r - 6);
  }
}
