/**
 Transport-stream packets (section 2.4.3.2 of ISO/IEC 13818-1): what the
 demultiplexer takes out of the 188 bytes, and a printer of packets.
 */
module Transport {
  import opened Bytes

  type Packet = p: seq<u8> | |p| == 188 witness seq(188, i => 0)

  const NUM_PIDS := 0x2000

  type Pid = p: nat | p < NUM_PIDS

  /** What one packet means to the collector of its PID. */
  datatype Fragment =
    | Skip                   // no payload to collect
    | Lost                   // a unit start whose pointer leaves the packet
    | First(data: seq<u8>)   // payload from a unit start on
    | Next(data: seq<u8>)    // more payload

  function PidOf(p: Packet): Pid {
    BE16(p[1], p[2]) % 0x2000
  }

  /** Where the payload starts, after the adaptation field if there is one. */
  function PayloadAt(p: Packet): nat {
    if Bit(p[3], 0x20) then (var length: nat := p[4]; length + 5) else 4
  }

  predicate Usable(p: Packet) {
    p[0] == 0x47 && !Bit(p[1], 0x80) && PayloadAt(p) < 188
  }

  function Classify(p: Packet): (f: Fragment)
    ensures f.First? || f.Next? ==> 0 < |f.data| <= 184
  {
    if !Usable(p) then Skip
    else if Bit(p[1], 0x40) then
      var pointer: nat := p[PayloadAt(p)];
      var pos := PayloadAt(p) + pointer + 1;
      if pos >= 188 then Lost else First(p[pos..])
    else Next(p[PayloadAt(p)..])
  }

  // ---------- Printing packets ----------

  /** The parts of a packet a multiplexer is free to choose. */
  datatype Shape = Shape(flags: u8, adaptation: Option<seq<u8>>, pointed: seq<u8>)

  function AdaptationBytes(sh: Shape): seq<u8>
    requires sh.adaptation.Some? ==> |sh.adaptation.value| < 256
  {
    if sh.adaptation.Some? then [|sh.adaptation.value|] + sh.adaptation.value else []
  }

  function PointerBytes(sh: Shape, start: bool): seq<u8>
    requires |sh.pointed| < 256
  {
    if start then [|sh.pointed|] + sh.pointed else []
  }

  /** How much payload a packet of this shape carries. */
  function Room(sh: Shape, start: bool): int {
    184 - (if sh.adaptation.Some? then 1 + |sh.adaptation.value| else 0) - (if start then 1 + |sh.pointed| else 0)
  }

  /** A shape that leaves payload, whose flag byte announces the adaptation field as it is. */
  predicate ShapeOk(sh: Shape, start: bool) {
    Room(sh, start) > 0 && |sh.pointed| < 256 && (Bit(sh.flags, 0x20) <==> sh.adaptation.Some?)
  }

  /** The four bytes of header: sync, the unit start bit over the PID, and the flags. */
  function HeadBytes(pid: Pid, start: bool, flags: u8): (s: seq<u8>)
    ensures |s| == 4
    ensures s[0] == 0x47 && s[3] == flags && BE16(s[1], s[2]) % 0x2000 == pid
    ensures !Bit(s[1], 0x80) && (Bit(s[1], 0x40) <==> start)
  {
    [0x47, (if start then 0x40 else 0) + pid / 256, pid % 256, flags]
  }

  /** Where the parts of a packet are. */
  lemma Parts(head: seq<u8>, a: seq<u8>, b: seq<u8>, data: seq<u8>)
    requires |head| == 4
    ensures var p := head + a + b + data;
            && p[0] == head[0] && p[1] == head[1] && p[2] == head[2] && p[3] == head[3]
            && (a != [] ==> p[4] == a[0]) && (b != [] ==> p[4 + |a|] == b[0])
            && p[4 + |a| + |b|..] == data
  {}

  function MakePacket(pid: Pid, start: bool, sh: Shape, data: seq<u8>): (p: Packet)
    requires ShapeOk(sh, start) && |data| == Room(sh, start)
    ensures PidOf(p) == pid && p[0] == 0x47
    ensures Classify(p) == if start then First(data) else Next(data)
  {
    var head, a, b := HeadBytes(pid, start, sh.flags), AdaptationBytes(sh), PointerBytes(sh, start);
    Parts(head, a, b, data);
    head + a + b + data
  }

  /** Cutting data into packets of the given shapes; the last one is filled up with 0xff. */
  predicate Fits(data: seq<u8>, shapes: seq<Shape>, start: bool) {
    && shapes != [] && ShapeOk(shapes[0], start)
    && if |shapes| == 1 then 0 < |data| <= Room(shapes[0], start)
       else |data| > Room(shapes[0], start) && Fits(data[Room(shapes[0], start)..], shapes[1..], false)
  }

  /** Without adaptation fields anything can be cut. */
  lemma PlainCut(data: seq<u8>, start: bool) returns (shapes: seq<Shape>)
    requires data != []
    ensures Fits(data, shapes, start)
    decreases |data|
  {
    var plain := Shape(0x10, None, []);
    shapes := [plain];
    if |data| > Room(plain, start) {
      var rest := PlainCut(data[Room(plain, start)..], false);
      shapes := shapes + rest;
      assert shapes[1..] == rest;
    }
  }

  function Stuffing(n: nat): (s: seq<u8>)
    ensures |s| == n
  {
    seq(n, i => 0xff)
  }

  function Cut(pid: Pid, data: seq<u8>, shapes: seq<Shape>, start: bool): (ps: seq<Packet>)
    requires Fits(data, shapes, start)
    ensures |ps| == |shapes|
  {
    var room := Room(shapes[0], start);
    if |shapes| == 1 then [MakePacket(pid, start, shapes[0], data + Stuffing(room - |data|))]
    else [MakePacket(pid, start, shapes[0], data[..room])] + Cut(pid, data[room..], shapes[1..], false)
  }

  /** A null packet, as a multiplexer sends when it has nothing to send. */
  function NullPacket(): (p: Packet)
    ensures PidOf(p) == 0x1fff && p[0] == 0x47
  {
    MakePacket(0x1fff, false, Shape(0, None, []), Stuffing(184))
  }
}
