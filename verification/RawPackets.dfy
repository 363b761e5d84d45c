/**
 What the demultiplexer makes of the bytes of a packet, said of the bytes alone: which packets do not count at all, over
 every run, and which lose what was collected.
 */
module RawPackets {
  import opened Bytes
  import opened Transport
  import opened Reassembly
  import opened Psi
  import opened Decoder

  /** A wrong sync byte, the error bit, or an adaptation field that leaves no payload. */
  predicate Idle(p: Packet) {
    p[0] != 0x47 || p[1] >= 0x80 || (p[3] % 0x40 >= 0x20 && p[4] >= 183)
  }

  /** The low five bits of byte 1, and byte 2. */
  function PidBits(p: Packet): nat {
    var hi: nat, lo: nat := p[1], p[2];
    hi % 0x20 * 256 + lo
  }

  predicate ErrorBit(p: Packet) { p[1] >= 0x80 }

  /** Where the payload starts: after the four bytes of header and the adaptation field. */
  function Start(p: Packet): (at: nat)
    ensures !Idle(p) ==> at < 188
  {
    if p[3] % 0x40 >= 0x20 then (var length: nat := p[4]; length + 5) else 4
  }

  /** The payload of a unit start begins behind its pointer field, if it is still in the packet. */
  function PointedAt(p: Packet): nat
    requires !Idle(p)
  {
    var pointer: nat := p[Start(p)];
    Start(p) + 1 + pointer
  }

  lemma TopBits(b: u8)
    ensures Bit(b, 0x80) <==> b >= 0x80
    ensures Bit(b, 0x40) <==> b % 0x80 >= 0x40
    ensures Bit(b, 0x20) <==> b % 0x40 >= 0x20
  {
    assert b == 0x80 * (b / 0x80) + b % 0x80;
    assert b == 0x40 * (b / 0x40) + b % 0x40;
    assert b == 0x20 * (b / 0x20) + b % 0x20;
    assert b / 0x40 == 2 * (b / 0x80) + (b / 0x40) % 2;
    assert b / 0x20 == 2 * (b / 0x40) + (b / 0x20) % 2;
  }

  /** What a packet means to the collector of its PID, by its bytes. */
  lemma PacketMeaning(p: Packet)
    ensures PidOf(p) == PidBits(p)
    ensures Idle(p) <==> Classify(p).Skip?
    ensures !Idle(p) && p[1] % 0x80 < 0x40 ==> Classify(p) == Next(p[Start(p)..])
    ensures !Idle(p) && p[1] % 0x80 >= 0x40 && PointedAt(p) < 188 ==> Classify(p) == First(p[PointedAt(p)..])
    ensures !Idle(p) && p[1] % 0x80 >= 0x40 && PointedAt(p) >= 188 ==> Classify(p) == Lost
  {
    hide Bit;
    TopBits(p[1]);
    TopBits(p[3]);
    PidByte(p[1], p[2]);
  }

  lemma PidByte(hi: u8, lo: u8)
    ensures var h: nat, l: nat := hi, lo; BE16(hi, lo) % 0x2000 == h % 0x20 * 256 + l
  {
    var h: nat, l: nat := hi, lo;
    var rest := h % 0x20 * 256 + l;
    assert h == 0x20 * (h / 0x20) + h % 0x20;
    Below(h / 0x20, rest);
  }

  lemma Below(q: nat, rest: nat)
    requires rest < 0x2000
    ensures (0x2000 * q + rest) % 0x2000 == rest
  {}

  // ---------- Packets that do not count ----------

  /** A run without the packets that are `bad`. */
  function Without(ps: seq<Packet>, bad: Packet -> bool): seq<Packet> {
    if ps == [] then [] else
      var before, p := Without(ps[..|ps| - 1], bad), ps[|ps| - 1];
      if bad(p) then before else before + [p]
  }

  lemma SkipsDoNotCount(h: seq<Fragment>)
    ensures Collected(h + [Skip]) == Collected(h) && Delivered(h + [Skip]) == None
    ensures Deliveries(h + [Skip]) == Deliveries(h)
  {
    LastOf(h, Skip);
  }

  /** What is collected decides what one more fragment delivers. */
  lemma SameCollected(h: seq<Fragment>, g: seq<Fragment>, f: Fragment)
    requires Collected(h) == Collected(g) && Deliveries(h) == Deliveries(g)
    ensures Collected(h + [f]) == Collected(g + [f]) && Delivered(h + [f]) == Delivered(g + [f])
    ensures Deliveries(h + [f]) == Deliveries(g + [f])
  {
    LastOf(h, f);
    LastOf(g, f);
  }

  lemma FragmentsSnoc(ps: seq<Packet>, p: Packet, pid: Pid)
    ensures Fragments(ps + [p], pid) ==
            if PidOf(p) == pid then Fragments(ps, pid) + [Classify(p)] else Fragments(ps, pid)
  {
    LastOf(ps, p);
  }

  lemma {:induction false} SameOnEveryPid(ps: seq<Packet>, bad: Packet -> bool, pid: Pid)
    requires forall p: Packet | p in ps && bad(p) :: Idle(p)
    ensures var h, g := Fragments(ps, pid), Fragments(Without(ps, bad), pid);
            Collected(h) == Collected(g) && Deliveries(h) == Deliveries(g)
  {
    hide PidOf, Classify, Collected, Deliveries, Delivered, Idle, Fragments;
    if ps != [] {
      var before, p := ps[..|ps| - 1], ps[|ps| - 1];
      assert ps == before + [p];
      SameOnEveryPid(before, bad, pid);
      FragmentsSnoc(before, p, pid);
      FragmentsSnoc(Without(before, bad), p, pid);
      if bad(p) {
        assert p in ps;
        PacketMeaning(p);
        SkipsDoNotCount(Fragments(before, pid));
      } else {
        SameCollected(Fragments(before, pid), Fragments(Without(before, bad), pid), Classify(p));
      }
    }
  }

  lemma OneMorePacket(base: Tables, ps: seq<Packet>, p: Packet)
    ensures DeliveredBy(ps + [p]) == Delivered(Fragments(ps, PidOf(p)) + [Classify(p)])
    ensures TablesAfter(base, ps + [p]) == match DeliveredBy(ps + [p])
                                           case None => TablesAfter(base, ps)
                                           case Some(s) => ParseTbl(TablesAfter(base, ps), s, PidOf(p))
  {
    LastOf(ps, p);
  }

  lemma {:induction false} SameTables(base: Tables, ps: seq<Packet>, bad: Packet -> bool)
    requires forall p: Packet | p in ps && bad(p) :: Idle(p)
    ensures TablesAfter(base, ps) == TablesAfter(base, Without(ps, bad))
  {
    hide PidOf, Classify, Collected, Deliveries, Delivered, Idle, Fragments, ParseTbl, TablesAfter, DeliveredBy;
    if ps != [] {
      var before, p := ps[..|ps| - 1], ps[|ps| - 1];
      assert ps == before + [p];
      SameTables(base, before, bad);
      OneMorePacket(base, before, p);
      if bad(p) {
        assert p in ps;
        PacketMeaning(p);
        SkipsDoNotCount(Fragments(before, PidOf(p)));
      } else {
        OneMorePacket(base, Without(before, bad), p);
        SameOnEveryPid(before, bad, PidOf(p));
        SameCollected(Fragments(before, PidOf(p)), Fragments(Without(before, bad), PidOf(p)), Classify(p));
      }
    }
  }

  /**
   Leaving any packets that are idle out of a run changes nothing: neither the sections of any PID, nor what is
   pending of it, nor the tables.
   */
  lemma IdlePacketsDoNotCount(base: Tables, ps: seq<Packet>, bad: Packet -> bool, pid: Pid)
    requires forall p: Packet | p in ps && bad(p) :: Idle(p)
    ensures var qs := Without(ps, bad);
            && Deliveries(Fragments(ps, pid)) == Deliveries(Fragments(qs, pid))
            && Pending(Fragments(ps, pid)) == Pending(Fragments(qs, pid))
            && TablesAfter(base, ps) == TablesAfter(base, qs)
  {
    hide Idle, Fragments, TablesAfter, Deliveries, Collected;
    SameOnEveryPid(ps, bad, pid);
    SameTables(base, ps, bad);
  }

  /** In particular packets whose transport error bit is set do not count, whatever else is in them. */
  lemma DamagedPacketsDoNotCount(base: Tables, ps: seq<Packet>, pid: Pid)
    ensures var qs := Without(ps, ErrorBit);
            && Deliveries(Fragments(ps, pid)) == Deliveries(Fragments(qs, pid))
            && Pending(Fragments(ps, pid)) == Pending(Fragments(qs, pid))
            && TablesAfter(base, ps) == TablesAfter(base, qs)
  {
    IdlePacketsDoNotCount(base, ps, ErrorBit, pid);
  }

  /** So a section comes through if it is what its PID carries in packets without the error bit. */
  lemma SectionAmongDamage(base: Tables, s: seq<u8>, shapes: seq<Shape>, ps: seq<Packet>, own: Pid)
    requires own == 0 || own == 0x1ffb
    requires IsSection(s) && Fits(s, shapes, true)
    requires Only(Without(ps, ErrorBit), own) == Cut(own, s, shapes, true)
    ensures OwnPid(own) && PartOf(TablesAfter(base, ps), own) == PartOf(ParseTbl(base, s, own), own)
  {
    hide Only, Cut, Fits, TablesAfter, ParseTbl, PartOf, Without, IsSection, Deliveries, Fragments, Pending;
    DamagedPacketsDoNotCount(base, ps, own);
    CutSectionIsParsed(base, s, shapes, Without(ps, ErrorBit), own);
  }

  // ---------- Before the first unit start ----------

  /** As long as a PID has no unit start, nothing of it is collected or delivered. */
  lemma {:induction false} NothingBeforeStart(ps: seq<Packet>, pid: Pid)
    requires forall p | p in ps && PidBits(p) == pid :: p[1] % 0x80 < 0x40
    ensures Collected(Fragments(ps, pid)) == [] && Deliveries(Fragments(ps, pid)) == []
  {
    hide PidOf, Classify, Idle, PidBits;
    if ps != [] {
      var before, p := ps[..|ps| - 1], ps[|ps| - 1];
      assert ps == before + [p];
      NothingBeforeStart(before, pid);
      PacketMeaning(p);
      FragmentsSnoc(before, p, pid);
      LastOf(Fragments(before, pid), Classify(p));
    }
  }

  /** The length of a section: the low twelve bits of its second and third byte, and three. */
  lemma SectionLength(s: seq<u8>)
    requires |s| >= 3
    ensures var hi: nat, lo: nat := s[1], s[2]; SectionLen(s) == hi % 16 * 256 + lo + 3
  {
    var hi: nat, lo: nat := s[1], s[2];
    assert BE16(s[1], s[2]) == 0x1000 * (hi / 16) + (hi % 16 * 256 + lo);
  }

  // ---------- A unit start whose pointer leaves the packet ----------

  predicate PointsOutside(p: Packet) {
    !Idle(p) && p[1] % 0x80 >= 0x40 && PointedAt(p) >= 188
  }

  /** It delivers nothing and leaves the tables. */
  lemma NothingFromOutside(base: Tables, ps: seq<Packet>, p: Packet)
    requires PointsOutside(p)
    ensures DeliveredBy(ps + [p]) == None && TablesAfter(base, ps + [p]) == TablesAfter(base, ps)
  {
    hide Idle, PointedAt, TablesAfter, Fragments, ParseTbl, DeliveredBy, PidOf, Classify;
    PacketMeaning(p);
    OneMorePacket(base, ps, p);
    LastOf(Fragments(ps, PidOf(p)), Lost);
  }

  /** What was collected of its PID is lost, and nothing of any other. */
  lemma PendingIsLost(ps: seq<Packet>, p: Packet, pid: Pid)
    requires PointsOutside(p)
    ensures Pending(Fragments(ps + [p], pid)) == if pid == PidBits(p) then [] else Pending(Fragments(ps, pid))
  {
    hide Idle, PointedAt, Fragments, PidOf, Classify, PidBits;
    PacketMeaning(p);
    FragmentsSnoc(ps, p, pid);
    LastOf(Fragments(ps, PidOf(p)), Lost);
  }
}
