/**
 What reassembly means, stated without buffers: collect the payload since the last
 unit start; when a whole section is there, deliver it once.
 */
module Reassembly {
  import opened Bytes
  import opened Transport

  /** The length a section says it has, header included; at most 0x1002. */
  function SectionLen(s: seq<u8>): (n: nat)
    requires |s| >= 3
    ensures 3 <= n <= 0x1002
  {
    BE16(s[1], s[2]) % 0x1000 + 3
  }

  predicate Complete(s: seq<u8>) {
    |s| >= 3 && |s| >= SectionLen(s)
  }

  /** A byte string that is exactly one section. */
  predicate IsSection(s: seq<u8>) {
    |s| >= 3 && |s| == SectionLen(s)
  }

  /** All payload since the last unit start, however much. */
  function Collected(h: seq<Fragment>): seq<u8> {
    if h == [] then [] else
      var before := Collected(h[..|h| - 1]);
      match h[|h| - 1]
      case Skip => before
      case Lost => []
      case First(data) => data
      case Next(data) => if before == [] then [] else before + data
  }

  /** The section that the last fragment completes, if it does. */
  function Delivered(h: seq<Fragment>): (r: Option<seq<u8>>)
    requires h != []
    ensures r.Some? ==> IsSection(r.value)
  {
    var now, last := Collected(h), h[|h| - 1];
    if Complete(now) && (last.First? || (last.Next? && !Complete(Collected(h[..|h| - 1]))))
    then Some(now[..SectionLen(now)]) else None
  }

  /** Everything delivered over a run, in order. */
  function Deliveries(h: seq<Fragment>): seq<seq<u8>> {
    if h == [] then [] else
      var before := Deliveries(h[..|h| - 1]);
      match Delivered(h)
      case None => before
      case Some(s) => before + [s]
  }

  /** What a collector has to remember: a started section that is not complete. */
  function Pending(h: seq<Fragment>): (s: seq<u8>)
    ensures |s| <= 0x1001
  {
    if Complete(Collected(h)) then [] else Collected(h)
  }

  lemma PendingIsIncomplete(h: seq<Fragment>)
    ensures !Complete(Pending(h))
  {}

  // ---------- Many PIDs ----------

  function Fragments(ps: seq<Packet>, pid: Pid): seq<Fragment> {
    if ps == [] then [] else
      var before := Fragments(ps[..|ps| - 1], pid);
      var p := ps[|ps| - 1];
      if PidOf(p) == pid then before + [Classify(p)] else before
  }

  /** The subsequence of packets of one PID. */
  function Only(ps: seq<Packet>, pid: Pid): seq<Packet> {
    if ps == [] then [] else
      var before := Only(ps[..|ps| - 1], pid);
      var p := ps[|ps| - 1];
      if PidOf(p) == pid then before + [p] else before
  }

  datatype Section = Section(pid: Pid, data: seq<u8>)

  /** The section that the last packet of a run completes, if it does. */
  function DeliveredBy(ps: seq<Packet>): (r: Option<seq<u8>>)
    requires ps != []
    ensures r.Some? ==> IsSection(r.value)
  {
    Delivered(Fragments(ps, PidOf(ps[|ps| - 1])))
  }

  /** Everything a run of packets delivers, over all PIDs, in order. */
  function Sections(ps: seq<Packet>): seq<Section> {
    if ps == [] then [] else
      var before := Sections(ps[..|ps| - 1]);
      match DeliveredBy(ps)
      case None => before
      case Some(s) => before + [Section(PidOf(ps[|ps| - 1]), s)]
  }

  function SectionsOf(xs: seq<Section>, pid: Pid): seq<seq<u8>> {
    if xs == [] then [] else
      var before := SectionsOf(xs[..|xs| - 1], pid);
      var x := xs[|xs| - 1];
      if x.pid == pid then before + [x.data] else before
  }

  /** What a PID delivers depends on its own packets alone, whatever is interleaved with them. */
  lemma {:induction false} PidsDoNotInterfere(ps: seq<Packet>, pid: Pid)
    ensures SectionsOf(Sections(ps), pid) == Deliveries(Fragments(ps, pid))
    ensures Fragments(ps, pid) == Fragments(Only(ps, pid), pid)
    ensures forall p | p in Only(ps, pid) :: PidOf(p) == pid
  {
    if ps != [] {
      var n := |ps| - 1;
      var p, before := ps[n], ps[..n];
      PidsDoNotInterfere(before, pid);
      if PidOf(p) == pid {
        assert Only(ps, pid)[..|Only(before, pid)|] == Only(before, pid);
        var h := Fragments(ps, pid);
        assert h[..|h| - 1] == Fragments(before, pid);
      }
      var xs := Sections(ps);
      if DeliveredBy(ps).Some? {
        assert xs[..|xs| - 1] == Sections(before);
      }
    }
  }

  /** Two interleavings with the same packets of a PID deliver the same sections of that PID. */
  lemma InterleavingIsIrrelevant(ps: seq<Packet>, qs: seq<Packet>, pid: Pid)
    requires Only(ps, pid) == Only(qs, pid)
    ensures SectionsOf(Sections(ps), pid) == SectionsOf(Sections(qs), pid)
  {
    PidsDoNotInterfere(ps, pid);
    PidsDoNotInterfere(qs, pid);
  }

  lemma {:induction false} OthersDoNotCount(ps: seq<Packet>, qs: seq<Packet>, pid: Pid)
    requires forall p | p in ps :: PidOf(p) == pid
    requires forall q | q in qs :: PidOf(q) != pid
    ensures Only(ps + qs, pid) == ps
    decreases |ps| + |qs|
  {
    hide PidOf;
    var all := ps + qs;
    if qs != [] {
      var n := |qs| - 1;
      assert all[..|all| - 1] == ps + qs[..n];
      assert all[|all| - 1] == qs[n];
      OthersDoNotCount(ps, qs[..n], pid);
    } else if ps != [] {
      var n := |ps| - 1;
      assert all[..|all| - 1] == ps[..n] + [];
      OthersDoNotCount(ps[..n], [], pid);
      assert ps == ps[..n] + [ps[n]];
    }
  }

  // ---------- A section cut into packets comes out whole, once ----------

  function Frags(ps: seq<Packet>): (h: seq<Fragment>)
    ensures |h| == |ps|
    ensures forall i | 0 <= i < |ps| :: h[i] == Classify(ps[i])
  {
    seq(|ps|, i requires 0 <= i < |ps| => Classify(ps[i]))
  }

  lemma LastOf<T>(h: seq<T>, f: T)
    ensures (h + [f])[..|h + [f]| - 1] == h && (h + [f])[|h + [f]| - 1] == f
  {}

  /** An incomplete beginning of a section is not complete by its own header. */
  lemma PrefixIncomplete(s: seq<u8>, n: nat)
    requires IsSection(s) && n < |s|
    ensures !Complete(s[..n])
  {}

  /** One more fragment of a section: `sofar` collected, `data` new. */
  lemma OneMore(h: seq<Fragment>, f: Fragment, s: seq<u8>, at: nat, data: seq<u8>)
    requires IsSection(s) && at < |s| && data != []
    requires f == if at == 0 then First(data) else Next(data)
    requires at > 0 ==> Collected(h) == s[..at]
    ensures Collected(h + [f]) == s[..at] + data
    ensures s <= s[..at] + data ==> Deliveries(h + [f]) == Deliveries(h) + [s] && Complete(Collected(h + [f]))
    ensures !Complete(s[..at] + data) ==> Deliveries(h + [f]) == Deliveries(h)
  {
    hide Complete;
    LastOf(h, f);
    var all := s[..at] + data;
    if at > 0 {
      PrefixIncomplete(s, at);
    }
    if s <= all {
      SectionIsComplete(s, all);
    }
  }

  lemma SectionIsComplete(s: seq<u8>, all: seq<u8>)
    requires IsSection(s) && s <= all
    ensures Complete(all) && all[..SectionLen(all)] == s
  {}

  function Piece(start: bool, data: seq<u8>): Fragment {
    if start then First(data) else Next(data)
  }

  lemma CutPieces(pid: Pid, data: seq<u8>, shapes: seq<Shape>, start: bool)
    requires Fits(data, shapes, start)
    ensures var room := Room(shapes[0], start);
            Frags(Cut(pid, data, shapes, start)) ==
            if |shapes| == 1 then [Piece(start, data + Stuffing(room - |data|))]
            else [Piece(start, data[..room])] + Frags(Cut(pid, data[room..], shapes[1..], false))
  {
    hide MakePacket, Classify;
  }

  lemma FitsParts(data: seq<u8>, shapes: seq<Shape>, start: bool)
    requires Fits(data, shapes, start)
    ensures var room := Room(shapes[0], start);
            && room > 0
            && if |shapes| == 1 then 0 < |data| <= room
               else room < |data| && Fits(data[room..], shapes[1..], false)
  {}

  lemma {:induction false} CutDeliversRest(
    h: seq<Fragment>, pid: Pid, s: seq<u8>, at: nat, shapes: seq<Shape>, start: bool)
    requires IsSection(s) && at < |s|
    requires start <==> at == 0
    requires !start ==> Collected(h) == s[..at]
    requires Fits(s[at..], shapes, start)
    ensures var g := h + Frags(Cut(pid, s[at..], shapes, start));
            Deliveries(g) == Deliveries(h) + [s] && Complete(Collected(g))
    decreases |shapes|
  {
    hide Complete, Deliveries, Collected, IsSection, Cut, Frags, Fits, Room, Classify;
    FitsParts(s[at..], shapes, start);
    CutPieces(pid, s[at..], shapes, start);
    var room := Room(shapes[0], start);
    if |shapes| == 1 {
      var data := s[at..] + Stuffing(room - |s[at..]|);
      OneMore(h, Piece(start, data), s, at, data);
      assert s[..at] + data == s + Stuffing(room - |s[at..]|);
    } else {
      var data := s[at..][..room];
      var f := Piece(start, data);
      OneMore(h, f, s, at, data);
      assert s[..at] + data == s[..at + room];
      PrefixIncomplete(s, at + room);
      assert s[at..][room..] == s[at + room..];
      CutDeliversRest(h + [f], pid, s, at + room, shapes[1..], false);
      var rest := Frags(Cut(pid, s[at + room..], shapes[1..], false));
      assert h + [f] + rest == h + ([f] + rest);
    }
  }

  /**
   A section cut into packets with any pointer fields and any adaptation fields that
   leave payload is delivered byte for byte, exactly once, whatever came before.
   */
  lemma CutSectionComesOutOnce(h: seq<Fragment>, pid: Pid, s: seq<u8>, shapes: seq<Shape>)
    requires IsSection(s) && Fits(s, shapes, true)
    ensures var g := h + Frags(Cut(pid, s, shapes, true));
            Deliveries(g) == Deliveries(h) + [s] && Complete(Collected(g))
  {
    assert s[0..] == s;
    CutDeliversRest(h, pid, s, 0, shapes, true);
  }

  lemma MoreStaysComplete(s: seq<u8>, data: seq<u8>)
    requires Complete(s)
    ensures Complete(s + data)
  {
    assert (s + data)[1] == s[1] && (s + data)[2] == s[2];
  }

  /** More payload of a section that is there already delivers nothing. */
  lemma QuietStep(h: seq<Fragment>, f: Fragment)
    requires Complete(Collected(h)) && (f.Skip? || f.Next?)
    ensures Complete(Collected(h + [f])) && Deliveries(h + [f]) == Deliveries(h)
  {
    hide Complete;
    LastOf(h, f);
    if f.Next? {
      MoreStaysComplete(Collected(h), f.data);
    }
  }

  /** After a delivery nothing more is delivered until the next unit start. */
  lemma {:induction false} QuietUntilNextStart(h: seq<Fragment>, more: seq<Fragment>)
    requires Complete(Collected(h))
    requires forall f | f in more :: f.Skip? || f.Next?
    ensures Deliveries(h + more) == Deliveries(h) && Complete(Collected(h + more))
    ensures Pending(h + more) == []
    decreases |more|
  {
    hide Complete, Collected, Deliveries;
    if more == [] {
      assert h + more == h;
    } else {
      var n := |more| - 1;
      QuietUntilNextStart(h, more[..n]);
      QuietStep(h + more[..n], more[n]);
      assert h + more == h + more[..n] + [more[n]];
    }
  }

  // ---------- Fixed buffers are enough ----------

  /**
   One step of a collector that keeps at most 0x1003 bytes. There is room for some of the new
   payload, and what is kept is complete exactly when all of it would be, with the same section.
   A kept part of one or two bytes is never complete, whatever length the buffer seems to say.
   */
  lemma TruncationIsHarmless(pending: seq<u8>, data: seq<u8>, n: nat)
    requires pending != [] && !Complete(pending) && data != []
    requires n == if |pending| + |data| >= 0x1003 then 0x1003 - |pending| else |data|
    ensures 0 < n <= |data|
    ensures var kept, all := pending + data[..n], pending + data;
            && (Complete(kept) <==> Complete(all))
            && (Complete(all) ==> kept[..SectionLen(kept)] == all[..SectionLen(all)])
            && (!Complete(all) ==> kept == all)
  {
    var kept, all := pending + data[..n], pending + data;
    assert kept == all[..|kept|];
    if |kept| >= 3 {
      assert kept[1] == all[1] && kept[2] == all[2];
    }
    if !Complete(all) {
      assert n == |data|;
    }
  }
}
