/**
 The program map end to end: the PID stored for program 3 is the one whose program map is read (sections 2.4.4.8 and
 2.4.4.9 of ISO/IEC 13818-1).
 */
module ProgramMap {
  import opened Bytes
  import opened Transport
  import opened Reassembly
  import opened MpegCrc
  import opened Psi
  import opened Decoder
  import Vct

  // ---------- Printing a program map ----------

  predicate PmtOk(program: nat, ver: nat, clock: nat, rest: seq<u8>) {
    program < 0x1_0000 && ver < 32 && clock < 0x2000 && |rest| + 11 < 0x1000
  }

  function PmtHead(program: nat, ver: nat, clock: nat, n: nat): (s: seq<u8>)
    requires program < 0x1_0000 && ver < 32 && clock < 0x2000 && n < 0x1000
    ensures |s| == 10
  {
    [2, 0xb0 + n / 256, n % 256, program / 256, program % 256, VersionByte(ver), 0, 0, 0xe0 + clock / 256, clock % 256]
  }

  /** A program map of version `ver` with this clock PID; `rest` are its descriptors and streams. */
  function PmtSection(program: nat, ver: nat, clock: nat, rest: seq<u8>): (s: seq<u8>)
    requires PmtOk(program, ver, clock, rest)
  {
    Sealed(PmtHead(program, ver, clock, |rest| + 11) + rest)
  }

  lemma PmtShape(program: nat, ver: nat, clock: nat, rest: seq<u8>)
    requires PmtOk(program, ver, clock, rest)
    ensures var s := PmtSection(program, ver, clock, rest);
            IsSection(s) && CrcOk(s) && |s| == |rest| + 14 && s[..10] == PmtHead(program, ver, clock, |rest| + 11)
  {
    hide CrcOk, Sealed;
    var head := PmtHead(program, ver, clock, |rest| + 11);
    var s := Sealed(head + rest);
    assert head + rest + [] == head + rest;
    Decoder.Parts(s, head, rest, []);
    assert s[1] == s[..10][1] && s[2] == s[..10][2];
  }

  lemma ClockBits(clock: nat)
    requires clock < 0x2000
    ensures BE16(0xe0 + clock / 256, clock % 256) % 0x2000 == clock
  {
    assert (0xe0 + clock / 256) * 256 + clock % 256 == 0xe000 + clock;
  }

  lemma PmtHeadBits(program: nat, ver: nat, clock: nat, n: nat)
    requires program < 0x1_0000 && ver < 32 && clock < 0x2000 && n < 0x1000
    ensures var h := PmtHead(program, ver, clock, n); Bit(h[1], 0x80) && Bit(h[5], 1)
  {}

  /** On the PID stored for program 3 such a section leaves its version and its clock PID, and nothing else. */
  lemma PmtParsed(t: Tables, pid: Pid, program: nat, ver: nat, clock: nat, rest: seq<u8>)
    requires PmtOk(program, ver, clock, rest)
    requires pid == t.pmtPid && pid !in {0, 0x1ffb, 0x1fff}
    requires NextVersion(t.pmtVer, RxVersion(VersionByte(ver))).Some?
    ensures |PmtSection(program, ver, clock, rest)| >= 3
    ensures ParseTbl(t, PmtSection(program, ver, clock, rest), pid)
            == t.(pmtVer := ver % 8 + 16 * (ver / 16), pcrPid := clock)
  {
    hide CrcOk, PmtSection, ParseTbl, Bit, RxVersion, BE16, NextVersion, VersionByte;
    var s := PmtSection(program, ver, clock, rest);
    var head := PmtHead(program, ver, clock, |rest| + 11);
    PmtShape(program, ver, clock, rest);
    PmtHeadBits(program, ver, clock, |rest| + 11);
    HeadByte(s, head, 0);
    HeadByte(s, head, 1);
    HeadByte(s, head, 5);
    HeadByte(s, head, 6);
    HeadByte(s, head, 7);
    HeadByte(s, head, 8);
    HeadByte(s, head, 9);
    ClockBits(clock);
    ExtractedVersion(ver);
    PmtArrives(t, s, pid);
  }

  // ---------- Runs of packets ----------

  /** What is kept of the program map. */
  predicate SameMap(t: Tables, u: Tables) {
    t.pmtPid == u.pmtPid && t.pmtVer == u.pmtVer && t.pcrPid == u.pcrPid
  }

  /** Only program tables move the map's PID, and only sections of that PID its version and clock PID. */
  lemma OthersKeepMap(t: Tables, s: seq<u8>, pid: Pid)
    requires |s| >= 3
    ensures pid != 0 ==> ParseTbl(t, s, pid).pmtPid == t.pmtPid
    ensures pid != t.pmtPid || pid in {0, 0x1ffb, 0x1fff} ==>
              ParseTbl(t, s, pid).pmtVer == t.pmtVer && ParseTbl(t, s, pid).pcrPid == t.pcrPid
  {
    hide ParseHeader, StorePrograms, Programs, Vct.Parse;
    if pid == 0 {
      StorePatKeepsVersions(t, s);
    }
  }

  lemma MapOfMap(t: Tables, u: Tables, s: seq<u8>, pid: Pid)
    requires |s| >= 3 && SameMap(t, u) && pid !in {0, 0x1ffb, 0x1fff}
    ensures SameMap(ParseTbl(t, s, pid), ParseTbl(u, s, pid))
  {
    hide ParseHeader;
  }

  /** A PID's fragments over a run and what comes after it. */
  lemma {:induction false} FragmentsAppend(first: seq<Packet>, second: seq<Packet>, pid: Pid)
    ensures Fragments(first + second, pid) == Fragments(first, pid) + Fragments(second, pid)
    decreases |second|
  {
    hide PidOf, Classify;
    if second == [] {
      assert first + second == first;
    } else {
      var n := |second| - 1;
      assert (first + second)[..|first| + n] == first + second[..n];
      FragmentsAppend(first, second[..n], pid);
    }
  }

  lemma NoOwnPacket(ps: seq<Packet>, pid: Pid)
    requires ps != [] && Only(ps, pid) == []
    ensures Only(ps[..|ps| - 1], pid) == [] && PidOf(ps[|ps| - 1]) != pid
  {}

  /** The sections that the packets after `first` deliver on a PID, after those before. */
  function Later(first: seq<Packet>, second: seq<Packet>, pid: Pid): seq<seq<u8>> {
    if second == [] then [] else
      var before, p := Later(first, second[..|second| - 1], pid), second[|second| - 1];
      if PidOf(p) == pid && DeliveredBy(first + second).Some? then before + [DeliveredBy(first + second).value]
      else before
  }

  lemma {:induction false} LaterDeliveries(first: seq<Packet>, second: seq<Packet>, pid: Pid)
    ensures Deliveries(Fragments(first + second, pid)) == Deliveries(Fragments(first, pid)) + Later(first, second, pid)
    decreases |second|
  {
    hide PidOf, Classify, Delivered;
    if second == [] {
      assert first + second == first;
    } else {
      var n := |second| - 1;
      var ps := first + second;
      assert ps[..|ps| - 1] == first + second[..n] && ps[|ps| - 1] == second[n];
      LaterDeliveries(first, second[..n], pid);
      var h := Fragments(ps, pid);
      if PidOf(second[n]) == pid {
        assert h[..|h| - 1] == Fragments(first + second[..n], pid);
      }
    }
  }

  /** While no program table comes, the map depends on the sections of its PID alone, whatever is interleaved. */
  lemma {:induction false} MapDependsOnOwnPid(base: Tables, first: seq<Packet>, second: seq<Packet>, own: Pid)
    requires Only(second, 0) == [] && own !in {0, 0x1ffb, 0x1fff} && TablesAfter(base, first).pmtPid == own
    ensures SameMap(TablesAfter(base, first + second),
                    Decoder.ParseAll(TablesAfter(base, first), Later(first, second, own), own))
    ensures TablesAfter(base, first + second).pmtPid == own
    decreases |second|
  {
    hide ParseTbl, PidOf, DeliveredBy, Only;
    if second == [] {
      assert first + second == first;
    } else {
      var n := |second| - 1;
      var ps, rest := first + second, second[..n];
      assert ps[..|ps| - 1] == first + rest && ps[|ps| - 1] == second[n];
      NoOwnPacket(second, 0);
      MapDependsOnOwnPid(base, first, rest, own);
      var t := TablesAfter(base, first + rest);
      if DeliveredBy(ps).Some? {
        var s := DeliveredBy(ps).value;
        OthersKeepMap(t, s, PidOf(second[n]));
        if PidOf(second[n]) == own {
          var before := Later(first, rest, own);
          assert Later(first, second, own)[..|before|] == before;
          MapOfMap(t, Decoder.ParseAll(TablesAfter(base, first), before, own), s, own);
        }
      }
    }
  }

  lemma CancelFront(a: seq<seq<u8>>, b: seq<seq<u8>>, c: seq<seq<u8>>)
    requires a + b == a + c
    ensures b == c
  {
    assert (a + b)[|a|..] == b && (a + c)[|a|..] == c;
  }

  /** A section that is all its PID carries after `first`, cut into packets, is all that comes of it then. */
  lemma LaterIsCut(first: seq<Packet>, second: seq<Packet>, s: seq<u8>, shapes: seq<Shape>, pid: Pid)
    requires IsSection(s) && Fits(s, shapes, true) && Only(second, pid) == Cut(pid, s, shapes, true)
    ensures Later(first, second, pid) == [s]
  {
    hide Cut, Deliveries, Fragments, Only, Fits, IsSection, Frags, PidOf, Later;
    PidsDoNotInterfere(second, pid);
    FragmentsOfOnePid(Only(second, pid), pid);
    FragmentsAppend(first, second, pid);
    CutSectionComesOutOnce(Fragments(first, pid), pid, s, shapes);
    LaterDeliveries(first, second, pid);
    CancelFront(Deliveries(Fragments(first, pid)), Later(first, second, pid), [s]);
  }

  /**
   End to end: once the PID stored for program 3 is `own`, whatever came before, a program map that is all `own` then
   carries leaves its version and its clock PID, with packets of any other PIDs but 0 in between.
   */
  lemma PmtEndToEnd(
    base: Tables, first: seq<Packet>, second: seq<Packet>, own: Pid, program: nat, ver: nat, clock: nat, rest: seq<u8>,
    shapes: seq<Shape>)
    requires own !in {0, 0x1ffb, 0x1fff} && TablesAfter(base, first).pmtPid == own
    requires PmtOk(program, ver, clock, rest) && Fits(PmtSection(program, ver, clock, rest), shapes, true)
    requires Only(second, 0) == [] && Only(second, own) == Cut(own, PmtSection(program, ver, clock, rest), shapes, true)
    requires NextVersion(TablesAfter(base, first).pmtVer, RxVersion(VersionByte(ver))).Some?
    ensures var u := TablesAfter(base, first + second);
            u.pcrPid == clock && u.pmtVer == ver % 8 + 16 * (ver / 16) && u.pmtPid == own
  {
    hide TablesAfter, Cut, Only, Fits, PmtSection, ParseTbl, NextVersion, RxVersion, VersionByte, Later;
    var s, t := PmtSection(program, ver, clock, rest), TablesAfter(base, first);
    PmtShape(program, ver, clock, rest);
    LaterIsCut(first, second, s, shapes, own);
    MapDependsOnOwnPid(base, first, second, own);
    PmtParsed(t, own, program, ver, clock, rest);
    Decoder.ParseOne(t, s, own);
  }

  /** On every other PID both stay, whatever the packets say. */
  lemma {:induction false} MapStays(base: Tables, first: seq<Packet>, second: seq<Packet>)
    requires forall p | p in second ::
               PidOf(p) in {0x1ffb, 0x1fff} || (PidOf(p) != 0 && PidOf(p) != TablesAfter(base, first).pmtPid)
    ensures SameMap(TablesAfter(base, first + second), TablesAfter(base, first))
    decreases |second|
  {
    hide ParseTbl, PidOf, DeliveredBy;
    if second == [] {
      assert first + second == first;
    } else {
      var n := |second| - 1;
      var ps, rest := first + second, second[..n];
      assert ps[..|ps| - 1] == first + rest && ps[|ps| - 1] == second[n];
      MapStays(base, first, rest);
      if DeliveredBy(ps).Some? {
        OthersKeepMap(TablesAfter(base, first + rest), DeliveredBy(ps).value, PidOf(second[n]));
      }
    }
  }

  /** A fresh decoder that saw nothing but program tables, ATSC tables and null packets has no program map. */
  lemma {:induction false} NoMapYet(ps: seq<Packet>)
    requires forall p | p in ps :: PidOf(p) in {0, 0x1ffb, 0x1fff}
    ensures TablesAfter(FRESH, ps).pmtVer == 32 && TablesAfter(FRESH, ps).pcrPid == 0
  {
    hide ParseTbl, PidOf, DeliveredBy;
    if ps != [] {
      var n := |ps| - 1;
      NoMapYet(ps[..n]);
      if DeliveredBy(ps).Some? {
        OthersKeepMap(TablesAfter(FRESH, ps[..n]), DeliveredBy(ps).value, PidOf(ps[n]));
      }
    }
  }

  /**
   Both together, in a new decoder: a program table whose last PID for program 3 is `own`, and then a program map
   on that PID.
   */
  lemma PatThenPmt(
    first: seq<Packet>, tsid: nat, patVer: nat, progs: seq<Program>, patShapes: seq<Shape>, i: nat,
    second: seq<Packet>, program: nat, ver: nat, clock: nat, rest: seq<u8>, shapes: seq<Shape>)
    requires PatOk(tsid, patVer, progs) && Fits(PatSection(tsid, patVer, progs), patShapes, true)
    requires forall p | p in first :: PidOf(p) in {0, 0x1ffb, 0x1fff}
    requires Only(first, 0) == Cut(0, PatSection(tsid, patVer, progs), patShapes, true)
    requires LastMap(progs, i) && progs[i].pid !in {0x1ffb, 0x1fff}
    requires PmtOk(program, ver, clock, rest) && Fits(PmtSection(program, ver, clock, rest), shapes, true)
    requires Only(second, 0) == []
    requires Only(second, progs[i].pid) == Cut(progs[i].pid, PmtSection(program, ver, clock, rest), shapes, true)
    ensures var u := TablesAfter(FRESH, first + second);
            u.pcrPid == clock && u.pmtVer == ver % 8 + 16 * (ver / 16) && u.pmtPid == progs[i].pid
  {
    hide TablesAfter, Cut, Only, Fits, PmtSection, PatSection, RxVersion, VersionByte, PidOf;
    PatEndToEnd(tsid, patVer, progs, patShapes, first);
    NoMapYet(first);
    PmtEndToEnd(FRESH, first, second, progs[i].pid, program, ver, clock, rest, shapes);
  }
}
