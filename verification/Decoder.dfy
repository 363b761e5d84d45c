/** The decoder over whole runs of packets: what its tables are after any run, and what resets leave. */
module Decoder {
  import opened Bytes
  import opened Transport
  import opened Reassembly
  import opened MpegCrc
  import opened Psi
  import Vct
  import Gf2

  /** The tables after a run of packets that started with `base`. */
  function TablesAfter(base: Tables, ps: seq<Packet>): Tables {
    if ps == [] then base else
      var before := TablesAfter(base, ps[..|ps| - 1]);
      match DeliveredBy(ps)
      case None => before
      case Some(s) => ParseTbl(before, s, PidOf(ps[|ps| - 1]))
  }

  // ---------- Versions over a run ----------

  datatype Table = PatTable | PmtTable | MgtTable | VctTable

  function VersionOf(t: Tables, which: Table): nat {
    match which
    case PatTable => t.patVer
    case PmtTable => t.pmtVer
    case MgtTable => t.mgtVer
    case VctTable => t.vctVer
  }

  /** One version variable over a run. */
  function VersionTrace(base: Tables, ps: seq<Packet>, which: Table): (vs: seq<nat>)
    ensures |vs| == |ps| + 1
  {
    seq(|ps| + 1, k requires 0 <= k <= |ps| => VersionOf(TablesAfter(base, ps[..k]), which))
  }

  lemma TraceMoves(base: Tables, ps: seq<Packet>, i: nat, which: Table)
    requires 0 < i <= |ps|
    ensures VersionMove(VersionOf(TablesAfter(base, ps[..i - 1]), which), VersionOf(TablesAfter(base, ps[..i]), which))
  {
    hide ParseTbl;
    var q := ps[..i];
    assert q[..|q| - 1] == ps[..i - 1];
    if DeliveredBy(q).Some? {
      TablesMoveVersions(TablesAfter(base, ps[..i - 1]), DeliveredBy(q).value, PidOf(q[|q| - 1]));
    }
  }

  /** After a reset, no run of packets takes any version variable through more than eight versions. */
  lemma VersionsOverARun(t: Tables, ps: seq<Packet>, which: Table)
    ensures var vs := VersionTrace(Reset(t), ps, which);
            && VersionHistory(vs)
            && |set i | 0 <= i < |vs| && vs[i] != NO_VERSION :: vs[i]| <= 8
  {
    hide ParseTbl;
    var vs := VersionTrace(Reset(t), ps, which);
    assert vs[0] == NO_VERSION by { assert ps[..0] == []; }
    forall i | 0 < i < |vs| ensures VersionMove(vs[i - 1], vs[i]) {
      TraceMoves(Reset(t), ps, i, which);
    }
    AtMostEightVersions(vs);
  }

  // ---------- What a stored program table says ----------

  /** Entry `i` is the last of its program. */
  predicate LastOfProgram(ps: seq<Program>, i: nat) {
    i < |ps| && forall j | i < j < |ps| :: ps[j].number != ps[i].number
  }

  predicate Listed(ps: seq<Program>, number: nat) {
    exists j :: 0 <= j < |ps| && ps[j].number == number
  }

  lemma {:induction false} StoreLast(a: seq<nat>, ps: seq<Program>, i: nat)
    requires LastOfProgram(ps, i) && ps[i].number < |a|
    ensures Store(a, ps)[ps[i].number] == ps[i].pid
  {
    var n := |ps| - 1;
    if i < n {
      assert forall j | i < j < n :: ps[..n][j] == ps[j];
      StoreLast(a, ps[..n], i);
    }
  }

  lemma {:induction false} StoreUnlisted(a: seq<nat>, ps: seq<Program>, number: nat)
    requires number < |a| && !Listed(ps, number)
    ensures Store(a, ps)[number] == a[number]
  {
    if ps != [] {
      var n := |ps| - 1;
      assert forall j | 0 <= j < n :: ps[..n][j] == ps[j];
      assert ps[n].number != number;
      StoreUnlisted(a, ps[..n], number);
    }
  }

  /**
   After a program table: the use count is one more than the largest program, it never
   exceeds the allocation, and each listed program has the last PID listed for it. A program
   not listed has 0 if the array was replaced, and otherwise whatever the old array had.
   */
  lemma StoredPrograms(t: Tables, ps: seq<Program>)
    ensures var u := StorePrograms(t, ps);
            && u.patUse == Largest(ps) + 1 && u.patUse <= |u.pat|
            && (forall p | p in ps :: p.number < u.patUse)
            && (forall i: nat | LastOfProgram(ps, i) :: ps[i].number < |u.pat| && u.pat[ps[i].number] == ps[i].pid)
            && (forall q | 0 <= q < |u.pat| && !Listed(ps, q) ::
                  u.pat[q] == if u.patUse >= |t.pat| then 0 else t.pat[q])
  {
    hide Largest, Store, LastOfProgram, Listed, PmtPid;
    var use := Largest(ps) + 1;
    var a := Psi.Room(t.pat, use);
    forall i: nat | LastOfProgram(ps, i)
      ensures i < |ps| && ps[i].number < |a| && Store(a, ps)[ps[i].number] == ps[i].pid
    {
      LastIsStored(a, ps, i, use);
    }
    forall q | 0 <= q < |a| && !Listed(ps, q) ensures Store(a, ps)[q] == a[q] {
      StoreUnlisted(a, ps, q);
    }
  }

  lemma LastIsStored(a: seq<nat>, ps: seq<Program>, i: nat, use: nat)
    requires LastOfProgram(ps, i) && use == Largest(ps) + 1 && use <= |a|
    ensures i < |ps| && ps[i].number < |a| && Store(a, ps)[ps[i].number] == ps[i].pid
  {
    hide Largest, Store;
    assert ps[i] in ps;
    StoreLast(a, ps, i);
  }

  // ---------- A table decoded from its packets ----------

  /** The PIDs whose tables are kept apart: program tables, and the tables of ATSC. */
  predicate OwnPid(pid: Pid) { pid == 0 || pid == PSIP_PID }

  /** What the decoder keeps of the tables of one such PID. */
  function PartOf(t: Tables, pid: Pid): Tables
    requires OwnPid(pid)
  {
    if pid == 0
    then FRESH.(patVer := t.patVer, patTsid := t.patTsid, patUse := t.patUse, pat := t.pat, pmtPid := t.pmtPid)
    else FRESH.(mgtVer := t.mgtVer, vctVer := t.vctVer, vct := t.vct)
  }

  /** The tables after sections of one PID alone. */
  function ParseAll(base: Tables, ss: seq<seq<u8>>, pid: Pid): Tables {
    if ss == [] then base else
      var before, s := ParseAll(base, ss[..|ss| - 1], pid), ss[|ss| - 1];
      if |s| < 3 then before else ParseTbl(before, s, pid)
  }

  lemma PartsAreApart(t: Tables, u: Tables, s: seq<u8>, pid: Pid, own: Pid)
    requires |s| >= 3 && OwnPid(own) && PartOf(t, own) == PartOf(u, own)
    ensures PartOf(ParseTbl(t, s, own), own) == PartOf(ParseTbl(u, s, own), own)
    ensures pid != own ==> PartOf(ParseTbl(t, s, pid), own) == PartOf(t, own)
  {
    hide ParseHeader, Programs, Largest, Store, PmtPid, Vct.Parse;
    HeaderBounds(s, t.patVer, 0);
  }

  /** What is kept of a PID's tables depends only on the sections of that PID, whatever is interleaved. */
  lemma {:induction false} TablesDependOnOwnPid(base: Tables, ps: seq<Packet>, own: Pid)
    requires OwnPid(own)
    ensures PartOf(TablesAfter(base, ps), own) == PartOf(ParseAll(base, Deliveries(Fragments(ps, own)), own), own)
  {
    hide ParseTbl, PartOf, PidOf, Classify, Delivered, OwnPid;
    if ps != [] {
      var n := |ps| - 1;
      var before := ps[..n];
      var p := ps[n];
      TablesDependOnOwnPid(base, before, own);
      var h0 := Fragments(before, own);
      var t := TablesAfter(base, before);
      if PidOf(p) == own {
        var h := Fragments(ps, own);
        assert h == h0 + [Classify(p)];
        assert h[..|h| - 1] == h0;
        match Delivered(h)
        case None =>
        case Some(s) =>
          var ds := Deliveries(h);
          assert ds[..|ds| - 1] == Deliveries(h0);
          PartsAreApart(t, ParseAll(base, Deliveries(h0), own), s, own, own);
      } else if DeliveredBy(ps).Some? {
        PartsAreApart(t, t, DeliveredBy(ps).value, PidOf(p), own);
      }
    }
  }

  lemma {:induction false} FragmentsOfOnePid(ps: seq<Packet>, pid: Pid)
    requires forall p | p in ps :: PidOf(p) == pid
    ensures Fragments(ps, pid) == Frags(ps)
  {
    hide Classify, PidOf;
    if ps != [] {
      FragmentsOfOnePid(ps[..|ps| - 1], pid);
    }
  }

  lemma NothingDelivered()
    ensures Deliveries([]) == []
  {}

  /** A section that is all its PID carries, cut into packets, is all that is delivered on it. */
  lemma CutDeliversOne(s: seq<u8>, shapes: seq<Shape>, ps: seq<Packet>, pid: Pid)
    requires IsSection(s) && Fits(s, shapes, true) && Only(ps, pid) == Cut(pid, s, shapes, true)
    ensures Deliveries(Fragments(ps, pid)) == [s]
  {
    hide Cut, Deliveries, Fragments, Only, Fits, IsSection, Frags, PidOf;
    var f := Frags(Cut(pid, s, shapes, true));
    PidsDoNotInterfere(ps, pid);
    FragmentsOfOnePid(Only(ps, pid), pid);
    CutSectionComesOutOnce([], pid, s, shapes);
    assert [] + f == f;
    NothingDelivered();
  }

  lemma ParseOne(t: Tables, s: seq<u8>, pid: Pid)
    requires |s| >= 3
    ensures ParseAll(t, [s], pid) == ParseTbl(t, s, pid)
  {
    hide ParseTbl;
    assert [s][..0] == [];
  }

  /** Then what is kept of that PID's tables is what this one section says. */
  lemma CutSectionIsParsed(base: Tables, s: seq<u8>, shapes: seq<Shape>, ps: seq<Packet>, own: Pid)
    requires OwnPid(own)
    requires IsSection(s) && Fits(s, shapes, true) && Only(ps, own) == Cut(own, s, shapes, true)
    ensures PartOf(TablesAfter(base, ps), own) == PartOf(ParseTbl(base, s, own), own)
  {
    hide Cut, Deliveries, Fragments, Only, Fits, ParseTbl, PartOf, TablesAfter, OwnPid;
    TablesDependOnOwnPid(base, ps, own);
    CutDeliversOne(s, shapes, ps, own);
    ParseOne(base, s, own);
  }

  /**
   A section damaged within 32 consecutive bits, cut into packets as it is, leaves what is kept of its
   PID's tables as it was.
   */
  lemma DamagedSectionIsIgnored(
    base: Tables, good: seq<u8>, s: seq<u8>, start: nat, shapes: seq<Shape>, ps: seq<Packet>, own: Pid)
    requires OwnPid(own)
    requires CrcOk(good) && |s| == |good| && s != good && Gf2.DifferWithin32(Bits(good), Bits(s), start)
    requires IsSection(s) && Fits(s, shapes, true) && Only(ps, own) == Cut(own, s, shapes, true)
    ensures PartOf(TablesAfter(base, ps), own) == PartOf(base, own)
  {
    hide Cut, Only, Fits, ParseTbl, PartOf, TablesAfter, OwnPid, CrcOk, Bits;
    BurstIsRejected(good, s, start);
    BadSectionChangesNothing(base, s, own);
    CutSectionIsParsed(base, s, shapes, ps, own);
  }

  // ---------- Printing a program table ----------

  predicate ProgramsOk(ps: seq<Program>) {
    forall p | p in ps :: p.number < 0x1_0000 && p.pid < 0x2000
  }

  function ProgramBytes(ps: seq<Program>): (s: seq<u8>)
    requires ProgramsOk(ps)
    ensures |s| == 4 * |ps|
  {
    if ps == [] then [] else ProgramBytes(ps[..|ps| - 1]) + EntryBytes(ps[|ps| - 1])
  }

  function PatHead(tsid: nat, ver: nat, n: nat): (s: seq<u8>)
    requires tsid < 0x1_0000 && ver < 32 && n < 0x1000
    ensures |s| == 8
  {
    [0, 0xb0 + n / 256, n % 256, tsid / 256, tsid % 256, VersionByte(ver), 0, 0]
  }

  predicate PatOk(tsid: nat, ver: nat, ps: seq<Program>) {
    tsid < 0x1_0000 && ver < 32 && ProgramsOk(ps) && 4 * |ps| + 9 < 0x1000
  }

  function EntryBytes(p: Program): (s: seq<u8>)
    requires p.number < 0x1_0000 && p.pid < 0x2000
    ensures |s| == 4
  {
    [p.number / 256, p.number % 256, 0xe0 + p.pid / 256, p.pid % 256]
  }

  /** Where the parts of a body are once something follows it. */
  lemma Parts(s: seq<u8>, head: seq<u8>, list: seq<u8>, extra: seq<u8>)
    requires head + list + extra <= s
    ensures s[..|head|] == head && s[|head|..|head| + |list|] == list
  {
    var body := head + list + extra;
    forall i | 0 <= i < |head| + |list| ensures s[i] == if i < |head| then head[i] else list[i - |head|] {
      assert s[i] == body[i];
    }
  }

  lemma PatShape(tsid: nat, ver: nat, ps: seq<Program>)
    requires PatOk(tsid, ver, ps)
    ensures var head := PatHead(tsid, ver, 4 * |ps| + 9);
            var s := Sealed(head + ProgramBytes(ps));
            && IsSection(s) && |s| == 4 * |ps| + 12 && CrcOk(s)
            && s[..8] == head && s[8..|s| - 4] == ProgramBytes(ps)
  {
    hide CrcOk, Sealed, ProgramBytes;
    var head, bytes := PatHead(tsid, ver, 4 * |ps| + 9), ProgramBytes(ps);
    var s := Sealed(head + bytes);
    assert head + bytes + [] == head + bytes;
    Parts(s, head, bytes, []);
    assert s[1] == s[..8][1] && s[2] == s[..8][2];
  }

  /** A program association section of version `ver`, sealed with its checksum. */
  function PatSection(tsid: nat, ver: nat, ps: seq<Program>): (s: seq<u8>)
    requires PatOk(tsid, ver, ps)
    ensures IsSection(s) && |s| == 4 * |ps| + 12 && CrcOk(s)
    ensures s[..8] == PatHead(tsid, ver, 4 * |ps| + 9)
    ensures s[8..|s| - 4] == ProgramBytes(ps)
  {
    PatShape(tsid, ver, ps);
    Sealed(PatHead(tsid, ver, 4 * |ps| + 9) + ProgramBytes(ps))
  }

  lemma EntryNumbers(p: Program)
    requires p.number < 0x1_0000 && p.pid < 0x2000
    ensures var b := EntryBytes(p); BE16(b[0], b[1]) == p.number && BE16(b[2], b[3]) % 0x2000 == p.pid
  {
    assert (0xe0 + p.pid / 256) * 256 + p.pid % 256 == 0xe000 + p.pid;
  }

  lemma ProgramReadBack(p: Program, s: seq<u8>, at: nat)
    requires p.number < 0x1_0000 && p.pid < 0x2000 && at + 4 <= |s|
    requires s[at..at + 4] == EntryBytes(p)
    ensures ProgramAt(s, at) == p
  {
    hide EntryBytes, BE16;
    EntryNumbers(p);
    var b := s[at..at + 4];
    assert s[at] == b[0] && s[at + 1] == b[1] && s[at + 2] == b[2] && s[at + 3] == b[3];
  }

  lemma SplitSlice(s: seq<u8>, pos: nat, m: nat, a: seq<u8>, b: seq<u8>)
    requires pos + m + |b| <= |s| && |a| == m && s[pos..pos + m + |b|] == a + b
    ensures s[pos..pos + m] == a && s[pos + m..pos + m + |b|] == b
  {
    var t := s[pos..pos + m + |b|];
    assert t[..m] == a && t[m..] == b;
  }

  lemma {:induction false} ProgramsReadBack(s: seq<u8>, ps: seq<Program>, pos: nat)
    requires ProgramsOk(ps) && pos + 4 * |ps| <= |s|
    requires s[pos..pos + 4 * |ps|] == ProgramBytes(ps)
    ensures Programs(s, pos, |ps|) == ps
  {
    hide ProgramAt, EntryBytes;
    if ps != [] {
      var n := |ps| - 1;
      SplitSlice(s, pos, 4 * n, ProgramBytes(ps[..n]), EntryBytes(ps[n]));
      ProgramsReadBack(s, ps[..n], pos);
      ProgramReadBack(ps[n], s, pos + 4 * n);
      assert ps == ps[..n] + [ps[n]];
    }
  }

  lemma PatHeadBits(tsid: nat, ver: nat, n: nat)
    requires tsid < 0x1_0000 && ver < 32 && n < 0x1000
    ensures var h := PatHead(tsid, ver, n);
            Bit(h[1], 0x80) && Bit(h[5], 1) && BE16(h[3], h[4]) == tsid
  {}

  /** A good, current, single-section long header with a version to follow is accepted with its fields. */
  lemma LongHeader(s: seq<u8>, head: seq<u8>, before: nat, v: nat)
    requires |s| >= 12 && 8 <= |head| <= |s| && s[..|head|] == head && CrcOk(s)
    requires Bit(head[1], 0x80) && Bit(head[5], 1) && head[6] == 0 && head[7] == 0
    requires NextVersion(before, RxVersion(head[5])) == Some(v)
    ensures ParseHeader(s, before, head[0]) == Accept(8, BE16(head[3], head[4]), v)
  {
    hide CrcOk, Bit, RxVersion, BE16, NextVersion;
    HeadByte(s, head, 0);
    HeadByte(s, head, 1);
    HeadByte(s, head, 3);
    HeadByte(s, head, 4);
    HeadByte(s, head, 5);
    HeadByte(s, head, 6);
    HeadByte(s, head, 7);
  }

  lemma HeadByte(s: seq<u8>, head: seq<u8>, i: nat)
    requires |head| <= |s| && s[..|head|] == head && i < |head|
    ensures s[i] == head[i]
  {
    assert s[i] == s[..|head|][i];
  }

  lemma PatHeader(tsid: nat, ver: nat, ps: seq<Program>)
    requires PatOk(tsid, ver, ps)
    ensures var s := PatSection(tsid, ver, ps);
            && ParseHeader(s, NO_VERSION, 0) == Accept(8, tsid, RxVersion(VersionByte(ver)))
            && Programs(s, 8, |ps|) == ps
  {
    hide CrcOk, PatSection, Programs, Bit, RxVersion, ParseHeader, BE16, VersionByte, ProgramBytes;
    var s := PatSection(tsid, ver, ps);
    var head := PatHead(tsid, ver, 4 * |ps| + 9);
    PatHeadBits(tsid, ver, 4 * |ps| + 9);
    LongHeader(s, head, NO_VERSION, RxVersion(VersionByte(ver)));
    ProgramsReadBack(s, ps, 8);
  }

  /**
   End to end: a fresh decoder, fed any interleaving of packets whose PID 0 carries exactly one
   program table cut into packets, has stored exactly that table.
   */
  lemma PatEndToEnd(tsid: nat, ver: nat, progs: seq<Program>, shapes: seq<Shape>, ps: seq<Packet>)
    requires PatOk(tsid, ver, progs)
    requires Fits(PatSection(tsid, ver, progs), shapes, true)
    requires Only(ps, 0) == Cut(0, PatSection(tsid, ver, progs), shapes, true)
    ensures HoldsPat(TablesAfter(FRESH, ps), tsid, ver, progs)
  {
    hide TablesAfter, PatSection, PartOf, HoldsPat, Only, Cut, Fits;
    CutSectionIsParsed(FRESH, PatSection(tsid, ver, progs), shapes, ps, 0);
    FreshPatHeld(tsid, ver, progs);
    HoldsPatIsAboutPats(TablesAfter(FRESH, ps), ParseTbl(FRESH, PatSection(tsid, ver, progs), 0), tsid, ver, progs);
  }

  /** The decoder holds exactly this program table. */
  ghost predicate HoldsPat(t: Tables, tsid: nat, ver: nat, progs: seq<Program>)
    requires ver < 32
  {
    && t.patVer == RxVersion(VersionByte(ver)) && t.patTsid == tsid
    && t.patUse == Largest(progs) + 1 && t.patUse == |t.pat|
    && (forall i: nat | LastMap(progs, i) :: t.pmtPid == progs[i].pid)
    && ((forall p | p in progs && p.number == 3 :: p.pid == 0) ==> t.pmtPid == 0)
    && (forall i: nat | LastOfProgram(progs, i) :: progs[i].number < |t.pat| && t.pat[progs[i].number] == progs[i].pid)
    && (forall q | 0 <= q < |t.pat| && !Listed(progs, q) :: t.pat[q] == 0)
  }

  lemma HoldsPatIsAboutPats(t: Tables, u: Tables, tsid: nat, ver: nat, progs: seq<Program>)
    requires ver < 32 && PartOf(t, 0) == PartOf(u, 0) && HoldsPat(u, tsid, ver, progs)
    ensures HoldsPat(t, tsid, ver, progs)
  {}

  lemma FreshPatHeld(tsid: nat, ver: nat, progs: seq<Program>)
    requires PatOk(tsid, ver, progs)
    ensures HoldsPat(ParseTbl(FRESH, PatSection(tsid, ver, progs), 0), tsid, ver, progs)
  {
    hide ParseTbl, PatSection, StorePrograms, Largest, PmtPid;
    PatParsed(tsid, ver, progs);
    var t := FRESH.(patVer := RxVersion(VersionByte(ver)), patTsid := tsid);
    StoredPrograms(t, progs);
    FreshStore(t, progs);
    MapPid(progs, 0);
  }

  lemma FreshStore(t: Tables, ps: seq<Program>)
    requires t.pat == []
    ensures var u := StorePrograms(t, ps); u.patUse == |u.pat| && u.pmtPid == PmtPid(ps, t.pmtPid)
    ensures var u := StorePrograms(t, ps); u.patVer == t.patVer && u.patTsid == t.patTsid
  {}

  lemma PatParsed(tsid: nat, ver: nat, ps: seq<Program>)
    requires PatOk(tsid, ver, ps)
    ensures ParseTbl(FRESH, PatSection(tsid, ver, ps), 0)
            == StorePrograms(FRESH.(patVer := RxVersion(VersionByte(ver)), patTsid := tsid), ps)
  {
    hide ParseHeader, StorePrograms, PatSection, Programs, RxVersion, VersionByte;
    PatHeader(tsid, ver, ps);
  }

  // ---------- A channel table end to end ----------

  function VctHead(tableId: u8, tsid: nat, ver: nat, n: nat, count: nat): (s: seq<u8>)
    requires tsid < 0x1_0000 && ver < 32 && n < 0x1000 && count < 256
    ensures |s| == 10
  {
    [tableId, 0xf0 + n / 256, n % 256, tsid / 256, tsid % 256, VersionByte(ver), 0, 0, 0, count]
  }

  predicate VctOk(tableId: u8, tsid: nat, ver: nat, cs: seq<Vct.Channel>, extra: seq<u8>) {
    && tsid < 0x1_0000 && ver < 32 && |cs| < 256
    && if tableId == 0xda then ListOk(cs, 32, extra)
       else (tableId == 0xc8 || tableId == 0xc9) && ListOk(cs, 14, extra)
  }

  /** Channels with names of `nameLen` bytes that fit a section. */
  predicate ListOk(cs: seq<Vct.Channel>, nameLen: nat, extra: seq<u8>) {
    && (forall c | c in cs :: Vct.ChannelOk(c, nameLen))
    && |Vct.ChannelsBytes(cs, nameLen)| + |extra| + 11 < 0x1000
  }

  /** A channel table of any of the three kinds; `extra` are the additional descriptors at its end. */
  function VctSection(tableId: u8, tsid: nat, ver: nat, cs: seq<Vct.Channel>, extra: seq<u8>): seq<u8>
    requires VctOk(tableId, tsid, ver, cs, extra)
  {
    var list := if tableId == 0xda then Vct.ChannelsBytes(cs, 32) else Vct.ChannelsBytes(cs, 14);
    Sealed(VctHead(tableId, tsid, ver, |list| + |extra| + 11, |cs|) + list + extra)
  }

  lemma VctSectionShape(tableId: u8, tsid: nat, ver: nat, cs: seq<Vct.Channel>, extra: seq<u8>)
    requires VctOk(tableId, tsid, ver, cs, extra)
    ensures var list, s := Vct.ChannelsBytes(cs, NameLen(tableId)), VctSection(tableId, tsid, ver, cs, extra);
            && IsSection(s) && CrcOk(s) && |s| == |list| + |extra| + 14
            && s[..10] == VctHead(tableId, tsid, ver, |list| + |extra| + 11, |cs|)
            && s[10..10 + |list|] == list
  {
    hide CrcOk, Sealed, Vct.ChannelsBytes, Vct.ChannelOk;
    var list := Vct.ChannelsBytes(cs, NameLen(tableId));
    var head := VctHead(tableId, tsid, ver, |list| + |extra| + 11, |cs|);
    var body := head + list + extra;
    var s := Sealed(body);
    Parts(s, head, list, extra);
    assert s[1] == s[..10][1] && s[2] == s[..10][2];
  }

  lemma VctHeader(tableId: u8, tsid: nat, ver: nat, cs: seq<Vct.Channel>, extra: seq<u8>, before: nat)
    requires VctOk(tableId, tsid, ver, cs, extra)
    requires NextVersion(before, RxVersion(VersionByte(ver))).Some?
    ensures var s := VctSection(tableId, tsid, ver, cs, extra);
            && |s| >= 14 && s[0] == tableId && s[9] == |cs|
            && ParseAtscHeader(s, before) == Accept(9, tsid, RxVersion(VersionByte(ver)))
  {
    hide CrcOk, VctSection, Bit, RxVersion, ParseHeader, BE16, VersionByte, NextVersion;
    hide Vct.ChannelsBytes, Vct.ChannelOk;
    var s := VctSection(tableId, tsid, ver, cs, extra);
    var n := |Vct.ChannelsBytes(cs, NameLen(tableId))| + |extra| + 11;
    var head := VctHead(tableId, tsid, ver, n, |cs|);
    VctHeadBits(tableId, tsid, ver, n, |cs|);
    VctSectionShape(tableId, tsid, ver, cs, extra);
    FollowedVersion(before, RxVersion(VersionByte(ver)));
    LongHeader(s, head, before, RxVersion(VersionByte(ver)));
    HeadByte(s, head, 0);
    HeadByte(s, head, 8);
    HeadByte(s, head, 9);
  }

  lemma FollowedVersion(before: nat, rx: nat)
    requires NextVersion(before, rx).Some?
    ensures NextVersion(before, rx) == Some(rx)
  {}

  lemma VctHeadBits(tableId: u8, tsid: nat, ver: nat, n: nat, count: nat)
    requires tsid < 0x1_0000 && ver < 32 && n < 0x1000 && count < 256
    ensures var h := VctHead(tableId, tsid, ver, n, count);
            Bit(h[1], 0x80) && Bit(h[5], 1) && BE16(h[3], h[4]) == tsid
  {}

  /** The channel list read from such a section describes the channels encoded, in order. */
  lemma VctParsed(t: Tables, tableId: u8, tsid: nat, ver: nat, cs: seq<Vct.Channel>, extra: seq<u8>)
    requires VctOk(tableId, tsid, ver, cs, extra)
    requires NextVersion(t.vctVer, RxVersion(VersionByte(ver))).Some?
    ensures |VctSection(tableId, tsid, ver, cs, extra)| >= 3
    ensures var u := ParseTbl(t, VctSection(tableId, tsid, ver, cs, extra), PSIP_PID);
            && u == t.(vctVer := RxVersion(VersionByte(ver)), vct := u.vct)
            && u.vct.Lines? && Vct.AllDescribed(u.vct.entries, cs)
  {
    hide ParseAtscHeader, VctSection, RxVersion, VersionByte;
    hide Vct.ChannelsBytes, Vct.ChannelOk, Vct.Entries, Vct.AllDescribed;
    var s := VctSection(tableId, tsid, ver, cs, extra);
    var list := Vct.ChannelsBytes(cs, NameLen(tableId));
    VctSectionShape(tableId, tsid, ver, cs, extra);
    VctHeader(tableId, tsid, ver, cs, extra, t.vctVer);
    assert s == s[..10] + list + s[10 + |list|..];
    var es := Vct.ChannelsReadBack(s[..10], cs, NameLen(tableId), s[10 + |list|..], []);
    assert [] + es == es;
  }

  /**
   End to end: on any decoder ready for its version, a channel table cut into packets of PID 0x1ffb leaves one entry a
   channel, in order, with its name, its major and minor number and its modulation. Names have 14 bytes in tables 0xc8
   and 0xc9 and 32 in table 0xda.
   */
  lemma VctEndToEnd(
    base: Tables, tableId: u8, tsid: nat, ver: nat, cs: seq<Vct.Channel>, extra: seq<u8>, shapes: seq<Shape>,
    ps: seq<Packet>)
    requires VctOk(tableId, tsid, ver, cs, extra)
    requires NextVersion(base.vctVer, RxVersion(VersionByte(ver))).Some?
    requires Fits(VctSection(tableId, tsid, ver, cs, extra), shapes, true)
    requires Only(ps, 0x1ffb) == Cut(0x1ffb, VctSection(tableId, tsid, ver, cs, extra), shapes, true)
    ensures var v := TablesAfter(base, ps).vct; v.Lines? && Vct.AllDescribed(v.entries, cs)
  {
    hide TablesAfter, VctSection, VctOk, Only, Cut, Fits, ParseTbl, NextVersion, RxVersion, VersionByte;
    hide Vct.AllDescribed;
    VctSectionShape(tableId, tsid, ver, cs, extra);
    CutSectionIsParsed(base, VctSection(tableId, tsid, ver, cs, extra), shapes, ps, PSIP_PID);
    VctParsed(base, tableId, tsid, ver, cs, extra);
  }

  /**
   After any run of packets, whatever tables it carried, the text of the channel table has at most 255 lines and
   65280 characters.
   */
  lemma TextStaysSmall(t: Tables, ps: seq<Packet>, fmt: Vct.VctEntry -> string, beyond: seq<string>)
    requires Vct.Possible(TablesAfter(Reset(t), ps).vct, beyond)
    ensures var v := TablesAfter(Reset(t), ps).vct;
            Vct.LineLimit(v) <= 255 && |Vct.WholeText(fmt, v, beyond)| <= Vct.MAX_TEXT
  {
    hide TablesAfter, Vct.WholeText, Vct.LineLimit, Vct.Possible;
    LinesStayFew(t, ps);
    Vct.WholeTextLength(fmt, TablesAfter(Reset(t), ps).vct, beyond);
  }

  lemma {:induction false} LinesStayFew(t: Tables, ps: seq<Packet>)
    ensures Vct.LineLimit(TablesAfter(Reset(t), ps).vct) <= 255
  {
    hide ParseTbl;
    if ps != [] {
      var before := TablesAfter(Reset(t), ps[..|ps| - 1]);
      LinesStayFew(t, ps[..|ps| - 1]);
      match DeliveredBy(ps)
      case None =>
      case Some(s) => OneTextIsSmall(before, s, PidOf(ps[|ps| - 1]));
    }
  }

  lemma OneTextIsSmall(t: Tables, s: seq<u8>, pid: Pid)
    requires |s| >= 3 && Vct.LineLimit(t.vct) <= 255
    ensures Vct.LineLimit(ParseTbl(t, s, pid).vct) <= 255
  {
    hide ParseHeader, StorePrograms, Vct.Parse, Vct.LineLimit;
    HeaderBounds(s, t.vctVer, s[0]);
    var h := ParseAtscHeader(s, t.vctVer);
    if h.Accept? {
      Vct.TextFits(s, h.pos, NameLen(s[0]));
    }
    if pid == 0 {
      KeepsText(t, s);
    }
  }

  /** A section of a channel table that is accepted. */
  predicate BringsText(t: Tables, s: seq<u8>, pid: Pid)
    requires |s| >= 3
  {
    pid == 0x1ffb && s[0] in {0xc8, 0xc9, 0xda} && ParseAtscHeader(s, t.vctVer).Accept?
  }

  lemma TextComes(t: Tables, s: seq<u8>, pid: Pid)
    requires |s| >= 3
    ensures ParseTbl(t, s, pid).vct == Vct.NoText <==> t.vct == Vct.NoText && !BringsText(t, s, pid)
    ensures !BringsText(t, s, pid) ==> ParseTbl(t, s, pid).vct == t.vct
  {
    hide ParseHeader, StorePrograms, Vct.Parse;
    HeaderBounds(s, t.vctVer, s[0]);
    var h := ParseAtscHeader(s, t.vctVer);
    if h.Accept? {
      Vct.AlwaysText(s, h.pos, NameLen(s[0]));
    }
    if pid == 0 {
      KeepsText(t, s);
    }
  }

  /** After a reset there is no channel text until a channel table is accepted, and from then on there is. */
  lemma {:induction false} NoTextUntilTable(t: Tables, ps: seq<Packet>)
    ensures TablesAfter(Reset(t), ps).vct == Vct.NoText <==>
            forall k | 0 < k <= |ps| && DeliveredBy(ps[..k]).Some? ::
              !BringsText(TablesAfter(Reset(t), ps[..k - 1]), DeliveredBy(ps[..k]).value, PidOf(ps[k - 1]))
  {
    hide ParseTbl, BringsText, DeliveredBy, PidOf;
    if ps != [] {
      var n := |ps| - 1;
      var before := ps[..n];
      NoTextUntilTable(t, before);
      assert ps[..n + 1] == ps;
      assert forall k | 0 <= k <= n :: before[..k] == ps[..k];
      assert forall k | 0 <= k < n :: before[k] == ps[k];
      if DeliveredBy(ps).Some? {
        TextComes(TablesAfter(Reset(t), before), DeliveredBy(ps).value, PidOf(ps[n]));
      }
    }
  }

  lemma KeepsText(t: Tables, s: seq<u8>)
    requires |s| >= 3
    ensures ParsePat(t, s).vct == t.vct
  {
    hide ParseHeader, Programs, Largest, Store, PmtPid;
    HeaderBounds(s, t.patVer, 0);
  }

  // ---------- Resets ----------

  /** Everything but the program array. */
  function Visible(t: Tables): Tables { t.(pat := []) }

  lemma {:induction false} ResetIsVisiblyFresh(t: Tables, ps: seq<Packet>)
    ensures Visible(TablesAfter(Reset(t), ps)) == Visible(TablesAfter(FRESH, ps))
  {
    hide ParseTbl, DeliveredBy;
    if ps != [] {
      var n := |ps| - 1;
      ResetIsVisiblyFresh(t, ps[..n]);
      if DeliveredBy(ps).Some? {
        var u, v := TablesAfter(Reset(t), ps[..n]), TablesAfter(FRESH, ps[..n]);
        ArrayIsNotRead(u, v, DeliveredBy(ps).value, PidOf(ps[n]));
      }
    }
  }

  lemma ArrayIsNotRead(t: Tables, u: Tables, s: seq<u8>, pid: Pid)
    requires |s| >= 3 && Visible(t) == Visible(u)
    ensures Visible(ParseTbl(t, s, pid)) == Visible(ParseTbl(u, s, pid))
  {
    hide ParseHeader, Programs, Largest, Store, PmtPid, Vct.Parse;
    HeaderBounds(s, t.patVer, 0);
  }

  lemma {:induction false} KeptOrBlank(t: Tables, ps: seq<Packet>)
    ensures var u, v := TablesAfter(Reset(t), ps), TablesAfter(FRESH, ps);
            if |t.pat| <= |v.pat| then u.pat == v.pat else |u.pat| == |t.pat|
  {
    hide ParseTbl, DeliveredBy;
    if ps != [] {
      var n := |ps| - 1;
      KeptOrBlank(t, ps[..n]);
      ResetIsVisiblyFresh(t, ps[..n]);
      if DeliveredBy(ps).Some? {
        var u, v := TablesAfter(Reset(t), ps[..n]), TablesAfter(FRESH, ps[..n]);
        KeptStep(u, v, DeliveredBy(ps).value, PidOf(ps[n]), |t.pat|);
      }
    }
  }

  lemma KeptStep(u: Tables, v: Tables, s: seq<u8>, pid: Pid, n: nat)
    requires |s| >= 3 && Visible(u) == Visible(v)
    requires if n <= |v.pat| then u.pat == v.pat else |u.pat| == n
    ensures var u', v' := ParseTbl(u, s, pid), ParseTbl(v, s, pid);
            if n <= |v'.pat| then u'.pat == v'.pat else |u'.pat| == n
  {
    hide ParseHeader, Programs, Largest, Store, PmtPid, Vct.Parse;
    HeaderBounds(s, u.patVer, 0);
  }

  /**
   After a reset, a run of packets leaves exactly what it leaves in a new decoder if and only if some program
   table of the run needed an array as large as the one kept, or none was kept.
   */
  lemma ResetIsFreshExactly(t: Tables, ps: seq<Packet>)
    ensures TablesAfter(Reset(t), ps) == TablesAfter(FRESH, ps) <==> |t.pat| <= |TablesAfter(FRESH, ps).pat|
  {
    hide TablesAfter;
    KeptOrBlank(t, ps);
    ResetIsVisiblyFresh(t, ps);
    var u, v := TablesAfter(Reset(t), ps), TablesAfter(FRESH, ps);
    assert u == Visible(u).(pat := u.pat) && v == Visible(v).(pat := v.pat);
  }

  /**
   The array survives a reset. A program below the use count that the new table does not list
   reads as in a fresh decoder exactly when the array is replaced or held 0 there already.
   */
  lemma StaleProgramsAfterReset(t: Tables, ps: seq<Program>, q: nat)
    requires q <= Largest(ps) && !Listed(ps, q)
    ensures var u, v := StorePrograms(Reset(t), ps), StorePrograms(FRESH, ps);
            q < |u.pat| && q < |v.pat| &&
            (u.pat[q] == v.pat[q] <==> (Largest(ps) + 1 >= |t.pat| || t.pat[q] == 0))
  {
    hide Largest, StorePrograms, Listed;
    StoredPrograms(Reset(t), ps);
    StoredPrograms(FRESH, ps);
  }

  /** Such a program exists: program 1 of the old stream is still there when the new one lists only program 2. */
  lemma StaleProgramExists()
    ensures var t := FRESH.(pat := [0, 7, 0, 0]);
            var ps := [Program(2, 5)];
            StorePrograms(Reset(t), ps).pat[1] == 7 && StorePrograms(FRESH, ps).pat[1] == 0
  {
    var t := FRESH.(pat := [0, 7, 0, 0]);
    var ps := [Program(2, 5)];
    assert ps[..0] == [];
    assert Largest(ps) == 2;
    assert !Listed(ps, 1);
    StoredPrograms(Reset(t), ps);
    StoredPrograms(FRESH, ps);
  }
}
