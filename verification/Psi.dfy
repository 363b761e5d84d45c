/**
 The section decoder as a function of what is delivered to it: the common header with
 its version machine, and the tables it keeps (sections 2.4.4.3 to 2.4.4.9 of ISO/IEC 13818-1
 and section 6 of ATSC A/65:2013).
 */
module Psi {
  import opened Bytes
  import opened Transport
  import opened Reassembly
  import opened MpegCrc
  import opened Vct

  /** No version received yet. */
  const NO_VERSION := 32

  const PSIP_PID: Pid := 0x1ffb
  const NULL_PID: Pid := 0x1fff

  /** Everything the decoder keeps between sections. `pat` is the allocated array, as long as `pat_max`. */
  datatype Tables = Tables(
    patVer: nat, patTsid: nat, patUse: nat, pat: seq<nat>,
    pmtPid: nat, pmtVer: nat, pcrPid: nat, mgtVer: nat, vctVer: nat, vct: VctText)

  const FRESH := Tables(NO_VERSION, 0, 0, [], 0, NO_VERSION, 0, NO_VERSION, NO_VERSION, NoText)

  /** What init leaves of `t`: all but the program array. */
  function Reset(t: Tables): Tables { FRESH.(pat := t.pat) }

  // ---------- The common header ----------

  datatype Header = Reject(ver: nat) | Accept(pos: nat, id: nat, ver: nat)

  /** The version after seeing `rx`, or none if the section is to be ignored. */
  function NextVersion(ver: nat, rx: nat): Option<nat> {
    if ver == NO_VERSION then Some(rx)
    else if rx == ver then None
    else if rx != (ver + 1) % 32 then None
    else Some(rx)
  }

  /** mpg_parse_hdr, on the bytes of the section alone. */
  function ParseHeader(s: seq<u8>, ver: nat, tableId: u8): Header
    requires |s| >= 3
  {
    if s[0] != tableId || |s| < 4 || !CrcOk(s) then Reject(ver)
    else if !Bit(s[1], 0x80) then
      if |s| < 7 then Reject(ver) else Accept(3, 0, ver)
    else if |s| < 6 || !Bit(s[5], 1) then Reject(ver)
    else match NextVersion(ver, RxVersion(s[5]))
      case None => Reject(ver)
      case Some(v) =>
        if |s| < 12 || s[7] != 0 || s[6] != 0 then Reject(v)
        else Accept(8, BE16(s[3], s[4]), v)
  }

  // ---------- Program association ----------

  datatype Program = Program(number: nat, pid: nat)

  function ProgramAt(s: seq<u8>, at: nat): Program
    requires at + 4 <= |s|
  {
    Program(BE16(s[at], s[at + 1]), BE16(s[at + 2], s[at + 3]) % 0x2000)
  }

  /** The first `n` entries from `pos` on. */
  function Programs(s: seq<u8>, pos: nat, n: nat): (ps: seq<Program>)
    requires pos + 4 * n <= |s|
    ensures |ps| == n
  {
    if n == 0 then [] else Programs(s, pos, n - 1) + [ProgramAt(s, pos + 4 * (n - 1))]
  }

  function Largest(ps: seq<Program>): (r: nat)
    ensures forall p | p in ps :: p.number <= r
    ensures r == 0 || exists p | p in ps :: p.number == r
  {
    if ps == [] then 0 else
      var p, before := ps[|ps| - 1], Largest(ps[..|ps| - 1]);
      assert ps == ps[..|ps| - 1] + [p];
      if p.number > before then p.number else before
  }

  /** The last non-zero PID of program 3, or what was there before. */
  function PmtPid(ps: seq<Program>, before: nat): nat {
    if ps == [] then before else
      var p := ps[|ps| - 1];
      if p.number == 3 && p.pid != 0 then p.pid else PmtPid(ps[..|ps| - 1], before)
  }

  /** The array after the entries are stored in order. */
  function Store(a: seq<nat>, ps: seq<Program>): (r: seq<nat>)
    ensures |r| == |a|
  {
    if ps == [] then a else
      var p, before := ps[|ps| - 1], Store(a, ps[..|ps| - 1]);
      if p.number < |a| then before[p.number := p.pid] else before
  }

  function Blank(n: nat): (a: seq<nat>)
    ensures |a| == n && forall i | 0 <= i < n :: a[i] == 0
  {
    seq(n, i => 0)
  }

  /** The array kept, or a larger blank one in its place. */
  function Room(a: seq<nat>, use: nat): (r: seq<nat>)
    requires use > 0
    ensures use <= |r|
  {
    if use >= |a| then Blank(use) else a
  }

  function StorePrograms(t: Tables, ps: seq<Program>): Tables {
    var use := Largest(ps) + 1;
    t.(patUse := use, pat := Store(Room(t.pat, use), ps), pmtPid := PmtPid(ps, t.pmtPid))
  }

  function EntryCount(len: nat, pos: nat): nat
    requires pos + 4 <= len
  {
    (len - pos) / 4 - 1
  }

  function ParsePat(t: Tables, s: seq<u8>): Tables
    requires |s| >= 3
  {
    match ParseHeader(s, t.patVer, 0)
    case Reject(v) => t.(patVer := v)
    case Accept(pos, id, v) =>
      var u := t.(patVer := v, patTsid := if id != 0 then id else t.patTsid);
      if (pos + |s|) % 4 != 0 then u
      else StorePrograms(u, Programs(s, pos, EntryCount(|s|, pos)))
  }

  // ---------- The other tables ----------

  /** atsc_parse_hdr: also skips the protocol version, which must be 0. */
  function ParseAtscHeader(s: seq<u8>, ver: nat): Header
    requires |s| >= 3
  {
    match ParseHeader(s, ver, s[0])
    case Reject(v) => Reject(v)
    case Accept(pos, id, v) => if s[pos] != 0 then Reject(v) else Accept(pos + 1, id, v)
  }

  /** The length of a short name in bytes, by table. */
  function NameLen(tableId: u8): nat {
    if tableId == 0xda then 32 else 14
  }

  predicate IsVct(tableId: u8) {
    tableId == 0xc8 || tableId == 0xc9 || tableId == 0xda
  }

  function ParsePsip(t: Tables, s: seq<u8>): Tables
    requires |s| >= 3
  {
    if s[0] == 0xc7 then t.(mgtVer := ParseAtscHeader(s, t.mgtVer).ver)
    else if IsVct(s[0]) then
      match ParseAtscHeader(s, t.vctVer)
      case Reject(v) => t.(vctVer := v)
      case Accept(pos, _, v) => t.(vctVer := v, vct := Vct.Parse(s, pos, NameLen(s[0])))
    else t
  }

  function ParsePmt(t: Tables, s: seq<u8>): Tables
    requires |s| >= 3
  {
    match ParseHeader(s, t.pmtVer, 2)
    case Reject(v) => t.(pmtVer := v)
    case Accept(pos, _, v) => t.(pmtVer := v, pcrPid := BE16(s[pos], s[pos + 1]) % 0x2000)
  }

  /** parse_tbl */
  function ParseTbl(t: Tables, s: seq<u8>, pid: Pid): Tables
    requires |s| >= 3
  {
    if pid == 0 then ParsePat(t, s)
    else if pid == PSIP_PID then ParsePsip(t, s)
    else if pid == NULL_PID then t
    else if pid == t.pmtPid then ParsePmt(t, s)
    else t
  }

  // ---------- Rejected and repeated sections ----------

  lemma HeaderAgain(s: seq<u8>, ver: nat, tableId: u8)
    requires |s| >= 3
    ensures match ParseHeader(s, ver, tableId)
            case Reject(v) => ParseHeader(s, v, tableId) == Reject(v)
            case Accept(pos, id, v) =>
              if Bit(s[1], 0x80) then ParseHeader(s, v, tableId) == Reject(v)
              else v == ver
  {
    hide CrcOk;
  }

  lemma {:induction false} StoreAgain(a: seq<nat>, ps: seq<Program>)
    ensures forall i | 0 <= i < |a| ::
              Store(a, ps)[i] == if exists p :: p in ps && p.number == i then Store(Blank(|a|), ps)[i] else a[i]
  {
    if ps != [] {
      var n := |ps| - 1;
      assert ps == ps[..n] + [ps[n]];
      StoreAgain(a, ps[..n]);
    }
  }

  lemma StoreTwice(a: seq<nat>, ps: seq<Program>)
    ensures Store(Store(a, ps), ps) == Store(a, ps)
  {
    StoreAgain(a, ps);
    StoreAgain(Store(a, ps), ps);
  }

  /** The result is the start value or does not depend on it. */
  lemma {:induction false} PmtPidSticks(ps: seq<Program>, a: nat, b: nat)
    ensures PmtPid(ps, a) == a || PmtPid(ps, b) == PmtPid(ps, a)
  {
    if ps != [] {
      PmtPidSticks(ps[..|ps| - 1], a, b);
    }
  }

  lemma StoreProgramsTwice(t: Tables, ps: seq<Program>)
    ensures StorePrograms(StorePrograms(t, ps), ps) == StorePrograms(t, ps)
  {
    PmtPidSticks(ps, t.pmtPid, PmtPid(ps, t.pmtPid));
    StoreTwice(Room(t.pat, Largest(ps) + 1), ps);
  }

  lemma PatTwice(t: Tables, s: seq<u8>)
    requires |s| >= 3
    ensures ParsePat(ParsePat(t, s), s) == ParsePat(t, s)
  {
    hide ParseHeader, StorePrograms;
    HeaderAgain(s, t.patVer, 0);
    HeaderBounds(s, t.patVer, 0);
    var h := ParseHeader(s, t.patVer, 0);
    if h.Accept? && (h.pos + |s|) % 4 == 0 {
      var u := t.(patVer := h.ver, patTsid := if h.id != 0 then h.id else t.patTsid);
      var ps := Programs(s, h.pos, EntryCount(|s|, h.pos));
      StoreProgramsTwice(u, ps);
      StoreProgramsKeeps(u, ps);
      assert ParsePat(t, s) == StorePrograms(u, ps);
    }
  }

  /** The same section twice in a row leaves what it left once, for every table. */
  lemma RepeatIsIgnored(t: Tables, s: seq<u8>, pid: Pid)
    requires |s| >= 3
    ensures ParseTbl(ParseTbl(t, s, pid), s, pid) == ParseTbl(t, s, pid)
  {
    hide ParseHeader, Vct.Parse, ParsePat;
    PatTwice(t, s);
    HeaderAgain(s, t.mgtVer, s[0]);
    HeaderAgain(s, t.vctVer, s[0]);
    HeaderAgain(s, t.pmtVer, 2);
  }

  lemma HeaderBounds(s: seq<u8>, ver: nat, tableId: u8)
    requires |s| >= 3
    ensures var h := ParseHeader(s, ver, tableId);
            h.Accept? ==> CrcOk(s) && h.pos + 4 <= |s| && (h.pos == if Bit(s[1], 0x80) then 8 else 3)
  {
    hide CrcOk;
  }

  /**
   A section is accepted exactly when its id and checksum are right and, with a long header, it is current,
   brings a version to follow and is the only section of its table; short headers carry no version.
   */
  lemma AcceptedExactly(s: seq<u8>, ver: nat, tableId: u8)
    requires |s| >= 3
    ensures ParseHeader(s, ver, tableId).Accept? <==>
              && s[0] == tableId && CrcOk(s)
              && if Bit(s[1], 0x80)
                 then |s| >= 12 && Bit(s[5], 1) && s[6] == 0 && s[7] == 0 && NextVersion(ver, RxVersion(s[5])).Some?
                 else |s| >= 7
    ensures var h := ParseHeader(s, ver, tableId);
            h.Accept? ==> h.ver == if Bit(s[1], 0x80) then RxVersion(s[5]) else ver
  {
    hide CrcOk, Bit, RxVersion;
  }

  /** A good section of a table with a current long header whose version is one to follow. */
  predicate Arrives(s: seq<u8>, ver: nat, tableId: u8) {
    && |s| >= 6 && s[0] == tableId && CrcOk(s) && Bit(s[1], 0x80) && Bit(s[5], 1)
    && NextVersion(ver, RxVersion(s[5])).Some?
  }

  /** It has room for its fields and is the only section of its table. */
  predicate Whole(s: seq<u8>) {
    |s| >= 12 && s[6] == 0 && s[7] == 0
  }

  /** A section with a long header of the same version. */
  predicate SameVersion(s: seq<u8>, later: seq<u8>)
    requires |s| >= 6
  {
    |later| >= 6 && Bit(later[1], 0x80) && RxVersion(later[5]) == RxVersion(s[5])
  }

  lemma ArrivalHeader(s: seq<u8>, ver: nat, tableId: u8)
    requires Arrives(s, ver, tableId)
    ensures ParseHeader(s, ver, tableId) ==
            if Whole(s) then Accept(8, BE16(s[3], s[4]), RxVersion(s[5])) else Reject(RxVersion(s[5]))
  {
    hide CrcOk, Bit, RxVersion, BE16;
  }

  lemma VersionBlocks(s: seq<u8>, later: seq<u8>, tableId: u8)
    requires |s| >= 6 && SameVersion(s, later)
    ensures ParseHeader(later, RxVersion(s[5]), tableId) == Reject(RxVersion(s[5]))
  {
    hide CrcOk, Bit, RxVersion;
    VersionsAreSmall(s[5]);
  }

  /**
   A program table that arrives always takes its version. Its programs are stored exactly when it is whole and
   its length is a multiple of four; in either case no later section of its version is looked at.
   */
  lemma PatArrives(t: Tables, s: seq<u8>)
    requires Arrives(s, t.patVer, 0)
    ensures var u := ParseTbl(t, s, 0);
            var tsid := if Whole(s) && BE16(s[3], s[4]) != 0 then BE16(s[3], s[4]) else t.patTsid;
            && (u == t.(patVer := RxVersion(s[5]), patTsid := tsid, patUse := u.patUse, pat := u.pat,
                        pmtPid := u.pmtPid))
            && (if Whole(s) && |s| % 4 == 0
                then var v := StorePrograms(t, Programs(s, 8, (|s| - 12) / 4));
                     u.patUse == v.patUse && u.pat == v.pat && u.pmtPid == v.pmtPid
                else u.patUse == t.patUse && u.pat == t.pat && u.pmtPid == t.pmtPid)
            && forall later | SameVersion(s, later) :: ParseTbl(u, later, 0) == u
  {
    hide CrcOk, Bit, RxVersion, BE16, ParseHeader, Programs, Largest, Store, PmtPid, Whole, SameVersion;
    ArrivalHeader(s, t.patVer, 0);
    WholeCount(s);
    forall later | SameVersion(s, later)
      ensures |later| >= 6 && ParseHeader(later, RxVersion(s[5]), 0) == Reject(RxVersion(s[5]))
    {
      ManyBytes(s, later);
      VersionBlocks(s, later, 0);
    }
  }

  lemma WholeCount(s: seq<u8>)
    ensures Whole(s) ==> EntryCount(|s|, 8) == (|s| - 12) / 4 && 8 + 4 * EntryCount(|s|, 8) <= |s|
  {}

  /** A program table with a short header has no version: it is stored whenever its length fits. */
  lemma ShortPatArrives(t: Tables, s: seq<u8>)
    requires |s| >= 7 && s[0] == 0 && CrcOk(s) && !Bit(s[1], 0x80)
    ensures ParseTbl(t, s, 0) == if |s| % 4 == 1 then StorePrograms(t, Programs(s, 3, (|s| - 7) / 4)) else t
  {
    hide CrcOk, Bit, StorePrograms, Programs;
    assert (3 + |s|) % 4 == 0 <==> |s| % 4 == 1;
    assert EntryCount(|s|, 3) == (|s| - 7) / 4;
  }

  /** The same of a channel table. It is taken exactly when it is whole and of protocol version 0. */
  lemma VctArrives(t: Tables, s: seq<u8>)
    requires |s| >= 6 && s[0] in {0xc8, 0xc9, 0xda} && Arrives(s, t.vctVer, s[0])
    ensures var u := ParseTbl(t, s, 0x1ffb);
            && u == t.(vctVer := RxVersion(s[5]),
                       vct := if Whole(s) && s[8] == 0 then Vct.Parse(s, 9, if s[0] == 0xda then 32 else 14) else t.vct)
            && forall later | SameVersion(s, later) && later[0] in {0xc8, 0xc9, 0xda} :: ParseTbl(u, later, 0x1ffb) == u
  {
    hide CrcOk, Bit, RxVersion, BE16, ParseHeader, Vct.Parse, SameVersion;
    ArrivalHeader(s, t.vctVer, s[0]);
    forall later | SameVersion(s, later)
      ensures |later| >= 6 && ParseHeader(later, RxVersion(s[5]), later[0]) == Reject(RxVersion(s[5]))
    {
      ManyBytes(s, later);
      VersionBlocks(s, later, later[0]);
    }
  }

  /** A guide table changes nothing but its own version, which it always takes. */
  lemma MgtArrives(t: Tables, s: seq<u8>)
    requires Arrives(s, t.mgtVer, 0xc7)
    ensures ParseTbl(t, s, 0x1ffb) == t.(mgtVer := RxVersion(s[5]))
  {
    hide CrcOk, Bit, RxVersion, BE16, ParseHeader;
    ArrivalHeader(s, t.mgtVer, 0xc7);
  }

  lemma ManyBytes(s: seq<u8>, later: seq<u8>)
    requires |s| >= 6 && SameVersion(s, later)
    ensures |later| >= 6
  {}

  /** The same of a program map, on the PID stored for it. Its clock PID is taken exactly when it is whole. */
  lemma PmtArrives(t: Tables, s: seq<u8>, pid: Pid)
    requires Arrives(s, t.pmtVer, 2) && pid == t.pmtPid && pid !in {0, 0x1ffb, 0x1fff}
    ensures var u := ParseTbl(t, s, pid);
            && u == t.(pmtVer := RxVersion(s[5]),
                       pcrPid := if Whole(s) then BE16(s[8], s[9]) % 0x2000 else t.pcrPid)
            && forall later | SameVersion(s, later) :: ParseTbl(u, later, pid) == u
  {
    hide CrcOk, Bit, RxVersion, BE16, ParseHeader, SameVersion;
    ArrivalHeader(s, t.pmtVer, 2);
    forall later | SameVersion(s, later)
      ensures |later| >= 6 && ParseHeader(later, RxVersion(s[5]), 2) == Reject(RxVersion(s[5]))
    {
      ManyBytes(s, later);
      VersionBlocks(s, later, 2);
    }
  }

  /** Sections of any other PID or table id change nothing. */
  lemma OthersChangeNothing(t: Tables, s: seq<u8>, pid: Pid)
    requires |s| >= 3
    requires || (pid == 0 && s[0] != 0)
             || (pid == 0x1ffb && s[0] !in {0xc7, 0xc8, 0xc9, 0xda})
             || pid == 0x1fff
             || (pid !in {0, 0x1ffb} && (pid != t.pmtPid || s[0] != 2))
    ensures ParseTbl(t, s, pid) == t
  {
    hide CrcOk, StorePrograms, Vct.Parse;
  }

  // ---------- Program 3 ----------

  /** Program 3 is listed last, with a PID that is not 0, at `i`. */
  predicate LastMap(ps: seq<Program>, i: nat) {
    && i < |ps| && ps[i].number == 3 && ps[i].pid != 0
    && forall j | i < j < |ps| && ps[j].number == 3 :: ps[j].pid == 0
  }

  /** The program map's PID is the last one listed for program 3 that is not 0; without one it stays. */
  lemma {:induction false} MapPid(ps: seq<Program>, before: nat)
    ensures forall i: nat | LastMap(ps, i) :: PmtPid(ps, before) == ps[i].pid
    ensures (forall p | p in ps && p.number == 3 :: p.pid == 0) ==> PmtPid(ps, before) == before
  {
    if ps != [] {
      var n := |ps| - 1;
      MapPid(ps[..n], before);
      assert ps == ps[..n] + [ps[n]];
      forall i: nat | LastMap(ps, i) ensures PmtPid(ps, before) == ps[i].pid {
        if i < n {
          assert LastMap(ps[..n], i);
        }
      }
    }
  }

  lemma VersionsAreSmall(b: u8)
    ensures RxVersion(b) < NO_VERSION
  {}

  lemma StoreProgramsKeeps(t: Tables, ps: seq<Program>)
    ensures var u := StorePrograms(t, ps);
            u.patVer == t.patVer && u.patTsid == t.patTsid
  {}

  /** A bad checksum, or a long header marked "next", changes nothing. */
  lemma BadSectionChangesNothing(t: Tables, s: seq<u8>, pid: Pid)
    requires |s| >= 3
    requires !CrcOk(s) || (|s| >= 6 && Bit(s[1], 0x80) && !Bit(s[5], 1))
    ensures ParseTbl(t, s, pid) == t
  {
    hide CrcOk, StorePrograms, Vct.Parse;
  }

  // ---------- Versions ----------

  /** How a version variable may move: not at all, from none to a received one, or by one. */
  predicate VersionMove(v: nat, w: nat) {
    w == v || ((w <= 7 || 16 <= w <= 23) && (v == NO_VERSION || w == (v + 1) % 32))
  }

  lemma HeaderMovesVersion(s: seq<u8>, ver: nat, tableId: u8)
    requires |s| >= 3
    ensures VersionMove(ver, ParseHeader(s, ver, tableId).ver)
  {
    hide CrcOk;
  }

  lemma TablesMoveVersions(t: Tables, s: seq<u8>, pid: Pid)
    requires |s| >= 3
    ensures var u := ParseTbl(t, s, pid);
            && VersionMove(t.patVer, u.patVer) && VersionMove(t.pmtVer, u.pmtVer)
            && VersionMove(t.mgtVer, u.mgtVer) && VersionMove(t.vctVer, u.vctVer)
  {
    hide ParseHeader, Vct.Parse, StorePrograms;
    HeaderMovesVersion(s, t.patVer, 0);
    HeaderMovesVersion(s, t.pmtVer, 2);
    HeaderMovesVersion(s, t.mgtVer, s[0]);
    HeaderMovesVersion(s, t.vctVer, s[0]);
    if pid == 0 && ParseHeader(s, t.patVer, 0).Accept? {
      HeaderBounds(s, t.patVer, 0);
      StorePatKeepsVersions(t, s);
    }
  }

  lemma StorePatKeepsVersions(t: Tables, s: seq<u8>)
    requires |s| >= 3
    ensures var u := ParsePat(t, s);
            && u.patVer == ParseHeader(s, t.patVer, 0).ver
            && u.pmtVer == t.pmtVer && u.mgtVer == t.mgtVer && u.vctVer == t.vctVer
            && u.vctVer == t.vctVer && u.vct == t.vct && u.pcrPid == t.pcrPid
  {
    hide ParseHeader, Programs, Store, Largest, PmtPid;
    HeaderBounds(s, t.patVer, 0);
  }

  /** A history of one version variable. */
  predicate VersionHistory(vs: seq<nat>) {
    vs != [] && vs[0] == NO_VERSION && forall i | 0 < i < |vs| :: VersionMove(vs[i - 1], vs[i])
  }

  lemma {:induction false} VersionsStayInBlock(vs: seq<nat>, i: nat, j: nat)
    requires VersionHistory(vs)
    requires i <= j < |vs| && vs[i] != NO_VERSION
    ensures vs[i] <= vs[j] && vs[j] != NO_VERSION && vs[j] / 8 == vs[i] / 8
    decreases j
  {
    VersionsKnown(vs, i);
    if i < j {
      VersionsStayInBlock(vs, i, j - 1);
      VersionsKnown(vs, j - 1);
      assert VersionMove(vs[j - 1], vs[j]);
    }
  }

  lemma {:induction false} VersionsKnown(vs: seq<nat>, i: nat)
    requires VersionHistory(vs) && i < |vs|
    ensures vs[i] == NO_VERSION || vs[i] <= 7 || 16 <= vs[i] <= 23
  {
    if i > 0 {
      VersionsKnown(vs, i - 1);
      assert VersionMove(vs[i - 1], vs[i]);
    }
  }

  /**
   Between resets a version variable never goes back and takes at most eight values:
   bit 3 of the version is not extracted, so no step leaves the block of eight it started in.
   */
  lemma AtMostEightVersions(vs: seq<nat>)
    requires VersionHistory(vs)
    ensures forall i, j | 0 <= i <= j < |vs| && vs[i] != NO_VERSION :: vs[i] <= vs[j] && vs[j] != NO_VERSION
    ensures |set i | 0 <= i < |vs| && vs[i] != NO_VERSION :: vs[i]| <= 8
  {
    forall i, j | 0 <= i <= j < |vs| && vs[i] != NO_VERSION
      ensures vs[i] <= vs[j] && vs[j] != NO_VERSION
    {
      VersionsStayInBlock(vs, i, j);
    }
    var taken := set i | 0 <= i < |vs| && vs[i] != NO_VERSION :: vs[i];
    if k :| 0 <= k < |vs| && vs[k] != NO_VERSION {
      var b := 8 * (vs[k] / 8);
      forall v | v in taken ensures v in {b, b + 1, b + 2, b + 3, b + 4, b + 5, b + 6, b + 7} {
        var i :| 0 <= i < |vs| && vs[i] == v && vs[i] != NO_VERSION;
        if i <= k { VersionsStayInBlock(vs, i, k); } else { VersionsStayInBlock(vs, k, i); }
      }
      SubsetSize(taken, {b, b + 1, b + 2, b + 3, b + 4, b + 5, b + 6, b + 7});
    } else {
      assert taken == {};
    }
  }

  lemma {:induction false} SubsetSize(a: set<nat>, b: set<nat>)
    requires a <= b
    ensures |a| <= |b|
  {
    if a != {} {
      var x :| x in a;
      SubsetSize(a - {x}, b - {x});
    }
  }

  /** The version byte a broadcaster sends for version `v`, marked "current". */
  function VersionByte(v: nat): (b: u8)
    requires v < 32
  {
    0xc1 + 2 * v
  }

  lemma ExtractedVersion(v: nat)
    requires v < 32
    ensures RxVersion(VersionByte(v)) == v % 8 + 16 * (v / 16)
  {
    assert VersionByte(v) / 2 == 0x60 + v;
    assert VersionByte(v) / 32 == 6 + v / 16;
  }

  /**
   A decoder that has followed a table to version `v`, with `v` as the program extracts it,
   follows the broadcaster's next version exactly when `v` is not the last of its block of eight.
   */
  lemma NextVersionIsFollowed(v: nat)
    requires v < 32
    ensures NextVersion(RxVersion(VersionByte(v)), RxVersion(VersionByte((v + 1) % 32))).Some? <==> v % 8 != 7
  {
    hide RxVersion, VersionByte;
    ExtractedVersion(v);
    ExtractedVersion((v + 1) % 32);
    if v % 8 != 7 {
      WithinBlock(v);
    } else {
      assert v == 7 || v == 15 || v == 23 || v == 31;
    }
  }

  lemma WithinBlock(v: nat)
    requires v < 32 && v % 8 != 7
    ensures v + 1 < 32 && (v + 1) % 8 == v % 8 + 1 && (v + 1) / 16 == v / 16
  {
    var q, r := v / 8, v % 8;
    assert v + 1 == 8 * q + (r + 1);
  }
}
