/**
 The decoder as the program runs it (mpgatsc.cpp): one fixed buffer a PID, counters that say how much
 of each is collected, and table fields updated in place. It is proved to do what modules
 Reassembly, Psi and Decoder say.
 */
module Mpgatsc {
  import opened Bytes
  import opened Transport
  import opened Reassembly
  import opened MpegCrc
  import opened Psi
  import opened Decoder
  import Vct

  const MAX_PKT_LEN := 0x1003

  // ---------- Sections too short for the header ----------

  /** The table ids the decoder checks headers of. */
  predicate KnownTable(tableId: u8) {
    tableId == 0 || tableId == 2 || tableId == 0xc7 || IsVct(tableId)
  }

  lemma OneByteChecksums()
    ensures Byte2(ByteStep(ALL_ONES, 0x00)) != 2
    ensures Byte2(ByteStep(ALL_ONES, 0x02)) != 2
    ensures Byte2(ByteStep(ALL_ONES, 0xc7)) != 2
    ensures Byte2(ByteStep(ALL_ONES, 0xc8)) != 2
    ensures Byte2(ByteStep(ALL_ONES, 0xc9)) != 2
    ensures Byte2(ByteStep(ALL_ONES, 0xda)) != 2
  {}

  lemma SmallOctets()
    ensures Octet(0) == 0x00 && Octet(2) == 0x02 && Octet(0xc7) == 0xc7
    ensures Octet(0xc8) == 0xc8 && Octet(0xc9) == 0xc9 && Octet(0xda) == 0xda
    ensures Octet(255) == 0xff
  {}

  lemma AllOnesBytes()
    ensures Byte3(ALL_ONES) == 0xff
  {}

  lemma CrcOfOneByte(b: u8)
    ensures Crc([b]) == ByteStep(ALL_ONES, Octet(b))
  {
    hide ByteStep, Octet;
    assert [b][..0] == [];
    assert Register(ALL_ONES, []) == ALL_ONES;
  }

  /** The checksum that a section stores, byte by byte. */
  lemma StoredBytes(s: seq<u8>, n: nat)
    requires |s| == n + 4 && CrcOk(s)
    ensures Byte3(Crc(s[..n])) == Octet(s[n]) && Byte2(Crc(s[..n])) == Octet(s[n + 1])
  {
    hide Octet, Word, Byte3, Byte2, Byte1, Byte0, Crc;
    var f := s[n..];
    assert s[..|s| - 4] == s[..n] && s[|s| - 4..] == f;
    WordBytes(Octet(f[0]), Octet(f[1]), Octet(f[2]), Octet(f[3]));
  }

  lemma CrcOfNothing()
    ensures Byte3(Crc([])) == 0xff
  {
    AllOnesBytes();
  }

  /** The checksum of one byte that is a known table id does not have a 2 where a five-byte section has its length. */
  lemma CrcOfKnownTable(tableId: u8)
    requires KnownTable(tableId)
    ensures Byte2(Crc([tableId])) != Octet(2)
  {
    hide ByteStep, Octet, Crc, Byte2;
    CrcOfOneByte(tableId);
    SmallOctets();
    OneByteChecksums();
  }

  lemma SectionLength(s: seq<u8>)
    requires IsSection(s) && |s| < 259
    ensures s[2] == |s| - 3
  {
    LowByte(s[1], s[2], BE16(s[1], s[2]) / 0x1000, |s| - 3);
  }

  lemma LowByte(hi: nat, lo: nat, q: nat, n: nat)
    requires 256 * hi + lo == 4096 * q + n && lo < 256 && n < 256
    ensures lo == n
  {}

  /**
   No section of fewer than six bytes with a known table id has a good checksum, so its version byte is its own.
   */
  lemma ShortSectionsFail(s: seq<u8>)
    requires IsSection(s) && 4 <= |s| < 6 && KnownTable(s[0])
    ensures !CrcOk(s)
  {
    hide IsSection, CrcOk, Octet, Crc, Byte3, Byte2;
    if CrcOk(s) {
      StoredBytes(s, |s| - 4);
      if |s| == 4 {
        assert s[..0] == [];
        CrcOfNothing();
        SmallOctets();
        OctetInjective(s[0], 255);
      } else {
        assert s[..1] == [s[0]];
        SectionLength(s);
        CrcOfKnownTable(s[0]);
      }
    }
  }

  // ---------- The run so far, one packet longer ----------

  lemma OnePacketMore(ps: seq<Packet>, p: Packet, pid: Pid)
    ensures Fragments(ps + [p], pid) ==
            if PidOf(p) == pid then Fragments(ps, pid) + [Classify(p)] else Fragments(ps, pid)
  {
    LastOf(ps, p);
  }

  lemma TablesOneMore(base: Tables, ps: seq<Packet>, p: Packet)
    ensures TablesAfter(base, ps + [p]) ==
            match DeliveredBy(ps + [p])
            case None => TablesAfter(base, ps)
            case Some(s) => ParseTbl(TablesAfter(base, ps), s, PidOf(p))
  {
    LastOf(ps, p);
  }

  lemma NoPacketYet(base: Tables)
    ensures TablesAfter(base, []) == base
    ensures forall p: Pid :: Pending(Fragments([], p)) == []
  {}

  /** What one fragment does to what is collected, and what it delivers. */
  lemma FragmentStep(h: seq<Fragment>, f: Fragment)
    ensures var g := h + [f];
            match f
            case Skip => Delivered(g) == None && Pending(g) == Pending(h)
            case Lost => Delivered(g) == None && Pending(g) == []
            case First(data) =>
              if Complete(data) then Delivered(g) == Some(data[..SectionLen(data)]) && Pending(g) == []
              else Delivered(g) == None && Pending(g) == data
            case Next(data) =>
              if Pending(h) == [] then Delivered(g) == None && Pending(g) == []
              else if Complete(Pending(h) + data) then
                Delivered(g) == Some((Pending(h) + data)[..SectionLen(Pending(h) + data)]) && Pending(g) == []
              else Delivered(g) == None && Pending(g) == Pending(h) + data
  {
    LastOf(h, f);
    if f.Next? && Complete(Collected(h)) {
      MoreStaysComplete(Collected(h), f.data);
    }
  }

  // ---------- Reading a section out of a buffer ----------

  /** The first `len` bytes of a buffer are a section. */
  ghost predicate HoldsSection(pkt: array<u8>, len: nat)
    reads pkt
  {
    pkt.Length == MAX_PKT_LEN && len <= pkt.Length && IsSection(pkt[..len])
  }

  /** mpg_parse_hdr. It looks at bytes 5 to 7 before it looks at the length; they never matter beyond the section. */
  method MpgParseHdr(pkt: array<u8>, len: nat, ver: nat, tableId: u8) returns (h: Header)
    requires HoldsSection(pkt, len) && KnownTable(tableId)
    ensures h == ParseHeader(pkt[..len], ver, tableId)
  {
    hide Word, Octet, Register, Bit, RxVersion, BE16;
    ghost var s := pkt[..len];
    if pkt[0] != tableId || len < 4 {
      return Reject(ver);
    }
    var stored := Word(Octet(pkt[len - 4]), Octet(pkt[len - 3]), Octet(pkt[len - 2]), Octet(pkt[len - 1]));
    var crc := Mpeg2Crc(pkt, 0, len - 4);
    assert s[..len - 4] == pkt[0..0 + (len - 4)];
    if stored != crc {
      return Reject(ver);
    }
    assert CrcOk(s);
    if len < 6 {
      ShortSectionsFail(s);
    }
    var pos, id, v := 3, 0, ver;
    if Bit(pkt[pos - 2], 0x80) { // found a long header
      id := BE16(pkt[pos], pkt[pos + 1]);
      if !Bit(pkt[pos + 2], 1) { // "next"
        return Reject(v);
      }
      var rx := RxVersion(pkt[pos + 2]);
      if v != NO_VERSION {
        if rx == v {
          return Reject(v);
        }
        if rx != (v + 1) % 32 {
          return Reject(v);
        }
      }
      v := rx;
      if pkt[pos + 4] != 0 || pkt[pos + 3] != 0 || pos + 5 > len {
        return Reject(v);
      }
      pos := pos + 5;
    }
    if pos + 4 > len {
      return Reject(v);
    }
    return Accept(pos, id, v);
  }

  /** atsc_parse_hdr */
  method AtscParseHdr(pkt: array<u8>, len: nat, ver: nat) returns (h: Header)
    requires HoldsSection(pkt, len) && KnownTable(pkt[0])
    ensures h == ParseAtscHeader(pkt[..len], ver)
  {
    hide ParseHeader;
    HeaderBounds(pkt[..len], ver, pkt[0]);
    h := MpgParseHdr(pkt, len, ver, pkt[0]);
    if h.Accept? {
      if pkt[h.pos] != 0 {
        return Reject(h.ver);
      }
      return Accept(h.pos + 1, h.id, h.ver);
    }
  }

  /** parse_descriptors: whether the walk keeps to the section. */
  method ParseDescriptors(pkt: array<u8>, len: nat, start: nat, bytes: nat) returns (stays: bool)
    requires len <= pkt.Length
    ensures stays == Vct.DescriptorsStay(pkt[..len], start, bytes)
  {
    var pos: nat, left: nat := start, bytes;
    ghost var s := pkt[..len];
    while left >= 2
      invariant Vct.DescriptorsStay(s, pos, left) == Vct.DescriptorsStay(s, start, bytes)
    {
      if pos + 2 > len || pkt[pos + 1] > left - 2 {
        return false;
      }
      var dlen := pkt[pos + 1];
      pos := pos + 2 + dlen;
      left := left - 2 - dlen;
    }
    return true;
  }

  /** parse_vct */
  method ParseVct(pkt: array<u8>, len: nat, start: nat, nameLen: nat) returns (text: Vct.VctText)
    requires start < len <= pkt.Length
    ensures text == Vct.Parse(pkt[..len], start, nameLen)
  {
    hide Vct.DescriptorsStay, Vct.EntryAt, BE24, BE16;
    ghost var s := pkt[..len];
    var entries: seq<Vct.VctEntry> := [];
    var count: nat := pkt[start];
    var pos: nat, i: nat := start + 1, 0;
    while i < count
      invariant 0 <= i <= count
      invariant Vct.Entries(s, pos, count - i, nameLen, entries) == Vct.Parse(s, start, nameLen)
    {
      if pos + Vct.EntrySize(nameLen) > len {
        return Vct.Overrun(entries, count - i);
      }
      var p := pos + nameLen;
      var entry := Vct.VctEntry(pkt[pos..p], BE24(pkt[p], pkt[p + 1], pkt[p + 2]) % 0x10_0000, pkt[p + 3]);
      assert entry == Vct.EntryAt(s, pos, nameLen) by { ReadEntry(pkt, len, pos, nameLen); }
      var left := BE16(pkt[p + 16], pkt[p + 17]) % 0x400;
      pos := p + 18;
      entries := entries + [entry];
      var stays := ParseDescriptors(pkt, len, pos, left);
      if !stays {
        return Vct.Overrun(entries, count - i - 1);
      }
      pos := pos + left;
      if pos > len {
        return Vct.Lines(entries);
      }
      i := i + 1;
    }
    return Vct.Lines(entries);
  }

  lemma ReadEntry(pkt: array<u8>, len: nat, pos: nat, nameLen: nat)
    requires len <= pkt.Length && pos + Vct.EntrySize(nameLen) <= len
    ensures var p := pos + nameLen;
            Vct.EntryAt(pkt[..len], pos, nameLen)
            == Vct.VctEntry(pkt[pos..p], BE24(pkt[p], pkt[p + 1], pkt[p + 2]) % 0x10_0000, pkt[p + 3])
  {
    assert pkt[..len][pos..pos + nameLen] == pkt[pos..pos + nameLen];
  }

  lemma ReadProgram(pkt: array<u8>, len: nat, at: nat)
    requires at + 4 <= len <= pkt.Length
    ensures ProgramAt(pkt[..len], at)
            == Program(BE16(pkt[at], pkt[at + 1]), BE16(pkt[at + 2], pkt[at + 3]) % 0x2000)
  {}

  lemma NoPrograms(s: seq<u8>, start: nat, before: nat)
    requires start <= |s|
    ensures Largest(Programs(s, start, 0)) == 0 && PmtPid(Programs(s, start, 0), before) == before
  {}

  lemma LargestSnoc(ps: seq<Program>, p: Program)
    ensures Largest(ps + [p]) == if p.number > Largest(ps) then p.number else Largest(ps)
  {
    assert (ps + [p])[..|ps|] == ps;
  }

  lemma PmtPidSnoc(ps: seq<Program>, p: Program, before: nat)
    ensures PmtPid(ps + [p], before) == if p.number == 3 && p.pid != 0 then p.pid else PmtPid(ps, before)
  {
    assert (ps + [p])[..|ps|] == ps;
  }

  lemma StoreSnoc(a: seq<nat>, ps: seq<Program>, p: Program)
    ensures Store(a, ps + [p]) == if p.number < |a| then Store(a, ps)[p.number := p.pid] else Store(a, ps)
  {
    assert (ps + [p])[..|ps|] == ps;
  }

  /** What one more entry does to the two results of the first loop. */
  lemma OneProgramMore(s: seq<u8>, start: nat, i: nat, before: nat)
    requires start + 4 * i + 4 <= |s|
    ensures var p, ps := ProgramAt(s, start + 4 * i), Programs(s, start, i);
            && Largest(Programs(s, start, i + 1)) == (if p.number > Largest(ps) then p.number else Largest(ps))
            && PmtPid(Programs(s, start, i + 1), before) ==
               if p.number == 3 && p.pid != 0 then p.pid else PmtPid(ps, before)
  {
    hide ProgramAt, Largest, PmtPid;
    LargestSnoc(Programs(s, start, i), ProgramAt(s, start + 4 * i));
    PmtPidSnoc(Programs(s, start, i), ProgramAt(s, start + 4 * i), before);
  }

  lemma NoneStored(s: seq<u8>, start: nat, a: seq<nat>)
    requires start <= |s|
    ensures Store(a, Programs(s, start, 0)) == a
  {}

  /** What one more entry does to the array. */
  lemma OneStoredMore(s: seq<u8>, start: nat, i: nat, a: seq<nat>)
    requires start + 4 * i + 4 <= |s|
    ensures var p, before := ProgramAt(s, start + 4 * i), Store(a, Programs(s, start, i));
            Store(a, Programs(s, start, i + 1)) == if p.number < |a| then before[p.number := p.pid] else before
  {
    hide ProgramAt, Store;
    StoreSnoc(a, Programs(s, start, i), ProgramAt(s, start + 4 * i));
  }

  lemma {:induction false} ProgramIn(s: seq<u8>, start: nat, count: nat, i: nat)
    requires start + 4 * count <= |s| && i < count
    ensures ProgramAt(s, start + 4 * i) in Programs(s, start, count)
    decreases count
  {
    hide ProgramAt;
    if i < count - 1 {
      ProgramIn(s, start, count - 1, i);
    }
  }

  /** What ParsePat does, by what its header says. */
  lemma PatByHeader(t: Tables, s: seq<u8>, h: Header)
    requires |s| >= 3 && h == ParseHeader(s, t.patVer, 0)
    ensures h.Reject? ==> Psi.ParsePat(t, s) == t.(patVer := h.ver)
    ensures h.Accept? ==> h.pos + 4 <= |s|
    ensures h.Accept? ==>
              var u := t.(patVer := h.ver, patTsid := if h.id != 0 then h.id else t.patTsid);
              Psi.ParsePat(t, s) ==
              if (h.pos + |s|) % 4 != 0 then u else StorePrograms(u, Programs(s, h.pos, EntryCount(|s|, h.pos)))
  {
    hide ParseHeader, Programs, StorePrograms;
    HeaderBounds(s, t.patVer, 0);
  }

  method ClearCounters(a: array<nat>)
    modifies a
    ensures forall i | 0 <= i < a.Length :: a[i] == 0
  {
    for i := 0 to a.Length
      invariant forall k | 0 <= k < i :: a[k] == 0
    {
      a[i] := 0;
    }
  }

  /** memcpy */
  method Copy(dst: array<u8>, at: nat, src: array<u8>, from: nat, n: nat)
    requires dst != src && at + n <= dst.Length && from + n <= src.Length
    modifies dst
    ensures dst[..at + n] == old(dst[..at]) + src[from..from + n]
  {
    forall k | 0 <= k < n { dst[at + k] := src[from + k]; }
  }

  class Mpgatsc {
    const pktlist: array<array?<u8>>
    const pktlen: array<nat>

    var patCurver: nat
    var patTsid: nat
    var pmtPid: nat
    var pmtCurver: nat
    var pcrPid: nat
    var mgtCurver: nat
    var vctCurver: nat
    var patUse: nat
    var patMax: nat
    var pat: array?<nat>
    var vctstr: Vct.VctText

    /** The packets since the last reset, and the tables it left. */
    ghost var hist: seq<Packet>
    ghost var base: Tables

    ghost var Repr: set<object>

    function PatArray(): (a: seq<nat>)
      reads this, pat
    {
      if pat == null then [] else pat[..]
    }

    function Now(): Tables
      reads this, pat
    {
      Tables(patCurver, patTsid, patUse, PatArray(), pmtPid, pmtCurver, pcrPid, mgtCurver, vctCurver, vctstr)
    }

    ghost predicate Shaped()
      reads this, Repr
    {
      && this in Repr && pktlist in Repr && pktlen in Repr
      && pktlist.Length == NUM_PIDS && pktlen.Length == NUM_PIDS
      && (forall p | 0 <= p < NUM_PIDS && pktlist[p] != null :: pktlist[p] in Repr && pktlist[p].Length == MAX_PKT_LEN)
      && (forall p | 0 <= p < NUM_PIDS :: pktlen[p] <= MAX_PKT_LEN && (pktlist[p] == null ==> pktlen[p] == 0))
      && (forall p, q | 0 <= p < q < NUM_PIDS && pktlist[p] != null :: pktlist[p] != pktlist[q])
      && (pat != null ==> pat in Repr && pat != pktlen)
      && patMax == |PatArray()|
    }

    /** What is collected of a PID: the counted part of its buffer. */
    ghost function Held(p: Pid): seq<u8>
      requires Shaped()
      reads this, Repr
    {
      if pktlist[p] == null then [] else pktlist[p][..pktlen[p]]
    }

    ghost predicate Valid()
      reads this, Repr
      ensures Valid() ==> this in Repr
    {
      && Shaped()
      && (forall p: Pid :: Held(p) == Pending(Fragments(hist, p)))
      && Now() == TablesAfter(base, hist)
    }

    /** What a decoder owns. */
    lemma Footprint(pid: Pid)
      requires Shaped()
      ensures this in Repr && pktlist in Repr && pktlen in Repr && (pat != null ==> pat in Repr)
      ensures pktlist.Length == NUM_PIDS && pktlen.Length == NUM_PIDS
      ensures pktlist[pid] != null ==> pktlist[pid] in Repr
    {}

    constructor ()
      ensures Valid() && fresh(Repr)
      ensures hist == [] && base == FRESH
    {
      pktlist := new array?<u8>[NUM_PIDS](i => null);
      pktlen := new nat[NUM_PIDS](i => 0);
      patCurver, patTsid, pmtPid, pmtCurver, pcrPid := NO_VERSION, 0, 0, NO_VERSION, 0;
      mgtCurver, vctCurver, patUse, patMax, pat := NO_VERSION, NO_VERSION, 0, 0, null;
      vctstr := Vct.NoText;
      hist, base := [], FRESH;
      Repr := {this, pktlist, pktlen};
      new;
      NoPacketYet(base);
    }

    /** The buffers stay, with whatever they hold; the counters are cleared. */
    method ClearBuffers()
      requires Shaped()
      modifies pktlen
      ensures Shaped() && PatArray() == old(PatArray())
      ensures forall i | 0 <= i < pktlen.Length :: pktlen[i] == 0
    {
      ClearCounters(pktlen);
    }

    lemma NothingHeld()
      requires Shaped() && forall i | 0 <= i < pktlen.Length :: pktlen[i] == 0
      ensures forall p: Pid :: Held(p) == []
    {}

    method ClearTables()
      modifies this`patCurver, this`patTsid, this`pmtPid, this`pmtCurver, this`pcrPid,
               this`mgtCurver, this`vctCurver, this`patUse, this`vctstr
      ensures Now() == Reset(old(Now()))
    {
      patCurver, patTsid, pmtPid, pmtCurver, pcrPid := NO_VERSION, 0, 0, NO_VERSION, 0;
      mgtCurver, vctCurver, patUse := NO_VERSION, NO_VERSION, 0;
      vctstr := Vct.NoText;
    }

    /** The program loop of parse_tbl that finds the largest program and the PID of program 3. */
    method CountPrograms(pkt: array<u8>, len: nat, start: nat, count: nat)
      requires start + 4 * count <= len <= pkt.Length
      modifies this`patUse, this`pmtPid
      ensures patUse == Largest(Programs(pkt[..len], start, count))
      ensures pmtPid == PmtPid(Programs(pkt[..len], start, count), old(pmtPid))
    {
      hide ProgramAt, BE16, Programs, Largest, PmtPid;
      ghost var s := pkt[..len];
      NoPrograms(s, start, pmtPid);
      patUse := 0;
      var pos, i := start, 0;
      while i < count
        invariant 0 <= i <= count && pos == start + 4 * i
        invariant patUse == Largest(Programs(s, start, i))
        invariant pmtPid == PmtPid(Programs(s, start, i), old(pmtPid))
      {
        var prog := BE16(pkt[pos], pkt[pos + 1]);
        var childpid := BE16(pkt[pos + 2], pkt[pos + 3]) % 0x2000;
        assert ProgramAt(s, pos) == Program(prog, childpid) by { ReadProgram(pkt, len, pos); }
        OneProgramMore(s, start, i, old(pmtPid));
        pos := pos + 4;
        if prog > patUse {
          patUse := prog;
        }
        if prog == 3 && childpid != 0 {
          pmtPid := childpid;
        }
        i := i + 1;
      }
    }

    /** The program loop of parse_tbl that stores the PIDs. */
    method StorePids(pkt: array<u8>, len: nat, start: nat, count: nat)
      requires start + 4 * count <= len <= pkt.Length
      requires pat != null && patUse == Largest(Programs(pkt[..len], start, count)) + 1 && patUse <= pat.Length
      modifies pat
      ensures pat[..] == Store(old(pat[..]), Programs(pkt[..len], start, count))
    {
      hide ProgramAt, BE16, Largest, Programs, Store;
      ghost var s := pkt[..len];
      NoneStored(s, start, pat[..]);
      var pos, i := start, 0;
      while i < count
        invariant 0 <= i <= count && pos == start + 4 * i
        invariant pkt[..len] == s
        invariant pat[..] == Store(old(pat[..]), Programs(s, start, i))
      {
        var prog := BE16(pkt[pos], pkt[pos + 1]);
        var childpid := BE16(pkt[pos + 2], pkt[pos + 3]) % 0x2000;
        assert ProgramAt(s, pos) == Program(prog, childpid) by { ReadProgram(pkt, len, pos); }
        ProgramIn(s, start, count, i);
        OneStoredMore(s, start, i, old(pat[..]));
        if prog >= patUse { // logic error
          assert false;
        } else {
          pat[prog] := childpid;
        }
        pos := pos + 4;
        i := i + 1;
      }
    }

    /** The part of parse_tbl between its two loops: a larger array if the old one is too small. */
    method GrowPat()
      requires patMax == |PatArray()| && patUse > 0
      modifies this`pat, this`patMax
      ensures pat != null && (pat == old(pat) || fresh(pat))
      ensures PatArray() == Psi.Room(old(PatArray()), patUse)
      ensures patMax == |PatArray()|
    {
      if patUse >= patMax {
        patMax := patUse;
        pat := new nat[patMax](i => 0);
        assert pat[..] == Blank(patUse);
      }
    }

    /** The body of a program table. */
    method TakePrograms(pkt: array<u8>, len: nat, start: nat)
      requires start + 4 <= len <= pkt.Length && patMax == |PatArray()|
      modifies this`pmtPid, this`patUse, this`patMax, this`pat, pat
      ensures pat == old(pat) || fresh(pat)
      ensures patMax == |PatArray()|
      ensures Now() == StorePrograms(old(Now()), Programs(pkt[..len], start, EntryCount(len, start)))
    {
      hide Programs, Largest, PmtPid, Store, Psi.Room;
      var count := (len - start) / 4;
      count := count - 1; // the checksum
      CountPrograms(pkt, len, start, count);
      patUse := patUse + 1;
      GrowPat();
      StorePids(pkt, len, start, count);
    }

    /** parse_tbl, case PAT */
    method ParsePat(pkt: array<u8>, len: nat)
      requires HoldsSection(pkt, len) && patMax == |PatArray()|
      modifies this`patCurver, this`patTsid, this`pmtPid, this`patUse, this`patMax, this`pat, pat
      ensures pat == old(pat) || fresh(pat)
      ensures patMax == |PatArray()|
      ensures Now() == Psi.ParsePat(old(Now()), pkt[..len])
    {
      hide ParseHeader, Programs, StorePrograms, Psi.ParsePat;
      ghost var s, t := pkt[..len], Now();
      var h := MpgParseHdr(pkt, len, patCurver, 0);
      PatByHeader(t, s, h);
      patCurver := h.ver;
      if h.Reject? {
        return;
      }
      if h.id != 0 {
        patTsid := h.id;
      }
      assert Now() == t.(patVer := h.ver, patTsid := if h.id != 0 then h.id else t.patTsid);
      if (h.pos + len) % 4 != 0 {
        return;
      }
      TakePrograms(pkt, len, h.pos);
    }

    /** parse_tbl, case of the ATSC tables */
    method ParsePsip(pkt: array<u8>, len: nat)
      requires HoldsSection(pkt, len)
      modifies this`mgtCurver, this`vctCurver, this`vctstr
      ensures Now() == Psi.ParsePsip(old(Now()), pkt[..len])
    {
      hide ParseHeader, Vct.Parse;
      ghost var s := pkt[..len];
      if pkt[0] == 0xc7 {
        var h := AtscParseHdr(pkt, len, mgtCurver);
        mgtCurver := h.ver;
      } else if IsVct(pkt[0]) {
        HeaderBounds(s, vctCurver, s[0]);
        var h := AtscParseHdr(pkt, len, vctCurver);
        vctCurver := h.ver;
        if h.Accept? {
          vctstr := ParseVct(pkt, len, h.pos, NameLen(pkt[0]));
        }
      }
    }

    /** parse_tbl, case of the PMT */
    method ParsePmt(pkt: array<u8>, len: nat)
      requires HoldsSection(pkt, len)
      modifies this`pmtCurver, this`pcrPid
      ensures Now() == Psi.ParsePmt(old(Now()), pkt[..len])
    {
      hide ParseHeader;
      HeaderBounds(pkt[..len], pmtCurver, 2);
      var h := MpgParseHdr(pkt, len, pmtCurver, 2);
      pmtCurver := h.ver;
      if h.Accept? {
        pcrPid := BE16(pkt[h.pos], pkt[h.pos + 1]) % 0x2000;
      }
    }

    /** parse_tbl */
    method ParseTbl(pkt: array<u8>, len: nat, pid: Pid)
      requires HoldsSection(pkt, len) && patMax == |PatArray()|
      modifies this`patCurver, this`patTsid, this`pmtPid, this`patUse, this`patMax, this`pat, pat
      modifies this`mgtCurver, this`vctCurver, this`vctstr, this`pmtCurver, this`pcrPid
      ensures pat == old(pat) || fresh(pat)
      ensures patMax == |PatArray()|
      ensures Now() == Psi.ParseTbl(old(Now()), pkt[..len], pid)
    {
      hide Psi.ParsePat, Psi.ParsePsip, Psi.ParsePmt;
      if pid == 0 {
        ParsePat(pkt, len);
      } else if pid == PSIP_PID {
        ParsePsip(pkt, len);
      } else if pid == NULL_PID {
      } else if pid == pmtPid {
        ParsePmt(pkt, len);
      }
    }

    /** After every packet a counter is 0 or short of its section's length, which is at most 0x1002. */
    lemma CounterBelowSection(p: Pid)
      requires Valid()
      ensures pktlen[p] <= 0x1001
      ensures pktlen[p] >= 3 ==> pktlist[p] != null && pktlen[p] < SectionLen(pktlist[p][..pktlen[p]]) <= 0x1002
    {
      hide TablesAfter;
      PendingIsIncomplete(Fragments(hist, p));
      assert Held(p) == Pending(Fragments(hist, p));
    }

    /** A unit start: the buffer is made if there is none, and the payload from `pos` on starts it. */
    method StartUnit(pid: Pid, pkt: array<u8>, pos: nat)
      requires Shaped() && pkt.Length == 188 && pkt !in Repr && 4 <= pos < 188
      modifies this`Repr, pktlist, pktlen, if pktlist[pid] == null then {} else {pktlist[pid]}
      ensures Shaped() && Repr >= old(Repr) && fresh(Repr - old(Repr))
      ensures pktlist[pid] != null && (pktlist[pid] == old(pktlist[pid]) || fresh(pktlist[pid]))
      ensures Held(pid) == pkt[pos..] && pktlen[pid] == 188 - pos
      ensures forall q: Pid | q != pid :: Held(q) == old(Held(q))
    {
      if pktlist[pid] == null {
        var buf := new u8[MAX_PKT_LEN];
        pktlist[pid] := buf;
        Repr := Repr + {buf};
      }
      var buf := pktlist[pid];
      pktlen[pid] := 188 - pos;
      Copy(buf, 0, pkt, pos, 188 - pos);
      assert pkt[pos..pos + (188 - pos)] == pkt[pos..];
    }

    /** More payload of a started unit, cut where the buffer ends. */
    method Append(pid: Pid, pkt: array<u8>, pos: nat) returns (n: nat)
      requires Shaped() && pkt.Length == 188 && pkt !in Repr && 4 <= pos < 188
      requires pktlist[pid] != null && 0 < pktlen[pid] < MAX_PKT_LEN
      modifies pktlen, pktlist[pid]
      ensures Shaped()
      ensures n ==
              if old(pktlen[pid]) + |pkt[pos..]| >= MAX_PKT_LEN then MAX_PKT_LEN - old(pktlen[pid]) else |pkt[pos..]|
      ensures n > 0 && Held(pid) == old(Held(pid)) + pkt[pos..][..n] && pktlen[pid] > 0
      ensures forall q: Pid | q != pid :: Held(q) == old(Held(q))
    {
      n := 188 - pos;
      if pktlen[pid] + n >= MAX_PKT_LEN {
        n := MAX_PKT_LEN - pktlen[pid];
        if n == 0 { // no room
          assert false;
        }
      }
      var buf, at := pktlist[pid], pktlen[pid];
      Copy(buf, at, pkt, pos, n);
      assert pkt[pos..pos + n] == pkt[pos..][..n];
      pktlen[pid] := at + n;
    }

    /**
     Whether the section is all there, and if it is, parsing it. The length field is read wherever it is in the
     buffer.
     */
    method Finish(pid: Pid) returns (ghost delivered: Option<seq<u8>>)
      requires Shaped() && pktlist[pid] != null && pktlen[pid] > 0
      modifies this`patCurver, this`patTsid, this`pmtPid, this`patUse, this`patMax, this`pat, pat
      modifies this`mgtCurver, this`vctCurver, this`vctstr, this`pmtCurver, this`pcrPid, this`Repr, pktlen
      ensures Shaped() && Repr >= old(Repr) && fresh(Repr - old(Repr))
      ensures delivered == (var kept := old(Held(pid)); if Complete(kept) then Some(kept[..SectionLen(kept)]) else None)
      ensures Held(pid) == if delivered.Some? then [] else old(Held(pid))
      ensures forall q: Pid | q != pid :: Held(q) == old(Held(q))
      ensures Now() == if delivered.Some? then Psi.ParseTbl(old(Now()), delivered.value, pid) else old(Now())
    {
      hide Psi.ParseTbl, BE16;
      var buf := pktlist[pid];
      ghost var kept := buf[..pktlen[pid]];
      var slen := BE16(buf[1], buf[2]) % 0x1000 + 3;
      delivered := None;
      if pktlen[pid] >= slen {
        ghost var s := buf[..slen];
        assert s == kept[..slen] && slen == SectionLen(kept);
        ParseTbl(buf, slen, pid);
        if pat != null {
          Repr := Repr + {pat};
        }
        pktlen[pid] := 0;
        delivered := Some(s);
      } else {
        assert |kept| >= 3 ==> slen == SectionLen(kept);
      }
    }

    /** What one more packet will mean for every PID and for the tables. */
    lemma Advance(p: Packet)
      requires Shaped()
      ensures var pid, ps, h := PidOf(p), hist + [p], Fragments(hist, PidOf(p));
              && (forall q: Pid | q != pid :: Pending(Fragments(ps, q)) == Pending(Fragments(hist, q)))
              && Fragments(ps, pid) == h + [Classify(p)]
              && DeliveredBy(ps) == Delivered(h + [Classify(p)])
              && TablesAfter(base, ps) == match DeliveredBy(ps)
                                          case None => TablesAfter(base, hist)
                                          case Some(s) => Psi.ParseTbl(TablesAfter(base, hist), s, pid)
    {
      hide Psi.ParseTbl, Classify, PidOf, Fragments, Delivered, TablesAfter;
      forall q: Pid
        ensures Fragments(hist + [p], q) ==
                if PidOf(p) == q then Fragments(hist, q) + [Classify(p)] else Fragments(hist, q)
      {
        OnePacketMore(hist, p, q);
      }
      TablesOneMore(base, hist, p);
    }

    /** The packet is taken: the buffers and the tables are where it leads. */
    ghost method Record(p: Packet)
      requires Shaped()
      requires forall q: Pid | q != PidOf(p) :: Held(q) == Pending(Fragments(hist, q))
      requires var g := Fragments(hist, PidOf(p)) + [Classify(p)];
               && Held(PidOf(p)) == Pending(g)
               && Now() == match Delivered(g)
                           case None => TablesAfter(base, hist)
                           case Some(s) => Psi.ParseTbl(TablesAfter(base, hist), s, PidOf(p))
      modifies this`hist
      ensures Valid() && hist == old(hist) + [p]
      ensures DeliveredBy(hist) == Delivered(Fragments(old(hist), PidOf(p)) + [Classify(p)])
    {
      hide Psi.ParseTbl, TablesAfter, Delivered, Fragments, DeliveredBy, Pending, Classify, PidOf;
      Advance(p);
      hist := hist + [p];
    }

    /** The packet changes nothing: it has no payload for its PID. */
    ghost method Pass(p: Packet)
      requires Valid()
      requires Classify(p).Skip? || (Classify(p).Next? && Held(PidOf(p)) == [])
      modifies this`hist
      ensures Valid() && hist == old(hist) + [p] && DeliveredBy(hist) == None
    {
      hide Psi.ParseTbl, TablesAfter, Delivered, Fragments, DeliveredBy, Pending, Classify, PidOf;
      FragmentStep(Fragments(hist, PidOf(p)), Classify(p));
      Record(p);
    }

    /** A unit start with payload. */
    method TakeStart(pid: Pid, pkt: array<u8>, pos: nat) returns (ghost delivered: Option<seq<u8>>)
      requires Valid() && pkt.Length == 188 && pkt !in Repr && 4 <= pos < 188
      requires PidOf(pkt[..]) == pid && Classify(pkt[..]) == First(pkt[pos..])
      modifies Repr
      ensures Valid() && fresh(Repr - old(Repr))
      ensures hist == old(hist) + [pkt[..]] && base == old(base)
      ensures delivered == DeliveredBy(hist)
    {
      hide Psi.ParseTbl, TablesAfter, Delivered, Fragments, DeliveredBy, Pending, Complete, Classify, PidOf;
      hide Shaped, Held;
      ghost var p: Packet := pkt[..];
      FragmentStep(Fragments(hist, pid), Classify(p));
      Footprint(pid);
      StartUnit(pid, pkt, pos);
      Footprint(pid);
      delivered := Finish(pid);
      Record(p);
    }

    /** More payload of a unit under way. */
    method TakeMore(pid: Pid, pkt: array<u8>, pos: nat) returns (ghost delivered: Option<seq<u8>>)
      requires Valid() && pkt.Length == 188 && pkt !in Repr && 4 <= pos < 188
      requires PidOf(pkt[..]) == pid && Classify(pkt[..]) == Next(pkt[pos..])
      requires pktlist[pid] != null && pktlen[pid] > 0
      modifies Repr
      ensures Valid() && fresh(Repr - old(Repr))
      ensures hist == old(hist) + [pkt[..]] && base == old(base)
      ensures delivered == DeliveredBy(hist)
    {
      hide Psi.ParseTbl, TablesAfter, Delivered, Fragments, DeliveredBy, Pending, Complete, Classify, PidOf;
      ghost var p: Packet := pkt[..];
      ghost var before, data := Held(pid), pkt[pos..];
      FragmentStep(Fragments(hist, pid), Classify(p));
      PendingIsIncomplete(Fragments(hist, pid));
      var n := Append(pid, pkt, pos);
      TruncationIsHarmless(before, data, n);
      delivered := Finish(pid);
      Record(p);
    }

    /** A unit start whose pointer leaves the packet: what was collected is thrown away. */
    method TakeLost(pid: Pid, ghost p: Packet)
      requires Valid() && PidOf(p) == pid && Classify(p) == Lost
      modifies pktlen, this`hist
      ensures Valid() && hist == old(hist) + [p] && DeliveredBy(hist) == None
    {
      hide Psi.ParseTbl, TablesAfter, Delivered, Fragments, DeliveredBy, Pending, Complete, Classify, PidOf;
      FragmentStep(Fragments(hist, pid), Classify(p));
      pktlen[pid] := 0;
      Record(p);
    }

    /** The part of thread_demux after the packet header. */
    method TakePayload(pid: Pid, pkt: array<u8>, at: nat) returns (ghost delivered: Option<seq<u8>>)
      requires Valid() && pkt.Length == 188 && pkt !in Repr
      requires Usable(pkt[..]) && PidOf(pkt[..]) == pid && PayloadAt(pkt[..]) == at
      modifies Repr
      ensures Valid() && fresh(Repr - old(Repr))
      ensures hist == old(hist) + [pkt[..]] && base == old(base)
      ensures delivered == DeliveredBy(hist)
    {
      hide TablesAfter, Fragments, DeliveredBy, Pending, Bit, PidOf;
      var pos: nat := at;
      delivered := None;
      if Bit(pkt[1], 0x40) { // payload unit start
        pos := pos + pkt[pos] + 1;
        if pos >= 188 {
          TakeLost(pid, pkt[..]);
        } else {
          delivered := TakeStart(pid, pkt, pos);
        }
      } else if pktlist[pid] == null || pktlen[pid] == 0 { // must find a unit start first
        Pass(pkt[..]);
      } else {
        delivered := TakeMore(pid, pkt, pos);
      }
    }

    /** thread_demux */
    method ThreadDemux(pkt: array<u8>) returns (failed: bool, ghost delivered: Option<seq<u8>>)
      requires Valid() && pkt.Length == 188 && pkt !in Repr
      modifies Repr
      ensures Valid() && fresh(Repr - old(Repr))
      ensures hist == old(hist) + [pkt[..]] && base == old(base)
      ensures failed <==> pkt[0] != 0x47
      ensures delivered == DeliveredBy(hist)
    {
      hide Psi.ParseTbl, TablesAfter, Delivered, Fragments, DeliveredBy, Pending, Complete, BE16;
      ghost var p: Packet := pkt[..];
      delivered := None;
      if pkt[0] != 0x47 {
        Pass(p);
        return true, None;
      }
      if Bit(pkt[1], 0x80) {
        Pass(p);
        return false, None;
      }
      var pid: Pid := BE16(pkt[1], pkt[2]) % 0x2000;
      var pos: nat := 4;
      if Bit(pkt[3], 0x20) {
        pos := pos + pkt[pos] + 1;
        if pos >= 188 { // invalid, or purely adaptation data
          Pass(p);
          return false, None;
        }
      }
      delivered := TakePayload(pid, pkt, pos);
      failed := false;
    }

    /** init: resets everything but the buffers themselves and the program array. */
    method Init()
      requires Valid()
      modifies Repr
      ensures Valid() && Repr == old(Repr)
      ensures hist == [] && base == Reset(old(Now()))
    {
      hide TablesAfter, Fragments, Pending, Reset;
      ghost var before := Now();
      ClearBuffers();
      assert Now() == before;
      ClearTables();
      NothingHeld();
      hist, base := [], Reset(before);
      NoPacketYet(base);
    }
  }
}
