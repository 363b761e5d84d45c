/**
 The program array over resets, entry by entry: which programs read, after any run of packets, as they do in a
 new decoder.
 */
module StalePrograms {
  import opened Bytes
  import opened Transport
  import opened Reassembly
  import opened Psi
  import opened Decoder
  import Vct

  // ---------- The program tables a run stores ----------

  /** The programs a section stores, if it stores any. */
  function StoredBy(t: Tables, s: seq<u8>, pid: Pid): Option<seq<Program>>
    requires |s| >= 3
  {
    if pid != 0 then None else
      match ParseHeader(s, t.patVer, 0)
      case Reject(_) => None
      case Accept(pos, _, _) =>
        HeaderBounds(s, t.patVer, 0);
        if (pos + |s|) % 4 != 0 then None else Some(Programs(s, pos, EntryCount(|s|, pos)))
  }

  /** All of them over a run, in order. */
  function Lists(base: Tables, ps: seq<Packet>): seq<seq<Program>> {
    if ps == [] then [] else
      var before, rest := Lists(base, ps[..|ps| - 1]), ps[..|ps| - 1];
      match DeliveredBy(ps)
      case None => before
      case Some(s) =>
        match StoredBy(TablesAfter(base, rest), s, PidOf(ps[|ps| - 1]))
        case None => before
        case Some(l) => before + [l]
  }

  /** The array after tables are stored one after another. */
  function StoreAll(a: seq<nat>, ls: seq<seq<Program>>): seq<nat> {
    if ls == [] then a else
      var l := ls[|ls| - 1];
      Store(Psi.Room(StoreAll(a, ls[..|ls| - 1]), Largest(l) + 1), l)
  }

  /** How many entries the last table uses. */
  function Use(ls: seq<seq<Program>>): nat {
    if ls == [] then 0 else Largest(ls[|ls| - 1]) + 1
  }

  lemma StoredBySection(t: Tables, s: seq<u8>, pid: Pid)
    requires |s| >= 3
    ensures var u := ParseTbl(t, s, pid);
            match StoredBy(t, s, pid)
            case None => u.pat == t.pat && u.patUse == t.patUse
            case Some(l) => u.pat == Store(Psi.Room(t.pat, Largest(l) + 1), l) && u.patUse == Largest(l) + 1
  {
    hide ParseHeader, Programs, Largest, Store, PmtPid, Vct.Parse;
    HeaderBounds(s, t.patVer, 0);
  }

  lemma {:induction false} ArrayAfter(base: Tables, ps: seq<Packet>)
    ensures TablesAfter(base, ps).pat == StoreAll(base.pat, Lists(base, ps))
    ensures TablesAfter(base, ps).patUse == if Lists(base, ps) == [] then base.patUse else Use(Lists(base, ps))
  {
    hide ParseTbl, DeliveredBy, StoredBy, Largest, Store, PidOf;
    if ps != [] {
      var n := |ps| - 1;
      ArrayAfter(base, ps[..n]);
      if DeliveredBy(ps).Some? {
        StoredBySection(TablesAfter(base, ps[..n]), DeliveredBy(ps).value, PidOf(ps[n]));
      }
    }
  }

  /** A run stores the same tables after a reset as in a new decoder. */
  lemma {:induction false} SameLists(t: Tables, ps: seq<Packet>)
    ensures Lists(Reset(t), ps) == Lists(FRESH, ps)
  {
    hide TablesAfter, DeliveredBy, ParseHeader, Programs;
    if ps != [] {
      var n := |ps| - 1;
      SameLists(t, ps[..n]);
      ResetIsVisiblyFresh(t, ps[..n]);
    }
  }

  // ---------- What an entry holds ----------

  /** The last PID a table lists for a program. */
  function LastOf(l: seq<Program>, q: nat): Option<nat> {
    if l == [] then None else
      var p := l[|l| - 1];
      if p.number == q then Some(p.pid) else LastOf(l[..|l| - 1], q)
  }

  /** The last PID any of several tables lists for a program. */
  function LastPid(ls: seq<seq<Program>>, q: nat): Option<nat> {
    if ls == [] then None else
      var last := LastOf(ls[|ls| - 1], q);
      if last.Some? then last else LastPid(ls[..|ls| - 1], q)
  }

  function Or(o: Option<nat>, otherwise: nat): nat {
    match o
    case None => otherwise
    case Some(x) => x
  }

  /** The tables since a new decoder last replaced its array. */
  function Recent(ls: seq<seq<Program>>): seq<seq<Program>> {
    if ls == [] then [] else
      var before, l := ls[..|ls| - 1], ls[|ls| - 1];
      if Largest(l) + 1 >= |StoreAll([], before)| then [l] else Recent(before) + [l]
  }

  lemma {:induction false} StoreEntry(a: seq<nat>, l: seq<Program>, q: nat)
    requires q < |a|
    ensures Store(a, l)[q] == Or(LastOf(l, q), a[q])
  {
    if l != [] {
      StoreEntry(a, l[..|l| - 1], q);
    }
  }

  lemma LastPidSnoc(ls: seq<seq<Program>>, l: seq<Program>, q: nat, otherwise: nat)
    ensures Or(LastPid(ls + [l], q), otherwise) == Or(LastOf(l, q), Or(LastPid(ls, q), otherwise))
  {
    assert (ls + [l])[..|ls|] == ls;
  }

  /** An array larger than a new decoder's is never replaced: it has the last PID of all tables, or what it had. */
  lemma {:induction false} KeptArray(a: seq<nat>, ls: seq<seq<Program>>, q: nat)
    requires |a| > |StoreAll([], ls)| && q < |a|
    ensures |StoreAll(a, ls)| == |a| && StoreAll(a, ls)[q] == Or(LastPid(ls, q), a[q])
  {
    hide Store, LastOf, Largest, LastPid;
    if ls == [] {
      NoTables(q);
    } else {
      var before, l := ls[..|ls| - 1], ls[|ls| - 1];
      assert ls == before + [l];
      KeptArray(a, before, q);
      StoreEntry(StoreAll(a, before), l, q);
      LastPidSnoc(before, l, q, a[q]);
    }
  }

  lemma NoTables(q: nat)
    ensures LastPid([], q) == None
  {}

  /** A new decoder's array has the last PID listed since it was replaced, or 0. */
  lemma {:induction false} NewArray(ls: seq<seq<Program>>, q: nat)
    requires q < |StoreAll([], ls)|
    ensures StoreAll([], ls)[q] == Or(LastPid(Recent(ls), q), 0)
  {
    hide Store, LastOf, Largest, LastPid;
    var before, l := ls[..|ls| - 1], ls[|ls| - 1];
    var a := StoreAll([], before);
    StoreEntry(Psi.Room(a, Largest(l) + 1), l, q);
    if Largest(l) + 1 >= |a| {
      LastPidSnoc([], l, q, 0);
      NoTables(q);
      assert [] + [l] == [l];
    } else {
      NewArray(before, q);
      LastPidSnoc(Recent(before), l, q, 0);
    }
  }

  lemma UseFits(ls: seq<seq<Program>>)
    ensures Use(ls) <= |StoreAll([], ls)|
  {
    hide Store, Largest;
  }

  /** What was listed since the array was replaced is what was listed last of all. */
  lemma {:induction false} RecentIsLast(ls: seq<seq<Program>>, q: nat)
    requires LastPid(Recent(ls), q).Some?
    ensures LastPid(ls, q) == LastPid(Recent(ls), q)
  {
    hide StoreAll, Largest;
    if ls != [] {
      var before, l := ls[..|ls| - 1], ls[|ls| - 1];
      if LastOf(l, q).None? && Recent(ls) == Recent(before) + [l] {
        assert Recent(ls)[..|Recent(before)|] == Recent(before);
        RecentIsLast(before, q);
      }
    }
  }

  lemma {:induction false} SameArrayOrKept(a: seq<nat>, ls: seq<seq<Program>>)
    requires |a| <= |StoreAll([], ls)|
    ensures StoreAll(a, ls) == StoreAll([], ls)
  {
    hide Store, Largest;
    if ls != [] {
      var before := ls[..|ls| - 1];
      if |a| <= |StoreAll([], before)| {
        SameArrayOrKept(a, before);
      } else if |a| > 0 {
        KeptArray(a, before, 0);
      }
    }
  }

  /**
   After a reset and any run of packets, a program below the use count reads as in a new decoder exactly when the
   array kept was no larger than the new decoder's is then, or the program was listed since the new decoder last
   replaced its array, or what the kept array has for it is 0: the last PID listed in the run, or the old one.
   */
  lemma ProgramAfterReset(t: Tables, ps: seq<Packet>, q: nat)
    requires q < TablesAfter(FRESH, ps).patUse
    ensures var u, v, ls := TablesAfter(Reset(t), ps), TablesAfter(FRESH, ps), Lists(FRESH, ps);
            && u.patUse == v.patUse && q < |u.pat| && q < |v.pat|
            && (u.pat[q] == v.pat[q] <==>
                  || |t.pat| <= |v.pat|
                  || LastPid(Recent(ls), q).Some?
                  || Or(LastPid(ls, q), t.pat[q]) == 0)
  {
    hide TablesAfter, Lists, StoreAll, LastPid, Recent, Use;
    var ls := Lists(FRESH, ps);
    ArrayAfter(FRESH, ps);
    ArrayAfter(Reset(t), ps);
    SameLists(t, ps);
    ResetIsVisiblyFresh(t, ps);
    UseFits(ls);
    NothingUsed();
    NewArray(ls, q);
    if |t.pat| <= |StoreAll([], ls)| {
      SameArrayOrKept(t.pat, ls);
    } else {
      KeptArray(t.pat, ls, q);
      if LastPid(Recent(ls), q).Some? {
        RecentIsLast(ls, q);
      }
    }
  }

  lemma NothingUsed()
    ensures Use([]) == 0
  {}
}
