/**
 Collecting channel tables (main.cpp, get_ch_id): after every round the channels whose table has come
 are taken out of the list in place, and their text is appended to one growing buffer.
 */
module ChannelIds {
  import opened Transport
  import opened Psi
  import opened Decoder
  import Vct

  /** The loop index is an unsigned 32-bit number that is decremented through zero. */
  const WRAP := 0x1_0000_0000

  // ---------- Taking finished positions out of a list ----------

  /** Of the first `c` positions from `scan` on, those finished (or not). */
  function Picked(list: seq<nat>, scan: nat, done: seq<bool>, c: nat, finished: bool): (r: seq<nat>)
    requires c <= |done|
    ensures |r| <= c
  {
    if c == 0 then [] else
      var before := Picked(list, scan, done, c - 1, finished);
      var at := scan + c - 1;
      if at < |list| && done[c - 1] == finished then before + [list[at]] else before
  }

  function Until(list: seq<nat>, at: nat): seq<nat> {
    if at <= |list| then list[..at] else list
  }

  function From(list: seq<nat>, at: nat): seq<nat> {
    if at <= |list| then list[at..] else []
  }

  /** The list without the finished positions among the first `c` from `scan` on. */
  function Without(list: seq<nat>, scan: nat, done: seq<bool>, c: nat): seq<nat>
    requires c <= |done|
  {
    Until(list, scan) + Picked(list, scan, done, c, false) + From(list, scan + c)
  }

  /** How often `x` is in a list. */
  function Count(s: seq<nat>, x: nat): nat { multiset(s)[x] }

  function One(list: seq<nat>, at: nat, x: nat): nat {
    if at < |list| && list[at] == x then 1 else 0
  }

  lemma WithoutCount(list: seq<nat>, scan: nat, done: seq<bool>, c: nat, x: nat)
    requires c <= |done|
    ensures Count(Without(list, scan, done, c), x)
            == Count(Until(list, scan), x) + Count(Picked(list, scan, done, c, false), x)
               + Count(From(list, scan + c), x)
  {
    hide Until, From, Picked;
  }

  lemma FromCount(list: seq<nat>, at: nat, x: nat)
    ensures Count(From(list, at), x) == One(list, at, x) + Count(From(list, at + 1), x)
  {
    if at < |list| {
      assert From(list, at) == [list[at]] + From(list, at + 1);
    } else {
      assert From(list, at) == From(list, at + 1);
    }
  }

  lemma PickedCount(list: seq<nat>, scan: nat, done: seq<bool>, c: nat, finished: bool, x: nat)
    requires 0 < c <= |done|
    ensures Count(Picked(list, scan, done, c, finished), x)
            == Count(Picked(list, scan, done, c - 1, finished), x)
               + if done[c - 1] == finished then One(list, scan + c - 1, x) else 0
  {}

  lemma {:induction false} NothingLostOf(list: seq<nat>, scan: nat, done: seq<bool>, c: nat, x: nat)
    requires c <= |done|
    ensures Count(Without(list, scan, done, c), x) + Count(Picked(list, scan, done, c, true), x) == Count(list, x)
  {
    hide Count, Without, Picked, Until, From;
    if c == 0 {
      NothingPicked(list, scan, done, x);
    } else {
      NothingLostOf(list, scan, done, c - 1, x);
      WithoutCount(list, scan, done, c, x);
      WithoutCount(list, scan, done, c - 1, x);
      FromCount(list, scan + c - 1, x);
      PickedCount(list, scan, done, c, true, x);
      PickedCount(list, scan, done, c, false, x);
    }
  }

  lemma NothingPicked(list: seq<nat>, scan: nat, done: seq<bool>, x: nat)
    ensures Count(Without(list, scan, done, 0), x) + Count(Picked(list, scan, done, 0, true), x) == Count(list, x)
  {
    assert Without(list, scan, done, 0) == list;
  }

  /** Every channel of the list is either taken out or still there. */
  lemma NothingLost(list: seq<nat>, scan: nat, done: seq<bool>, c: nat)
    requires c <= |done|
    ensures multiset(Without(list, scan, done, c)) + multiset(Picked(list, scan, done, c, true)) == multiset(list)
  {
    hide Without, Picked;
    forall x: nat
      ensures multiset(Without(list, scan, done, c))[x] + multiset(Picked(list, scan, done, c, true))[x]
              == multiset(list)[x]
    {
      NothingLostOf(list, scan, done, c, x);
    }
  }

  /** Position `p` is one of the first `c` from `scan` on, and its receiver finished. */
  predicate Finished(p: nat, scan: nat, done: seq<bool>, c: nat) {
    scan <= p < scan + c && c <= |done| && done[p - scan]
  }

  ghost predicate Distinct(list: seq<nat>) {
    forall i, j | 0 <= i < j < |list| :: list[i] != list[j]
  }

  lemma {:induction false} PickedExactly(list: seq<nat>, scan: nat, done: seq<bool>, c: nat, finished: bool, p: nat)
    requires c <= |done| && Distinct(list) && p < |list|
    ensures list[p] in Picked(list, scan, done, c, finished) <==> scan <= p < scan + c && done[p - scan] == finished
  {
    if c > 0 {
      PickedExactly(list, scan, done, c - 1, finished, p);
      var at := scan + c - 1;
      if at < |list| && at != p {
        assert list[at] != list[p];
      }
    }
  }

  /** A channel of the list is taken out exactly when its receiver finished, and otherwise stays. */
  lemma TakenExactly(list: seq<nat>, scan: nat, done: seq<bool>, p: nat)
    requires Distinct(list) && p < |list|
    ensures list[p] in Picked(list, scan, done, |done|, true) <==> Finished(p, scan, done, |done|)
    ensures list[p] in Without(list, scan, done, |done|) <==> !Finished(p, scan, done, |done|)
  {
    var c := |done|;
    PickedExactly(list, scan, done, c, true, p);
    PickedExactly(list, scan, done, c, false, p);
    assert list[p] in Until(list, scan) <==> p < scan by {
      if p < scan {
        assert Until(list, scan)[p] == list[p];
      }
    }
    assert list[p] in From(list, scan + c) <==> p >= scan + c by {
      if p >= scan + c {
        assert From(list, scan + c)[p - scan - c] == list[p];
      }
    }
  }

  /** The text of the finished positions, in order. */
  function Texts(n: nat, scan: nat, done: seq<bool>, text: nat -> string, c: nat): string
    requires c <= |done|
  {
    if c == 0 then "" else
      var before := Texts(n, scan, done, text, c - 1);
      if scan + c - 1 < n && done[c - 1] then before + text(c - 1) else before
  }

  /** With the two receivers of the program: the tables of those that finished on a channel of the list, in order. */
  lemma TextsOfTwo(n: nat, done: seq<bool>, text: nat -> string)
    requires |done| == 2
    ensures Texts(n, 0, done, text, 2) ==
            (if n >= 1 && done[0] then text(0) else "") + (if n >= 2 && done[1] then text(1) else "")
  {
    assert Texts(n, 0, done, text, 0) == "";
    assert Texts(n, 0, done, text, 1) == if n >= 1 && done[0] then text(0) else "";
  }

  /** Where position `scan + c` of the list is after the first `c` positions are treated. */
  lemma {:induction false} CountKept(list: seq<nat>, scan: nat, done: seq<bool>, c: nat)
    requires c <= |done| && scan + c <= |list|
    ensures |Picked(list, scan, done, c, false)| + |Picked(list, scan, done, c, true)| == c
  {
    if c > 0 {
      CountKept(list, scan, done, c - 1);
    }
  }

  /** `i--` and `i++` on the index. */
  function Back(i: nat): (r: nat)
    requires i < WRAP
    ensures r < WRAP && On(r) == i
  {
    if i == 0 then WRAP - 1 else i - 1
  }

  function On(i: nat): (r: nat)
    requires i < WRAP
    ensures r < WRAP && (i + 1 < WRAP ==> r == i + 1)
  {
    if i + 1 == WRAP then 0 else i + 1
  }

  /**
   The end of one round of get_ch_id, for any number of receivers: `done` says which of them have a table,
   `text` gives the tables. The list keeps exactly the unfinished channels, in order.
   */
  method TakeFinished(
    chlist: array<nat>, count: nat, scan: nat, done: seq<bool>, text: nat -> string, all: string, max: nat)
    returns (n: nat, vctAll: string, vctMax: nat)
    requires count <= chlist.Length && chlist.Length < WRAP && scan <= count && scan + |done| < WRAP
    requires forall k | 0 <= k < |done| :: |text(k)| <= Vct.MAX_TEXT
    requires 65536 <= max && |all| + 1 <= max
    modifies chlist
    ensures n <= count && chlist[..n] == Without(old(chlist[..count]), scan, done, |done|)
    ensures vctAll == all + Texts(count, scan, done, text, |done|)
    ensures 65536 <= vctMax && |vctAll| + 1 <= vctMax
  {
    hide Picked, Texts, Without, Back, On;
    ghost var list := chlist[..count];
    n, vctAll, vctMax := count, all, max;
    var i, ch := scan, 0;
    NothingTaken(list, scan, done, text);
    assert all + "" == all;
    while ch < |done|
      invariant 0 <= ch <= |done| && 0 <= i < WRAP
      invariant n <= count && 65536 <= vctMax && |vctAll| + 1 <= vctMax
      invariant scan + ch <= count ==> i == scan + ch - (count - n) && |Picked(list, scan, done, ch, true)| == count - n
      invariant scan + ch > count ==> n <= i <= scan + ch
      invariant chlist[..n] == Without(list, scan, done, ch)
      invariant vctAll == all + Texts(count, scan, done, text, ch)
    {
      TakeStep(list, scan, done, text, ch);
      if done[ch] {
        if i >= n {
          RestIsBeyond(list, scan, done, text, ch);
          break;
        }
        vctAll, vctMax := Append(vctAll, vctMax, text(ch));
        ghost var before := chlist[..n];
        TakeOut(list, scan, done, ch, before, i);
        n := n - 1;
        Shift(chlist, i, n);
        i := Back(i);
      }
      i := On(i);
      ch := ch + 1;
    }
  }

  /** The texts of decoders after any runs of packets since their resets meet the bound `TakeFinished` needs. */
  lemma TextsFit(
    starts: seq<Tables>, runs: seq<seq<Packet>>, fmt: Vct.VctEntry -> string, beyond: seq<seq<string>>,
    text: nat -> string)
    requires |starts| == |runs| == |beyond|
    requires forall k | 0 <= k < |runs| :: Vct.Possible(TablesAfter(Reset(starts[k]), runs[k]).vct, beyond[k])
    requires forall k | 0 <= k < |runs| ::
               text(k) == Vct.WholeText(fmt, TablesAfter(Reset(starts[k]), runs[k]).vct, beyond[k])
    ensures forall k | 0 <= k < |runs| :: |text(k)| <= Vct.MAX_TEXT
  {
    hide TablesAfter, Vct.WholeText, Vct.Possible;
    forall k | 0 <= k < |runs| ensures |text(k)| <= Vct.MAX_TEXT {
      TextStaysSmall(starts[k], runs[k], fmt, beyond[k]);
    }
  }

  /** One doubling always makes room for one more table. */
  method Append(all: string, max: nat, text: string) returns (vctAll: string, vctMax: nat)
    requires |text| <= Vct.MAX_TEXT && 65536 <= max && |all| + 1 <= max
    ensures vctAll == all + text
    ensures vctMax == (if |all| + |text| + 1 > max then 2 * max else max) && |vctAll| + 1 <= vctMax
  {
    vctMax := max;
    if |all| + |text| + 1 > vctMax {
      vctMax := vctMax * 2;
    }
    vctAll := all + text;
  }

  /** The memmove that closes the gap at `i`. */
  method Shift(chlist: array<nat>, i: nat, n: nat)
    requires i <= n < chlist.Length
    modifies chlist
    ensures chlist[..n] == old(chlist[..n + 1])[..i] + old(chlist[..n + 1])[i + 1..]
  {
    forall k | i <= k < n { chlist[k] := chlist[k + 1]; }
  }

  lemma NothingTaken(list: seq<nat>, scan: nat, done: seq<bool>, text: nat -> string)
    requires scan <= |list|
    ensures Without(list, scan, done, 0) == list && Picked(list, scan, done, 0, true) == []
    ensures Texts(|list|, scan, done, text, 0) == ""
  {}

  lemma TakeStep(list: seq<nat>, scan: nat, done: seq<bool>, text: nat -> string, ch: nat)
    requires ch < |done| && scan <= |list|
    ensures (scan + ch >= |list| || !done[ch]) ==> Without(list, scan, done, ch + 1) == Without(list, scan, done, ch)
    ensures Texts(|list|, scan, done, text, ch + 1) == Texts(|list|, scan, done, text, ch) +
              if scan + ch < |list| && done[ch] then text(ch) else ""
    ensures scan + ch < |list| ==>
              |Picked(list, scan, done, ch + 1, true)|
              == |Picked(list, scan, done, ch, true)| + if done[ch] then 1 else 0
  {
    var at := scan + ch;
    if at < |list| {
      assert From(list, at) == [list[at]] + From(list, at + 1);
    } else {
      assert From(list, at) == From(list, at + 1);
    }
    assert Texts(|list|, scan, done, text, ch) + "" == Texts(|list|, scan, done, text, ch);
  }

  lemma CloseGap(u: seq<nat>, k: seq<nat>, x: nat, f: seq<nat>)
    ensures var before, i := u + k + ([x] + f), |u| + |k|;
            before[..i] + before[i + 1..] == u + k + f
  {}

  lemma FromAt(list: seq<nat>, at: nat)
    requires at < |list|
    ensures From(list, at) == [list[at]] + From(list, at + 1)
  {}

  lemma TakeOut(list: seq<nat>, scan: nat, done: seq<bool>, ch: nat, before: seq<nat>, i: nat)
    requires ch < |done| && scan + ch < |list| && done[ch]
    requires before == Without(list, scan, done, ch)
    requires i == scan + ch - |Picked(list, scan, done, ch, true)|
    ensures i < |before| && before[..i] + before[i + 1..] == Without(list, scan, done, ch + 1)
  {
    hide From;
    var at := scan + ch;
    var kept := Picked(list, scan, done, ch, false);
    assert Picked(list, scan, done, ch + 1, false) == kept;
    hide Picked;
    CountKept(list, scan, done, ch);
    FromAt(list, at);
    CloseGap(Until(list, scan), kept, list[at], From(list, at + 1));
  }

  /** Once a position is past the list, so are all after it. */
  lemma {:induction false} RestIsBeyond(list: seq<nat>, scan: nat, done: seq<bool>, text: nat -> string, ch: nat)
    requires ch <= |done| && scan + ch >= |list| && scan <= |list|
    ensures Without(list, scan, done, |done|) == Without(list, scan, done, ch)
    ensures Texts(|list|, scan, done, text, |done|) == Texts(|list|, scan, done, text, ch)
    decreases |done| - ch
  {
    if ch < |done| {
      TakeStep(list, scan, done, text, ch);
      assert Texts(|list|, scan, done, text, ch) + "" == Texts(|list|, scan, done, text, ch);
      RestIsBeyond(list, scan, done, text, ch + 1);
    }
  }

  // ---------- Any number of rounds ----------

  datatype Progress = Progress(left: seq<nat>, collected: seq<nat>)

  /** The list and the collected channels after rounds that finished the given receivers. */
  function Rounds(p: Progress, scan: nat, rounds: seq<seq<bool>>): Progress
    decreases |rounds|
  {
    if rounds == [] then p else
      var d := rounds[0];
      var out := Picked(p.left, scan, d, |d|, true);
      Rounds(Progress(Without(p.left, scan, d, |d|), p.collected + out), scan, rounds[1..])
  }

  /** Collected and remaining channels together are always the original list. */
  lemma {:induction false} RoundsLoseNothing(p: Progress, scan: nat, rounds: seq<seq<bool>>)
    ensures var q := Rounds(p, scan, rounds);
            multiset(q.left) + multiset(q.collected) == multiset(p.left) + multiset(p.collected)
    decreases |rounds|
  {
    if rounds != [] {
      var d := rounds[0];
      var out := Picked(p.left, scan, d, |d|, true);
      var q := Progress(Without(p.left, scan, d, |d|), p.collected + out);
      NothingLost(p.left, scan, d, |d|);
      RoundsLoseNothing(q, scan, rounds[1..]);
      assert multiset(q.collected) == multiset(p.collected) + multiset(out);
    }
  }
}
