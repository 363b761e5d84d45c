/**
 Which channels get_ch_id (main.cpp) tunes, and when: every round starts at the same place of the list,
 so a channel further back waits until enough of those before it are finished.
 */
module TuningOrder {
  import opened Scan
  import ChannelIds
  import T = Tuner

  // ---------- Tuning for one round ----------

  /** The channels a round tunes, one for each of `r` receivers. */
  function Window(left: seq<nat>, r: nat): (w: seq<nat>)
    ensures w <= left
  {
    if r <= |left| then left[..r] else left
  }

  /** Receivers up to `n` report the channels of the window. */
  ghost predicate OnWindow(s: T.State, window: seq<nat>, n: nat) {
    forall ch | 0 <= ch < n && ch < |window| :: T.FreqOf(s, ch) == window[ch]
  }

  /** A call of the round cannot be done. */
  ghost predicate Blocked(ant: T.Antenna, window: seq<nat>, beyond: int -> nat) {
    ant == T.Nc || exists ch :: 0 <= ch < |window| && !T.Tunable(window[ch], beyond)
  }

  /** One receiver of the round: it is tuned unless it reports the channel already. */
  method TuneOne(t: T.Tuner, ch: nat, tvch: nat) returns (failed: bool)
    requires t.Valid() && ch < T.NUM_CHANNELS
    modifies t
    ensures t.activeAnt == old(t.activeAnt) && |t.chState| == |t.chips| == T.NUM_CHANNELS
    ensures old(t.broken) ==> t.broken
    ensures failed ==> t.broken || old(t.activeAnt) == T.Nc || !T.Tunable(tvch, t.beyond)
    ensures !failed ==> t.Valid()
    ensures !failed ==> forall other: nat ::
              T.FreqOf(t.Now(), other) == if other == ch then tvch else T.FreqOf(old(t.Now()), other)
  {
    hide T.Tunable, T.Consistent, T.Tune, T.FreqOf;
    T.TwoOfEach(t.Now(), t.beyond);
    failed := false;
    var freq := t.GetFreq(ch);
    if freq != tvch {
      ghost var s, c := t.Now(), T.Call.SetFreq(ch, tvch);
      failed := t.SetFreq(ch, tvch);
      if failed {
        return;
      }
      T.DoIsConsistent(s, c, t.beyond);
      forall other: nat
        ensures T.FreqOf(t.Now(), other) == if other == ch then tvch else T.FreqOf(s, other)
      {
        T.FreqAfterTune(s, ch, tvch, t.beyond, other);
      }
    }
  }

  /** The start of a round of get_ch_id: the two receivers are put on the first two channels left. */
  method TuneWindow(t: T.Tuner, chlist: seq<nat>) returns (failed: bool)
    requires t.Valid() && chlist != []
    modifies t
    ensures old(t.broken) ==> t.broken
    ensures failed ==> t.broken || Blocked(old(t.activeAnt), Window(chlist, T.NUM_CHANNELS), t.beyond)
    ensures !failed ==> t.Valid() && OnWindow(t.Now(), Window(chlist, T.NUM_CHANNELS), T.NUM_CHANNELS)
  {
    hide T.Consistent, T.Tunable;
    ghost var window := Window(chlist, T.NUM_CHANNELS);
    var i, ch := 0, 0;
    while ch < T.NUM_CHANNELS
      invariant 0 <= ch <= T.NUM_CHANNELS && i == ch && (ch < T.NUM_CHANNELS ==> i < |chlist|)
      invariant t.Valid() && t.activeAnt == old(t.activeAnt) && (old(t.broken) ==> t.broken)
      invariant OnWindow(t.Now(), window, ch)
    {
      assert window[ch] == chlist[i];
      failed := TuneOne(t, ch, chlist[i]);
      if failed {
        return;
      }
      i := i + 1;
      ch := ch + 1;
      if i >= |chlist| {
        break;
      }
    }
    failed := false;
  }

  // ---------- The order that removal keeps ----------

  /** The elements of `s` that are in `l`, in order. */
  function Keep(s: seq<nat>, l: seq<nat>): (r: seq<nat>)
    ensures forall x :: x in r <==> x in s && x in l
  {
    if s == [] then [] else
      var before, x := Keep(s[..|s| - 1], l), s[|s| - 1];
      assert s == s[..|s| - 1] + [x];
      if x in l then before + [x] else before
  }

  lemma {:induction false} KeepAppend(s: seq<nat>, t: seq<nat>, l: seq<nat>)
    ensures Keep(s + t, l) == Keep(s, l) + Keep(t, l)
    decreases |t|
  {
    if t == [] {
      assert s + t == s;
    } else {
      var n := |t| - 1;
      assert (s + t)[..|s| + n] == s + t[..n];
      KeepAppend(s, t[..n], l);
    }
  }

  lemma {:induction false} KeepAll(s: seq<nat>, l: seq<nat>)
    requires forall x | x in s :: x in l
    ensures Keep(s, l) == s
  {
    if s != [] {
      KeepAll(s[..|s| - 1], l);
    }
  }

  lemma {:induction false} KeepKeep(s: seq<nat>, l: seq<nat>, m: seq<nat>)
    requires forall x | x in m :: x in l
    ensures Keep(Keep(s, l), m) == Keep(s, m)
  {
    if s != [] {
      var n := |s| - 1;
      KeepKeep(s[..n], l, m);
      if s[n] in l {
        var k := Keep(s, l);
        assert k[..|k| - 1] == Keep(s[..n], l);
      }
    }
  }

  /** `m` is what is left of `s`, in order and without duplicates. */
  ghost predicate LeftOf(s: seq<nat>, m: seq<nat>) {
    m == Keep(s, m) && Distinct(m)
  }

  lemma LeftOfLeft(s: seq<nat>, m: seq<nat>, k: seq<nat>)
    requires LeftOf(s, m) && LeftOf(m, k)
    ensures LeftOf(s, k)
  {
    hide Distinct;
    assert forall x | x in k :: x in m by {
      assert forall x | x in Keep(m, k) :: x in m;
    }
    KeepKeep(s, m, k);
  }

  lemma RemovedDistinct(s: seq<nat>, i: nat)
    requires Distinct(s) && i < |s|
    ensures Distinct(s[..i] + s[i + 1..]) && s[i] !in s[..i] + s[i + 1..]
  {}

  lemma KeepOne(x: nat, l: seq<nat>)
    ensures Keep([x], l) == if x in l then [x] else []
  {
    assert [x][..0] == [];
  }

  lemma KeepAround(a: seq<nat>, x: nat, b: seq<nat>)
    requires x !in a + b
    ensures Keep(a + ([x] + b), a + b) == a + b
  {
    hide Keep;
    KeepAppend(a, [x] + b, a + b);
    KeepAppend([x], b, a + b);
    KeepOne(x, a + b);
    KeepAll(a, a + b);
    KeepAll(b, a + b);
  }

  /** Taking one element out leaves the others in order. */
  lemma RemoveOne(s: seq<nat>, i: nat)
    requires Distinct(s) && i < |s|
    ensures LeftOf(s, s[..i] + s[i + 1..])
  {
    hide Distinct, Keep;
    RemovedDistinct(s, i);
    SplitAt(s, i);
    KeepAround(s[..i], s[i], s[i + 1..]);
  }

  lemma SplitAt(s: seq<nat>, k: nat)
    requires k < |s|
    ensures s == s[..k] + ([s[k]] + s[k + 1..])
  {}

  lemma WholeListLeft(s: seq<nat>)
    requires Distinct(s)
    ensures LeftOf(s, s)
  {
    KeepAll(s, s);
  }

  /** A round takes its finished channels out one by one. */
  lemma {:induction false} RoundLeaves(s: seq<nat>, done: seq<bool>, c: nat)
    requires Distinct(s) && c <= |done|
    ensures LeftOf(s, ChannelIds.Without(s, 0, done, c))
  {
    hide Distinct, ChannelIds.Without, ChannelIds.Picked, Keep;
    if c == 0 {
      ChannelIds.NothingTaken(s, 0, done, _ => "");
      WholeListLeft(s);
    } else {
      var ch := c - 1;
      RoundLeaves(s, done, ch);
      ChannelIds.TakeStep(s, 0, done, _ => "", ch);
      if ch < |s| && done[ch] {
        var before := ChannelIds.Without(s, 0, done, ch);
        ChannelIds.CountKept(s, 0, done, ch);
        var i: nat := ch - |ChannelIds.Picked(s, 0, done, ch, true)|;
        ChannelIds.TakeOut(s, 0, done, ch, before, i);
        RemoveOne(before, i);
        LeftOfLeft(s, before, before[..i] + before[i + 1..]);
      }
    }
  }

  // ---------- Who is tuned, and who waits ----------

  /** The list after some rounds; each says which receivers finished. */
  function LeftAfter(list: seq<nat>, rounds: seq<seq<bool>>): seq<nat> {
    ChannelIds.Rounds(ChannelIds.Progress(list, []), 0, rounds).left
  }

  lemma {:induction false} RoundsLeave(p: ChannelIds.Progress, rounds: seq<seq<bool>>)
    requires Distinct(p.left)
    ensures LeftOf(p.left, ChannelIds.Rounds(p, 0, rounds).left)
    decreases |rounds|
  {
    hide Distinct, Keep, ChannelIds.Without, ChannelIds.Picked;
    if rounds == [] {
      WholeListLeft(p.left);
    } else {
      var d := rounds[0];
      var left := ChannelIds.Without(p.left, 0, d, |d|);
      var q := ChannelIds.Progress(left, p.collected + ChannelIds.Picked(p.left, 0, d, |d|, true));
      RoundLeaves(p.left, d, |d|);
      RoundsLeave(q, rounds[1..]);
      LeftOfLeft(p.left, left, ChannelIds.Rounds(q, 0, rounds[1..]).left);
    }
  }

  /** How many channels before position `k` are still left. */
  function Ahead(list: seq<nat>, left: seq<nat>, k: nat): nat
    requires k < |list|
  {
    |Keep(list[..k], left)|
  }

  /** A channel left stands behind exactly those left of the channels before it. */
  lemma Position(list: seq<nat>, left: seq<nat>, k: nat)
    requires LeftOf(list, left) && k < |list| && list[k] in left
    ensures Ahead(list, left, k) < |left| && left[Ahead(list, left, k)] == list[k]
  {
    hide Distinct;
    SplitAt(list, k);
    KeepAppend(list[..k], [list[k]] + list[k + 1..], left);
    KeepAppend([list[k]], list[k + 1..], left);
    KeepOne(list[k], left);
  }

  lemma InWindow(left: seq<nat>, r: nat, i: nat)
    requires Distinct(left) && i < |left|
    ensures left[i] in Window(left, r) <==> i < r
  {
    if i < r {
      assert Window(left, r)[i] == left[i];
    }
  }

  /**
   A channel that is left is tuned in the next round exactly when fewer of the channels before it are left than there
   are receivers.
   */
  lemma TunedExactly(list: seq<nat>, rounds: seq<seq<bool>>, r: nat, k: nat)
    requires Distinct(list) && k < |list| && list[k] in LeftAfter(list, rounds)
    ensures list[k] in Window(LeftAfter(list, rounds), r) <==> Ahead(list, LeftAfter(list, rounds), k) < r
  {
    hide Distinct, Ahead, LeftOf, Window;
    var left := LeftAfter(list, rounds);
    RoundsLeave(ChannelIds.Progress(list, []), rounds);
    Position(list, left, k);
    assert Distinct(left) by { LeftIsDistinct(list, left); }
    InWindow(left, r, Ahead(list, left, k));
  }

  lemma LeftIsDistinct(s: seq<nat>, m: seq<nat>)
    requires LeftOf(s, m)
    ensures Distinct(m) && forall x | x in m :: x in s
  {
    assert forall x | x in Keep(s, m) :: x in s;
  }

  lemma {:induction false} RoundsAppend(p: ChannelIds.Progress, a: seq<seq<bool>>, b: seq<seq<bool>>)
    ensures ChannelIds.Rounds(p, 0, a + b) == ChannelIds.Rounds(ChannelIds.Rounds(p, 0, a), 0, b)
    decreases |a|
  {
    hide ChannelIds.Without, ChannelIds.Picked;
    if a == [] {
      assert a + b == b;
    } else {
      var d := a[0];
      assert (a + b)[1..] == a[1..] + b;
      var q := ChannelIds.Progress(ChannelIds.Without(p.left, 0, d, |d|),
                                   p.collected + ChannelIds.Picked(p.left, 0, d, |d|, true));
      RoundsAppend(q, a[1..], b);
    }
  }

  /** What is left after all rounds was left after the first `m`. */
  lemma LeftEarlier(list: seq<nat>, rounds: seq<seq<bool>>, m: nat)
    requires Distinct(list) && m <= |rounds|
    ensures forall x | x in LeftAfter(list, rounds) :: x in LeftAfter(list, rounds[..m])
  {
    hide Distinct, ChannelIds.Rounds, LeftOf;
    var p := ChannelIds.Progress(list, []);
    assert rounds == rounds[..m] + rounds[m..];
    RoundsAppend(p, rounds[..m], rounds[m..]);
    var q := ChannelIds.Rounds(p, 0, rounds[..m]);
    RoundsLeave(p, rounds[..m]);
    LeftIsDistinct(list, q.left);
    RoundsLeave(q, rounds[m..]);
    LeftIsDistinct(q.left, ChannelIds.Rounds(q, 0, rounds[m..]).left);
  }

  lemma FirstAhead(list: seq<nat>, left: seq<nat>, r: nat, k: nat)
    requires r <= k < |list| && forall x | x in list[..r] :: x in left
    ensures Ahead(list, left, k) >= r
  {
    assert list[..k] == list[..r] + list[r..k];
    KeepAppend(list[..r], list[r..k], left);
    KeepAll(list[..r], left);
  }

  /**
   No progress: as long as none of the first channels finishes, one for each receiver, no other channel is ever tuned,
   however many rounds there are.
   */
  lemma OthersStarve(list: seq<nat>, rounds: seq<seq<bool>>, r: nat, k: nat, m: nat)
    requires Distinct(list) && r <= k < |list| && m <= |rounds|
    requires forall x | x in list[..r] :: x in LeftAfter(list, rounds)
    ensures list[k] !in Window(LeftAfter(list, rounds[..m]), r)
  {
    hide Distinct, Ahead, LeftAfter;
    var left := LeftAfter(list, rounds[..m]);
    LeftEarlier(list, rounds, m);
    if list[k] in left {
      TunedExactly(list, rounds[..m], r, k);
      FirstAhead(list, left, r, k);
    } else {
      assert forall x | x in Window(left, r) :: x in left;
    }
  }

  lemma RestStays(left: seq<nat>, done: seq<bool>, x: nat)
    requires x in left && x !in Window(left, |done|)
    ensures x in ChannelIds.Without(left, 0, done, |done|)
  {
    hide ChannelIds.Picked;
    var i :| 0 <= i < |left| && left[i] == x;
    if i >= |done| {
      assert left[|done|..][i - |done|] == x;
    }
  }

  /** Only a channel that was tuned in some round finishes: all others are still left. */
  lemma {:induction false} FinishedWasTuned(list: seq<nat>, rounds: seq<seq<bool>>, r: nat, x: nat)
    returns (m: nat)
    requires x in list && x !in LeftAfter(list, rounds)
    requires forall d | d in rounds :: |d| == r
    ensures m < |rounds| && x in Window(LeftAfter(list, rounds[..m]), r)
    decreases |rounds|
  {
    hide ChannelIds.Without, ChannelIds.Picked;
    m := |rounds| - 1;
    var p, before, d := ChannelIds.Progress(list, []), rounds[..m], rounds[m];
    var q := ChannelIds.Rounds(p, 0, before);
    assert rounds == before + [d];
    RoundsAppend(p, before, [d]);
    assert [d][1..] == [];
    if x in q.left {
      if x !in Window(q.left, r) {
        RestStays(q.left, d, x);
      }
    } else {
      m := FinishedWasTuned(list, before, r, x);
      assert before[..m] == rounds[..m];
    }
  }
}
