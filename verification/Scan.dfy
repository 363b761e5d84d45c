/**
 The channel scan (tuner.cpp): table indices are visited two apart, interleaved over the receivers,
 first the even ones and then the odd ones; the channels that lock are collected and sorted.
 */
module Scan {
  import opened Bytes

  const CH_STEP := 2

  // ---------- Lists ----------

  ghost predicate Distinct(s: seq<nat>) {
    forall i, j | 0 <= i < j < |s| :: s[i] != s[j]
  }

  ghost predicate Increasing(s: seq<nat>) {
    forall i, j | 0 <= i < j < |s| :: s[i] < s[j]
  }

  ghost predicate Sorted(s: seq<nat>) {
    forall i, j | 0 <= i < j < |s| :: s[i] <= s[j]
  }

  function Insert(s: seq<nat>, x: nat): seq<nat> {
    if s == [] || s[|s| - 1] <= x then s + [x] else Insert(s[..|s| - 1], x) + [s[|s| - 1]]
  }

  /** The sort of the C library, as a function. */
  function QSort(s: seq<nat>): seq<nat> {
    if s == [] then [] else Insert(QSort(s[..|s| - 1]), s[|s| - 1])
  }

  lemma SortedSnoc(s: seq<nat>, y: nat)
    requires Sorted(s) && forall x | x in s :: x <= y
    ensures Sorted(s + [y])
  {
    forall i | 0 <= i < |s| ensures s[i] <= y {
      assert s[i] in s;
    }
  }

  lemma SortedInit(s: seq<nat>)
    requires Sorted(s) && s != []
    ensures Sorted(s[..|s| - 1]) && forall x | x in s :: x <= s[|s| - 1]
  {}

  lemma {:induction false} InsertSorts(s: seq<nat>, x: nat)
    requires Sorted(s)
    ensures Sorted(Insert(s, x)) && multiset(Insert(s, x)) == multiset(s) + multiset{x}
    ensures forall y | y in Insert(s, x) :: y in s || y == x
  {
    hide Sorted;
    if s == [] {
      SortedSnoc(s, x);
    } else {
      var n := |s| - 1;
      SortedInit(s);
      if s[n] <= x {
        SortedSnoc(s, x);
      } else {
        InsertSorts(s[..n], x);
        forall y | y in Insert(s[..n], x) ensures y <= s[n] {
          assert y in s[..n] ==> y in s;
        }
        SortedSnoc(Insert(s[..n], x), s[n]);
        assert s == s[..n] + [s[n]];
      }
    }
  }

  lemma {:induction false} QSortSorts(s: seq<nat>)
    ensures Sorted(QSort(s)) && multiset(QSort(s)) == multiset(s)
  {
    if s != [] {
      var n := |s| - 1;
      QSortSorts(s[..n]);
      InsertSorts(QSort(s[..n]), s[n]);
      assert s == s[..n] + [s[n]];
    }
  }

  lemma DistinctSnoc(s: seq<nat>, y: nat)
    requires Distinct(s) && y !in s
    ensures Distinct(s + [y])
  {}

  lemma DistinctInit(s: seq<nat>)
    requires Distinct(s) && s != []
    ensures Distinct(s[..|s| - 1]) && s[|s| - 1] !in s[..|s| - 1]
  {}

  lemma EmptyDistinct()
    ensures Distinct([])
  {}

  lemma {:induction false} DistinctMeansOnce(s: seq<nat>, x: nat)
    requires Distinct(s)
    ensures multiset(s)[x] == if x in s then 1 else 0
  {
    if s != [] {
      var n := |s| - 1;
      assert s == s[..n] + [s[n]];
      DistinctMeansOnce(s[..n], x);
    }
  }

  lemma SortedDistinctIncreases(s: seq<nat>, r: seq<nat>)
    requires Distinct(s) && Sorted(r) && multiset(r) == multiset(s)
    ensures Increasing(r)
  {
    forall i, j | 0 <= i < j < |r| ensures r[i] < r[j] {
      if r[i] == r[j] {
        assert r == r[..j] + [r[j]] + r[j + 1..];
        assert r[i] in r[..j];
        assert multiset(r)[r[j]] >= 2;
        DistinctMeansOnce(s, r[j]);
      }
    }
  }

  lemma {:induction false} DistinctBelow(s: seq<nat>, n: nat)
    requires Distinct(s) && forall x | x in s :: x < n
    ensures |s| <= n
    decreases n
  {
    if s == [] {
      return;
    }
    assert s[0] in s && s[0] < n;
    if k :| 0 <= k < |s| && s[k] == n - 1 {
      var t := s[..k] + s[k + 1..];
      forall i | 0 <= i < |t| ensures t[i] < n - 1 {
        assert t[i] == if i < k then s[i] else s[i + 1];
        assert t[i] in s;
      }
      DistinctBelow(t, n - 1);
    } else {
      forall x | x in s ensures x < n - 1 {}
      DistinctBelow(s, n - 1);
    }
  }

  lemma DistinctBetween(s: seq<nat>, first: nat, n: nat)
    requires Distinct(s) && forall y | y in s :: first <= y < first + n
    ensures |s| <= n
  {
    var t: seq<nat> := seq(|s|, i requires 0 <= i < |s| => if s[i] in s then s[i] - first else 0);
    forall i | 0 <= i < |t| ensures t[i] == s[i] - first < n {
      assert s[i] in s;
    }
    DistinctBelow(t, n);
  }

  // ---------- Progress ----------

  /** Rounds of one phase as the progress display counts them. */
  function HalfRounds(n: nat): nat { ((n + 1) / CH_STEP + 1) / 2 }

  /** The maximum the display announces. */
  function MaxProgress(n: nat): nat { (n + 1) / CH_STEP + 1 }

  /** tuner_scan_call_cb with a fixed antenna: the position shown for loop variable `i`. */
  function Progress(n: nat, i: nat): nat {
    if i == 0 then 0 else (i - 1) / (2 * CH_STEP) + ((i - 1) % 2) * HalfRounds(n) + 1
  }

  ghost predicate CountsUp(reports: seq<nat>) {
    forall k | 0 <= k < |reports| :: reports[k] == k
  }

  /** The positions shown before the round with loop variable `i`, for two receivers. */
  ghost predicate Shown(reports: seq<nat>, n: nat, i: nat) {
    && CountsUp(reports)
    && if i % 2 == 0 then i % 4 == 0 && i < n + 4 && |reports| == i / 4 + 1
       else i % 4 == 1 && 5 <= i && (i < n + 4 || i == 5) && |reports| == HalfRounds(n) + i / 4 + 1
  }

  /** Each round shows the next position. */
  lemma ShowNext(reports: seq<nat>, n: nat, i: nat)
    requires Shown(reports, n, i)
    ensures i < n ==> Shown(reports + [Progress(n, i + 1)], n, i + 4)
    ensures i >= n && i % 2 == 0 ==> Shown(reports + [Progress(n, 2)], n, 5)
    ensures i >= n && i % 2 == 1 ==> |reports| - 1 <= MaxProgress(n)
  {
    hide CountsUp;
    if i < n {
      assert Progress(n, i + 1) == i / 4 + (i % 2) * HalfRounds(n) + 1;
      ShowOne(reports, Progress(n, i + 1));
    } else if i % 2 == 0 {
      assert i / 4 == HalfRounds(n);
      ShowOne(reports, Progress(n, 2));
    }
  }

  lemma ShowOne(reports: seq<nat>, x: nat)
    requires CountsUp(reports) && x == |reports|
    ensures CountsUp(reports + [x])
  {}

  // ---------- Traces ----------

  /** A receiver tuned, its lock bit read, or a position shown. */
  datatype Event = Tuned(j: nat, tvch: nat) | Sampled(j: nat, locked: bool) | Position(pos: nat, max: nat)

  /** The channel a receiver is tuned to. */
  function ChannelOn(t: seq<Event>, j: nat): Option<nat> {
    if t == [] then None else
      var before, e := t[..|t| - 1], t[|t| - 1];
      if e.Tuned? && e.j == j then Some(e.tvch) else ChannelOn(before, j)
  }

  /** The channels sampled, each the one its receiver was tuned to at that moment. */
  function Visits(t: seq<Event>): seq<nat> {
    if t == [] then [] else
      var before, e := t[..|t| - 1], t[|t| - 1];
      if e.Sampled? && ChannelOn(before, e.j).Some? then Visits(before) + [ChannelOn(before, e.j).value]
      else Visits(before)
  }

  /** Those of them whose lock bit was set. */
  function Locked(t: seq<Event>): seq<nat> {
    if t == [] then [] else
      var before, e := t[..|t| - 1], t[|t| - 1];
      if e.Sampled? && e.locked && ChannelOn(before, e.j).Some? then Locked(before) + [ChannelOn(before, e.j).value]
      else Locked(before)
  }

  function Positions(t: seq<Event>): seq<nat> {
    if t == [] then [] else
      var before, e := t[..|t| - 1], t[|t| - 1];
      if e.Position? then Positions(before) + [e.pos] else Positions(before)
  }

  /** The receivers sampled since the last position was shown. */
  function InRound(t: seq<Event>): seq<nat> {
    if t == [] then [] else
      var before, e := t[..|t| - 1], t[|t| - 1];
      match e
      case Position(_, _) => []
      case Sampled(j, _) => InRound(before) + [j]
      case Tuned(_, _) => InRound(before)
  }

  /**
   Only receivers that are tuned are sampled, each at most once between two positions, and every position is shown
   with the same maximum.
   */
  predicate Paced(t: seq<Event>, tuners: nat, max: nat) {
    t == [] || (
      var before, e := t[..|t| - 1], t[|t| - 1];
      Paced(before, tuners, max)
      && (e.Position? ==> e.max == max)
      && (e.Sampled? ==> e.j < tuners && ChannelOn(before, e.j).Some? && e.j !in InRound(before)))
  }

  lemma Snoc(t: seq<Event>, e: Event, tuners: nat, max: nat)
    ensures var u := t + [e];
            && (forall j :: ChannelOn(u, j) == if e.Tuned? && e.j == j then Some(e.tvch) else ChannelOn(t, j))
            && Positions(u) == (if e.Position? then Positions(t) + [e.pos] else Positions(t))
            && InRound(u) == (match e
                              case Position(_, _) => []
                              case Sampled(j, _) => InRound(t) + [j]
                              case Tuned(_, _) => InRound(t))
            && (!e.Sampled? ==>
                  && Visits(u) == Visits(t) && Locked(u) == Locked(t)
                  && (Paced(u, tuners, max) <==> Paced(t, tuners, max) && (e.Position? ==> e.max == max)))
  {
    assert (t + [e])[..|t|] == t;
  }

  lemma SampleSnoc(t: seq<Event>, e: Event, tuners: nat, max: nat)
    requires e.Sampled? && ChannelOn(t, e.j).Some?
    ensures var u, y := t + [e], ChannelOn(t, e.j).value;
            && Visits(u) == Visits(t) + [y]
            && Locked(u) == (if e.locked then Locked(t) + [y] else Locked(t))
            && (Paced(u, tuners, max) <==> Paced(t, tuners, max) && e.j < tuners && e.j !in InRound(t))
  {
    assert (t + [e])[..|t|] == t;
  }

  /** What locked was visited, and no more often. */
  lemma {:induction false} LockedIsVisited(t: seq<Event>)
    ensures |Locked(t)| <= |Visits(t)| && forall y | y in Locked(t) :: y in Visits(t)
    ensures Distinct(Visits(t)) ==> Distinct(Locked(t))
  {
    hide Distinct, ChannelOn;
    if t == [] {
      EmptyDistinct();
    } else {
      var before, e := t[..|t| - 1], t[|t| - 1];
      LockedIsVisited(before);
      if e.Sampled? && ChannelOn(before, e.j).Some? && Distinct(Visits(t)) {
        assert Visits(t)[..|Visits(t)| - 1] == Visits(before);
        DistinctInit(Visits(t));
        if e.locked {
          DistinctSnoc(Locked(before), ChannelOn(before, e.j).value);
        }
      }
    }
  }

  // ---------- The scan ----------

  /** The receivers of a tuner. `trace` is what was done since `StartTrace`; `broken` says that a call failed. */
  class Receivers {
    /** The channel each receiver was last tuned to. */
    var tvch: seq<nat>

    ghost var trace: seq<Event>
    ghost var broken: bool

    constructor (n: nat)
      ensures |tvch| == n && trace == [] && !broken
    {
      tvch := seq(n, i => 0);
      trace, broken := [], false;
    }

    ghost method StartTrace()
      modifies this`trace
      ensures trace == []
    {
      trace := [];
    }

    /** set_freq */
    method SetFreq(j: nat, ch: nat) returns (failed: bool)
      requires j < |tvch|
      modifies this`tvch, this`trace, this`broken
      ensures broken == (old(broken) || failed)
      ensures tvch == if failed then old(tvch) else old(tvch)[j := ch]
      ensures trace == if failed then old(trace) else old(trace) + [Tuned(j, ch)]
    {
      failed := *;
      if failed {
        broken := true;
      } else {
        tvch := tvch[j := ch];
        trace := trace + [Tuned(j, ch)];
      }
    }

    /** The carrier recovery bit of a receiver. */
    method GetLock(j: nat) returns (failed: bool, locked: bool)
      modifies this`trace, this`broken
      ensures broken == (old(broken) || failed)
      ensures trace == if failed then old(trace) else old(trace) + [Sampled(j, locked)]
    {
      failed, locked := *, *;
      if failed {
        broken := true;
      } else {
        trace := trace + [Sampled(j, locked)];
      }
    }

    /** The progress callback. */
    method Show(pos: nat, max: nat)
      modifies this`trace
      ensures trace == old(trace) + [Position(pos, max)]
    {
      trace := trace + [Position(pos, max)];
    }
  }

  /**
   What has been visited when the loop variable is `i` and the first `j` receivers are done:
   even indices first.
   */
  ghost predicate Visited(visits: seq<nat>, n: nat, i: nat, j: nat, first: nat) {
    && Distinct(visits)
    && forall y: nat :: y in visits <==> y >= first && Reached(y - first, n, i, j)
  }

  predicate Reached(x: nat, n: nat, i: nat, j: nat) {
    x < n && (if i % 2 == 0 then x % 2 == 0 && x < i + 2 * j else x % 2 == 0 || x < i + 2 * j)
  }

  lemma VisitOne(visits: seq<nat>, n: nat, i: nat, j: nat, first: nat)
    requires Visited(visits, n, i, j, first)
    ensures i + 2 * j < n ==> Visited(visits + [i + 2 * j + first], n, i, j + 1, first)
    ensures i + 2 * j >= n ==> Visited(visits, n, i, j + 1, first)
  {
    var y: nat := i + 2 * j + first;
    if y < n + first {
      assert y !in visits;
      forall z: nat ensures z in visits + [y] <==> z in visits || z == y {}
    }
  }

  /** Receivers `from` up to `to` are on their channels of the round. */
  ghost predicate OnAir(dev: Receivers, n: nat, i: nat, first: nat, from: nat, to: nat)
    reads dev
  {
    forall k | from <= k < to && k < |dev.tvch| && i + k * CH_STEP < n ::
      dev.tvch[k] == i + k * CH_STEP + first && ChannelOn(dev.trace, k) == Some(i + k * CH_STEP + first)
  }

  /** The table of channels found is that of the trace. */
  ghost predicate Going(dev: Receivers, find: array<nat>, use: nat, n: nat, i: nat, j: nat, first: nat)
    reads dev, find
  {
    && find.Length == n && use <= n && find[..use] == Locked(dev.trace)
    && Paced(dev.trace, |dev.tvch|, MaxProgress(n)) && Visited(Visits(dev.trace), n, i, j, first)
  }

  /** Tunes every receiver that has an index left in this round. */
  method TuneRound(dev: Receivers, ghost find: array<nat>, ghost use: nat, n: nat, i: nat, first: nat)
    returns (failed: bool)
    requires Going(dev, find, use, n, i, 0, first)
    modifies dev
    ensures dev.broken == (old(dev.broken) || failed)
    ensures |dev.tvch| == old(|dev.tvch|)
    ensures !failed ==> Going(dev, find, use, n, i, 0, first) && OnAir(dev, n, i, first, 0, |dev.tvch|)
    ensures !failed ==> Positions(dev.trace) == old(Positions(dev.trace))
    ensures !failed ==> InRound(dev.trace) == old(InRound(dev.trace))
  {
    hide Visited, Visits, Locked, Paced, Positions, InRound, ChannelOn;
    var j := 0;
    while j < |dev.tvch|
      invariant 0 <= j <= |dev.tvch| == old(|dev.tvch|)
      invariant dev.broken == old(dev.broken)
      invariant Going(dev, find, use, n, i, 0, first) && OnAir(dev, n, i, first, 0, j)
      invariant Positions(dev.trace) == old(Positions(dev.trace)) && InRound(dev.trace) == old(InRound(dev.trace))
    {
      if i + j * CH_STEP < n {
        Snoc(dev.trace, Tuned(j, i + j * CH_STEP + first), |dev.tvch|, MaxProgress(n));
        failed := dev.SetFreq(j, i + j * CH_STEP + first);
        if failed {
          return;
        }
      }
      j := j + 1;
    }
    failed := false;
  }

  /** Reads the lock bit of one receiver; a channel that locks goes into the table. */
  method SampleOne(dev: Receivers, find: array<nat>, used: nat, n: nat, i: nat, j: nat, first: nat)
    returns (failed: bool, use: nat)
    requires j < |dev.tvch| && i + j * CH_STEP < n
    requires Going(dev, find, used, n, i, j, first) && OnAir(dev, n, i, first, j, |dev.tvch|)
    requires j !in InRound(dev.trace)
    modifies dev`trace, dev`broken, find
    ensures dev.broken == (old(dev.broken) || failed)
    ensures !failed ==> Going(dev, find, use, n, i, j + 1, first) && OnAir(dev, n, i, first, j + 1, |dev.tvch|)
    ensures !failed ==> InRound(dev.trace) == old(InRound(dev.trace)) + [j]
    ensures !failed ==> Positions(dev.trace) == old(Positions(dev.trace))
  {
    hide Visited, Visits, Locked, Paced, Positions, InRound, ChannelOn;
    use := used;
    ghost var t := dev.trace;
    var locked;
    failed, locked := dev.GetLock(j);
    if failed {
      return;
    }
    VisitOne(Visits(t), n, i, j, first);
    Snoc(t, Sampled(j, locked), |dev.tvch|, MaxProgress(n));
    SampleSnoc(t, Sampled(j, locked), |dev.tvch|, MaxProgress(n));
    FoundFits(dev.trace, n, i, j + 1, first);
    if locked {
      find[use] := dev.tvch[j];
      assert find[..use + 1] == find[..use] + [dev.tvch[j]];
      use := use + 1;
    }
  }

  /** Reads the lock bit of every receiver tuned in this round. */
  method SampleRound(dev: Receivers, find: array<nat>, used: nat, n: nat, i: nat, first: nat)
    returns (failed: bool, use: nat)
    requires Going(dev, find, used, n, i, 0, first) && OnAir(dev, n, i, first, 0, |dev.tvch|)
    requires InRound(dev.trace) == []
    modifies dev`trace, dev`broken, find
    ensures dev.broken == (old(dev.broken) || failed)
    ensures !failed ==> Going(dev, find, use, n, i, |dev.tvch|, first)
    ensures !failed ==> Positions(dev.trace) == old(Positions(dev.trace))
  {
    hide Visited, Visits, Locked, Paced, Positions, InRound, ChannelOn;
    use, failed := used, false;
    var j := 0;
    while j < |dev.tvch|
      invariant 0 <= j <= |dev.tvch|
      invariant dev.broken == old(dev.broken)
      invariant Going(dev, find, use, n, i, j, first) && OnAir(dev, n, i, first, j, |dev.tvch|)
      invariant forall k | k in InRound(dev.trace) :: k < j
      invariant Positions(dev.trace) == old(Positions(dev.trace))
    {
      VisitOne(Visits(dev.trace), n, i, j, first);
      if i + j * CH_STEP < n {
        failed, use := SampleOne(dev, find, use, n, i, j, first);
        if failed {
          return;
        }
      }
      j := j + 1;
    }
  }

  /** No more channels lock than the table has indices. */
  lemma FoundFits(t: seq<Event>, n: nat, i: nat, j: nat, first: nat)
    requires Visited(Visits(t), n, i, j, first)
    ensures |Locked(t)| <= n
  {
    hide Distinct;
    LockedIsVisited(t);
    DistinctBetween(Visits(t), first, n);
  }

  /** One turn of the loop: a position is shown, and the receivers are tuned and read. */
  method Round(dev: Receivers, find: array<nat>, used: nat, n: nat, i: nat, first: nat)
    returns (failed: bool, use: nat)
    requires Going(dev, find, used, n, i, 0, first)
    modifies dev, find
    ensures dev.broken == (old(dev.broken) || failed) && |dev.tvch| == old(|dev.tvch|)
    ensures !failed ==> Going(dev, find, use, n, i + |dev.tvch| * 2, 0, first)
    ensures !failed ==> Positions(dev.trace) == old(Positions(dev.trace)) + [Progress(n, i + 1)]
  {
    hide Visited, Visits, Locked, Paced, Positions, InRound, ChannelOn, Progress;
    use := used;
    Snoc(dev.trace, Position(Progress(n, i + 1), MaxProgress(n)), |dev.tvch|, MaxProgress(n));
    dev.Show(Progress(n, i + 1), MaxProgress(n));
    failed := TuneRound(dev, find, use, n, i, first);
    if failed {
      return;
    }
    failed, use := SampleRound(dev, find, use, n, i, first);
    if failed {
      return;
    }
    RoundDone(Visits(dev.trace), n, i, |dev.tvch|, first);
  }

  /** Rounds of both phases with two receivers; the second phase has at least one. */
  function Rounds(n: nat): nat {
    HalfRounds(n) + if n <= 1 then 1 else (n / CH_STEP + 1) / 2
  }

  /**
   scan with a fixed antenna, over a table of any size and with any number of receivers. If no call fails, every
   channel of the table is sampled exactly once, on a receiver tuned to it at that moment, and the sorted list
   holds exactly those whose bit was set. With two receivers the positions shown are 0, 1 and so on, one a round.
   */
  method Scan(dev: Receivers, n: nat, first: nat) returns (failed: bool, chlist: seq<nat>)
    requires |dev.tvch| > 0
    modifies dev
    ensures dev.broken == (old(dev.broken) || failed) && |dev.tvch| == old(|dev.tvch|)
    ensures !failed ==> Paced(dev.trace, |dev.tvch|, (n + 1) / 2 + 1)
    ensures !failed ==> Distinct(Visits(dev.trace))
    ensures !failed ==> forall y: nat :: y in Visits(dev.trace) <==> first <= y < n + first
    ensures !failed ==> Increasing(chlist) && multiset(chlist) == multiset(Locked(dev.trace)) && |chlist| <= n
    ensures !failed && |dev.tvch| == 2 ==> CountsUp(Positions(dev.trace)) && |Positions(dev.trace)| == Rounds(n) + 1
    ensures |dev.tvch| == 2 ==> Rounds(n) <= MaxProgress(n)
  {
    hide Visited, Distinct, Shown, Increasing, Progress, Visits, Locked, Paced, Positions, InRound, Rounds;
    var find := new nat[n];
    var use: nat, i: nat := 0, 0;
    var tuners := |dev.tvch|;
    chlist := [];
    dev.StartTrace();
    NothingVisited(n, first, tuners);
    RoundsFit(n);
    Snoc(dev.trace, Position(Progress(n, 0), MaxProgress(n)), tuners, MaxProgress(n));
    dev.Show(Progress(n, 0), MaxProgress(n));
    while true
      invariant |dev.tvch| == tuners && dev.broken == old(dev.broken)
      invariant Going(dev, find, use, n, i, 0, first)
      invariant i <= n + 2 * tuners + 1
      invariant tuners == 2 ==> Shown(Positions(dev.trace), n, i)
      decreases if i % 2 == 0 then 1 else 0, n + 2 * tuners + 1 - i
    {
      if tuners == 2 {
        ShowNext(Positions(dev.trace), n, i);
      }
      if i >= n {
        if i % 2 == 1 {
          break;
        }
        StartOdd(Visits(dev.trace), n, i, first);
        i := 1;
      }
      failed, use := Round(dev, find, use, n, i, first);
      if failed {
        return;
      }
      i := i + tuners * 2;
    }
    failed := false;
    chlist := QSort(find[..use]);
    Harvest(dev.trace, n, i, first);
    if tuners == 2 {
      AllShown(Positions(dev.trace), n, i);
    }
  }

  lemma NothingVisited(n: nat, first: nat, tuners: nat)
    ensures Visited(Visits([]), n, 0, 0, first) && Locked([]) == [] && Paced([], tuners, MaxProgress(n))
    ensures Shown(Positions([]) + [Progress(n, 0)], n, 0)
  {}

  /** The program's table of 50 channels takes 26 rounds, and the last position shown is the maximum. */
  lemma FiftyChannels()
    ensures Rounds(50) == 26 && MaxProgress(50) == 26
  {}

  lemma RoundsFit(n: nat)
    ensures Rounds(n) <= MaxProgress(n)
  {}

  /** At the end of the even indices the odd ones start from 1. */
  lemma StartOdd(visits: seq<nat>, n: nat, i: nat, first: nat)
    requires Visited(visits, n, i, 0, first) && i >= n && i % 2 == 0
    ensures Visited(visits, n, 1, 0, first)
  {
    hide Distinct;
    forall x: nat ensures Reached(x, n, 1, 0) == Reached(x, n, i, 0) {}
  }

  lemma RoundDone(visits: seq<nat>, n: nat, i: nat, tuners: nat, first: nat)
    requires Visited(visits, n, i, tuners, first)
    ensures Visited(visits, n, i + tuners * 2, 0, first)
  {
    hide Distinct;
    forall x: nat ensures Reached(x, n, i + tuners * 2, 0) == Reached(x, n, i, tuners) {}
  }

  lemma AllShown(positions: seq<nat>, n: nat, i: nat)
    requires Shown(positions, n, i) && i >= n && i % 2 == 1
    ensures CountsUp(positions) && |positions| == Rounds(n) + 1
  {}

  /** What the loop leaves when it is done. */
  lemma Harvest(t: seq<Event>, n: nat, i: nat, first: nat)
    requires Visited(Visits(t), n, i, 0, first) && i >= n && i % 2 == 1
    ensures Distinct(Visits(t)) && forall y: nat :: y in Visits(t) <==> first <= y < n + first
    ensures var r := QSort(Locked(t)); Increasing(r) && multiset(r) == multiset(Locked(t)) && |r| <= n
  {
    hide Distinct, Sorted, Visits, Locked;
    forall y: nat ensures y in Visits(t) <==> first <= y < n + first {
      assert y >= first ==> (Reached(y - first, n, i, 0) <==> y < n + first);
    }
    LockedIsVisited(t);
    FoundFits(t, n, i, 0, first);
    QSortSorts(Locked(t));
    var r := QSort(Locked(t));
    SortedDistinctIncreases(Locked(t), r);
    assert |multiset(r)| == |multiset(Locked(t))|;
  }
}
