/**
 Sampling the channels of a list on the receivers of one tuner (main.cpp, do_item): each channel gets a
 free receiver and one second; it ends up strong if the receiver locks in time and weak otherwise. What
 is done to the device is kept as a trace of events, and the theorems are about the trace.
 */
module Jobs {

  // ---------- Traces ----------

  /** A clock reading taken to look at a receiver, its status as the device gave it, or its tuning. */
  datatype Event = Looked(ch: nat, ms: nat) | Asked(ch: nat, status: nat) | Set(ch: nat, tvch: nat)

  datatype Job = Free | Busy(tvch: nat, since: nat)

  const SECOND: nat := 1000

  /** The last clock reading. */
  function Reading(t: seq<Event>): nat {
    if t == [] then 0 else
      var e := t[|t| - 1];
      if e.Looked? then e.ms else Reading(t[..|t| - 1])
  }

  /** What an event at a receiver does to its job. */
  function JobAfter(j: Job, e: Event, reading: nat): Job {
    match e
    case Looked(_, ms) => if j.Busy? && j.since + SECOND < ms then Free else j
    case Asked(_, status) => if status > 3 then Free else j
    case Set(_, tvch) => Busy(tvch, reading)
  }

  /** The job of a receiver after a trace. */
  function JobAt(t: seq<Event>, ch: nat): Job {
    if t == [] then Free else
      var before, e := t[..|t| - 1], t[|t| - 1];
      if e.ch == ch then JobAfter(JobAt(before, ch), e, Reading(before)) else JobAt(before, ch)
  }

  /** The channels tuned, in order. */
  function Tunings(t: seq<Event>): seq<nat> {
    if t == [] then [] else
      var before, e := t[..|t| - 1], t[|t| - 1];
      if e.Set? then Tunings(before) + [e.tvch] else Tunings(before)
  }

  /** The channels whose receiver answered with a lock, in the order of the answers. */
  function Strong(t: seq<Event>): seq<nat> {
    if t == [] then [] else
      var before, e := t[..|t| - 1], t[|t| - 1];
      var j := JobAt(before, e.ch);
      if j.Busy? && e.Asked? && e.status > 3 then Strong(before) + [j.tvch] else Strong(before)
  }

  /** The channels whose receiver was still busy when it was looked at after its second. */
  function Weak(t: seq<Event>): seq<nat> {
    if t == [] then [] else
      var before, e := t[..|t| - 1], t[|t| - 1];
      var j := JobAt(before, e.ch);
      if j.Busy? && e.Looked? && j.since + SECOND < e.ms then Weak(before) + [j.tvch] else Weak(before)
  }

  /** The receivers looked at, in order, and the clock readings of the looks. */
  function Looks(t: seq<Event>): seq<nat> {
    if t == [] then [] else
      var before, e := t[..|t| - 1], t[|t| - 1];
      if e.Looked? then Looks(before) + [e.ch] else Looks(before)
  }

  function Times(t: seq<Event>): seq<nat> {
    if t == [] then [] else
      var before, e := t[..|t| - 1], t[|t| - 1];
      if e.Looked? then Times(before) + [e.ms] else Times(before)
  }

  /** The last event is a look at a receiver that is still busy and in time. */
  predicate Awaits(t: seq<Event>) {
    t != [] && t[|t| - 1].Looked? && JobAt(t, t[|t| - 1].ch).Busy?
  }

  /**
   What may happen next on `n` receivers: a busy receiver that is in time is asked for its status exactly
   once a look, nothing else is asked, and a receiver is tuned only when it is free, right after it was found so.
   */
  predicate Allowed(t: seq<Event>, e: Event, n: nat) {
    && e.ch < n
    && match e
       case Looked(_, _) => !Awaits(t)
       case Asked(ch, _) => Awaits(t) && t[|t| - 1].ch == ch
       case Set(ch, _) => t != [] && t[|t| - 1].ch == ch && JobAt(t, ch) == Free
  }

  predicate Proper(t: seq<Event>, n: nat) {
    t == [] || (Proper(t[..|t| - 1], n) && Allowed(t[..|t| - 1], t[|t| - 1], n))
  }

  ghost predicate Settled(t: seq<Event>) {
    forall ch: nat :: JobAt(t, ch) == Free
  }

  lemma Snoc(t: seq<Event>, e: Event, n: nat)
    ensures var u := t + [e];
            && (Proper(u, n) <==> Proper(t, n) && Allowed(t, e, n))
            && Reading(u) == (if e.Looked? then e.ms else Reading(t))
            && Tunings(u) == (if e.Set? then Tunings(t) + [e.tvch] else Tunings(t))
            && Looks(u) == (if e.Looked? then Looks(t) + [e.ch] else Looks(t))
            && Awaits(u) == (e.Looked? && JobAt(u, e.ch).Busy?)
  {
    assert (t + [e])[..|t|] == t;
  }

  lemma TimesSnoc(t: seq<Event>, e: Event)
    ensures Times(t + [e]) == if e.Looked? then Times(t) + [e.ms] else Times(t)
  {
    assert (t + [e])[..|t|] == t;
  }

  lemma JobSnoc(t: seq<Event>, e: Event, ch: nat)
    ensures JobAt(t + [e], ch) == if e.ch == ch then JobAfter(JobAt(t, ch), e, Reading(t)) else JobAt(t, ch)
  {
    assert (t + [e])[..|t|] == t;
  }

  lemma VerdictSnoc(t: seq<Event>, e: Event)
    ensures var j := JobAt(t, e.ch);
            && Strong(t + [e]) == (if j.Busy? && e.Asked? && e.status > 3 then Strong(t) + [j.tvch] else Strong(t))
            && Weak(t + [e]) ==
               if j.Busy? && e.Looked? && j.since + SECOND < e.ms then Weak(t) + [j.tvch] else Weak(t)
  {
    assert (t + [e])[..|t|] == t;
  }

  // ---------- Nothing is lost ----------

  function One(j: Job): multiset<nat> {
    if j.Busy? then multiset{j.tvch} else multiset{}
  }

  /** The channels on the first `n` receivers. */
  function Running(t: seq<Event>, n: nat): multiset<nat> {
    if n == 0 then multiset{} else Running(t, n - 1) + One(JobAt(t, n - 1))
  }

  lemma AddBoth(a: multiset<nat>, b: multiset<nat>, c: multiset<nat>, d: multiset<nat>, l: multiset<nat>)
    requires a + b == c + d
    ensures (a + l) + b == (c + l) + d
  {
    assert (a + l) + b == (a + b) + l;
    assert (c + l) + d == (c + d) + l;
  }

  /** An event changes what is running by the job of its own receiver. */
  lemma {:induction false} RunningChange(t: seq<Event>, e: Event, n: nat)
    ensures e.ch < n ==> Running(t + [e], n) + One(JobAt(t, e.ch)) == Running(t, n) + One(JobAt(t + [e], e.ch))
    ensures e.ch >= n ==> Running(t + [e], n) == Running(t, n)
  {
    hide JobAt, One;
    if n > 0 {
      RunningChange(t, e, n - 1);
      JobSnoc(t, e, n - 1);
      if e.ch < n - 1 {
        AddBoth(Running(t + [e], n - 1), One(JobAt(t, e.ch)), Running(t, n - 1), One(JobAt(t + [e], e.ch)),
                One(JobAt(t, n - 1)));
      }
    }
  }

  function Everywhere(t: seq<Event>, n: nat): multiset<nat> {
    Running(t, n) + multiset(Strong(t)) + multiset(Weak(t))
  }

  /** An event moves at most its own receiver's channel. */
  lemma EverywhereStep(t: seq<Event>, e: Event, n: nat)
    requires Allowed(t, e, n)
    ensures Everywhere(t + [e], n) == if e.Set? then Everywhere(t, n) + multiset{e.tvch} else Everywhere(t, n)
  {
    hide Running, Strong, Weak, JobAt, Reading, Awaits;
    var u, j := t + [e], JobAt(t, e.ch);
    var s, w := multiset(Strong(t)), multiset(Weak(t));
    RunningChange(t, e, n);
    JobSnoc(t, e, e.ch);
    VerdictSnoc(t, e);
    OneMoves(Running(t, n), Running(u, n), s, w, One(j), One(JobAt(u, e.ch)));
  }

  /** Every channel tuned is still on its receiver or has one verdict, once for each time it was tuned. */
  lemma {:induction false} NothingLost(t: seq<Event>, n: nat)
    requires Proper(t, n)
    ensures multiset(Tunings(t)) == Everywhere(t, n)
  {
    hide Everywhere, Tunings, Reading, Looks, Allowed;
    if t == [] {
      NothingYet(n);
    } else {
      var before, e := t[..|t| - 1], t[|t| - 1];
      assert t == before + [e];
      Snoc(before, e, n);
      NothingLost(before, n);
      EverywhereStep(before, e, n);
    }
  }

  /** What leaves the receivers can be added to either list; what comes onto them is new. */
  lemma OneMoves(
    r: multiset<nat>, r': multiset<nat>, s: multiset<nat>, w: multiset<nat>, x: multiset<nat>, x': multiset<nat>)
    requires r' + x == r + x'
    ensures x == x' ==> r' + s + w == r + s + w
    ensures x' == multiset{} ==> r' + (s + x) + w == r + s + w && r' + s + (w + x) == r + s + w
    ensures x == multiset{} ==> r' + s + w == r + s + w + x'
  {
    if x == x' {
      assert r' == (r' + x) - x == (r + x) - x == r;
    } else if x' == multiset{} {
      assert r == r' + x;
      assert r' + (s + x) + w == (r' + x) + s + w;
      assert r' + s + (w + x) == (r' + x) + s + w;
    } else if x == multiset{} {
      assert r' == r + x';
      assert r' + s + w == r + s + w + x';
    }
  }

  lemma {:induction false} NothingRuns(t: seq<Event>, n: nat)
    requires forall ch | 0 <= ch < n :: JobAt(t, ch) == Free
    ensures Running(t, n) == multiset{}
  {
    if n > 0 {
      NothingRuns(t, n - 1);
    }
  }

  lemma NothingYet(n: nat)
    ensures multiset(Tunings([])) == Everywhere([], n)
  {
    NothingRuns([], n);
  }

  lemma {:induction false} NoMoreThanTuned(t: seq<Event>, n: nat)
    requires Proper(t, n)
    ensures |Strong(t)| + |Weak(t)| <= |Tunings(t)|
    ensures forall ch | 0 <= ch < n && JobAt(t, ch).Busy? :: |Strong(t)| < |Tunings(t)|
  {
    hide Running, Strong, Weak, JobAt, Tunings;
    NothingLost(t, n);
    var s, w := multiset(Strong(t)), multiset(Weak(t));
    assert |Running(t, n) + s + w| == |Running(t, n)| + |s| + |w|;
    forall ch | 0 <= ch < n && JobAt(t, ch).Busy? ensures |Running(t, n)| > 0 {
      BusyRuns(t, n, ch);
    }
  }

  lemma {:induction false} BusyRuns(t: seq<Event>, n: nat, ch: nat)
    requires ch < n && JobAt(t, ch).Busy?
    ensures JobAt(t, ch).tvch in Running(t, n)
  {
    if ch < n - 1 {
      BusyRuns(t, n - 1, ch);
    }
  }

  /** Once no receiver is busy, the strong and the weak channels together are those tuned. */
  lemma AllHaveVerdicts(t: seq<Event>, n: nat)
    requires Proper(t, n) && Settled(t)
    ensures multiset(Strong(t)) + multiset(Weak(t)) == multiset(Tunings(t))
  {
    NothingLost(t, n);
    NothingRuns(t, n);
    var s, w := multiset(Strong(t)), multiset(Weak(t));
    assert multiset{} + s + w == s + w;
  }

  /** No channel tuned once gets two verdicts. */
  lemma StrongIsDuplicateFree(t: seq<Event>, n: nat)
    requires Proper(t, n) && Settled(t)
    requires forall c: nat :: multiset(Tunings(t))[c] <= 1
    ensures forall c: nat :: multiset(Strong(t))[c] <= 1
    ensures forall c | c in Tunings(t) :: c in Strong(t) <==> c !in Weak(t)
  {
    hide Strong, Weak, Tunings;
    AllHaveVerdicts(t, n);
    var s: seq<nat>, w: seq<nat>, all: seq<nat> := Strong(t), Weak(t), Tunings(t);
    forall c: nat
      ensures multiset(s)[c] <= 1
      ensures c in all ==> (c in s <==> c !in w)
    {
      assert (multiset(s) + multiset(w))[c] == multiset(all)[c];
      assert c in all <==> c in multiset(all);
      assert c in s <==> c in multiset(s);
      assert c in w <==> c in multiset(w);
    }
  }

  // ---------- What a verdict says about the job ----------

  /** Between the tuning at `k` and event `m` its receiver is not tuned again. */
  ghost predicate OneJob(t: seq<Event>, k: nat, m: nat) {
    && k < m <= |t| && t[k].Set?
    && forall i | k < i < m && t[i].ch == t[k].ch :: !t[i].Set?
  }

  /** Every answer of the job up to `m` is 3 or less. */
  ghost predicate Unlocked(t: seq<Event>, k: nat, m: nat)
    requires k < m <= |t|
  {
    forall i | k < i < m && t[i].ch == t[k].ch && t[i].Asked? :: t[i].status <= 3
  }

  /** The answer at `e` is more than 3, to a look within the job's second, and nothing is asked after it. */
  ghost predicate LocksAt(t: seq<Event>, k: nat, m: nat, e: nat)
    requires k < m <= |t|
  {
    && k + 1 < e < m && Unlocked(t, k, e)
    && t[e].Asked? && t[e].ch == t[k].ch && t[e].status > 3
    && t[e - 1].Looked? && t[e - 1].ch == t[k].ch && t[e - 1].ms <= Reading(t[..k]) + 1000
    && forall i | e < i < m && t[i].ch == t[k].ch :: !t[i].Asked?
  }

  /** The look at `e` comes after the job's second, every answer was 3 or less, and nothing is asked after it. */
  ghost predicate ExpiresAt(t: seq<Event>, k: nat, m: nat, e: nat)
    requires k < m <= |t|
  {
    && k < e < m && Unlocked(t, k, m)
    && t[e].Looked? && t[e].ch == t[k].ch && t[e].ms > Reading(t[..k]) + 1000
    && forall i | e < i < m && t[i].ch == t[k].ch :: !t[i].Asked?
  }

  ghost predicate InTime(t: seq<Event>, k: nat, m: nat)
    requires k < m <= |t|
  {
    forall i | k < i < m && t[i].ch == t[k].ch && t[i].Looked? :: t[i].ms <= Reading(t[..k]) + 1000
  }

  ghost predicate Ended(t: seq<Event>, k: nat, m: nat)
    requires k < m <= |t|
  {
    exists e :: LocksAt(t, k, m, e) || ExpiresAt(t, k, m, e)
  }

  /** A job still running was never late and never locked; a job that is over was ended by a lock or by the clock. */
  lemma {:induction false} JobSoFar(t: seq<Event>, n: nat, k: nat)
    requires Proper(t, n) && OneJob(t, k, |t|)
    ensures var j := JobAt(t, t[k].ch);
            if j.Busy? then j == Busy(t[k].tvch, Reading(t[..k])) && Unlocked(t, k, |t|) && InTime(t, k, |t|)
            else Ended(t, k, |t|)
    decreases |t|
  {
    hide JobAt, Reading;
    var m := |t| - 1;
    var before, e := t[..m], t[m];
    assert t == before + [e];
    JobSnoc(before, e, t[k].ch);
    if k < m {
      assert before[..k] == t[..k];
      JobSoFar(before, n, k);
      JobStep(before, e, n, k);
    }
  }

  lemma JobStep(before: seq<Event>, e: Event, n: nat, k: nat)
    requires OneJob(before, k, |before|) && Allowed(before, e, n) && (e.ch == before[k].ch ==> !e.Set?)
    requires var j := JobAt(before, before[k].ch);
             if j.Busy?
             then j == Busy(before[k].tvch, Reading(before[..k]))
                  && Unlocked(before, k, |before|) && InTime(before, k, |before|)
             else Ended(before, k, |before|)
    ensures var t := before + [e];
            var j := JobAt(t, t[k].ch);
            if j.Busy? then j == Busy(t[k].tvch, Reading(t[..k])) && Unlocked(t, k, |t|) && InTime(t, k, |t|)
            else Ended(t, k, |t|)
  {
    hide JobAt, Reading;
    var t, m := before + [e], |before|;
    var j := JobAt(before, t[k].ch);
    JobSnoc(before, e, t[k].ch);
    assert before[..k] == t[..k];
    if j.Free? {
      var x :| LocksAt(before, k, m, x) || ExpiresAt(before, k, m, x);
      assert LocksAt(t, k, m + 1, x) || ExpiresAt(t, k, m + 1, x);
    } else if JobAt(t, t[k].ch).Free? {
      assert LocksAt(t, k, m + 1, m) || ExpiresAt(t, k, m + 1, m);
    }
  }

  lemma JobsOfPrefix(t: seq<Event>, k: nat, m: nat)
    requires k < m <= |t| && Ended(t[..m], k, m)
    ensures Ended(t, k, m)
  {
    hide Reading;
    var p := t[..m];
    assert p[..k] == t[..k];
    var e :| LocksAt(p, k, m, e) || ExpiresAt(p, k, m, e);
    assert LocksAt(t, k, m, e) || ExpiresAt(t, k, m, e);
  }

  lemma {:induction false} ProperPrefix(t: seq<Event>, n: nat, m: nat)
    requires Proper(t, n) && m <= |t|
    ensures Proper(t[..m], n)
    ensures m < |t| ==> Allowed(t[..m], t[m], n)
    decreases |t|
  {
    hide Allowed;
    if m == |t| {
      assert t[..m] == t;
    } else {
      var before := t[..|t| - 1];
      if m < |before| {
        ProperPrefix(before, n, m);
        assert before[..m] == t[..m];
      }
    }
  }

  /**
   Every channel tuned gets one verdict, before its receiver is tuned again: it locks on the last answer asked of
   it, within its second, or its second passes while every answer is 3 or less. `m` is the next tuning of the
   receiver, or the end.
   */
  lemma EveryJobEnds(t: seq<Event>, n: nat, k: nat, m: nat)
    requires Proper(t, n) && Settled(t)
    requires OneJob(t, k, m) && (m < |t| ==> t[m].Set? && t[m].ch == t[k].ch)
    ensures Ended(t, k, m)
    ensures (exists e :: LocksAt(t, k, m, e)) <==> !Unlocked(t, k, m)
  {
    hide JobAt, Reading, Proper;
    var p := t[..m];
    ProperPrefix(t, n, m);
    if m == |t| {
      assert p == t;
    }
    JobSoFar(p, n, k);
    JobsOfPrefix(t, k, m);
  }

  /** The job started at `k` answered with a lock at `e`. */
  ghost predicate Answered(t: seq<Event>, k: nat, e: nat) {
    k < e < |t| && OneJob(t, k, e) && t[e].Asked? && t[e].ch == t[k].ch && t[e].status > 3
  }

  /** The last tuning of a busy receiver is that of its job. */
  lemma {:induction false} JobHasTuning(t: seq<Event>, n: nat, ch: nat) returns (k: nat)
    requires Proper(t, n) && JobAt(t, ch).Busy?
    ensures OneJob(t, k, |t|) && t[k].ch == ch && t[k].tvch == JobAt(t, ch).tvch
    decreases |t|
  {
    var m := |t| - 1;
    if t[m].Set? && t[m].ch == ch {
      k := m;
    } else {
      k := JobHasTuning(t[..m], n, ch);
    }
  }

  ghost predicate AnsweredOn(t: seq<Event>, y: nat) {
    exists k: nat, e: nat :: Answered(t, k, e) && t[k].tvch == y
  }

  /** Another event adds at most one answered job: the one its receiver was tuned for. */
  lemma AnsweredStep(t: seq<Event>, e: Event, n: nat, y: nat)
    requires Proper(t, n) && Allowed(t, e, n)
    ensures var j := JobAt(t, e.ch);
            AnsweredOn(t + [e], y) <==> AnsweredOn(t, y) || (j.Busy? && e.Asked? && e.status > 3 && j.tvch == y)
  {
    hide JobAt, Proper;
    var u, m := t + [e], |t|;
    assert forall x | 0 <= x < m :: t[x] == u[x];
    if AnsweredOn(t, y) {
      var k: nat, i: nat :| Answered(t, k, i) && t[k].tvch == y;
      assert Answered(u, k, i);
    }
    var now := JobAt(t, e.ch).Busy? && e.Asked? && e.status > 3;
    if now {
      var k0 := JobHasTuning(t, n, e.ch);
      assert Answered(u, k0, m);
    }
    if AnsweredOn(u, y) {
      var k: nat, i: nat :| Answered(u, k, i) && u[k].tvch == y;
      if i < m {
        assert Answered(t, k, i);
      } else {
        var k0 := JobHasTuning(t, n, e.ch);
        assert k < k0 ==> u[k0].Set?;
        assert k0 < k ==> t[k].Set?;
      }
    }
  }

  /**
   The strong channels are exactly those with an answer of more than 3 between their tuning and the next one of
   the same receiver.
   */
  lemma {:induction false} StrongIffAnswered(t: seq<Event>, n: nat, y: nat)
    requires Proper(t, n)
    ensures y in Strong(t) <==> AnsweredOn(t, y)
    decreases |t|
  {
    hide JobAt, Reading, AnsweredOn, Allowed, Strong;
    if t == [] {
      assert Strong(t) == [] && !AnsweredOn(t, y) by { NothingAnswered(y); }
    } else {
      var m := |t| - 1;
      assert t == t[..m] + [t[m]];
      StrongIffAnswered(t[..m], n, y);
      AnsweredStep(t[..m], t[m], n, y);
      VerdictSnoc(t[..m], t[m]);
    }
  }

  lemma NothingAnswered(y: nat)
    ensures Strong([]) == [] && !AnsweredOn([], y)
  {}

  // ---------- The device ----------

  /** The successive readings of a clock that never goes back and passes every bound: `later(m)` is a reading past m. */
  ghost predicate Advances(clock: nat -> nat, later: nat -> nat) {
    && (forall j, k | 0 <= j <= k :: clock(j) <= clock(k))
    && forall m :: clock(later(m)) > m
  }

  lemma NotYet(clock: nat -> nat, later: nat -> nat, k: nat, m: nat)
    requires Advances(clock, later) && clock(k) <= m
    ensures k < later(m)
  {
    assert later(m) <= k ==> clock(later(m)) <= clock(k);
  }

  /** Clock readings one after another, from reading `start` up to the next one, `readings`. */
  ghost predicate InOrder(times: seq<nat>, clock: nat -> nat, start: nat, readings: nat) {
    start + |times| == readings && forall i | 0 <= i < |times| :: times[i] == clock(start + i)
  }

  lemma OneReading(times: seq<nat>, clock: nat -> nat, start: nat, readings: nat)
    requires InOrder(times, clock, start, readings)
    ensures InOrder(times + [clock(readings)], clock, start, readings + 1)
  {}

  lemma NoReading(clock: nat -> nat, readings: nat)
    ensures InOrder(Times([]), clock, readings, readings)
  {}

  /** The tuner and the clock. `trace` is what was done since `StartTrace`; `broken` says that a call failed. */
  class Device {
    const clock: nat -> nat

    var readings: nat

    ghost var start: nat
    ghost var trace: seq<Event>
    ghost var broken: bool

    /** The looks of the trace are at the successive readings of the clock. */
    ghost predicate Timed()
      reads this
    {
      InOrder(Times(trace), clock, start, readings)
    }

    constructor (c: nat -> nat)
      ensures clock == c && !broken && trace == [] && Timed()
    {
      clock := c;
      readings, start, trace, broken := 0, 0, [], false;
      new;
      NoReading(c, 0);
    }

    ghost method StartTrace()
      modifies this`start, this`trace
      ensures trace == [] && Timed()
    {
      NoReading(clock, readings);
      start, trace := readings, [];
    }

    /** The clock, read to look at receiver `ch`. */
    method Now(ghost ch: nat) returns (ms: nat)
      requires Timed()
      modifies this`readings, this`trace
      ensures ms == clock(old(readings)) && readings == old(readings) + 1
      ensures trace == old(trace) + [Looked(ch, ms)] && Timed()
    {
      hide InOrder, Times;
      ms := clock(readings);
      OneReading(Times(trace), clock, start, readings);
      readings := readings + 1;
      TimesSnoc(trace, Looked(ch, ms));
      trace := trace + [Looked(ch, ms)];
    }

    /** get_mse */
    method GetMse(ch: nat) returns (failed: bool, status: nat)
      requires Timed()
      modifies this`trace, this`broken
      ensures Timed() && broken == (old(broken) || failed)
      ensures trace == if failed then old(trace) else old(trace) + [Asked(ch, status)]
    {
      hide InOrder, Times;
      failed, status := *, *;
      if failed {
        broken := true;
      } else {
        TimesSnoc(trace, Asked(ch, status));
        trace := trace + [Asked(ch, status)];
      }
    }

    /** set_freq */
    method SetFreq(ch: nat, tvch: nat) returns (failed: bool)
      requires Timed()
      modifies this`trace, this`broken
      ensures Timed() && broken == (old(broken) || failed)
      ensures trace == if failed then old(trace) else old(trace) + [Set(ch, tvch)]
    {
      hide InOrder, Times;
      failed := *;
      if failed {
        broken := true;
      } else {
        TimesSnoc(trace, Set(ch, tvch));
        trace := trace + [Set(ch, tvch)];
      }
    }
  }

  // ---------- The scheduling loops ----------

  /** The latest deadline. */
  ghost function Latest(end: seq<nat>): (m: nat)
    ensures forall k | 0 <= k < |end| :: end[k] <= m
  {
    if end == [] then 0 else
      var m, last := Latest(end[..|end| - 1]), end[|end| - 1];
      if last > m then last else m
  }

  /** A receiver's job as the program keeps it: its deadline, 0 if there is none, and its channel. */
  ghost predicate Holds(j: Job, end: nat, tvch: nat) {
    match j
    case Free => end == 0
    case Busy(c, since) => end == since + SECOND && tvch == c
  }

  ghost predicate Agree(t: seq<Event>, end: seq<nat>, endch: seq<nat>) {
    |end| == |endch| && forall c | 0 <= c < |end| :: Holds(JobAt(t, c), end[c], endch[c])
  }

  /** The receivers and the strong list are those of the trace. */
  ghost predicate Going(dev: Device, end: array<nat>, endch: array<nat>, strongch: array<nat>, use: nat)
    reads dev, end, endch, strongch
  {
    && end != endch && end != strongch && endch != strongch && end.Length == endch.Length
    && dev.Timed() && Proper(dev.trace, end.Length) && !Awaits(dev.trace)
    && Agree(dev.trace, end[..], endch[..])
    && use <= strongch.Length && strongch[..use] == Strong(dev.trace)
    && |Tunings(dev.trace)| <= strongch.Length
  }

  /** The receivers after a look at one of them. */
  lemma JobsChange(t: seq<Event>, e: Event, end: seq<nat>, endch: seq<nat>, d: nat, tvch: nat)
    requires Agree(t, end, endch) && e.ch < |end|
    requires Holds(JobAfter(JobAt(t, e.ch), e, Reading(t)), d, tvch)
    ensures Agree(t + [e], end[e.ch := d], endch[e.ch := tvch])
  {
    hide JobAt, Holds;
    forall c | 0 <= c < |end| ensures Holds(JobAt(t + [e], c), end[e.ch := d][c], endch[e.ch := tvch][c]) {
      JobSnoc(t, e, c);
    }
  }

  /** The trace is one the loops may make, and the receivers are as it says. */
  ghost predicate Fits(t: seq<Event>, end: seq<nat>, endch: seq<nat>) {
    Proper(t, |end|) && Agree(t, end, endch)
  }

  /** A look at a receiver. Only a job that is in time is still there, and its status must be asked. */
  lemma Look(t: seq<Event>, end: seq<nat>, endch: seq<nat>, ch: nat, ms: nat)
    requires Fits(t, end, endch) && !Awaits(t) && ch < |end|
    ensures var u := t + [Looked(ch, ms)];
            && Fits(u, end[ch := if end[ch] < ms then 0 else end[ch]], endch)
            && (Awaits(u) <==> end[ch] != 0 && end[ch] >= ms)
            && Strong(u) == Strong(t) && Tunings(u) == Tunings(t) && Reading(u) == ms && Looks(u) == Looks(t) + [ch]
  {
    hide JobAt, Reading, Strong, Weak, Tunings, Looks, Proper;
    var e := Looked(ch, ms);
    Snoc(t, e, |end|);
    VerdictSnoc(t, e);
    JobSnoc(t, e, ch);
    JobsChange(t, e, end, endch, if end[ch] < ms then 0 else end[ch], endch[ch]);
    assert endch[ch := endch[ch]] == endch;
  }

  /**
   The answer of a receiver looked at in time. A lock is one more strong channel, and fewer are strong than were
   tuned.
   */
  lemma Answer(t: seq<Event>, end: seq<nat>, endch: seq<nat>, ch: nat, status: nat)
    requires Fits(t, end, endch) && Awaits(t) && ch < |end| && t[|t| - 1].ch == ch
    ensures var u := t + [Asked(ch, status)];
            && Fits(u, end[ch := if status > 3 then 0 else end[ch]], endch) && !Awaits(u)
            && Strong(u) == (if status > 3 then Strong(t) + [endch[ch]] else Strong(t))
            && Tunings(u) == Tunings(t) && Reading(u) == Reading(t) && Looks(u) == Looks(t)
    ensures |Strong(t)| < |Tunings(t)|
  {
    hide JobAt, Reading, Strong, Weak, Tunings, Looks, Proper;
    var e := Asked(ch, status);
    NoMoreThanTuned(t, |end|);
    Snoc(t, e, |end|);
    VerdictSnoc(t, e);
    JobSnoc(t, e, ch);
    JobsChange(t, e, end, endch, if status > 3 then 0 else end[ch], endch[ch]);
    assert endch[ch := endch[ch]] == endch;
  }

  /** Asks a receiver that was just looked at in time; a lock retires its job. */
  method Ask(dev: Device, end: array<nat>, endch: array<nat>, strongch: array<nat>, used: nat, ch: nat)
    returns (failed: bool, use: nat)
    requires end != endch && end != strongch && endch != strongch && end.Length == endch.Length && ch < end.Length
    requires dev.Timed() && Fits(dev.trace, end[..], endch[..])
    requires Awaits(dev.trace) && dev.trace[|dev.trace| - 1].ch == ch
    requires used <= strongch.Length && strongch[..used] == Strong(dev.trace) && |Tunings(dev.trace)| <= strongch.Length
    modifies dev`trace, dev`broken, end, strongch
    ensures dev.broken == (old(dev.broken) || failed)
    ensures !failed ==> Going(dev, end, endch, strongch, use)
    ensures !failed ==> end[..] == old(end[..])[ch := end[ch]] && (end[ch] == 0 || end[ch] == old(end[ch]))
    ensures !failed ==> exists status :: dev.trace == old(dev.trace) + [Asked(ch, status)]
    ensures !failed ==> Tunings(dev.trace) == old(Tunings(dev.trace)) && Looks(dev.trace) == old(Looks(dev.trace))
    ensures !failed ==> Reading(dev.trace) == old(Reading(dev.trace))
  {
    hide JobAt, Strong, Tunings, Looks, Times, Proper, Allowed, Reading, Awaits, Agree;
    use := used;
    var status;
    failed, status := dev.GetMse(ch);
    if failed {
      return;
    }
    Answer(old(dev.trace), end[..], endch[..], ch, status);
    assert end[..][ch := end[ch]] == end[..];
    if status > 3 { // strong
      strongch[use] := endch[ch];
      assert strongch[..use + 1] == old(strongch[..use]) + [endch[ch]];
      use := use + 1;
      end[ch] := 0;
      assert end[..] == old(end[..])[ch := 0];
    }
  }

  /** What both waits do with a receiver: look at the clock, and retire its job if it timed out or locked. */
  method Visit(dev: Device, end: array<nat>, endch: array<nat>, strongch: array<nat>, used: nat, ch: nat)
    returns (failed: bool, ms: nat, use: nat)
    requires Going(dev, end, endch, strongch, used) && ch < end.Length
    modifies dev`readings, dev`trace, dev`broken, end, strongch
    ensures dev.broken == (old(dev.broken) || failed)
    ensures !failed ==> Going(dev, end, endch, strongch, use) && ms == Reading(dev.trace)
    ensures !failed ==> end[..] == old(end[..])[ch := end[ch]] && (end[ch] == 0 || ms <= end[ch] == old(end[ch]))
    ensures !failed ==> ms == dev.clock(old(dev.readings)) && dev.readings == old(dev.readings) + 1
    ensures !failed ==> dev.trace != [] && dev.trace[|dev.trace| - 1].ch == ch
    ensures !failed ==> Tunings(dev.trace) == old(Tunings(dev.trace))
    ensures !failed ==> Looks(dev.trace) == old(Looks(dev.trace)) + [ch]
  {
    hide JobAt, Strong, Tunings, Looks, Times, Proper, Allowed, Reading, Agree;
    use, failed := used, false;
    ms := dev.Now(ch);
    Look(old(dev.trace), end[..], endch[..], ch, ms);
    assert end[..][ch := end[ch]] == end[..];
    if end[ch] == 0 {
      return;
    }
    if end[ch] < ms { // timed out: weak
      end[ch] := 0;
      assert end[..] == old(end[..])[ch := 0];
      return;
    }
    failed, use := Ask(dev, end, endch, strongch, use, ch);
  }

  /** The wait for an available receiver: a receiver is free, or becomes so, and no other one loses its job. */
  method FreeReceiver(
    dev: Device, end: array<nat>, endch: array<nat>, strongch: array<nat>, used: nat, ghost later: nat -> nat)
    returns (failed: bool, ch: nat, ms: nat, use: nat)
    requires Advances(dev.clock, later) && end.Length > 0
    requires Going(dev, end, endch, strongch, used)
    modifies dev`readings, dev`trace, dev`broken, end, strongch
    ensures dev.broken == (old(dev.broken) || failed)
    ensures !failed ==> Going(dev, end, endch, strongch, use) && ms == Reading(dev.trace)
    ensures !failed ==> ch < end.Length && end[..] == old(end[..])[ch := 0]
    ensures !failed ==> dev.trace != [] && dev.trace[|dev.trace| - 1].ch == ch
    ensures !failed ==> Tunings(dev.trace) == old(Tunings(dev.trace))
  {
    hide Strong, Tunings, Looks, Times, Proper, Reading, Agree, Advances;
    ch, use := 0, used;
    ghost var m := Latest(end[..]);
    while true
      invariant ch < end.Length && end[..] == old(end[..])
      invariant Going(dev, end, endch, strongch, use) && dev.broken == old(dev.broken)
      invariant Tunings(dev.trace) == old(Tunings(dev.trace))
      decreases later(m) - dev.readings
    {
      ghost var k := dev.readings;
      failed, ms, use := Visit(dev, end, endch, strongch, use, ch);
      if failed || end[ch] == 0 {
        return;
      }
      assert end[..] == old(end[..]);
      assert old(end[..])[ch] <= m;
      NotYet(dev.clock, later, k, m);
      ch := ch + 1;
      if ch >= end.Length {
        ch := 0;
      }
    }
  }

  function UpTo(n: nat): (s: seq<nat>)
    ensures |s| == n && forall i | 0 <= i < n :: s[i] == i
  {
    if n == 0 then [] else UpTo(n - 1) + [n - 1]
  }

  /** One pass over the receivers at the end: each is looked at once, and the pass counts those still busy. */
  method RetirePass(
    dev: Device, end: array<nat>, endch: array<nat>, strongch: array<nat>, used: nat, ghost later: nat -> nat,
    ghost m: nat)
    returns (failed: bool, count: nat, use: nat)
    requires Advances(dev.clock, later) && end.Length > 0
    requires Going(dev, end, endch, strongch, used)
    requires forall c | 0 <= c < end.Length :: end[c] <= m
    modifies dev`readings, dev`trace, dev`broken, end, strongch
    ensures dev.broken == (old(dev.broken) || failed)
    ensures !failed ==> Going(dev, end, endch, strongch, use)
    ensures !failed ==> Looks(dev.trace) == old(Looks(dev.trace)) + UpTo(end.Length)
    ensures !failed ==> forall c | 0 <= c < end.Length :: end[c] == 0 || end[c] == old(end[c])
    ensures !failed ==> (count == 0 <==> forall c | 0 <= c < end.Length :: end[c] == 0)
    ensures !failed ==> Tunings(dev.trace) == old(Tunings(dev.trace))
    ensures !failed ==> dev.readings > old(dev.readings) && (count > 0 ==> old(dev.readings) < later(m))
  {
    hide Strong, Tunings, Looks, Times, Proper, Reading, Agree, Advances;
    count, use, failed := 0, used, false;
    var ch := 0;
    assert Looks(dev.trace) == Looks(dev.trace) + UpTo(0);
    while ch < end.Length
      invariant 0 <= ch <= end.Length && dev.readings == old(dev.readings) + ch
      invariant Going(dev, end, endch, strongch, use) && dev.broken == old(dev.broken)
      invariant Looks(dev.trace) == old(Looks(dev.trace)) + UpTo(ch)
      invariant Tunings(dev.trace) == old(Tunings(dev.trace))
      invariant forall c | 0 <= c < end.Length :: end[c] <= m && (end[c] == 0 || end[c] == old(end[c]))
      invariant forall c | ch <= c < end.Length :: end[c] == old(end[c])
      invariant count == 0 <==> forall c | 0 <= c < ch :: end[c] == 0
      invariant count > 0 ==> old(dev.readings) < later(m)
    {
      ghost var k, d, looks := dev.readings, end[..], Looks(dev.trace);
      var ms;
      failed, ms, use := Visit(dev, end, endch, strongch, use, ch);
      if failed {
        return;
      }
      assert forall c | 0 <= c < end.Length :: end[c] == end[..][c] == if c == ch then end[ch] else d[c];
      assert UpTo(ch + 1) == UpTo(ch) + [ch];
      if end[ch] != 0 {
        NotYet(dev.clock, later, k, m);
        count := count + 1;
      }
      ch := ch + 1;
    }
  }

  lemma FreeAt(t: seq<Event>, end: seq<nat>, endch: seq<nat>, ch: nat)
    requires Agree(t, end, endch) && ch < |end| && end[ch] == 0
    ensures JobAt(t, ch) == Free
  {
    assert Holds(JobAt(t, ch), end[ch], endch[ch]);
  }

  /** A receiver just found free is tuned. */
  lemma TuneFree(t: seq<Event>, end: seq<nat>, endch: seq<nat>, ch: nat, tvch: nat)
    requires Fits(t, end, endch) && t != [] && t[|t| - 1].ch == ch < |end| && end[ch] == 0
    ensures var u := t + [Set(ch, tvch)];
            && Fits(u, end[ch := Reading(t) + SECOND], endch[ch := tvch]) && !Awaits(u)
            && Strong(u) == Strong(t) && Tunings(u) == Tunings(t) + [tvch]
  {
    hide JobAt, Reading, Strong, Weak, Tunings, Looks, Proper, Agree;
    var e := Set(ch, tvch);
    FreeAt(t, end, endch, ch);
    Snoc(t, e, |end|);
    VerdictSnoc(t, e);
    JobsChange(t, e, end, endch, Reading(t) + SECOND, tvch);
  }

  /** The first loop: every channel, in list order, gets a receiver that has become free. */
  method IssueAll(
    dev: Device, chlist: seq<nat>, end: array<nat>, endch: array<nat>, strongch: array<nat>, ghost later: nat -> nat)
    returns (failed: bool, use: nat)
    requires Advances(dev.clock, later) && end.Length > 0 && strongch.Length == |chlist|
    requires Going(dev, end, endch, strongch, 0) && dev.trace == []
    modifies dev`readings, dev`trace, dev`broken, end, endch, strongch
    ensures dev.broken == (old(dev.broken) || failed)
    ensures !failed ==> Going(dev, end, endch, strongch, use) && Tunings(dev.trace) == chlist
  {
    hide Strong, Looks, Times, Proper, Reading, Agree, Advances, Awaits;
    use, failed := 0, false;
    var i: nat := 0;
    while i < |chlist|
      invariant i <= |chlist| && Tunings(dev.trace) == chlist[..i]
      invariant Going(dev, end, endch, strongch, use) && dev.broken == old(dev.broken)
    {
      var ch, ms;
      failed, ch, ms, use := FreeReceiver(dev, end, endch, strongch, use, later);
      if failed {
        return;
      }
      ghost var t, d, c := dev.trace, end[..], endch[..];
      TuneFree(t, d, c, ch, chlist[i]);
      var due: nat := ms + SECOND;
      end[ch] := due;
      endch[ch] := chlist[i];
      assert end[..] == d[ch := due] && endch[..] == c[ch := chlist[i]];
      failed := dev.SetFreq(ch, endch[ch]);
      if failed {
        return;
      }
      i := i + 1;
    }
  }

  lemma NothingDone(n: nat, end: seq<nat>, endch: seq<nat>)
    requires |end| == |endch| == n && forall c | 0 <= c < n :: end[c] == 0
    ensures Fits([], end, endch) && !Awaits([]) && Strong([]) == [] && Tunings([]) == []
  {}

  lemma AllFree(t: seq<Event>, end: seq<nat>, endch: seq<nat>)
    requires Fits(t, end, endch) && forall c | 0 <= c < |end| :: end[c] == 0
    ensures Settled(t)
  {
    forall ch: nat ensures JobAt(t, ch) == Free {
      if ch >= |end| {
        NeverUsed(t, |end|, ch);
      } else {
        assert Holds(JobAt(t, ch), end[ch], endch[ch]);
      }
    }
  }

  lemma {:induction false} NeverUsed(t: seq<Event>, n: nat, ch: nat)
    requires Proper(t, n) && ch >= n
    ensures JobAt(t, ch) == Free
  {
    if t != [] {
      NeverUsed(t[..|t| - 1], n, ch);
    }
  }

  /**
   The scheduling part of do_item, for any number of receivers. If no call fails, the channels are tuned once
   each in list order, what was done is a proper trace in which no receiver is left busy, and the list made is
   that of the strong channels; nothing but a failing call stops it. Both waits end because the clock advances.
   */
  method Sample(dev: Device, chlist: seq<nat>, receivers: nat, ghost later: nat -> nat)
    returns (failed: bool, strong: seq<nat>)
    requires receivers > 0 && Advances(dev.clock, later)
    modifies dev
    ensures dev.broken == (old(dev.broken) || failed)
    ensures !failed ==> Tunings(dev.trace) == chlist
    ensures !failed ==> Proper(dev.trace, receivers) && Settled(dev.trace) && dev.Timed()
    ensures !failed ==> strong == Strong(dev.trace) && |strong| <= |chlist|
    ensures !failed ==> multiset(strong) + multiset(Weak(dev.trace)) == multiset(chlist)
  {
    hide Strong, Weak, Tunings, Looks, Times, Proper, Reading, Agree, Advances, Awaits, Settled;
    var end, endch := new nat[receivers](i => 0), new nat[receivers](i => 0);
    var strongch := new nat[|chlist|];
    var use: nat;
    strong := [];
    dev.StartTrace();
    NothingDone(receivers, end[..], endch[..]);
    failed, use := IssueAll(dev, chlist, end, endch, strongch, later);
    if failed {
      return;
    }
    ghost var m := Latest(end[..]);
    assert forall c | 0 <= c < end.Length :: end[c] == end[..][c];
    while true
      invariant Going(dev, end, endch, strongch, use) && Tunings(dev.trace) == chlist && dev.broken == old(dev.broken)
      invariant forall c | 0 <= c < end.Length :: end[c] <= m
      decreases later(m) - dev.readings
    {
      var count;
      failed, count, use := RetirePass(dev, end, endch, strongch, use, later, m);
      if failed {
        return;
      }
      if count == 0 {
        break;
      }
    }
    AllFree(dev.trace, end[..], endch[..]);
    AllHaveVerdicts(dev.trace, receivers);
    NoMoreThanTuned(dev.trace, receivers);
    strong := strongch[..use];
  }
}
