/**
 How start_ts (mpgts.cpp) ends: what it found at each look at the flag since it raised it decides whether it goes on,
 gives up or succeeds.
 */
module Polling {
  import opened Bytes
  import opened Handshake
  import opened Decoder
  import DemuxThread

  /** The flag of a channel is up after some events. */
  predicate FlagUp(es: seq<Event>, ch: nat)
    requires ch < 2
  {
    Run(START, es).Some? && Run(START, es).value.chans[ch].want != 0
  }

  /** What the looks at the flag since it was last raised found, in order: true is a flag still up. None before that. */
  function Looks(es: seq<Event>, ch: nat): Option<seq<bool>>
    requires ch < 2
  {
    if es == [] then None else
      var rest, e := es[..|es| - 1], es[|es| - 1];
      if e == StartTs(ch) then None
      else if e == Raise(ch) then Some([])
      else if e == Poll(ch) && Looks(rest, ch).Some? then Some(Looks(rest, ch).value + [FlagUp(rest, ch)])
      else Looks(rest, ch)
  }

  /** Where start_ts is, by its looks: it succeeds at the first of three that finds the flag clear, or gives up. */
  predicate Decided(c: Control, looks: Option<seq<bool>>) {
    && (c == GaveUp <==> looks == Some([true, true, true]))
    && (c == Seen <==> looks == Some([false]) || looks == Some([true, false]) || looks == Some([true, true, false]))
    && (c.Polling? <==> looks == Some([]) || looks == Some([true]) || looks == Some([true, true]))
    && (c.Quiet? || c.Writing? <==> looks == None)
  }

  predicate Counted(c: Control, looks: Option<seq<bool>>) {
    Decided(c, looks) && (c.Polling? ==> looks.Some? && c.tries == |looks.value|)
  }

  lemma CountedStep(s: State, e: Event, ch: nat, looks: Option<seq<bool>>)
    requires Formed(s) && Step(s, e).Some? && ch < 2 && Counted(s.chans[ch].control, looks)
    ensures var now := if e == StartTs(ch) then None
                       else if e == Raise(ch) then Some([])
                       else if e == Poll(ch) && looks.Some? then Some(looks.value + [s.chans[ch].want != 0])
                       else looks;
            Counted(Step(s, e).value.chans[ch].control, now)
  {
    hide TablesAfter;
    if e == Poll(ch) {
      var v, up := looks.value, s.chans[ch].want != 0;
      assert |v| == 0 || |v| == 1 || |v| == 2;
      assert v + [up] == if |v| == 0 then [up] else if |v| == 1 then [true, up] else [true, true, up];
      ByLength(v + [up]);
    }
  }

  lemma ByLength(v: seq<bool>)
    ensures v == [false] <==> |v| == 1 && !v[0]
    ensures v == [true] <==> |v| == 1 && v[0]
    ensures v == [true, false] <==> |v| == 2 && v[0] && !v[1]
    ensures v == [true, true] <==> |v| == 2 && v[0] && v[1]
    ensures v == [true, true, false] <==> |v| == 3 && v[0] && v[1] && !v[2]
    ensures v == [true, true, true] <==> |v| == 3 && v[0] && v[1] && v[2]
  {}

  lemma {:induction false} LooksCount(es: seq<Event>, ch: nat)
    requires Run(START, es).Some? && ch < 2
    ensures Counted(Run(START, es).value.chans[ch].control, Looks(es, ch))
    decreases |es|
  {
    hide Counted, Step;
    if es == [] {
      assert Counted(Quiet, None) by { NoLooks(); }
    } else {
      var rest, e := es[..|es| - 1], es[|es| - 1];
      LooksCount(rest, ch);
      CountedStep(Run(START, rest).value, e, ch, Looks(rest, ch));
    }
  }

  lemma NoLooks()
    ensures Counted(Quiet, None)
  {}

  /**
   Over every run of the two threads: a channel's start_ts has given up exactly when three looks since its flag was
   raised all found it up, and has succeeded exactly when one of at most three found it clear.
   */
  lemma LooksDecide(es: seq<Event>, ch: nat)
    requires Run(START, es).Some? && ch < 2
    ensures Decided(Run(START, es).value.chans[ch].control, Looks(es, ch))
  {
    LooksCount(es, ch);
  }

  /** The same of the threads as the program runs them: `before` led to where the trace begins. */
  lemma RealLooksDecide(t: DemuxThread.Shared, before: seq<Event>, ch: nat)
    requires t.Valid() && Run(START, before) == Some(t.start) && ch < 2
    ensures Decided(t.control[ch], Looks(before + t.trace, ch))
  {
    hide Run, Decided;
    RunAppend(START, before, t.trace);
    LooksDecide(before + t.trace, ch);
  }
}
