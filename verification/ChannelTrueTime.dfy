/** One channel against true time: the runs on which it shows what the unbounded machine shows
    behind a gate that goes by true elapsed time, and the runs on which it does not. */
module ChannelTrueTime {
  import opened Clock
  import opened Positions
  import opened Debouncers
  import opened DebounceHistory
  import opened FeedbackSensors
  import opened Motions
  import opened TrueMotions
  import opened Turnouts
  import opened TurnoutRuns

  // ----- Where the counter's gate is true --------------------------------------------------

  function Times(h: seq<Sample>): seq<nat> {
    seq(|h|, i requires 0 <= i < |h| => h[i].t)
  }

  /** At each of these times the counter tells the time elapsed since the first of them well
      enough for the gate. */
  predicate ClearOfWraps(window: Duration, times: seq<int>) {
    forall k :: 0 <= k < |times| ==> ClearOfWrap(window, times[k] - times[0])
  }

  lemma ClearOfWrapsSnoc(window: Duration, h: seq<Sample>, s: Sample)
    ensures ClearOfWraps(window, Times(h + [s])) <==>
            ClearOfWraps(window, Times(h)) && ClearOfWrap(window, s.t - (h + [s])[0].t)
  {
    var times := Times(h + [s]);
    assert forall k :: 0 <= k < |h| ==> times[k] == Times(h)[k];
    assert times[|h|] == s.t && times[0] == (h + [s])[0].t;
  }

  lemma SnocIsInjective<T>(a: seq<T>, x: T, b: seq<T>, y: T)
    ensures a + [x] == b + [y] <==> a == b && x == y
  {
    if a + [x] == b + [y] {
      assert (a + [x])[|a|] == x && (b + [y])[|b|] == y;
      assert (a + [x])[..|a|] == a && (b + [y])[..|b|] == b;
    }
  }

  /** Main result: the motion machine is told the truth exactly on the runs whose every tick is
      clear of the counter's wraps. */
  lemma {:induction false} SensedTrulyExactlyWhenClear(orientation: Orientation, window: Duration,
                                                       events: seq<TurnoutEvent>, gap: nat)
    requires SampledWithin(Samples(events), gap)
    ensures MotionEvents(Wrapping, orientation, window, events) == MotionEvents(Unbounded, orientation, window, events)
            <==> ClearOfWraps(window, Times(Samples(events)))
  {
    if events != [] {
      hide SampledWithin, ClearOfWraps, ClearOfWrap, Observation, Times;
      var before, event := events[..|events| - 1], events[|events| - 1];
      SampledWithinPrefix(events, gap);
      SensedTrulyExactlyWhenClear(orientation, window, before, gap);
      match event
      case MoveTo(position, t) =>
        SnocIsInjective(MotionEvents(Wrapping, orientation, window, before), Command(position, t),
                        MotionEvents(Unbounded, orientation, window, before), Command(position, t));
      case Tick(level, t) =>
        ObservationIsTrueOutsideWrap(orientation, window, Samples(events), gap);
        ClearOfWrapsSnoc(window, Samples(before), Sample(level, t));
        SnocIsInjective(MotionEvents(Wrapping, orientation, window, before),
                        Update(Observation(Wrapping, orientation, window, Samples(events)), t),
                        MotionEvents(Unbounded, orientation, window, before),
                        Update(Observation(Unbounded, orientation, window, Samples(events)), t));
      case ReportCurrent =>
    }
  }

  /** The channel shows what the unbounded machine shows on the contact's history with the
      warm-up told in true time. */
  ghost predicate ShowsTrueTime(id: int, orientation: Orientation, window: Duration, initial: Position,
                                timing: Timing, events: seq<TurnoutEvent>)
  {
    RunChannel(NewChannel(id, orientation, window, initial, timing), events).motion.State() ==
    RunTrue(Resting(initial), timing, MotionEvents(Unbounded, orientation, window, events)).State()
  }

  /** Main result: a whole channel on the 32-bit clock, sampled and updated often enough, shows
      true time on every run whose ticks are clear of the counter's wraps. */
  lemma ChannelFollowsTrueTime(id: int, orientation: Orientation, window: Duration, initial: Position,
                               timing: Timing, events: seq<TurnoutEvent>, gap: nat)
    requires SampledWithin(Samples(events), gap) && (window == 0 || window + gap <= WRAP)
    requires Wrappable(timing)
    requires Paced(Resting(initial), timing, MotionEvents(Unbounded, orientation, window, events))
    requires ClearOfWraps(window, Times(Samples(events)))
    ensures ShowsTrueTime(id, orientation, window, initial, timing, events)
  {
    hide RunChannel, RunMotion, RunTrue, MotionEvents, Samples, SampledWithin, ClearOfWraps, Paced;
    SensedTrulyExactlyWhenClear(orientation, window, events, gap);
    ChannelRunsSensedEvents(id, orientation, window, initial, timing, events, gap);
    WrapProofExactlyWhenWrappable(timing);
    assert Agree(initial, timing, MotionEvents(Unbounded, orientation, window, events));
  }

  // ----- Close times are paced ----------------------------------------------------------------

  /** These times never decrease and consecutive ones are at most `gap` ms apart. */
  ghost predicate Within(times: seq<nat>, gap: nat) {
    forall i :: 0 < i < |times| ==> times[i - 1] <= times[i] <= times[i - 1] + gap
  }

  /** When the motion machine is commanded or updated. */
  function EventTimes(events: seq<TurnoutEvent>): seq<nat> {
    if events == [] then []
    else
      var before, event := EventTimes(events[..|events| - 1]), events[|events| - 1];
      if event.ReportCurrent? then before else before + [event.t]
  }

  lemma {:induction false} MotionEventTimes(clocking: Clocking, orientation: Orientation, window: Duration,
                                            events: seq<TurnoutEvent>)
    ensures var lived := MotionEvents(clocking, orientation, window, events);
            |lived| == |EventTimes(events)| && forall k :: 0 <= k < |lived| ==> lived[k].t == EventTimes(events)[k]
  {
    if events != [] {
      hide Observation;
      MotionEventTimes(clocking, orientation, window, events[..|events| - 1]);
    }
  }

  /** Events less than 2^31 ms apart are paced, whatever the machine does. */
  lemma CloseEventsArePaced(clocking: Clocking, orientation: Orientation, window: Duration, initial: Position,
                            timing: Timing, events: seq<TurnoutEvent>, gap: nat)
    requires Within(EventTimes(events), gap) && gap < HALF
    ensures Paced(Resting(initial), timing, MotionEvents(clocking, orientation, window, events))
  {
    MotionEventTimes(clocking, orientation, window, events);
    hide MotionEvents, EventTimes, RunTrue;
    var times := EventTimes(events);
    assert forall i :: 0 < i < |times| ==> times[i - 1] <= times[i] <= times[i - 1] + gap;
  }

  // ----- A run on which the channel misses a fault ----------------------------------------------

  function Opposite(level: Level): Level {
    if level == Low then High else Low
  }

  /** Sampled every millisecond from 0, the contact leaves its first level one window before the
      counter has gone round. */
  function DriftLevel(base: Level, window: Duration, t: nat): Level {
    if t < WRAP - window then base else Opposite(base)
  }

  function DriftSamples(base: Level, window: Duration, n: nat): (h: seq<Sample>)
    ensures |h| == n
  {
    seq(n, (i: nat) => Sample(DriftLevel(base, window, i), i))
  }

  function DriftTicks(base: Level, window: Duration, n: nat): (events: seq<TurnoutEvent>)
    ensures |events| == n
  {
    seq(n, (i: nat) => Tick(DriftLevel(base, window, i), i))
  }

  lemma {:induction false} DriftIsSampled(base: Level, window: Duration, n: nat)
    ensures Samples(DriftTicks(base, window, n)) == DriftSamples(base, window, n)
    ensures EventTimes(DriftTicks(base, window, n)) == seq(n, (i: nat) => i)
  {
    if n > 0 {
      DriftIsSampled(base, window, n - 1);
      assert DriftTicks(base, window, n)[..n - 1] == DriftTicks(base, window, n - 1);
      assert DriftSamples(base, window, n) ==
             DriftSamples(base, window, n - 1) + [Sample(DriftLevel(base, window, n - 1), n - 1)];
    }
  }

  /** The other level is steady for the first time at the very turn of the counter. */
  lemma DriftIsSteadyAtTheTurn(base: Level, window: Duration, n: nat, k: nat)
    requires 0 < window && WRAP - window <= k < n <= WRAP + 1
    ensures Steady(DriftSamples(base, window, n), k, window) <==> k == WRAP
  {
    var h := DriftSamples(base, window, n);
    if k == WRAP {
      assert forall m :: WRAP - window <= m <= k ==> h[m].level == h[k].level;
      assert h[k].t - h[WRAP - window].t >= window;
    } else {
      forall i | 0 <= i <= k && forall m :: i <= m <= k ==> h[m].level == h[k].level
        ensures h[k].t - h[i].t < window
      {
        assert h[i].level == h[k].level;
      }
    }
  }

  lemma {:induction false} DriftDebounced(base: Level, window: Duration, n: nat, k: nat)
    requires 0 < window && k <= n <= WRAP + 1
    ensures Debounced(DriftSamples(base, window, n), k, base, window) ==
            if k == WRAP + 1 then Opposite(base) else base
  {
    if k > 0 {
      DriftDebounced(base, window, n, k - 1);
      hide Steady;
      if WRAP - window <= k - 1 {
        DriftIsSteadyAtTheTurn(base, window, n, k - 1);
      }
    }
  }

  lemma DriftElapsed(clocking: Clocking, base: Level, window: Duration, n: nat)
    requires 0 < n <= WRAP + 1
    ensures Elapsed(clocking, DriftSamples(base, window, n)) ==
            if n == WRAP + 1 && clocking.Wrapping? then 0 else n - 1
  {
    var h := DriftSamples(base, window, n);
    assert h[|h| - 1].t - h[0].t == n - 1;
  }

  /** What is observed along the drift: nothing or the first position, until at the turn true
      time sees the other one and the counter, gone blind, sees nothing. */
  lemma DriftObserved(clocking: Clocking, orientation: Orientation, initial: Position, window: Duration, n: nat)
    requires 0 < window && 0 < n <= WRAP + 1
    ensures var h := DriftSamples(orientation.ToLevel(initial), window, n);
            var seen := Observation(clocking, orientation, window, h);
            if n == WRAP + 1 then
              if clocking.Wrapping? then seen == None else seen.Some? && seen.value != initial
            else seen in {None, Some(initial)}
  {
    assert DriftSamples(orientation.ToLevel(initial), window, n)[0].level == orientation.ToLevel(initial);
    hide Debounced, Elapsed, DriftSamples, Orientation.ToLevel, Orientation.ToPosition;
    var base := orientation.ToLevel(initial);
    DriftDebounced(base, window, n, n);
    DriftElapsed(clocking, base, window, n);
    OrientationIsBijection(orientation, initial, Opposite(base));
  }

  lemma {:induction false} DriftRests(clocking: Clocking, orientation: Orientation, initial: Position,
                                      window: Duration, timing: Timing, n: nat)
    requires 0 < window && n <= WRAP + 1
    ensures var ticks := DriftTicks(orientation.ToLevel(initial), window, n);
            var lived := MotionEvents(clocking, orientation, window, ticks);
            RunTrue(Resting(initial), timing, lived) ==
            if n == WRAP + 1 && clocking.Unbounded? then Lost(initial) else Resting(initial)
  {
    var base := orientation.ToLevel(initial);
    if n == 0 {
      return;
    }
    var before, ticks := DriftTicks(base, window, n - 1), DriftTicks(base, window, n);
    assert ticks == before + [Tick(DriftLevel(base, window, n - 1), n - 1)];
    DriftRests(clocking, orientation, initial, window, timing, n - 1);
    DriftObserved(clocking, orientation, initial, window, n);
    DriftIsSampled(base, window, n);
    hide DriftTicks, DriftSamples, DriftLevel, Observation, Samples, RunTrue, MotionEvents, Orientation.ToLevel;
    MotionEventsTick(clocking, orientation, window, before, DriftLevel(base, window, n - 1), n - 1);
    RunTrueSnoc(Resting(initial), timing, MotionEvents(clocking, orientation, window, before),
                Update(Observation(clocking, orientation, window, DriftSamples(base, window, n)), n - 1));
  }

  lemma MotionEventsTick(clocking: Clocking, orientation: Orientation, window: Duration, before: seq<TurnoutEvent>,
                         level: Level, t: nat)
    ensures var all := before + [Tick(level, t)];
            MotionEvents(clocking, orientation, window, all) ==
            MotionEvents(clocking, orientation, window, before) +
            [Update(Observation(clocking, orientation, window, Samples(all)), t)]
  {
    hide Observation, Samples;
    assert (before + [Tick(level, t)])[..|before|] == before;
  }

  lemma RunTrueSnoc(s: TrueMotion, timing: Timing, events: seq<MotionEvent>, event: MotionEvent)
    ensures RunTrue(s, timing, events + [event]) == RunTrue(s, timing, events).Step(timing, event)
  {
    assert (events + [event])[..|events|] == events;
  }

  lemma DriftIsClose(base: Level, window: Duration, n: nat, gap: nat)
    requires gap > 0
    ensures var ticks := DriftTicks(base, window, n);
            SampledWithin(Samples(ticks), gap) && Within(EventTimes(ticks), 1)
  {
    DriftIsSampled(base, window, n);
    hide Samples, EventTimes, DriftTicks;
  }

  /** A channel at rest whose contact drifts away is in true time found out; the channel, blind at
      that moment, still shows rest. */
  lemma DriftGoesUnnoticed(id: int, orientation: Orientation, window: Duration, initial: Position, timing: Timing,
                           gap: nat)
    requires 0 < window && 0 < gap && window + gap <= WRAP && Wrappable(timing)
    ensures var events := DriftTicks(orientation.ToLevel(initial), window, WRAP + 1);
            SampledWithin(Samples(events), gap) &&
            Paced(Resting(initial), timing, MotionEvents(Unbounded, orientation, window, events)) &&
            !ShowsTrueTime(id, orientation, window, initial, timing, events)
  {
    hide MotionEvents, Samples, EventTimes, SampledWithin, RunChannel, RunMotion, RunTrue, Paced, DriftTicks, Within;
    var events := DriftTicks(orientation.ToLevel(initial), window, WRAP + 1);
    DriftIsClose(orientation.ToLevel(initial), window, WRAP + 1, gap);
    CloseEventsArePaced(Unbounded, orientation, window, initial, timing, events, 1);
    CloseEventsArePaced(Wrapping, orientation, window, initial, timing, events, 1);
    DriftRests(Unbounded, orientation, initial, window, timing, WRAP + 1);
    DriftRests(Wrapping, orientation, initial, window, timing, WRAP + 1);
    ChannelRunsSensedEvents(id, orientation, window, initial, timing, events, gap);
    WrapProofExactlyWhenWrappable(timing);
    assert Agree(initial, timing, MotionEvents(Wrapping, orientation, window, events));
  }

  /** Main result: all the runs sampled within the gap show true time exactly when the channel
      has no window to warm up in, or no time passes at all. */
  lemma TrueTimeExactlyWhenGateNeverCloses(id: int, orientation: Orientation, window: Duration, initial: Position,
                                           timing: Timing, gap: nat)
    requires Wrappable(timing) && (window == 0 || window + gap <= WRAP)
    ensures (window == 0 || gap == 0) <==>
            forall events :: SampledWithin(Samples(events), gap) &&
                             Paced(Resting(initial), timing, MotionEvents(Unbounded, orientation, window, events)) ==>
                             ShowsTrueTime(id, orientation, window, initial, timing, events)
  {
    hide MotionEvents, Samples, SampledWithin, Paced, ShowsTrueTime;
    if window == 0 || gap == 0 {
      forall events | SampledWithin(Samples(events), gap) &&
                      Paced(Resting(initial), timing, MotionEvents(Unbounded, orientation, window, events))
        ensures ShowsTrueTime(id, orientation, window, initial, timing, events)
      {
        AlwaysClear(window, Samples(events), gap);
        ChannelFollowsTrueTime(id, orientation, window, initial, timing, events, gap);
      }
    } else {
      DriftGoesUnnoticed(id, orientation, window, initial, timing, gap);
    }
  }

  lemma AlwaysClear(window: Duration, h: seq<Sample>, gap: nat)
    requires SampledWithin(h, gap) && (window == 0 || gap == 0)
    ensures ClearOfWraps(window, Times(h))
  {
    if gap == 0 {
      forall k | 0 <= k < |h|
        ensures h[k].t == h[0].t
      {
        SamplesStandStill(h, k);
      }
    }
  }
}
