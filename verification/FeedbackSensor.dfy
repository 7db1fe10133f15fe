/** FeedbackSensor.h: a debouncer created on the first sample, behind a warm-up gate. */
module FeedbackSensors {
  import opened Clock
  import opened Positions
  import opened Debouncers
  import opened DebounceHistory

  /** The port a contact is read from; the environment changes its level between reads. */
  class DigitalInput {
    var level: Level

    constructor (level: Level)
      ensures this.level == level
    {
      this.level := level;
    }

    method Read() returns (l: Level)
      ensures l == level
    {
      l := level;
    }
  }

  /** The fields of a FeedbackSensor; without a debouncer it has never been sampled. */
  datatype Feedback = Feedback(orientation: Orientation, window: Duration, debounce: Option<Debounce>,
                               first: Instant, last: Instant)
  {
    function Sampled(level: Level, now: Instant): Feedback {
      if debounce.None? then
        this.(debounce := Some(NewDebounce(level, window)), first := now, last := now)
      else
        this.(debounce := Some(debounce.value.Sampled(level, now)), last := now)
    }

    function Observed(): Option<Position> {
      if debounce.None? || Since(last, first) < window then None
      else Some(orientation.ToPosition(debounce.value.stable))
    }
  }

  function NewFeedback(orientation: Orientation, window: Duration): Feedback {
    Feedback(orientation, window, None, 0, 0)
  }

  /** The optional debouncer lives in place: `engaged` tells whether it has been constructed. */
  class FeedbackSensor {
    const input: DigitalInput
    const orientation: Orientation
    const stableDuration: Duration
    const debouncer: Debouncer
    var engaged: bool
    var firstSampleInstant: Instant
    var lastSampleInstant: Instant

    ghost function Repr(): set<object> {
      {this, debouncer}
    }

    ghost function Value(): Feedback
      reads Repr()
    {
      Feedback(orientation, stableDuration, if engaged then Some(debouncer.Value()) else None,
               firstSampleInstant, lastSampleInstant)
    }

    constructor (input: DigitalInput, orientation: Orientation, stableDuration: Duration)
      ensures this.input == input && fresh(Repr())
      ensures Value() == NewFeedback(orientation, stableDuration)
    {
      this.input, this.orientation, this.stableDuration := input, orientation, stableDuration;
      engaged, firstSampleInstant, lastSampleInstant := false, 0, 0;
      debouncer := new Debouncer(Low, stableDuration);
    }

    method Sample(now: Instant)
      modifies Repr()
      ensures Value() == old(Value()).Sampled(old(input.level), now)
    {
      var level := input.Read();
      if !engaged {
        debouncer.Emplace(level, stableDuration);
        engaged := true;
        firstSampleInstant := now;
      } else {
        assert debouncer.Value() == old(debouncer.Value());
        debouncer.Sample(level, now);
      }
      lastSampleInstant := now;
    }

    method Observed() returns (position: Option<Position>)
      ensures position == Value().Observed()
    {
      if !engaged {
        return None;
      }
      if Since(lastSampleInstant, firstSampleInstant) < stableDuration {
        return None;
      }
      return Some(orientation.ToPosition(debouncer.stableLevel));
    }
  }

  function RunFeedback(f: Feedback, h: seq<Sample>): Feedback {
    if h == [] then f
    else RunFeedback(f, h[..|h| - 1]).Sampled(h[|h| - 1].level, Wrap(h[|h| - 1].t))
  }

  /** How the time sampled so far is told: by the 32-bit counter, or truly. */
  datatype Clocking = Wrapping | Unbounded

  function Elapsed(clocking: Clocking, h: seq<Sample>): int
    requires h != []
  {
    var elapsed := h[|h| - 1].t - h[0].t;
    if clocking.Wrapping? then elapsed % WRAP else elapsed
  }

  /** The warm-up gate, by either clock. */
  predicate GateOpen(clocking: Clocking, window: Duration, h: seq<Sample>) {
    h != [] && Elapsed(clocking, h) >= window
  }

  /** What a contact with this history observes: its debounced level as a position, once a whole
      window has been sampled. */
  ghost function Observation(clocking: Clocking, orientation: Orientation, window: Duration, h: seq<Sample>):
    Option<Position>
  {
    if GateOpen(clocking, window, h) then Some(orientation.ToPosition(Debounced(h, |h|, h[0].level, window))) else None
  }

  lemma {:induction false} DebounceAfterPrefix(h: seq<Sample>, m: nat, n: nat, initial: Level, window: Duration)
    requires n <= m <= |h|
    ensures DebounceAfter(h[..m], n, initial, window) == DebounceAfter(h, n, initial, window)
  {
    if n > 0 {
      DebounceAfterPrefix(h, m, n - 1, initial, window);
    }
  }

  /** Creating the debouncer at the first level is the same as sampling that level. */
  lemma {:induction false} FeedbackIsDebounce(orientation: Orientation, window: Duration, h: seq<Sample>)
    requires h != []
    ensures RunFeedback(NewFeedback(orientation, window), h) ==
            Feedback(orientation, window, Some(DebounceAfter(h, |h|, h[0].level, window)), Wrap(h[0].t),
                     Wrap(h[|h| - 1].t))
  {
    var n := |h| - 1;
    if n > 0 {
      FeedbackIsDebounce(orientation, window, h[..n]);
      DebounceAfterPrefix(h, n, n, h[0].level, window);
    } else {
      assert RunFeedback(NewFeedback(orientation, window), h[..n]) == NewFeedback(orientation, window);
      assert DebounceAfter(h, 0, h[0].level, window) == NewDebounce(h[0].level, window);
    }
  }

  /** Main result: a sensor sampled often enough observes exactly what its history says, for
      ever, save that its gate goes by elapsed time modulo 2^32. */
  lemma SensorObservesHistory(orientation: Orientation, window: Duration, h: seq<Sample>, gap: nat)
    requires SampledWithin(h, gap) && (window == 0 || window + gap <= WRAP)
    ensures RunFeedback(NewFeedback(orientation, window), h).Observed() ==
            Observation(Wrapping, orientation, window, h)
  {
    if h == [] {
      return;
    }
    hide RunFeedback, DebounceAfter, Debounced, SampledWithin, GateOpen, Since, Wrap, Orientation.ToPosition;
    FeedbackIsDebounce(orientation, window, h);
    DebouncerIsTrue(h, h[0].level, window, gap);
    GateReads(window, h);
  }

  lemma DebouncerIsTrue(h: seq<Sample>, initial: Level, window: Duration, gap: nat)
    requires SampledWithin(h, gap) && (window == 0 || window + gap <= WRAP)
    ensures DebounceAfter(h, |h|, initial, window).stable == Debounced(h, |h|, initial, window)
  {
    DebounceTracks(h, |h|, initial, window, gap);
  }

  lemma GateReads(window: Duration, h: seq<Sample>)
    requires h != []
    ensures GateOpen(Wrapping, window, h) <==> Since(Wrap(h[|h| - 1].t), Wrap(h[0].t)) >= window
  {
    SinceIsTrueDifference(h[|h| - 1].t, h[0].t);
  }

  /** Elapsed times the counter tells well enough for the gate: before its first whole turn, or
      at least a window past one. */
  predicate ClearOfWrap(window: Duration, elapsed: int) {
    elapsed < WRAP || elapsed % WRAP >= window
  }

  /** The gate agrees with true elapsed time exactly outside the stretch of `window` ms that
      follows each whole turn of the counter: there a warmed-up sensor goes blind again. */
  lemma GateIsTrueOutsideWrap(window: Duration, h: seq<Sample>, gap: nat)
    requires h != [] && SampledWithin(h, gap)
    ensures (GateOpen(Wrapping, window, h) <==> GateOpen(Unbounded, window, h)) <==>
            ClearOfWrap(window, h[|h| - 1].t - h[0].t)
  {
    TimesAscend(h, gap, 0, |h| - 1);
  }

  /** So does the observation as a whole. */
  lemma ObservationIsTrueOutsideWrap(orientation: Orientation, window: Duration, h: seq<Sample>, gap: nat)
    requires h != [] && SampledWithin(h, gap)
    ensures Observation(Wrapping, orientation, window, h) == Observation(Unbounded, orientation, window, h) <==>
            ClearOfWrap(window, h[|h| - 1].t - h[0].t)
  {
    hide GateOpen, Debounced, SampledWithin, ClearOfWrap;
    GateIsTrueOutsideWrap(window, h, gap);
  }

  /** A sensor has observed a position after `n` samples and observes none after all of them. */
  ghost predicate GoesBlind(orientation: Orientation, window: Duration, h: seq<Sample>, n: nat)
    requires n <= |h|
  {
    RunFeedback(NewFeedback(orientation, window), h[..n]).Observed().Some? &&
    RunFeedback(NewFeedback(orientation, window), h).Observed().None?
  }

  /** Availability is not for ever: however closely a contact is sampled, a sensor with a window
      can go blind again. It cannot exactly when the window is zero or no time passes at all. */
  lemma AvailabilityIsNotForEver(orientation: Orientation, window: Duration, gap: nat)
    ensures (window > 0 && gap > 0) <==>
            exists h: seq<Sample>, n: nat :: n <= |h| && SampledWithin(h, gap) && GoesBlind(orientation, window, h, n)
  {
    if window > 0 && gap > 0 {
      var h := WholeTurn();
      FeedbackIsDebounce(orientation, window, h[..window + 1]);
      FeedbackIsDebounce(orientation, window, h);
      assert SampledWithin(h, gap) && GoesBlind(orientation, window, h, window + 1);
    } else {
      forall h: seq<Sample>, n: nat | n <= |h| && SampledWithin(h, gap)
        ensures !GoesBlind(orientation, window, h, n)
      {
        NeverBlind(orientation, window, h, n, gap);
      }
    }
  }

  /** High sampled every millisecond through one whole turn of the counter. */
  function WholeTurn(): (h: seq<Sample>)
    ensures |h| == WRAP + 1
  {
    seq(WRAP + 1, (i: nat) => Sample(High, i))
  }

  lemma NeverBlind(orientation: Orientation, window: Duration, h: seq<Sample>, n: nat, gap: nat)
    requires n <= |h| && SampledWithin(h, gap) && (window == 0 || gap == 0)
    ensures !GoesBlind(orientation, window, h, n)
  {
    if n > 0 {
      FeedbackIsDebounce(orientation, window, h[..n]);
      FeedbackIsDebounce(orientation, window, h);
      if gap == 0 {
        SamplesStandStill(h, n - 1);
        SamplesStandStill(h, |h| - 1);
      }
    }
  }

  lemma {:induction false} SamplesStandStill(h: seq<Sample>, k: nat)
    requires SampledWithin(h, 0) && k < |h|
    ensures h[k].t == h[0].t
  {
    if k > 0 {
      SamplesStandStill(h, k - 1);
    }
  }
}
