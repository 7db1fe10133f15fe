/** ButtonSetupModeTrigger.h and ButtonIdentifyRequestTrigger.h: two release detectors that watch
    the same active-low button. */
module Buttons {
  import opened Clock
  import opened Positions
  import opened Debouncers
  import opened DebounceHistory
  import opened FeedbackSensors

  /** What both triggers remember of the button. */
  datatype Press = Press(pressed: bool, start: Instant) {
    function Polled(level: Level, now: Instant): Press {
      if level == Low && !pressed then Press(true, now)
      else if level == High && pressed then Press(false, start)
      else this
    }

    /** How long a press that this poll sees released was held. */
    function Released(level: Level, now: Instant): Option<Duration> {
      if level == High && pressed then Some(Since(now, start)) else None
    }
  }

  class ButtonSetupModeTrigger {
    const bootPin: DigitalInput
    const minHoldDuration: Duration
    var pressed: bool
    var pressStart: Instant
    var requestedThisTick: bool

    ghost function Value(): Press
      reads this
    {
      Press(pressed, pressStart)
    }

    constructor (bootPin: DigitalInput, minHoldDuration: Duration)
      ensures this.bootPin == bootPin && this.minHoldDuration == minHoldDuration
      ensures Value() == Press(false, 0) && !requestedThisTick
    {
      this.bootPin, this.minHoldDuration := bootPin, minHoldDuration;
      pressed, pressStart, requestedThisTick := false, 0, false;
    }

    method Poll(now: Instant)
      modifies this
      ensures Value() == old(Value()).Polled(old(bootPin.level), now)
      ensures requestedThisTick <==> LongHold(old(Value()).Released(old(bootPin.level), now), minHoldDuration)
      ensures forall h: seq<Sample> :: LedTo(h, old(Value()), old(bootPin.level), now) ==>
        (requestedThisTick <==> HoldEnds(h, |h| - 1) && minHoldDuration <= TrueHold(h, |h| - 1) % WRAP)
    {
      forall h: seq<Sample> | LedTo(h, Value(), bootPin.level, now)
        ensures LongHold(Value().Released(bootPin.level, now), minHoldDuration) <==>
                HoldEnds(h, |h| - 1) && minHoldDuration <= TrueHold(h, |h| - 1) % WRAP
      {
        SetupRequestedExactly(h, |h| - 1, minHoldDuration);
      }
      var level := bootPin.Read();
      requestedThisTick := false;
      if level == Low && !pressed {
        pressed := true;
        pressStart := now;
      } else if level == High && pressed {
        pressed := false;
        var heldFor := Since(now, pressStart);
        if heldFor >= minHoldDuration {
          requestedThisTick := true;
        }
      }
    }
  }

  class ButtonIdentifyRequestTrigger {
    const bootPin: DigitalInput
    const minPressDuration: Duration
    const maxPressDuration: Duration
    var pressed: bool
    var pressStart: Instant
    var requestedThisTick: bool

    ghost function Value(): Press
      reads this
    {
      Press(pressed, pressStart)
    }

    constructor (bootPin: DigitalInput, minPressDuration: Duration, maxPressDuration: Duration)
      ensures this.bootPin == bootPin
      ensures this.minPressDuration == minPressDuration && this.maxPressDuration == maxPressDuration
      ensures Value() == Press(false, 0) && !requestedThisTick
    {
      this.bootPin, this.minPressDuration, this.maxPressDuration := bootPin, minPressDuration, maxPressDuration;
      pressed, pressStart, requestedThisTick := false, 0, false;
    }

    method Poll(now: Instant)
      modifies this
      ensures Value() == old(Value()).Polled(old(bootPin.level), now)
      ensures requestedThisTick <==>
              ShortPress(old(Value()).Released(old(bootPin.level), now), minPressDuration, maxPressDuration)
      ensures forall h: seq<Sample> :: LedTo(h, old(Value()), old(bootPin.level), now) ==>
        (requestedThisTick <==>
         HoldEnds(h, |h| - 1) && minPressDuration <= TrueHold(h, |h| - 1) % WRAP <= maxPressDuration)
    {
      forall h: seq<Sample> | LedTo(h, Value(), bootPin.level, now)
        ensures ShortPress(Value().Released(bootPin.level, now), minPressDuration, maxPressDuration) <==>
                HoldEnds(h, |h| - 1) && minPressDuration <= TrueHold(h, |h| - 1) % WRAP <= maxPressDuration
      {
        IdentifyRequestedExactly(h, |h| - 1, minPressDuration, maxPressDuration);
      }
      var level := bootPin.Read();
      requestedThisTick := false;
      if level == Low && !pressed {
        pressed := true;
        pressStart := now;
      } else if level == High && pressed {
        pressed := false;
        var heldFor := Since(now, pressStart);
        if heldFor >= minPressDuration && heldFor <= maxPressDuration {
          requestedThisTick := true;
        }
      }
    }
  }

  predicate LongHold(held: Option<Duration>, min: Duration) {
    held.Some? && held.value >= min
  }

  predicate ShortPress(held: Option<Duration>, min: Duration, max: Duration) {
    held.Some? && min <= held.value <= max
  }

  /** Either trigger's memory after the first `n` samples of the button. */
  function PressAfter(h: seq<Sample>, n: nat): Press
    requires n <= |h|
  {
    if n == 0 then Press(false, 0) else PressAfter(h, n - 1).Polled(h[n - 1].level, Wrap(h[n - 1].t))
  }

  /** What the poll at sample `k` sees released. */
  function ReleasedAt(h: seq<Sample>, k: nat): Option<Duration>
    requires k < |h|
  {
    PressAfter(h, k).Released(h[k].level, Wrap(h[k].t))
  }

  lemma {:induction false} PressRemembersRunStart(h: seq<Sample>, n: nat)
    requires n <= |h|
    ensures var press := PressAfter(h, n);
            (press.pressed <==> n > 0 && h[n - 1].level == Low) &&
            (press.pressed ==> press.start == Wrap(h[RunStart(h, n - 1)].t))
  {
    if n > 0 {
      PressRemembersRunStart(h, n - 1);
    }
  }

  /** True milliseconds from the first sample of the press that ends just before sample `k`. */
  function TrueHold(h: seq<Sample>, k: nat): int
    requires 0 < k < |h|
  {
    h[k].t - h[RunStart(h, k - 1)].t
  }

  /** Sample `k` is the first high after a low: the button has just been let go. */
  predicate HoldEnds(h: seq<Sample>, k: nat)
    requires k < |h|
  {
    k > 0 && h[k].level == High && h[k - 1].level == Low
  }

  /** These are the samples of a trigger's life so far: all but the last led to this memory, and
      the last is what it is about to be polled with. */
  predicate LedTo(h: seq<Sample>, press: Press, level: Level, now: Instant) {
    h != [] && PressAfter(h, |h| - 1) == press && h[|h| - 1].level == level && Wrap(h[|h| - 1].t) == now
  }

  /** Main result: a poll sees a release exactly when its sample is the first high after a low,
      and measures the true hold modulo 2^32; so over any samples the two triggers never both fire
      when the longest short press is below the shortest hold. */
  lemma TriggersMeasureTheHold(h: seq<Sample>, k: nat, minPress: Duration, maxPress: Duration, minHold: Duration)
    requires k < |h|
    ensures ReleasedAt(h, k).Some? <==> k > 0 && h[k].level == High && h[k - 1].level == Low
    ensures ReleasedAt(h, k).Some? ==> ReleasedAt(h, k).value == TrueHold(h, k) % WRAP
    ensures maxPress < minHold ==>
            !(LongHold(ReleasedAt(h, k), minHold) && ShortPress(ReleasedAt(h, k), minPress, maxPress))
  {
    PressRemembersRunStart(h, k);
    if ReleasedAt(h, k).Some? {
      SinceIsTrueDifference(h[k].t, h[RunStart(h, k - 1)].t);
    }
  }

  /** Main result: over any samples, a poll asks for setup mode exactly when it sees the button let
      go after a hold that measures, modulo 2^32, at least the minimum. */
  lemma SetupRequestedExactly(h: seq<Sample>, k: nat, minHold: Duration)
    requires k < |h|
    ensures LongHold(ReleasedAt(h, k), minHold) <==> HoldEnds(h, k) && minHold <= TrueHold(h, k) % WRAP
  {
    TriggersMeasureTheHold(h, k, 0, 0, minHold);
  }

  /** Main result: over any samples, a poll asks to identify exactly when it sees the button let go
      after a press that measures, modulo 2^32, within both bounds. */
  lemma IdentifyRequestedExactly(h: seq<Sample>, k: nat, minPress: Duration, maxPress: Duration)
    requires k < |h|
    ensures ShortPress(ReleasedAt(h, k), minPress, maxPress) <==>
            HoldEnds(h, k) && minPress <= TrueHold(h, k) % WRAP <= maxPress
  {
    TriggersMeasureTheHold(h, k, minPress, maxPress, 0);
  }
}
