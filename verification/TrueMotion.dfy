/** The motion machine on unbounded time, and the proof that the 32-bit one follows it. */
module TrueMotions {
  import opened Clock
  import opened Positions
  import opened Deadlines
  import opened Motions

  /** The machine the firmware means to run: each state carries only the true time it still
      waits for, so no deadline of an earlier state can matter. */
  datatype TrueMotion =
    | Resting(target: Position)
    | Travelling(target: Position, due: nat)
    | Seating(target: Position, until: nat)
    | Lost(target: Position)
  {
    function Step(timing: Timing, event: MotionEvent): TrueMotion {
      match event
      case Command(position, t) =>
        if this == Resting(position) then this else Travelling(position, t + timing.movementTimeout)
      case Update(observed, t) =>
        var seen := observed == Some(target);
        match this
        case Resting(_) => if observed.None? || seen then this else Lost(target)
        case Travelling(_, due) =>
          if seen then Seating(target, t + timing.settleDuration)
          else if due <= t then Lost(target)
          else this
        case Seating(_, until) => if until <= t then Resting(target) else this
        case Lost(_) => if seen then Seating(target, t + timing.settleDuration) else this
    }

    predicate InMotion() {
      Travelling? || Seating?
    }

    function State(): TurnoutState {
      match this
      case Resting(p) => if p == Closed then ClosedState else ThrownState
      case Lost(_) => UnknownState
      case _ => MovingState
    }
  }

  function RunTrue(s: TrueMotion, timing: Timing, events: seq<MotionEvent>): TrueMotion {
    if events == [] then s
    else RunTrue(s, timing, events[..|events| - 1]).Step(timing, events[|events| - 1])
  }

  /** True time never runs backwards, and while a deadline is pending consecutive events are
      less than 2^31 ms apart. A machine at rest or faulted may be left alone for ever. */
  ghost predicate Paced(s: TrueMotion, timing: Timing, events: seq<MotionEvent>) {
    forall i :: 0 < i < |events| ==>
      events[i - 1].t <= events[i].t &&
      (RunTrue(s, timing, events[..i]).InMotion() ==> events[i].t - events[i - 1].t < HALF)
  }

  /** Durations for which the signed comparison can serve: at most 2^31 ms. */
  predicate Wrappable(timing: Timing) {
    timing.movementTimeout <= HALF && timing.settleDuration <= HALF
  }

  /** The simulation relation after an event at true time `last`. A pending deadline is armed,
      is the wrapped image of the true one, and is at most one duration away. */
  ghost predicate Follows(m: Motion, s: TrueMotion, timing: Timing, last: nat) {
    m.timing == timing && m.target == s.target &&
    match s
    case Resting(_) => m.phase == AtRest && !m.settle.armed
    case Travelling(_, due) =>
      m.phase == Moving && m.movement == Alarm(true, Wrap(due)) && !m.settle.armed &&
      last <= due <= last + timing.movementTimeout
    case Seating(_, until) =>
      m.phase == Settling && m.settle == Alarm(true, Wrap(until)) &&
      last <= until <= last + timing.settleDuration
    case Lost(_) => m.phase == Faulted && !m.settle.armed
  }

  /** A pending deadline read within its window answers truthfully. */
  lemma PendingDeadlineReadsTrue(due: nat, t: nat)
    requires -HALF <= t - due < HALF
    ensures Alarm(true, Wrap(due)).Expired(Wrap(t)) <==> due <= t
  {
    SinceIsTrueDifference(t, due);
  }

  lemma StepFollows(m: Motion, s: TrueMotion, timing: Timing, last: nat, event: MotionEvent)
    requires Wrappable(timing) && Follows(m, s, timing, last)
    requires last <= event.t && (s.InMotion() ==> event.t - last < HALF)
    ensures Follows(m.Step(event), s.Step(timing, event), timing, event.t)
  {
    PlusIsTrueSum(event.t, timing.movementTimeout);
    PlusIsTrueSum(event.t, timing.settleDuration);
    match s
    case Travelling(_, due) => PendingDeadlineReadsTrue(due, event.t);
    case Seating(_, until) => PendingDeadlineReadsTrue(until, event.t);
    case _ =>
  }

  lemma PacedPrefix(s: TrueMotion, timing: Timing, events: seq<MotionEvent>, n: nat)
    requires n <= |events| && Paced(s, timing, events)
    ensures Paced(s, timing, events[..n])
  {
    forall i | 0 < i < n
      ensures events[..n][..i] == events[..i]
    {
    }
  }

  /** The simulation over a whole run from construction. */
  lemma {:induction false} RunFollows(initial: Position, timing: Timing, events: seq<MotionEvent>)
    requires Wrappable(timing) && events != []
    requires Paced(Resting(initial), timing, events)
    ensures Follows(RunMotion(NewMotion(initial, timing), events), RunTrue(Resting(initial), timing, events), timing,
                    events[|events| - 1].t)
  {
    var before, event := events[..|events| - 1], events[|events| - 1];
    if before == [] {
      assert RunTrue(Resting(initial), timing, before) == Resting(initial);
      StepFollows(NewMotion(initial, timing), Resting(initial), timing, event.t, event);
    } else {
      PacedPrefix(Resting(initial), timing, events, |events| - 1);
      RunFollows(initial, timing, before);
      StepFollows(RunMotion(NewMotion(initial, timing), before), RunTrue(Resting(initial), timing, before), timing,
                  before[|before| - 1].t, event);
    }
  }

  /** The two machines agree on what the rest of the node can see. */
  ghost predicate Agree(initial: Position, timing: Timing, events: seq<MotionEvent>) {
    var m := RunMotion(NewMotion(initial, timing), events);
    var s := RunTrue(Resting(initial), timing, events);
    m.State() == s.State() && m.target == s.target
  }

  /** Main result: every paced run agrees with unbounded time, however often the clock wraps,
      exactly when both durations are at most 2^31 ms. */
  lemma WrapProofExactlyWhenWrappable(timing: Timing)
    ensures Wrappable(timing) <==>
            forall initial, events :: Paced(Resting(initial), timing, events) ==> Agree(initial, timing, events)
  {
    if Wrappable(timing) {
      forall initial, events | Paced(Resting(initial), timing, events)
        ensures Agree(initial, timing, events)
      {
        if events != [] {
          RunFollows(initial, timing, events);
        }
      }
    } else {
      var go, idle, seen := Command(Thrown, 0), Update(None, 0), Update(Some(Thrown), 0);
      var faulty := if timing.movementTimeout > HALF then [go, idle] else [go, seen, idle];
      assert !Agree(Closed, timing, faulty) by {
        LongDurationExpiresAtOnce(timing, faulty);
      }
      assert Paced(Resting(Closed), timing, faulty);
    }
  }

  /** A duration above 2^31 ms (a negative number on the command line becomes one) reads as
      expired in the very millisecond it is armed. */
  lemma LongDurationExpiresAtOnce(timing: Timing, events: seq<MotionEvent>)
    requires !Wrappable(timing)
    requires events == if timing.movementTimeout > HALF then [Command(Thrown, 0), Update(None, 0)]
                       else [Command(Thrown, 0), Update(Some(Thrown), 0), Update(None, 0)]
    ensures !Agree(Closed, timing, events)
  {
    hide RunMotion, RunTrue, Alarm.Expired, ArmedAt;
    RunsUnfold(NewMotion(Closed, timing), Resting(Closed), timing, events);
    if timing.movementTimeout > HALF {
      LongAlarmIsExpired(timing.movementTimeout);
    } else {
      LongAlarmIsExpired(timing.settleDuration);
    }
  }

  lemma LongAlarmIsExpired(duration: Duration)
    requires duration > HALF
    ensures ArmedAt(Wrap(0), duration).Expired(Wrap(0))
  {
  }

  /** Runs of two or three events, step by step. */
  lemma RunsUnfold(m: Motion, s: TrueMotion, timing: Timing, events: seq<MotionEvent>)
    requires 2 <= |events| <= 3
    ensures var m2, s2 := m.Step(events[0]).Step(events[1]), s.Step(timing, events[0]).Step(timing, events[1]);
            RunMotion(m, events) == (if |events| == 2 then m2 else m2.Step(events[2])) &&
            RunTrue(s, timing, events) == (if |events| == 2 then s2 else s2.Step(timing, events[2]))
  {
    hide Motion.Step, TrueMotion.Step;
    assert events[..2][..1] == events[..1] && events[..1][..0] == [];
    assert RunMotion(m, events[..1]) == m.Step(events[0]);
    assert RunTrue(s, timing, events[..1]) == s.Step(timing, events[0]);
    assert RunMotion(m, events[..2]) == RunMotion(m, events[..1]).Step(events[1]);
    assert RunTrue(s, timing, events[..2]) == RunTrue(s, timing, events[..1]).Step(timing, events[1]);
    if |events| == 2 {
      assert events[..2] == events;
    }
  }
}
