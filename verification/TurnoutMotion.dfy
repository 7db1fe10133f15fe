/** TurnoutMotion.h: the four-state motion machine with its two deadlines, on the 32-bit clock. */
module Motions {
  import opened Clock
  import opened Positions
  import opened Deadlines

  datatype Phase = AtRest | Moving | Settling | Faulted

  datatype Timing = Timing(movementTimeout: Duration, settleDuration: Duration)

  /** What the outside does to a motion machine, at a true time. */
  datatype MotionEvent =
    | Command(position: Position, t: nat)
    | Update(observed: Option<Position>, t: nat)

  /** The fields of a TurnoutMotion. */
  datatype Motion = Motion(timing: Timing, target: Position, phase: Phase, movement: Alarm, settle: Alarm) {

    function CommandTo(position: Position, now: Instant): Motion {
      if phase == AtRest && target == position then
        this
      else
        this.(target := position,
              phase := Moving,
              movement := ArmedAt(now, timing.movementTimeout),
              settle := settle.(armed := false))
    }

    function Updated(observed: Option<Position>, now: Instant): Motion {
      match phase
      case Moving =>
        if observed == Some(target) then
          this.(phase := Settling,
                movement := movement.(armed := false),
                settle := ArmedAt(now, timing.settleDuration))
        else if movement.Expired(now) then
          this.(phase := Faulted)
        else
          this
      case Settling =>
        if settle.Expired(now) then
          this.(phase := AtRest, settle := settle.(armed := false))
        else
          this
      case AtRest =>
        if observed.Some? && observed.value != target then this.(phase := Faulted) else this
      case Faulted =>
        if observed == Some(target) then
          this.(phase := Settling, settle := ArmedAt(now, timing.settleDuration))
        else
          this
    }

    function State(): TurnoutState {
      match phase
      case AtRest => if target == Closed then ClosedState else ThrownState
      case Moving => MovingState
      case Settling => MovingState
      case Faulted => UnknownState
    }

    /** One event, seen through the 32-bit clock. */
    function Step(event: MotionEvent): Motion {
      match event
      case Command(position, t) => CommandTo(position, Wrap(t))
      case Update(observed, t) => Updated(observed, Wrap(t))
    }
  }

  /** A machine just constructed: at rest in its initial position, no deadline armed. */
  function NewMotion(initial: Position, timing: Timing): Motion {
    Motion(timing, initial, AtRest, Alarm(false, 0), Alarm(false, 0))
  }

  function RunMotion(m: Motion, events: seq<MotionEvent>): Motion {
    if events == [] then m
    else RunMotion(m, events[..|events| - 1]).Step(events[|events| - 1])
  }

  class TurnoutMotion {
    const timing: Timing
    var target: Position
    var phase: Phase
    const movementDeadline: Deadline
    const settleDeadline: Deadline

    ghost function Repr(): set<object> {
      {this, movementDeadline, settleDeadline}
    }

    ghost predicate Valid() {
      movementDeadline != settleDeadline
    }

    ghost function Value(): Motion
      reads Repr()
    {
      Motion(timing, target, phase, movementDeadline.Value(), settleDeadline.Value())
    }

    constructor (initialPosition: Position, timing: Timing)
      ensures Valid() && fresh(Repr())
      ensures Value() == NewMotion(initialPosition, timing)
    {
      this.timing := timing;
      target, phase := initialPosition, AtRest;
      movementDeadline := new Deadline();
      settleDeadline := new Deadline();
    }

    method CommandTo(position: Position, now: Instant)
      requires Valid()
      modifies Repr()
      ensures Value() == old(Value()).CommandTo(position, now)
    {
      if phase == AtRest && target == position {
        return;
      }
      target := position;
      phase := Moving;
      movementDeadline.Arm(now, timing.movementTimeout);
      settleDeadline.Disarm();
    }

    method Update(observed: Option<Position>, now: Instant)
      requires Valid()
      modifies Repr()
      ensures Value() == old(Value()).Updated(observed, now)
    {
      match phase {
        case Moving =>
          if observed == Some(target) {
            phase := Settling;
            movementDeadline.Disarm();
            settleDeadline.Arm(now, timing.settleDuration);
          } else {
            var expired := movementDeadline.Expired(now);
            if expired {
              phase := Faulted;
            }
          }
        case Settling =>
          var expired := settleDeadline.Expired(now);
          if expired {
            phase := AtRest;
            settleDeadline.Disarm();
          }
        case AtRest =>
          if observed.Some? && observed.value != target {
            phase := Faulted;
          }
        case Faulted =>
          if observed == Some(target) {
            phase := Settling;
            settleDeadline.Arm(now, timing.settleDuration);
          }
      }
    }

    method State() returns (state: TurnoutState)
      ensures state == Value().State()
    {
      match phase {
        case AtRest => state := if target == Closed then ClosedState else ThrownState;
        case Moving => state := MovingState;
        case Settling => state := MovingState;
        case Faulted => state := UnknownState;
      }
    }
  }
}
