/** Deadline.h: an instant to wait for, compared by signed difference. */
module Deadlines {
  import opened Clock

  /** The two fields of a Deadline. */
  datatype Alarm = Alarm(armed: bool, at: Instant) {
    predicate Expired(now: Instant) {
      armed && Signed(Since(now, at)) >= 0
    }
  }

  function ArmedAt(now: Instant, duration: Duration): Alarm {
    Alarm(true, Plus(now, duration))
  }

  class Deadline {
    var isArmed: bool
    var deadline: Instant

    ghost function Value(): Alarm
      reads this
    {
      Alarm(isArmed, deadline)
    }

    constructor ()
      ensures Value() == Alarm(false, 0)
    {
      isArmed, deadline := false, 0;
    }

    method Arm(now: Instant, duration: Duration)
      modifies this
      ensures Value() == ArmedAt(now, duration)
    {
      deadline := Plus(now, duration);
      isArmed := true;
    }

    method Disarm()
      modifies this
      ensures Value() == old(Value()).(armed := false)
    {
      isArmed := false;
    }

    method Expired(now: Instant) returns (expired: bool)
      ensures expired <==> Value().Expired(now)
    {
      if !isArmed {
        return false;
      }
      var elapsedSinceDeadline := Signed(Since(now, deadline));
      return elapsedSinceDeadline >= 0;
    }
  }

  /** How far past the deadline the true time `t` is (negative while still ahead of it). */
  function Lateness(armedAt: nat, duration: Duration, t: nat): int {
    t - (armedAt + duration)
  }

  /** The lateness values on which the signed comparison tells the truth: at most 2^31 early,
      or late by an amount that lies in an even-numbered half of the counter's range. */
  predicate ReadsTrue(lateness: int) {
    if lateness < 0 then -HALF <= lateness else (lateness / HALF) % 2 == 0
  }

  /** The lower half of the counter's range is met in every even-numbered half of true time. */
  lemma LowerHalfIsEvenHalf(n: nat)
    ensures Wrap(n) < HALF <==> (n / HALF) % 2 == 0
  {
    var q, r := n / WRAP, n % WRAP;
    assert n == 2 * q * HALF + r;
    if r < HALF {
      assert n / HALF == 2 * q;
    } else {
      assert n / HALF == 2 * q + 1;
    }
  }

  /** Exactly when the signed 32-bit comparison agrees with true time, for every arming time,
      duration and query time; once disarmed nothing expires. */
  lemma ExpiryIsExactlyReadsTrue(armedAt: nat, duration: Duration, t: nat)
    requires armedAt <= t
    ensures (ArmedAt(Wrap(armedAt), duration).Expired(Wrap(t)) <==> Lateness(armedAt, duration, t) >= 0)
       <==> ReadsTrue(Lateness(armedAt, duration, t))
    ensures !ArmedAt(Wrap(armedAt), duration).(armed := false).Expired(Wrap(t))
  {
    PlusIsTrueSum(armedAt, duration);
    SinceIsTrueDifference(t, armedAt + duration);
    var lateness := Lateness(armedAt, duration, t);
    assert Since(Wrap(t), Wrap(armedAt + duration)) == Wrap(lateness);
    if lateness >= 0 {
      LowerHalfIsEvenHalf(lateness);
    }
  }

  /** A deadline armed for a wired-in duration and left armed does not stay expired:
      it reads unexpired again 2^31 ms after it was due. */
  lemma StaleDeadlineRevives(armedAt: nat, duration: Duration)
    ensures ArmedAt(Wrap(armedAt), duration).Expired(Wrap(armedAt + duration))
    ensures !ArmedAt(Wrap(armedAt), duration).Expired(Wrap(armedAt + duration + HALF))
  {
    PlusIsTrueSum(armedAt, duration);
    SinceIsTrueDifference(armedAt + duration, armedAt + duration);
    SinceIsTrueDifference(armedAt + duration + HALF, armedAt + duration);
  }
}
