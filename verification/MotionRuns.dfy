/** What every run of the 32-bit motion machine promises: settled reports are justified by an
    observation, and a started movement is resolved in bounded true time. */
module MotionRuns {
  import opened Positions
  import opened Motions
  import opened TrueMotions

  /** The unbounded-time machine after the first `n` events. */
  function TrueAt(initial: Position, timing: Timing, events: seq<MotionEvent>, n: nat): TrueMotion
    requires n <= |events|
  {
    RunTrue(Resting(initial), timing, events[..n])
  }

  /** The 32-bit machine after the first `n` events. */
  function MotionAt(initial: Position, timing: Timing, events: seq<MotionEvent>, n: nat): Motion
    requires n <= |events|
  {
    RunMotion(NewMotion(initial, timing), events[..n])
  }

  lemma TrueAtNext(initial: Position, timing: Timing, events: seq<MotionEvent>, n: nat)
    requires n < |events|
    ensures TrueAt(initial, timing, events, n + 1) == TrueAt(initial, timing, events, n).Step(timing, events[n])
  {
    assert events[..n + 1][..n] == events[..n];
  }

  lemma FollowsAt(initial: Position, timing: Timing, events: seq<MotionEvent>, n: nat)
    requires n <= |events| && Wrappable(timing) && Paced(Resting(initial), timing, events)
    ensures Follows(MotionAt(initial, timing, events, n), TrueAt(initial, timing, events, n), timing,
                    if n == 0 then 0 else events[n - 1].t)
  {
    if n > 0 {
      PacedPrefix(Resting(initial), timing, events, n);
      RunFollows(initial, timing, events[..n]);
    }
  }

  // ----- Settled reports are justified ---------------------------------------------------

  /** Event `j` observed the target and opened the settle time that event `k` found over;
      the machine settled from `j` to `k` and has been at rest since, so no command that
      moves it came after `j`. */
  ghost predicate Justifies(initial: Position, timing: Timing, events: seq<MotionEvent>, j: nat, k: nat)
    requires j < k < |events|
  {
    var target := MotionAt(initial, timing, events, |events|).target;
    events[j] == Update(Some(target), events[j].t) &&
    events[k].Update? &&
    events[k].t - events[j].t >= timing.settleDuration &&
    (forall i :: j < i <= k ==> MotionAt(initial, timing, events, i).phase == Phase.Settling) &&
    (forall i :: k < i <= |events| ==> MotionAt(initial, timing, events, i).phase == AtRest)
  }

  ghost predicate NeverLeftRest(initial: Position, timing: Timing, events: seq<MotionEvent>) {
    forall i :: 0 <= i <= |events| ==> MotionAt(initial, timing, events, i).phase == AtRest
  }

  lemma {:induction false} SeatingOpenedBy(initial: Position, timing: Timing, events: seq<MotionEvent>, n: nat)
    returns (j: nat)
    requires n <= |events| && TrueAt(initial, timing, events, n).Seating?
    ensures j < n
    ensures var s := TrueAt(initial, timing, events, n);
            events[j] == Update(Some(s.target), events[j].t) && s.until == events[j].t + timing.settleDuration &&
            forall i :: j < i <= n ==> TrueAt(initial, timing, events, i) == s
  {
    TrueAtNext(initial, timing, events, n - 1);
    if TrueAt(initial, timing, events, n) == TrueAt(initial, timing, events, n - 1) {
      j := SeatingOpenedBy(initial, timing, events, n - 1);
    } else {
      j := n - 1;
    }
  }

  lemma {:induction false} RestingSince(initial: Position, timing: Timing, events: seq<MotionEvent>, n: nat)
    returns (k: nat)
    requires n <= |events| && TrueAt(initial, timing, events, n).Resting?
    ensures k <= n
    ensures forall i :: k <= i <= n ==> TrueAt(initial, timing, events, i) == TrueAt(initial, timing, events, n)
    ensures k > 0 ==> var s := TrueAt(initial, timing, events, k - 1);
                      s.Seating? && s.target == TrueAt(initial, timing, events, n).target &&
                      events[k - 1].Update? && s.until <= events[k - 1].t
  {
    if n == 0 {
      return 0;
    }
    TrueAtNext(initial, timing, events, n - 1);
    if TrueAt(initial, timing, events, n - 1).Resting? {
      k := RestingSince(initial, timing, events, n - 1);
    } else {
      k := n;
    }
  }

  /** Main result: whenever a paced machine reports a settled position, either nothing has ever
      moved it or an observation of that position, a full settle time old, is behind it. */
  lemma SettledReportsAreJustified(initial: Position, timing: Timing, events: seq<MotionEvent>)
    requires Wrappable(timing) && Paced(Resting(initial), timing, events)
    requires MotionAt(initial, timing, events, |events|).State() in {ClosedState, ThrownState}
    ensures NeverLeftRest(initial, timing, events) ||
            exists j, k :: 0 <= j < k < |events| && Justifies(initial, timing, events, j, k)
  {
    forall i | 0 <= i <= |events|
      ensures Follows(MotionAt(initial, timing, events, i), TrueAt(initial, timing, events, i), timing,
                      if i == 0 then 0 else events[i - 1].t)
    {
      FollowsAt(initial, timing, events, i);
    }
    var k := RestingSince(initial, timing, events, |events|);
    if k > 0 {
      var j := SeatingOpenedBy(initial, timing, events, k - 1);
      assert Justifies(initial, timing, events, j, k - 1);
    }
  }

  // ----- A started movement is resolved in bounded time ------------------------------------

  /** From event `c` on there are only updates, at most `gap` ms of true time apart. */
  ghost predicate UpdatesOnly(events: seq<MotionEvent>, c: nat, gap: nat) {
    forall i :: c < i < |events| ==> events[i].Update? && events[i - 1].t <= events[i].t <= events[i - 1].t + gap
  }

  lemma {:induction false} SeatingEnds(initial: Position, timing: Timing, events: seq<MotionEvent>, n: nat, gap: nat)
    returns (k: nat)
    requires 0 < n <= |events| && UpdatesOnly(events, n - 1, gap)
    requires var s := TrueAt(initial, timing, events, n);
             s.Seating? && events[n - 1].t <= s.until < events[|events| - 1].t
    ensures n <= k < |events|
    ensures TrueAt(initial, timing, events, k + 1).Resting?
    ensures events[k].t <= TrueAt(initial, timing, events, n).until + gap
    decreases |events| - n
  {
    TrueAtNext(initial, timing, events, n);
    if TrueAt(initial, timing, events, n).until <= events[n].t {
      k := n;
    } else {
      k := SeatingEnds(initial, timing, events, n + 1, gap);
    }
  }

  lemma {:induction false} TravelEnds(initial: Position, timing: Timing, events: seq<MotionEvent>, n: nat, gap: nat)
    returns (k: nat)
    requires 0 < n <= |events| && UpdatesOnly(events, n - 1, gap)
    requires var s := TrueAt(initial, timing, events, n);
             s.Travelling? && events[n - 1].t <= s.due &&
             s.due + gap + timing.settleDuration < events[|events| - 1].t
    ensures n <= k < |events|
    ensures !TrueAt(initial, timing, events, k + 1).InMotion()
    ensures events[k].t <= TrueAt(initial, timing, events, n).due + timing.settleDuration + 2 * gap
    decreases |events| - n
  {
    hide TrueAt;
    TrueAtNext(initial, timing, events, n);
    var next := TrueAt(initial, timing, events, n + 1);
    if next.Lost? {
      k := n;
    } else if next.Seating? {
      k := SeatingEnds(initial, timing, events, n + 1, gap);
    } else {
      k := TravelEnds(initial, timing, events, n + 1, gap);
    }
  }

  /** Main result: a command that starts movement is followed, within the timeout, the settle
      time and two update gaps of true time, by a report of rest or fault. */
  lemma MovementIsResolvedInTime(initial: Position, timing: Timing, events: seq<MotionEvent>, c: nat, gap: nat)
    requires Wrappable(timing) && Paced(Resting(initial), timing, events)
    requires c < |events| && events[c].Command? && UpdatesOnly(events, c, gap)
    requires MotionAt(initial, timing, events, c + 1).phase == Moving
    requires events[|events| - 1].t > events[c].t + timing.movementTimeout + timing.settleDuration + gap
    ensures exists k :: c < k < |events| && MotionAt(initial, timing, events, k + 1).phase in {AtRest, Faulted} &&
                        events[k].t <= events[c].t + timing.movementTimeout + timing.settleDuration + 2 * gap
  {
    hide RunMotion, RunTrue, TrueAt, MotionAt, Paced;
    FollowsAt(initial, timing, events, c + 1);
    TrueAtNext(initial, timing, events, c);
    var k := TravelEnds(initial, timing, events, c + 1, gap);
    FollowsAt(initial, timing, events, k + 1);
  }

  /** Moving never survives an update at or past its deadline: after any update that leaves the
      machine moving, the movement timeout of the latest command has not yet elapsed. */
  lemma {:induction false} MovingIsWithinTimeout(initial: Position, timing: Timing, events: seq<MotionEvent>, n: nat)
    returns (c: nat)
    requires Wrappable(timing) && Paced(Resting(initial), timing, events) && n <= |events|
    requires MotionAt(initial, timing, events, n).phase == Moving
    ensures c < n && events[c].Command? && events[c].position == MotionAt(initial, timing, events, n).target
    ensures forall i :: c < i < n ==> events[i].Update? && events[i].t < events[c].t + timing.movementTimeout
  {
    FollowsAt(initial, timing, events, n);
    c := TravelOpenedBy(initial, timing, events, n);
  }

  lemma {:induction false} TravelOpenedBy(initial: Position, timing: Timing, events: seq<MotionEvent>, n: nat)
    returns (c: nat)
    requires n <= |events| && TrueAt(initial, timing, events, n).Travelling?
    ensures c < n && events[c].Command? && events[c].position == TrueAt(initial, timing, events, n).target
    ensures TrueAt(initial, timing, events, n).due == events[c].t + timing.movementTimeout
    ensures forall i :: c < i < n ==> events[i].Update? && events[i].t < events[c].t + timing.movementTimeout
  {
    TrueAtNext(initial, timing, events, n - 1);
    if events[n - 1].Command? {
      c := n - 1;
    } else {
      c := TravelOpenedBy(initial, timing, events, n - 1);
    }
  }
}
