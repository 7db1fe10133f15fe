/** The node's response to a command: a channel that is sent somewhere and then left alone is
    reported settled there, or faulted, in bounded true time. */
module NodeResponses {
  import opened Clock
  import opened Positions
  import opened FeedbackSensors
  import opened Motions
  import opened TrueMotions
  import opened MotionRuns
  import opened TurnoutRuns
  import opened ChannelTrueTime
  import opened Registries
  import opened RegistryRuns
  import opened NodeTrueTime

  /** What channel `i`'s motion machine has lived through after the first `n` node events. */
  ghost function Sensed(r: Registry, events: seq<NodeEvent>, i: nat, orientation: Orientation, window: Duration,
                        n: nat): seq<MotionEvent>
    requires r.Sized() && WellFormed(events) && i < TURNOUTS_PER_NODE && n <= |events|
  {
    NodeMotionEvents(Wrapping, r, events[..n], i, orientation, window)
  }

  function HandedOver(waiting: Option<Position>, t: nat): seq<MotionEvent> {
    if waiting.Some? then [Command(waiting.value, t)] else []
  }

  lemma MotionEventsAfterTick(orientation: Orientation, window: Duration, lived: seq<TurnoutEvent>,
                              waiting: Option<Position>, level: Level, t: nat)
    returns (observed: Option<Position>)
    ensures MotionEvents(Wrapping, orientation, window, lived + TickLived(waiting, level, t)) ==
            MotionEvents(Wrapping, orientation, window, lived) + HandedOver(waiting, t) + [Update(observed, t)]
  {
    hide Observation, Samples;
    var moved := lived + if waiting.Some? then [MoveTo(waiting.value, t)] else [];
    assert moved + [Tick(level, t)] == lived + TickLived(waiting, level, t);
    MotionEventsTick(Wrapping, orientation, window, moved, level, t);
    observed := Observation(Wrapping, orientation, window, Samples(moved + [Tick(level, t)]));
    if waiting.Some? {
      assert moved[..|lived|] == lived;
    } else {
      assert moved == lived;
    }
  }

  /** One more node event: at a tick the machine is commanded if a command waits, then updated. */
  lemma SensedNext(r: Registry, events: seq<NodeEvent>, i: nat, orientation: Orientation, window: Duration, n: nat)
    returns (observed: Option<Position>)
    requires r.Sized() && WellFormed(events) && i < TURNOUTS_PER_NODE && n < |events|
    ensures Sensed(r, events, i, orientation, window, n + 1) ==
            Sensed(r, events, i, orientation, window, n) +
            if events[n].NodeTick? then
              HandedOver(Waiting(r, events[..n], i), events[n].t) + [Update(observed, events[n].t)]
            else []
  {
    hide Waiting, ChannelEvents, TickLived, MotionEvents, HandedOver;
    var before, event := events[..n], events[n];
    var lived, waiting := ChannelEvents(r, before, i), Waiting(r, before, i);
    var sensed := MotionEvents(Wrapping, orientation, window, lived);
    assert events[..n + 1] == before + [event];
    ChannelEventsSnoc(r, before, event, i);
    match event
    case NodeCommand(_, _) =>
      assert lived + [] == lived && sensed + [] == sensed;
      observed := None;
    case NodeTick(levels, t) =>
      observed := MotionEventsAfterTick(orientation, window, lived, waiting, levels[i], t);
      assert sensed + HandedOver(waiting, t) + [Update(observed, t)] ==
             sensed + (HandedOver(waiting, t) + [Update(observed, t)]);
    case NodeReportAll =>
      ForcedReportMovesNothing(orientation, window, lived);
      assert sensed + [] == sensed;
      observed := None;
  }

  lemma ForcedReportMovesNothing(orientation: Orientation, window: Duration, lived: seq<TurnoutEvent>)
    ensures MotionEvents(Wrapping, orientation, window, lived + [ReportCurrent]) ==
            MotionEvents(Wrapping, orientation, window, lived)
  {
    assert (lived + [ReportCurrent])[..|lived|] == lived;
  }

  lemma {:induction false} SensedGrows(r: Registry, events: seq<NodeEvent>, i: nat, orientation: Orientation,
                                       window: Duration, m: nat, n: nat)
    requires r.Sized() && WellFormed(events) && i < TURNOUTS_PER_NODE && m <= n <= |events|
    ensures Sensed(r, events, i, orientation, window, m) <= Sensed(r, events, i, orientation, window, n)
  {
    hide Sensed, HandedOver, Waiting;
    if m < n {
      SensedGrows(r, events, i, orientation, window, m, n - 1);
      var observed := SensedNext(r, events, i, orientation, window, n - 1);
      Longer(Sensed(r, events, i, orientation, window, m), Sensed(r, events, i, orientation, window, n - 1),
             Sensed(r, events, i, orientation, window, n));
    }
  }

  lemma Longer(a: seq<MotionEvent>, b: seq<MotionEvent>, c: seq<MotionEvent>)
    requires a <= b <= c
    ensures a <= c
  {
  }

  lemma NothingSensed(r: Registry, events: seq<NodeEvent>, i: nat, orientation: Orientation, window: Duration)
    requires r.Sized() && WellFormed(events) && i < TURNOUTS_PER_NODE
    ensures Sensed(r, events, i, orientation, window, 0) == []
  {
  }

  lemma UpdateComesLast(before: seq<MotionEvent>, waiting: Option<Position>, observed: Option<Position>, t: nat,
                        m: nat)
    ensures var all := before + (HandedOver(waiting, t) + [Update(observed, t)]);
            m < |all| && all[m].Update? ==>
              if m < |before| then before[m] == all[m] else m + 1 == |all| && all[m].t == t
  {
  }

  /** Every update of the machine is made by a tick, and is the last thing that tick does to it. */
  lemma {:induction false} TickOfUpdate(r: Registry, events: seq<NodeEvent>, i: nat, orientation: Orientation,
                                        window: Duration, n: nat, m: nat)
    returns (k: nat)
    requires r.Sized() && WellFormed(events) && i < TURNOUTS_PER_NODE && n <= |events|
    requires m < |Sensed(r, events, i, orientation, window, n)|
    requires Sensed(r, events, i, orientation, window, n)[m].Update?
    ensures k < n && events[k].NodeTick? && events[k].t == Sensed(r, events, i, orientation, window, n)[m].t
    ensures |Sensed(r, events, i, orientation, window, k + 1)| == m + 1
  {
    hide Sensed, Waiting, HandedOver;
    NothingSensed(r, events, i, orientation, window);
    var observed := SensedNext(r, events, i, orientation, window, n - 1);
    var before, event := Sensed(r, events, i, orientation, window, n - 1), events[n - 1];
    if event.NodeTick? {
      UpdateComesLast(before, Waiting(r, events[..n - 1], i), observed, event.t, m);
    }
    if m < |before| {
      k := TickOfUpdate(r, events, i, orientation, window, n - 1, m);
    } else {
      k := n - 1;
    }
  }

  // ----- A channel left alone ------------------------------------------------------------------

  /** No command to channel `i` comes after event `c`. */
  predicate LeftAlone(r: Registry, events: seq<NodeEvent>, i: nat, c: nat) {
    forall k :: c < k < |events| && events[k].NodeCommand? ==> !Addresses(r.nodeId, events[k].id, i)
  }

  lemma {:induction false} NoneWaits(r: Registry, events: seq<NodeEvent>, i: nat, c: nat, n: nat)
    requires r.Sized() && i < TURNOUTS_PER_NODE && c < n <= |events|
    requires events[c].NodeTick? && LeftAlone(r, events, i, c)
    ensures Waiting(r, events[..n], i) == None
  {
    assert events[..n][..n - 1] == events[..n - 1];
    if n - 1 > c {
      NoneWaits(r, events, i, c, n - 1);
    }
  }

  /** After the tick that hands its command over the machine is only updated. */
  lemma {:induction false} OnlyUpdatesFollow(r: Registry, events: seq<NodeEvent>, i: nat, orientation: Orientation,
                                             window: Duration, c: nat, n: nat)
    requires r.Sized() && WellFormed(events) && i < TURNOUTS_PER_NODE && c < n <= |events|
    requires events[c].NodeTick? && Waiting(r, events[..c], i).Some? && LeftAlone(r, events, i, c)
    ensures var m := |Sensed(r, events, i, orientation, window, c)|;
            var sensed := Sensed(r, events, i, orientation, window, n);
            m + 1 < |sensed| && sensed[m] == Command(Waiting(r, events[..c], i).value, events[c].t) &&
            sensed[m + 1].t == events[c].t && (forall j :: m < j < |sensed| ==> sensed[j].Update?) &&
            (events[n - 1].NodeTick? ==> sensed[|sensed| - 1].t == events[n - 1].t)
  {
    hide Sensed, Waiting, LeftAlone;
    var observed := SensedNext(r, events, i, orientation, window, n - 1);
    if n - 1 > c {
      OnlyUpdatesFollow(r, events, i, orientation, window, c, n - 1);
      NoneWaits(r, events, i, c, n - 1);
    }
  }

  lemma SensedTimes(r: Registry, events: seq<NodeEvent>, i: nat, orientation: Orientation, window: Duration, gap: nat)
    requires r.Sized() && WellFormed(events) && i < TURNOUTS_PER_NODE && Within(TickTimes(events), gap)
    ensures var sensed := Sensed(r, events, i, orientation, window, |events|);
            forall j :: 0 < j < |sensed| ==> sensed[j - 1].t <= sensed[j].t <= sensed[j - 1].t + gap
  {
    hide ChannelEvents, MotionEvents, EventTimes, TickTimes;
    assert events[..|events|] == events;
    MovedAtTicks(r, events, i, gap);
    MotionEventTimes(Wrapping, orientation, window, ChannelEvents(r, events, i));
  }

  lemma EachIsUpdate(events: seq<MotionEvent>, c: nat, gap: nat, k: nat)
    requires UpdatesOnly(events, c, gap) && c < k < |events|
    ensures events[k].Update?
  {
  }

  /** A machine only updated since a command aims where it was sent. */
  lemma {:induction false} TargetStays(initial: Position, timing: Timing, events: seq<MotionEvent>, c: nat, n: nat,
                                       gap: nat)
    requires c < n <= |events| && events[c].Command? && UpdatesOnly(events, c, gap)
    ensures MotionAt(initial, timing, events, n).target == events[c].position
  {
    hide MotionAt;
    MotionAtNext(initial, timing, events, n - 1);
    if n - 1 > c {
      TargetStays(initial, timing, events, c, n - 1, gap);
    }
  }

  lemma MotionAtNext(initial: Position, timing: Timing, events: seq<MotionEvent>, n: nat)
    requires n < |events|
    ensures MotionAt(initial, timing, events, n + 1) == MotionAt(initial, timing, events, n).Step(events[n])
  {
    assert events[..n + 1][..n] == events[..n];
  }

  lemma CommandMovesOrRests(m: Motion, command: MotionEvent, update: MotionEvent)
    requires command.Command? && update.Update?
    ensures m.Step(command).phase == Moving || m.Step(command).Step(update).phase in {AtRest, Faulted}
  {
  }

  /** A command and the updates after it end at rest or faulted: at once if the machine was at
      rest there already, else in the time a movement has. */
  lemma MachineAnswers(initial: Position, timing: Timing, events: seq<MotionEvent>, c: nat, gap: nat)
    returns (k: nat)
    requires Wrappable(timing) && Paced(Resting(initial), timing, events)
    requires c + 1 < |events| && events[c].Command? && UpdatesOnly(events, c, gap)
    requires events[c + 1].Update? && events[c + 1].t == events[c].t
    requires events[|events| - 1].t > events[c].t + timing.movementTimeout + timing.settleDuration + gap
    ensures c < k < |events| && MotionAt(initial, timing, events, k + 1).phase in {AtRest, Faulted}
    ensures events[k].t <= events[c].t + timing.movementTimeout + timing.settleDuration + 2 * gap
  {
    hide MotionAt, Paced, UpdatesOnly, Wrappable, Motion.Step;
    MotionAtNext(initial, timing, events, c);
    MotionAtNext(initial, timing, events, c + 1);
    CommandMovesOrRests(MotionAt(initial, timing, events, c), events[c], events[c + 1]);
    if MotionAt(initial, timing, events, c + 1).phase == Moving {
      MovementIsResolvedInTime(initial, timing, events, c, gap);
      k :| c < k < |events| && MotionAt(initial, timing, events, k + 1).phase in {AtRest, Faulted} &&
           events[k].t <= events[c].t + timing.movementTimeout + timing.settleDuration + 2 * gap;
    } else {
      k := c + 1;
    }
  }

  // ----- The node answers ---------------------------------------------------------------------------

  function SettledAt(position: Position): TurnoutState {
    if position == Closed then ClosedState else ThrownState
  }

  /** The node has last reported channel `i` settled at the position or in an unknown state. */
  ghost predicate Answered(r: Registry, events: seq<NodeEvent>, i: nat, position: Position)
    requires r.Sized() && WellFormed(events) && i < TURNOUTS_PER_NODE
  {
    Last(OnId(NodeReports(r, events), Ids(r.turnouts)[i])) in {Some(SettledAt(position)), Some(UnknownState)}
  }

  /** A machine at rest or faulted at a tick has been reported so. */
  lemma TickReportsAnswer(r: Registry, events: seq<NodeEvent>, i: nat, position: Position)
    requires JustStarted(r) && WellFormed(events) && i < TURNOUTS_PER_NODE
    requires events != [] && events[|events| - 1].NodeTick?
    requires var m := RunNode(r, events).turnouts[i].motion;
             m.phase in {AtRest, Faulted} && m.target == position
    ensures Answered(r, events, i, position)
  {
    hide RunNode, NodeReports, OnId, Ids, ChannelEvents, Collapse, LastCommanded, TickStates;
    NodeAgrees(r, events, i);
  }

  /** The node's channel is its sensed machine at every point of the run. */
  lemma NodeIsSensed(r: Registry, events: seq<NodeEvent>, i: nat, orientation: Orientation, window: Duration,
                     initial: Position, timing: Timing, gap: nat, k: nat)
    requires r.Sized() && WellFormed(events) && i < TURNOUTS_PER_NODE && k < |events|
    requires BuiltAs(r, i, orientation, window, initial, timing)
    requires Within(TickTimes(events), gap) && gap < HALF
    requires Wrappable(timing) && (window == 0 || window + gap <= WRAP)
    ensures var all := Sensed(r, events, i, orientation, window, |events|);
            var n := |Sensed(r, events, i, orientation, window, k + 1)|;
            n <= |all| &&
            RunNode(r, events[..k + 1]).turnouts[i].motion == MotionAt(initial, timing, all, n)
  {
    hide RunNode, RunMotion, NodeMotionEvents, TickTimes, Within, InTime;
    SensedGrows(r, events, i, orientation, window, k + 1, |events|);
    TickTimesPrefix(events, k + 1, gap);
    CloseTicksAreInTime(r, events[..k + 1], i, orientation, window, initial, timing, gap);
    NodeRunsSensedEvents(r, events[..k + 1], i, orientation, window, initial, timing, gap);
    var sensed := Sensed(r, events, i, orientation, window, k + 1);
    var all := Sensed(r, events, i, orientation, window, |events|);
    assert all[..|sensed|] == sensed;
  }

  lemma {:induction false} TickTimesPrefix(events: seq<NodeEvent>, n: nat, gap: nat)
    requires n <= |events| && Within(TickTimes(events), gap)
    ensures Within(TickTimes(events[..n]), gap)
    decreases |events|
  {
    if n == |events| {
      assert events[..n] == events;
    } else {
      var before := events[..|events| - 1];
      assert forall k :: 0 <= k < |TickTimes(before)| ==> TickTimes(before)[k] == TickTimes(events)[k];
      TickTimesPrefix(before, n, gap);
      assert before[..n] == events[..n];
    }
  }

  /** The sensed run has all that MachineAnswers asks of it. */
  lemma SensedIsAnswering(r: Registry, events: seq<NodeEvent>, i: nat, orientation: Orientation, window: Duration,
                          initial: Position, timing: Timing, gap: nat, c: nat)
    requires r.Sized() && WellFormed(events) && i < TURNOUTS_PER_NODE
    requires Within(TickTimes(events), gap) && gap < HALF
    requires Wrappable(timing) && (window == 0 || window + gap <= WRAP)
    requires c < |events| && events[c].NodeTick? && Waiting(r, events[..c], i).Some? && LeftAlone(r, events, i, c)
    requires events[|events| - 1].NodeTick?
    ensures var sensed := Sensed(r, events, i, orientation, window, |events|);
            var m := |Sensed(r, events, i, orientation, window, c)|;
            m + 1 < |sensed| && sensed[m] == Command(Waiting(r, events[..c], i).value, events[c].t) &&
            sensed[m + 1].Update? && sensed[m + 1].t == events[c].t &&
            sensed[|sensed| - 1].t == events[|events| - 1].t &&
            UpdatesOnly(sensed, m, gap) && Paced(Resting(initial), timing, sensed)
  {
    CloseTicksAreInTime(r, events, i, orientation, window, initial, timing, gap);
    assert events[..|events|] == events;
    assert Paced(Resting(initial), timing, Sensed(r, events, i, orientation, window, |events|));
    hide Sensed, Waiting, Paced, TickTimes, Within, LeftAlone, InTime;
    OnlyUpdatesFollow(r, events, i, orientation, window, c, |events|);
    SensedTimes(r, events, i, orientation, window, gap);
  }

  /** The tick that finds the channel at rest or faulted. */
  lemma AnsweringTick(r: Registry, events: seq<NodeEvent>, i: nat, orientation: Orientation, window: Duration,
                      initial: Position, timing: Timing, gap: nat, c: nat)
    returns (k: nat)
    requires r.Sized() && WellFormed(events) && i < TURNOUTS_PER_NODE
    requires BuiltAs(r, i, orientation, window, initial, timing)
    requires Within(TickTimes(events), gap) && gap < HALF
    requires Wrappable(timing) && (window == 0 || window + gap <= WRAP)
    requires c < |events| && events[c].NodeTick? && Waiting(r, events[..c], i).Some? && LeftAlone(r, events, i, c)
    requires events[|events| - 1].NodeTick?
    requires events[|events| - 1].t > events[c].t + timing.movementTimeout + timing.settleDuration + gap
    ensures c <= k < |events| && events[k].NodeTick?
    ensures events[k].t <= events[c].t + timing.movementTimeout + timing.settleDuration + 2 * gap
    ensures var m := RunNode(r, events[..k + 1]).turnouts[i].motion;
            m.phase in {AtRest, Faulted} && m.target == Waiting(r, events[..c], i).value
  {
    hide RunNode, Sensed, Waiting, MotionAt, Paced, TickTimes, Within, LeftAlone, UpdatesOnly, BuiltAs, Wrappable;
    var sensed := Sensed(r, events, i, orientation, window, |events|);
    var m := |Sensed(r, events, i, orientation, window, c)|;
    SensedIsAnswering(r, events, i, orientation, window, initial, timing, gap, c);
    var j := MachineAnswers(initial, timing, sensed, m, gap);
    TargetStays(initial, timing, sensed, m, j + 1, gap);
    EachIsUpdate(sensed, m, gap, j);
    k := TickOfUpdate(r, events, i, orientation, window, |events|, j);
    if k < c {
      SensedGrows(r, events, i, orientation, window, k + 1, c);
    }
    NodeIsSensed(r, events, i, orientation, window, initial, timing, gap, k);
  }

  /** Main result: once a tick hands a command over to a channel and no other follows, the node
      has reported the channel settled where it was sent, or in an unknown state, within the
      timeout, the settle time and two tick gaps. */
  lemma CommandIsAnsweredInTime(r: Registry, events: seq<NodeEvent>, i: nat, orientation: Orientation,
                                window: Duration, initial: Position, timing: Timing, gap: nat, c: nat)
    requires JustStarted(r) && WellFormed(events) && i < TURNOUTS_PER_NODE
    requires BuiltAs(r, i, orientation, window, initial, timing)
    requires Within(TickTimes(events), gap) && gap < HALF
    requires Wrappable(timing) && (window == 0 || window + gap <= WRAP)
    requires c < |events| && events[c].NodeTick? && Waiting(r, events[..c], i).Some? && LeftAlone(r, events, i, c)
    requires events[|events| - 1].NodeTick?
    requires events[|events| - 1].t > events[c].t + timing.movementTimeout + timing.settleDuration + gap
    ensures exists k :: c <= k < |events| && events[k].NodeTick? &&
                        events[k].t <= events[c].t + timing.movementTimeout + timing.settleDuration + 2 * gap &&
                        Answered(r, events[..k + 1], i, Waiting(r, events[..c], i).value)
  {
    hide RunNode, Waiting, TickTimes, Within, LeftAlone, Answered, BuiltAs;
    var k := AnsweringTick(r, events, i, orientation, window, initial, timing, gap, c);
    TickReportsAnswer(r, events[..k + 1], i, Waiting(r, events[..c], i).value);
  }
}
