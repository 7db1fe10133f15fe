/** The whole node against true time: what a channel of a running node shows is what the
    true-time motion machine shows on the commands addressed to it and its contact's history. */
module NodeTrueTime {
  import opened Clock
  import opened Positions
  import opened DebounceHistory
  import opened FeedbackSensors
  import opened Motions
  import opened TrueMotions
  import opened MotionRuns
  import opened Turnouts
  import opened TurnoutRuns
  import opened ChannelTrueTime
  import opened Registries
  import opened RegistryRuns

  /** Channel `i` is freshly built with these settings. */
  predicate BuiltAs(r: Registry, i: nat, orientation: Orientation, window: Duration, initial: Position, timing: Timing)
    requires r.Sized() && i < TURNOUTS_PER_NODE
  {
    r.turnouts[i] == NewChannel(r.turnouts[i].id, orientation, window, initial, timing)
  }

  /** What the motion machine of channel `i` lives through in this node run. */
  ghost function NodeMotionEvents(clocking: Clocking, r: Registry, events: seq<NodeEvent>, i: nat,
                                  orientation: Orientation, window: Duration): seq<MotionEvent>
    requires r.Sized() && WellFormed(events) && i < TURNOUTS_PER_NODE
  {
    MotionEvents(clocking, orientation, window, ChannelEvents(r, events, i))
  }

  // ----- Timing, told by the ticks alone -----------------------------------------------------

  function TickTimes(events: seq<NodeEvent>): seq<nat> {
    if events == [] then []
    else
      var before, event := TickTimes(events[..|events| - 1]), events[|events| - 1];
      if event.NodeTick? then before + [event.t] else before
  }

  /** How a channel's samples and motion events grow with one node event. */
  lemma TimesOnEvent(r: Registry, events: seq<NodeEvent>, i: nat)
    requires r.Sized() && events != [] && WellFormed(events) && i < TURNOUTS_PER_NODE
    ensures var before, event := events[..|events| - 1], events[|events| - 1];
            var all, lived := ChannelEvents(r, events, i), ChannelEvents(r, before, i);
            Times(Samples(all)) == Times(Samples(lived)) + (if event.NodeTick? then [event.t] else []) &&
            EventTimes(all) == EventTimes(lived) +
              if event.NodeTick? then (if Waiting(r, before, i).Some? then [event.t] else []) + [event.t] else []
  {
    hide Waiting, ChannelEvents, TickLived;
    var before, event := events[..|events| - 1], events[|events| - 1];
    var lived, waiting := ChannelEvents(r, before, i), Waiting(r, before, i);
    assert events == before + [event];
    ChannelEventsSnoc(r, before, event, i);
    match event
    case NodeCommand(_, _) => assert lived + [] == lived;
    case NodeTick(levels, t) => TimesAfterTick(lived, waiting, levels[i], t);
    case NodeReportAll => assert (lived + [ReportCurrent])[..|lived|] == lived;
  }

  lemma TimesAfterTick(lived: seq<TurnoutEvent>, waiting: Option<Position>, level: Level, t: nat)
    ensures var all := lived + TickLived(waiting, level, t);
            Times(Samples(all)) == Times(Samples(lived)) + [t] &&
            EventTimes(all) == EventTimes(lived) + ((if waiting.Some? then [t] else []) + [t])
  {
    var all := lived + TickLived(waiting, level, t);
    if waiting.Some? {
      assert all[..|all| - 1] == lived + [MoveTo(waiting.value, t)];
      assert all[..|all| - 1][..|lived|] == lived;
    } else {
      assert all[..|all| - 1] == lived;
    }
  }

  /** Every channel's contact is sampled at every tick and only then. */
  lemma {:induction false} SampledAtTicks(r: Registry, events: seq<NodeEvent>, i: nat)
    requires r.Sized() && WellFormed(events) && i < TURNOUTS_PER_NODE
    ensures Times(Samples(ChannelEvents(r, events, i))) == TickTimes(events)
  {
    if events != [] {
      SampledAtTicks(r, events[..|events| - 1], i);
      TimesOnEvent(r, events, i);
      hide ChannelEvents, Samples, Times;
      assert TickTimes(events[..|events| - 1]) + [] == TickTimes(events[..|events| - 1]);
    }
  }

  /** One more tick, at which the machine is updated and perhaps commanded first. */
  lemma MovesKeepUp(ticks: seq<nat>, moves: seq<nat>, commanded: bool, t: nat, gap: nat)
    requires Within(ticks + [t], gap) && Within(moves, gap) && Last(moves) == Last(ticks)
    ensures var more := moves + ((if commanded then [t] else []) + [t]);
            Within(more, gap) && Last(more) == Last(ticks + [t])
  {
    var longer := ticks + [t];
    var more := moves + ((if commanded then [t] else []) + [t]);
    assert longer[|ticks|] == t && (ticks != [] ==> longer[|ticks| - 1] == ticks[|ticks| - 1]);
    assert forall k :: 0 <= k < |moves| ==> more[k] == moves[k];
    assert forall k :: |moves| <= k < |more| ==> more[k] == t;
  }

  lemma WithinPrefix(times: seq<nat>, t: nat, gap: nat)
    requires Within(times + [t], gap)
    ensures Within(times, gap)
  {
    assert forall k :: 0 <= k < |times| ==> (times + [t])[k] == times[k];
  }

  /** The motion machine is commanded and updated at ticks only. */
  lemma {:induction false} MovedAtTicks(r: Registry, events: seq<NodeEvent>, i: nat, gap: nat)
    requires r.Sized() && WellFormed(events) && i < TURNOUTS_PER_NODE && Within(TickTimes(events), gap)
    ensures Within(EventTimes(ChannelEvents(r, events, i)), gap)
    ensures Last(EventTimes(ChannelEvents(r, events, i))) == Last(TickTimes(events))
  {
    if events == [] {
      return;
    }
    var before, event := events[..|events| - 1], events[|events| - 1];
    var ticks, moves := TickTimes(before), EventTimes(ChannelEvents(r, before, i));
    assert TickTimes(events) == if event.NodeTick? then ticks + [event.t] else ticks;
    TimesOnEvent(r, events, i);
    hide ChannelEvents, EventTimes, Waiting, Within, Samples, Times, TickTimes, Last;
    if event.NodeTick? {
      WithinPrefix(ticks, event.t, gap);
      MovedAtTicks(r, before, i, gap);
      MovesKeepUp(ticks, moves, Waiting(r, before, i).Some?, event.t, gap);
    } else {
      MovedAtTicks(r, before, i, gap);
      assert moves + [] == moves;
    }
  }

  /** The timing a node run must keep for channel `i`: contacts sampled within `gap` ms, and no
      2^31 ms pause while the channel is in motion. */
  ghost predicate InTime(r: Registry, events: seq<NodeEvent>, i: nat, orientation: Orientation, window: Duration,
                         initial: Position, timing: Timing, gap: nat)
    requires r.Sized() && WellFormed(events) && i < TURNOUTS_PER_NODE
  {
    SampledWithin(Samples(ChannelEvents(r, events, i)), gap) && (window == 0 || window + gap <= WRAP) &&
    Wrappable(timing) &&
    Paced(Resting(initial), timing, NodeMotionEvents(Wrapping, r, events, i, orientation, window))
  }

  /** Ticking in time is enough: ticks that never go back and come at most `gap` ms apart keep the
      timing for all eight channels, whatever is commanded. */
  lemma CloseTicksAreInTime(r: Registry, events: seq<NodeEvent>, i: nat, orientation: Orientation, window: Duration,
                            initial: Position, timing: Timing, gap: nat)
    requires r.Sized() && WellFormed(events) && i < TURNOUTS_PER_NODE
    requires Within(TickTimes(events), gap) && gap < HALF
    requires Wrappable(timing) && (window == 0 || window + gap <= WRAP)
    ensures InTime(r, events, i, orientation, window, initial, timing, gap)
  {
    hide MotionEvents, EventTimes, TickTimes, ChannelEvents, Paced, Samples;
    MovedAtTicks(r, events, i, gap);
    CloseEventsArePaced(Wrapping, orientation, window, initial, timing, ChannelEvents(r, events, i), gap);
    SampledAtTicks(r, events, i);
    var h := Samples(ChannelEvents(r, events, i));
    assert forall k :: 0 <= k < |h| ==> h[k].t == TickTimes(events)[k];
  }

  /** A channel in time is its motion machine run on what it has sensed. */
  lemma NodeRunsSensedEvents(r: Registry, events: seq<NodeEvent>, i: nat, orientation: Orientation, window: Duration,
                             initial: Position, timing: Timing, gap: nat)
    requires r.Sized() && WellFormed(events) && i < TURNOUTS_PER_NODE
    requires BuiltAs(r, i, orientation, window, initial, timing)
    requires InTime(r, events, i, orientation, window, initial, timing, gap)
    ensures RunNode(r, events).turnouts[i].motion ==
            RunMotion(NewMotion(initial, timing), NodeMotionEvents(Wrapping, r, events, i, orientation, window))
  {
    hide RunNode, RunChannel, RunMotion, RunFeedback, ChannelEvents, MotionEvents, Samples, SampledWithin, Paced;
    ChannelsAreIndependent(r, events, i);
    ChannelRunsSensedEvents(r.turnouts[i].id, orientation, window, initial, timing, ChannelEvents(r, events, i), gap);
  }

  // ----- What the node shows ---------------------------------------------------------------------

  /** Channel `i` shows what the unbounded machine shows, its warm-up told in true time. */
  ghost predicate NodeShowsTrueTime(r: Registry, events: seq<NodeEvent>, i: nat, orientation: Orientation,
                                    window: Duration, initial: Position, timing: Timing)
    requires r.Sized() && WellFormed(events) && i < TURNOUTS_PER_NODE
  {
    RunNode(r, events).turnouts[i].motion.State() ==
    RunTrue(Resting(initial), timing, NodeMotionEvents(Unbounded, r, events, i, orientation, window)).State()
  }

  /** Main result: however long the node runs, whatever the other channels do and however often
      the clock wraps, each channel shows what true time says it should, as long as every tick is
      clear of the stretch of `window` ms that follows each whole turn of the counter. */
  lemma NodeFollowsTrueTime(r: Registry, events: seq<NodeEvent>, i: nat, orientation: Orientation, window: Duration,
                            initial: Position, timing: Timing, gap: nat)
    requires r.Sized() && WellFormed(events) && i < TURNOUTS_PER_NODE
    requires BuiltAs(r, i, orientation, window, initial, timing)
    requires InTime(r, events, i, orientation, window, initial, timing, gap)
    requires ClearOfWraps(window, TickTimes(events))
    ensures NodeShowsTrueTime(r, events, i, orientation, window, initial, timing)
  {
    hide RunNode, RunChannel, RunTrue, MotionEvents, ChannelEvents, Samples, SampledWithin, ClearOfWraps, Paced;
    var lived := ChannelEvents(r, events, i);
    SampledAtTicks(r, events, i);
    SensedTrulyExactlyWhenClear(orientation, window, lived, gap);
    ChannelsAreIndependent(r, events, i);
    ChannelFollowsTrueTime(r.turnouts[i].id, orientation, window, initial, timing, lived, gap);
  }

  /** A node whose contacts all drift away just as the counter comes round. */
  function DriftingTicks(base: Level, window: Duration, n: nat): (events: seq<NodeEvent>)
    ensures |events| == n && WellFormed(events)
  {
    seq(n, (t: nat) => NodeTick(seq(TURNOUTS_PER_NODE, _ => DriftLevel(base, window, t)), t))
  }

  lemma DriftSnoc(base: Level, window: Duration, n: nat)
    ensures DriftTicks(base, window, n + 1) == DriftTicks(base, window, n) + [Tick(DriftLevel(base, window, n), n)]
    ensures DriftingTicks(base, window, n + 1)[..n] == DriftingTicks(base, window, n)
    ensures DriftingTicks(base, window, n + 1)[n] ==
            NodeTick(seq(TURNOUTS_PER_NODE, _ => DriftLevel(base, window, n)), n)
  {
  }

  lemma {:induction false} DriftingNode(r: Registry, i: nat, base: Level, window: Duration, n: nat)
    requires r.Sized() && i < TURNOUTS_PER_NODE && r.pending[i] == None
    ensures ChannelEvents(r, DriftingTicks(base, window, n), i) == DriftTicks(base, window, n)
    ensures Waiting(r, DriftingTicks(base, window, n), i) == None
    ensures TickTimes(DriftingTicks(base, window, n)) == seq(n, (t: nat) => t)
  {
    if n == 0 {
      return;
    }
    var level := DriftLevel(base, window, n - 1);
    DriftingNode(r, i, base, window, n - 1);
    DriftSnoc(base, window, n - 1);
    hide DriftingTicks, DriftTicks, DriftLevel;
    assert TickLived(None, level, n - 1) == [Tick(level, n - 1)];
    hide TickLived;
  }

  /** Main result: all runs of a node with ticks at most `gap` ms apart show true time on a channel
      exactly when the channel has no window to warm up in, or no time passes at all. */
  lemma NodeTrueTimeExactlyWhenGateNeverCloses(r: Registry, i: nat, orientation: Orientation, window: Duration,
                                               initial: Position, timing: Timing, gap: nat)
    requires r.Sized() && i < TURNOUTS_PER_NODE && r.pending[i] == None
    requires BuiltAs(r, i, orientation, window, initial, timing)
    requires Wrappable(timing) && gap < HALF && (window == 0 || window + gap <= WRAP)
    ensures (window == 0 || gap == 0) <==>
            forall events :: WellFormed(events) && Within(TickTimes(events), gap) ==>
                             NodeShowsTrueTime(r, events, i, orientation, window, initial, timing)
  {
    hide TickTimes, ChannelEvents, Samples, SampledWithin, RunNode, RunChannel, RunTrue, MotionEvents, Paced;
    if window == 0 || gap == 0 {
      forall events | WellFormed(events) && Within(TickTimes(events), gap)
        ensures NodeShowsTrueTime(r, events, i, orientation, window, initial, timing)
      {
        CloseTicksAreInTime(r, events, i, orientation, window, initial, timing, gap);
        SampledAtTicks(r, events, i);
        AlwaysClear(window, Samples(ChannelEvents(r, events, i)), gap);
        NodeFollowsTrueTime(r, events, i, orientation, window, initial, timing, gap);
      }
    } else {
      var base := orientation.ToLevel(initial);
      var events := DriftingTicks(base, window, WRAP + 1);
      DriftingNode(r, i, base, window, WRAP + 1);
      hide DriftingTicks, DriftTicks;
      DriftGoesUnnoticed(r.turnouts[i].id, orientation, window, initial, timing, gap);
      ChannelsAreIndependent(r, events, i);
      assert Within(TickTimes(events), gap);
      assert !NodeShowsTrueTime(r, events, i, orientation, window, initial, timing);
    }
  }

  /** Main result: a node that last reported a channel settled has never moved it, or has its
      contact's debounced word for that position, a full settle time old, from after the last
      command that moved it. */
  lemma NodeSettledReportsAreJustified(r: Registry, events: seq<NodeEvent>, i: nat, orientation: Orientation,
                                       window: Duration, initial: Position, timing: Timing, gap: nat)
    requires JustStarted(r) && WellFormed(events) && i < TURNOUTS_PER_NODE
    requires BuiltAs(r, i, orientation, window, initial, timing)
    requires InTime(r, events, i, orientation, window, initial, timing, gap)
    requires events != [] && events[|events| - 1].NodeTick?
    requires Last(OnId(NodeReports(r, events), Ids(r.turnouts)[i])) in {Some(ClosedState), Some(ThrownState)}
    ensures var lived := NodeMotionEvents(Wrapping, r, events, i, orientation, window);
            NeverLeftRest(initial, timing, lived) ||
            exists j, k :: 0 <= j < k < |lived| && Justifies(initial, timing, lived, j, k)
  {
    hide RunNode, NodeReports, OnId, Ids, ChannelEvents, MotionEvents, Collapse, LastCommanded, TickStates;
    hide RunMotion, RunTrue, Paced, Samples, SampledWithin, NeverLeftRest, Justifies;
    var lived := NodeMotionEvents(Wrapping, r, events, i, orientation, window);
    NodeAgrees(r, events, i);
    NodeRunsSensedEvents(r, events, i, orientation, window, initial, timing, gap);
    assert lived[..|lived|] == lived;
    SettledReportsAreJustified(initial, timing, lived);
  }
}
