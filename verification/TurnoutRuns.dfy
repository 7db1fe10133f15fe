/** What every run of one channel promises: it is its motion machine run on its contact's history,
    its reports mirror its states, its output matches its target, and echoed commands die out. */
module TurnoutRuns {
  import opened Clock
  import opened Positions
  import opened Debouncers
  import opened DebounceHistory
  import opened FeedbackSensors
  import opened Motions
  import opened Turnouts

  datatype TurnoutEvent =
    | MoveTo(position: Position, t: nat)
    | Tick(level: Level, t: nat)
    | ReportCurrent

  function StepChannel(c: Channel, event: TurnoutEvent): Channel {
    match event
    case MoveTo(position, t) => c.MovedTo(position, Wrap(t))
    case Tick(level, t) => c.Ticked(level, Wrap(t))
    case ReportCurrent => c.ReportedCurrent()
  }

  function StepReports(c: Channel, event: TurnoutEvent): seq<TurnoutState> {
    match event
    case MoveTo(_, _) => []
    case Tick(level, t) => c.TickReports(level, Wrap(t))
    case ReportCurrent => [c.motion.State()]
  }

  function RunChannel(c: Channel, events: seq<TurnoutEvent>): Channel {
    if events == [] then c
    else StepChannel(RunChannel(c, events[..|events| - 1]), events[|events| - 1])
  }

  /** Everything the channel has told the reporter during the run. */
  function ChannelReports(c: Channel, events: seq<TurnoutEvent>): seq<TurnoutState> {
    if events == [] then []
    else
      var before := events[..|events| - 1];
      ChannelReports(c, before) + StepReports(RunChannel(c, before), events[|events| - 1])
  }

  // ----- The channel is its motion machine on its contact's history ----------------------------

  /** The contact's samples, in true time. */
  function Samples(events: seq<TurnoutEvent>): seq<Sample> {
    if events == [] then []
    else
      var before, event := Samples(events[..|events| - 1]), events[|events| - 1];
      if event.Tick? then before + [Sample(event.level, event.t)] else before
  }

  /** The run as the motion machine sees it: commands as given, and at each tick what the
      contact's whole history says, its warm-up told by the given clock. */
  ghost function MotionEvents(clocking: Clocking, orientation: Orientation, window: Duration,
                              events: seq<TurnoutEvent>): seq<MotionEvent>
  {
    if events == [] then []
    else
      var before, event := MotionEvents(clocking, orientation, window, events[..|events| - 1]), events[|events| - 1];
      match event
      case MoveTo(position, t) => before + [Command(position, t)]
      case Tick(_, t) => before + [Update(Observation(clocking, orientation, window, Samples(events)), t)]
      case ReportCurrent => before
  }

  lemma RunMotionSnoc(m: Motion, events: seq<MotionEvent>, event: MotionEvent)
    ensures RunMotion(m, events + [event]) == RunMotion(m, events).Step(event)
  {
    assert (events + [event])[..|events|] == events;
  }

  lemma RunFeedbackSnoc(f: Feedback, h: seq<Sample>, s: Sample)
    ensures RunFeedback(f, h + [s]) == RunFeedback(f, h).Sampled(s.level, Wrap(s.t))
  {
    assert (h + [s])[..|h|] == h;
  }

  lemma SampledWithinPrefix(events: seq<TurnoutEvent>, gap: nat)
    requires events != [] && SampledWithin(Samples(events), gap)
    ensures SampledWithin(Samples(events[..|events| - 1]), gap)
  {
    var before := Samples(events[..|events| - 1]);
    assert forall i :: 0 <= i < |before| ==> before[i] == Samples(events)[i];
  }

  /** The composite of debouncer, gate and motion machine is the motion machine run on the
      contact's debounced history, behind the gate as the 32-bit counter tells it. */
  lemma {:induction false} ChannelRunsSensedEvents(id: int, orientation: Orientation, window: Duration,
                                                   initial: Position, timing: Timing, events: seq<TurnoutEvent>,
                                                   gap: nat)
    requires SampledWithin(Samples(events), gap) && (window == 0 || window + gap <= WRAP)
    ensures var c := RunChannel(NewChannel(id, orientation, window, initial, timing), events);
            c.orientation == orientation &&
            c.sensor == RunFeedback(NewFeedback(orientation, window), Samples(events)) &&
            c.motion == RunMotion(NewMotion(initial, timing), MotionEvents(Wrapping, orientation, window, events))
  {
    if events != [] {
      var before, event := events[..|events| - 1], events[|events| - 1];
      var sensed := MotionEvents(Wrapping, orientation, window, before);
      SampledWithinPrefix(events, gap);
      ChannelRunsSensedEvents(id, orientation, window, initial, timing, before, gap);
      match event
      case MoveTo(position, t) =>
        RunMotionSnoc(NewMotion(initial, timing), sensed, Command(position, t));
      case Tick(level, t) =>
        RunFeedbackSnoc(NewFeedback(orientation, window), Samples(before), Sample(level, t));
        SensorObservesHistory(orientation, window, Samples(events), gap);
        RunMotionSnoc(NewMotion(initial, timing), sensed,
                      Update(Observation(Wrapping, orientation, window, Samples(events)), t));
      case ReportCurrent =>
    }
  }

  // ----- Reports mirror states ---------------------------------------------------------------

  /** A sequence with consecutive repeats removed. */
  function Collapse<T(==)>(s: seq<T>): seq<T> {
    if |s| < 2 then s
    else if s[|s| - 1] == s[|s| - 2] then Collapse(s[..|s| - 1])
    else Collapse(s[..|s| - 1]) + [s[|s| - 1]]
  }

  lemma CollapseSnoc<T>(s: seq<T>, x: T)
    ensures Collapse(s + [x]) == if s != [] && s[|s| - 1] == x then Collapse(s) else Collapse(s) + [x]
  {
    assert (s + [x])[..|s|] == s;
  }

  /** The states the channel was in at the end of each tick and at each forced report. */
  function ShownStates(c: Channel, events: seq<TurnoutEvent>): seq<TurnoutState> {
    if events == [] then []
    else
      var before := ShownStates(c, events[..|events| - 1]);
      if events[|events| - 1].MoveTo? then before else before + [RunChannel(c, events).motion.State()]
  }

  function Last<T>(s: seq<T>): Option<T> {
    if s == [] then None else Some(s[|s| - 1])
  }

  lemma StepTellsOnce(c: Channel, event: TurnoutEvent)
    ensures var after := StepChannel(c, event);
            if event.MoveTo? then StepReports(c, event) == [] && after.lastReported == c.lastReported
            else after.lastReported == Some(after.motion.State()) &&
                 StepReports(c, event) in {[], [after.motion.State()]} &&
                 (StepReports(c, event) == [] ==> c.lastReported == after.lastReported)
  {
  }

  /** Appending `told` (nothing, or the state now shown) to reports that mirror what was shown
      keeps them a mirror. */
  lemma MirrorStep(reports: seq<TurnoutState>, shown: seq<TurnoutState>, told: seq<TurnoutState>, state: TurnoutState)
    requires Collapse(reports) == Collapse(shown) && Last(reports) == Last(shown)
    requires told == [state] || (told == [] && Last(reports) == Some(state))
    ensures Collapse(reports + told) == Collapse(shown + [state])
    ensures Last(reports + told) == Some(state)
  {
    CollapseSnoc(shown, state);
    if told == [] {
      assert reports + told == reports;
    } else {
      CollapseSnoc(reports, state);
    }
  }

  /** Main result: with repeats collapsed, the report stream of any run is the state sequence,
      nothing lost and nothing invented, and what was last reported is what was last shown. */
  lemma {:induction false} ReportsMirrorStates(c: Channel, events: seq<TurnoutEvent>)
    requires c.lastReported.None?
    ensures Collapse(ChannelReports(c, events)) == Collapse(ShownStates(c, events))
    ensures Last(ChannelReports(c, events)) == Last(ShownStates(c, events)) == RunChannel(c, events).lastReported
  {
    if events != [] {
      var before, event := events[..|events| - 1], events[|events| - 1];
      ReportsMirrorStates(c, before);
      var told := StepReports(RunChannel(c, before), event);
      StepTellsOnce(RunChannel(c, before), event);
      if event.MoveTo? {
        assert ChannelReports(c, before) + told == ChannelReports(c, before);
      } else {
        MirrorStep(ChannelReports(c, before), ShownStates(c, before), told, RunChannel(c, events).motion.State());
      }
    }
  }

  /** Exactly when a tick reports: when the state it leaves is not the one last reported. */
  lemma TickReportsExactlyChanges(c: Channel, events: seq<TurnoutEvent>, level: Level, t: nat)
    requires c.lastReported.None?
    ensures var all := events + [Tick(level, t)];
            var state := RunChannel(c, all).motion.State();
            ChannelReports(c, all) ==
            ChannelReports(c, events) + if Last(ChannelReports(c, events)) == Some(state) then [] else [state]
  {
    assert (events + [Tick(level, t)])[..|events|] == events;
    ReportsMirrorStates(c, events);
  }

  /** Main result: without forced reports every change of state is reported once and nothing is
      ever repeated: the report stream is the state sequence without its repeats. */
  lemma {:induction false} ReportsAreTheChanges(c: Channel, events: seq<TurnoutEvent>)
    requires c.lastReported.None? && forall i :: 0 <= i < |events| ==> !events[i].ReportCurrent?
    ensures ChannelReports(c, events) == Collapse(ShownStates(c, events))
  {
    if events != [] {
      hide RunChannel, StepReports, Collapse, Motion.State;
      var before, event := events[..|events| - 1], events[|events| - 1];
      ReportsAreTheChanges(c, before);
      assert events == before + [event];
      match event
      case MoveTo(position, t) => CommandsReportNothing(c, before, position, t);
      case Tick(level, t) =>
        TickReportsExactlyChanges(c, before, level, t);
        ReportsMirrorStates(c, before);
        CollapseSnoc(ShownStates(c, before), RunChannel(c, events).motion.State());
      case ReportCurrent => assert false;
    }
  }

  lemma CommandsReportNothing(c: Channel, events: seq<TurnoutEvent>, position: Position, t: nat)
    ensures ChannelReports(c, events + [MoveTo(position, t)]) == ChannelReports(c, events)
    ensures ShownStates(c, events + [MoveTo(position, t)]) == ShownStates(c, events)
  {
    assert (events + [MoveTo(position, t)])[..|events|] == events;
  }

  // ----- The output pin ------------------------------------------------------------------------

  /** The last position commanded during the run. */
  function LastCommanded(events: seq<TurnoutEvent>): Option<Position> {
    if events == [] then None
    else if events[|events| - 1].MoveTo? then Some(events[|events| - 1].position)
    else LastCommanded(events[..|events| - 1])
  }

  /** The machine aims at the last position commanded, and the pin was last written that
      position's level; a channel never commanded has never had its pin written. */
  lemma {:induction false} OutputMatchesTarget(c: Channel, events: seq<TurnoutEvent>)
    requires c.writes == []
    ensures var after := RunChannel(c, events);
            after.orientation == c.orientation &&
            match LastCommanded(events)
            case None => after.writes == [] && after.motion.target == c.motion.target
            case Some(p) => after.motion.target == p && Last(after.writes) == Some(c.orientation.ToLevel(p))
  {
    if events != [] {
      OutputMatchesTarget(c, events[..|events| - 1]);
    }
  }

  /** Every position commanded during the run, in order. */
  function AllCommanded(events: seq<TurnoutEvent>): seq<Position> {
    if events == [] then []
    else
      AllCommanded(events[..|events| - 1]) +
      if events[|events| - 1].MoveTo? then [events[|events| - 1].position] else []
  }

  /** Main result: the pin is written once for each command, in order, with the level of the
      position commanded, and at no other time. */
  lemma {:induction false} PinLogIsTheCommands(c: Channel, events: seq<TurnoutEvent>)
    ensures var after, commanded := RunChannel(c, events), AllCommanded(events);
            after.orientation == c.orientation && |after.writes| == |c.writes| + |commanded| &&
            c.writes <= after.writes &&
            forall k :: 0 <= k < |commanded| ==>
              (after.writes[|c.writes| + k] == High <==> (commanded[k] == Thrown) != c.orientation.inverted)
  {
    if events != [] {
      PinLogIsTheCommands(c, events[..|events| - 1]);
    }
  }

  // ----- Echoed commands are quiescent ---------------------------------------------------------

  /** Every command repeats `p` and no tick observes the other position. */
  ghost predicate OnlyEchoes(c: Channel, events: seq<TurnoutEvent>, p: Position) {
    forall i :: 0 <= i < |events| ==>
      match events[i]
      case MoveTo(position, _) => position == p
      case Tick(level, t) =>
        RunChannel(c, events[..i]).sensor.Sampled(level, Wrap(t)).Observed() in {None, Some(p)}
      case ReportCurrent => true
  }

  /** The reports made by ticks alone, forced reports left out. */
  function TickOnlyReports(c: Channel, events: seq<TurnoutEvent>): seq<TurnoutState> {
    if events == [] then []
    else
      var before, event := events[..|events| - 1], events[|events| - 1];
      TickOnlyReports(c, before) +
      if event.Tick? then StepReports(RunChannel(c, before), event) else []
  }

  /** Main result: a channel at rest at `p` that has reported it answers echoes of its own report
      with silence: the motion machine never stirs and no tick reports, at any times at all. */
  lemma {:induction false} EchoesAreQuiescent(c: Channel, events: seq<TurnoutEvent>, p: Position)
    requires c.motion.phase == AtRest && c.motion.target == p && c.lastReported == Some(c.motion.State())
    requires OnlyEchoes(c, events, p)
    ensures RunChannel(c, events).motion == c.motion
    ensures RunChannel(c, events).lastReported == c.lastReported
    ensures TickOnlyReports(c, events) == []
  {
    if events != [] {
      var before := events[..|events| - 1];
      assert forall i :: 0 <= i < |before| ==> before[..i] == events[..i];
      EchoesAreQuiescent(c, before, p);
      assert events[|events| - 1] == events[|before|];
    }
  }
}
