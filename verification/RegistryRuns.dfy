/** What every run of a node promises: each channel runs on its own, on just the commands that
    are addressed to it and not superseded, and reports agree with states node-wide. */
module RegistryRuns {
  import opened Clock
  import opened Positions
  import opened Motions
  import opened Turnouts
  import opened TurnoutRuns
  import opened Registries

  datatype NodeEvent =
    | NodeCommand(id: int, position: Position)
    | NodeTick(levels: seq<Level>, t: nat)
    | NodeReportAll

  /** Every tick reads eight contacts. */
  predicate WellFormedEvent(event: NodeEvent) {
    event.NodeTick? ==> |event.levels| == TURNOUTS_PER_NODE
  }

  predicate WellFormed(events: seq<NodeEvent>) {
    forall i :: 0 <= i < |events| ==> WellFormedEvent(events[i])
  }

  function RunNode(r: Registry, events: seq<NodeEvent>): (after: Registry)
    requires r.Sized() && WellFormed(events)
    ensures after.Sized() && after.nodeId == r.nodeId
  {
    if events == [] then r
    else
      var before, event := RunNode(r, events[..|events| - 1]), events[|events| - 1];
      match event
      case NodeCommand(id, position) => before.Commanded(id, position)
      case NodeTick(levels, t) => before.Ticked(levels, Wrap(t))
      case NodeReportAll => before.ReportedAll()
  }

  /** Everything the node has told the reporter during the run. */
  function NodeReports(r: Registry, events: seq<NodeEvent>): seq<Report>
    requires r.Sized() && WellFormed(events)
  {
    if events == [] then []
    else
      var before := events[..|events| - 1];
      NodeReports(r, before) + EventReports(RunNode(r, before), events[|events| - 1])
  }

  /** What one node event makes the node report, given the state before it. */
  function EventReports(r: Registry, event: NodeEvent): seq<Report>
    requires r.Sized() && WellFormedEvent(event)
  {
    match event
    case NodeCommand(_, _) => []
    case NodeTick(levels, t) => TickReports(r.Dispatched(Wrap(t)), levels, Wrap(t))
    case NodeReportAll => ForcedReports(r.turnouts)
  }

  // ----- Addressing ------------------------------------------------------------------------

  /** The global id of channel `i` (from 0) of a node: its node id, then two digits. */
  predicate Addresses(nodeId: int, id: int, i: nat) {
    0 <= nodeId && id == nodeId * 100 + i + 1
  }

  /** A command changes a pending slot exactly when it is addressed to a channel of this node,
      and then only that slot. Negative node ids accept nothing. */
  lemma CommandReachesItsChannelOnly(r: Registry, id: int, position: Position)
    requires r.Sized()
    ensures forall i :: 0 <= i < TURNOUTS_PER_NODE ==>
      r.Commanded(id, position).pending[i] == if Addresses(r.nodeId, id, i) then Some(position) else r.pending[i]
    ensures (forall i :: 0 <= i < TURNOUTS_PER_NODE ==> !Addresses(r.nodeId, id, i)) ==> r.Commanded(id, position) == r
  {
    var channel := TruncMod(id, 100);
    assert id == TruncDiv(id, 100) * 100 + channel;
    if TruncDiv(id, 100) == r.nodeId && 1 <= channel <= TURNOUTS_PER_NODE {
      assert Addresses(r.nodeId, id, channel - 1);
    }
  }

  /** No id is accepted by two nodes, nor by two channels of one node. */
  lemma AddressesAreDisjoint(nodeId: int, i: nat, nodeId': int, i': nat, id: int)
    requires i < TURNOUTS_PER_NODE && i' < TURNOUTS_PER_NODE
    requires Addresses(nodeId, id, i) && Addresses(nodeId', id, i')
    ensures nodeId == nodeId' && i == i'
  {
  }

  // ----- Channels are independent ------------------------------------------------------------

  /** The command waiting for channel `i`: the latest addressed to it since the last tick. */
  function Waiting(r: Registry, events: seq<NodeEvent>, i: nat): Option<Position>
    requires r.Sized() && i < TURNOUTS_PER_NODE
  {
    if events == [] then r.pending[i]
    else
      match events[|events| - 1]
      case NodeCommand(id, position) =>
        if Addresses(r.nodeId, id, i) then Some(position) else Waiting(r, events[..|events| - 1], i)
      case NodeTick(_, _) => None
      case NodeReportAll => Waiting(r, events[..|events| - 1], i)
  }

  /** The run as channel `i` alone would live it. */
  function ChannelEvents(r: Registry, events: seq<NodeEvent>, i: nat): seq<TurnoutEvent>
    requires r.Sized() && WellFormed(events) && i < TURNOUTS_PER_NODE
  {
    if events == [] then []
    else
      var before := events[..|events| - 1];
      ChannelEvents(r, before, i) + Lived(Waiting(r, before, i), events[|events| - 1], i)
  }

  /** What one node event is to channel `i`: a tick hands over its waiting command first. */
  function Lived(waiting: Option<Position>, event: NodeEvent, i: nat): seq<TurnoutEvent>
    requires WellFormedEvent(event) && i < TURNOUTS_PER_NODE
  {
    match event
    case NodeCommand(_, _) => []
    case NodeTick(levels, t) => TickLived(waiting, levels[i], t)
    case NodeReportAll => [ReportCurrent]
  }

  function TickLived(waiting: Option<Position>, level: Level, t: nat): seq<TurnoutEvent> {
    (if waiting.Some? then [MoveTo(waiting.value, t)] else []) + [Tick(level, t)]
  }

  lemma RunChannelSnoc(c: Channel, events: seq<TurnoutEvent>, event: TurnoutEvent)
    ensures RunChannel(c, events + [event]) == StepChannel(RunChannel(c, events), event)
    ensures ChannelReports(c, events + [event]) == ChannelReports(c, events) + StepReports(RunChannel(c, events), event)
  {
    assert (events + [event])[..|events|] == events;
  }

  /** What one node tick means to a channel: its waiting command, if any, then a tick. */
  lemma RunChannelTick(c: Channel, events: seq<TurnoutEvent>, waiting: Option<Position>, level: Level, t: nat)
    ensures var moved := Handed(RunChannel(c, events), waiting, Wrap(t));
            var all := events + TickLived(waiting, level, t);
            RunChannel(c, all) == moved.Ticked(level, Wrap(t)) &&
            ChannelReports(c, all) == ChannelReports(c, events) + moved.TickReports(level, Wrap(t))
  {
    hide Channel.MovedTo, Channel.Ticked, Channel.TickReports;
    if waiting.Some? {
      var move := MoveTo(waiting.value, t);
      RunChannelSnoc(c, events, move);
      RunChannelSnoc(c, events + [move], Tick(level, t));
      assert events + TickLived(waiting, level, t) == events + [move] + [Tick(level, t)];
    } else {
      RunChannelSnoc(c, events, Tick(level, t));
      assert events + TickLived(waiting, level, t) == events + [Tick(level, t)];
    }
  }

  /** Main result: a node run is eight channel runs side by side. Whatever is commanded, in
      whatever order, channel `i` ends as if it alone had received the latest command addressed
      to it before each tick; earlier ones leave no trace. */
  lemma {:induction false} ChannelsAreIndependent(r: Registry, events: seq<NodeEvent>, i: nat)
    requires r.Sized() && WellFormed(events) && i < TURNOUTS_PER_NODE
    ensures RunNode(r, events).turnouts[i] == RunChannel(r.turnouts[i], ChannelEvents(r, events, i))
    ensures RunNode(r, events).pending[i] == Waiting(r, events, i)
  {
    if events == [] {
      return;
    }
    var before, event := events[..|events| - 1], events[|events| - 1];
    var c, lived := r.turnouts[i], ChannelEvents(r, before, i);
    assert ChannelEvents(r, events, i) == lived + Lived(Waiting(r, before, i), event, i);
    ChannelsAreIndependent(r, before, i);
    hide Handed, TickLived, RunChannel, ChannelReports, ChannelEvents;
    hide Channel.Ticked, Channel.TickReports, Channel.ReportedCurrent;
    match event
    case NodeCommand(id, position) =>
      CommandReachesItsChannelOnly(RunNode(r, before), id, position);
      assert lived + [] == lived;
    case NodeTick(levels, t) => RunChannelTick(c, lived, Waiting(r, before, i), levels[i], t);
    case NodeReportAll => RunChannelSnoc(c, lived, ReportCurrent);
  }

  /** Commands coalesce: two bursts of commands that leave each channel the same latest command
      have the same effect, whatever else they contain and in whatever order. */
  lemma CommandsCoalesce(r: Registry, burst: seq<NodeEvent>, burst': seq<NodeEvent>)
    requires r.Sized()
    requires forall e :: e in burst + burst' ==> e.NodeCommand?
    requires forall i :: 0 <= i < TURNOUTS_PER_NODE ==> Waiting(r, burst, i) == Waiting(r, burst', i)
    ensures WellFormed(burst) && WellFormed(burst') && RunNode(r, burst) == RunNode(r, burst')
  {
    assert forall e :: e in burst || e in burst' ==> e in burst + burst';
    CommandsOnlyWait(r, burst);
    CommandsOnlyWait(r, burst');
    assert RunNode(r, burst).pending == RunNode(r, burst').pending;
  }

  lemma {:induction false} CommandsOnlyWait(r: Registry, burst: seq<NodeEvent>)
    requires r.Sized()
    requires forall e :: e in burst ==> e.NodeCommand?
    ensures WellFormed(burst) && RunNode(r, burst).turnouts == r.turnouts
    ensures forall i :: 0 <= i < TURNOUTS_PER_NODE ==> RunNode(r, burst).pending[i] == Waiting(r, burst, i)
  {
    assert WellFormed(burst) by {
      assert forall i :: 0 <= i < |burst| ==> burst[i] in burst;
    }
    if burst != [] {
      CommandsOnlyWait(r, burst[..|burst| - 1]);
      assert burst[|burst| - 1] in burst;
    }
    forall i | 0 <= i < TURNOUTS_PER_NODE
      ensures RunNode(r, burst).pending[i] == Waiting(r, burst, i)
    {
      ChannelsAreIndependent(r, burst, i);
    }
  }

  // ----- Reports, per channel ------------------------------------------------------------------

  /** The states reported under one id. */
  function OnId(log: seq<Report>, id: int): seq<TurnoutState> {
    if log == [] then []
    else
      var before, report := OnId(log[..|log| - 1], id), log[|log| - 1];
      if report.id == id then before + [report.state] else before
  }

  lemma {:induction false} OnIdConcat(a: seq<Report>, b: seq<Report>, id: int)
    ensures OnId(a + b, id) == OnId(a, id) + OnId(b, id)
  {
    if b == [] {
      assert a + b == a;
    } else {
      assert (a + b)[..|a + b| - 1] == a + b[..|b| - 1];
      OnIdConcat(a, b[..|b| - 1], id);
    }
  }

  lemma {:induction false} OnIdLabelled(owner: int, states: seq<TurnoutState>, id: int)
    ensures OnId(Labelled(owner, states), id) == if owner == id then states else []
  {
    if states != [] {
      var n := |states| - 1;
      assert Labelled(owner, states)[..n] == Labelled(owner, states[..n]);
      OnIdLabelled(owner, states[..n], id);
    }
  }

  ghost predicate Distinct(ids: seq<int>) {
    forall i, j :: 0 <= i < |ids| && 0 <= j < |ids| && i != j ==> ids[i] != ids[j]
  }

  lemma {:induction false} OnIdGathered(ids: seq<int>, told: seq<seq<TurnoutState>>, n: nat, i: nat)
    requires n <= |ids| == |told| && i < |ids| && Distinct(ids)
    ensures OnId(Gathered(ids, told, n), ids[i]) == if i < n then told[i] else []
  {
    if n > 0 {
      OnIdGathered(ids, told, n - 1, i);
      OnIdConcat(Gathered(ids, told, n - 1), Labelled(ids[n - 1], told[n - 1]), ids[i]);
      OnIdLabelled(ids[n - 1], told[n - 1], ids[i]);
    }
  }

  /** Ids are fixed at construction. */
  lemma {:induction false} IdsAreKept(r: Registry, events: seq<NodeEvent>)
    requires r.Sized() && WellFormed(events)
    ensures Ids(RunNode(r, events).turnouts) == Ids(r.turnouts)
  {
    if events != [] {
      IdsAreKept(r, events[..|events| - 1]);
      assert forall i :: 0 <= i < TURNOUTS_PER_NODE ==>
        Ids(RunNode(r, events).turnouts)[i] == Ids(RunNode(r, events[..|events| - 1]).turnouts)[i];
    }
  }

  lemma DispatchKeepsIds(r: Registry, now: Instant)
    requires r.Sized()
    ensures Ids(r.Dispatched(now)) == Ids(r.turnouts)
  {
    assert forall i :: 0 <= i < TURNOUTS_PER_NODE ==> Handed(r.turnouts[i], r.pending[i], now).id == r.turnouts[i].id;
    assert forall i :: 0 <= i < TURNOUTS_PER_NODE ==> Ids(r.Dispatched(now))[i] == Ids(r.turnouts)[i];
  }

  /** How a channel's own run grows with one node event. */
  lemma ChannelEventsSnoc(r: Registry, before: seq<NodeEvent>, event: NodeEvent, i: nat)
    requires r.Sized() && WellFormed(before) && WellFormedEvent(event) && i < TURNOUTS_PER_NODE
    ensures WellFormed(before + [event])
    ensures ChannelEvents(r, before + [event], i) ==
            ChannelEvents(r, before, i) + Lived(Waiting(r, before, i), event, i)
  {
    assert (before + [event])[..|before|] == before;
  }

  /** What one node event makes channel `i` report. */
  function EventTold(r: Registry, event: NodeEvent, i: nat): seq<TurnoutState>
    requires r.Sized() && WellFormedEvent(event) && i < TURNOUTS_PER_NODE
  {
    match event
    case NodeCommand(_, _) => []
    case NodeTick(levels, t) => r.Dispatched(Wrap(t))[i].TickReports(levels[i], Wrap(t))
    case NodeReportAll => [r.turnouts[i].motion.State()]
  }

  lemma OnIdEventReports(r: Registry, event: NodeEvent, i: nat)
    requires r.Sized() && WellFormedEvent(event) && i < TURNOUTS_PER_NODE && Distinct(Ids(r.turnouts))
    ensures OnId(EventReports(r, event), Ids(r.turnouts)[i]) == EventTold(r, event, i)
  {
    hide Handed, Channel.TickReports, Labelled;
    match event
    case NodeCommand(_, _) =>
    case NodeTick(levels, t) =>
      var dispatched := r.Dispatched(Wrap(t));
      DispatchKeepsIds(r, Wrap(t));
      OnIdGathered(Ids(dispatched), ToldByTick(dispatched, levels, Wrap(t)), TURNOUTS_PER_NODE, i);
    case NodeReportAll =>
      OnIdGathered(Ids(r.turnouts), ToldByForce(r.turnouts), TURNOUTS_PER_NODE, i);
  }

  lemma ChannelTells(r: Registry, before: seq<NodeEvent>, event: NodeEvent, i: nat)
    requires r.Sized() && WellFormed(before) && WellFormedEvent(event) && i < TURNOUTS_PER_NODE
    ensures WellFormed(before + [event])
    ensures ChannelReports(r.turnouts[i], ChannelEvents(r, before + [event], i)) ==
            ChannelReports(r.turnouts[i], ChannelEvents(r, before, i)) + EventTold(RunNode(r, before), event, i)
  {
    hide Handed, TickLived, Waiting, RunNode, RunChannel, ChannelReports, ChannelEvents;
    hide Channel.TickReports, Channel.Ticked, Motion.State;
    var c, lived := r.turnouts[i], ChannelEvents(r, before, i);
    ChannelEventsSnoc(r, before, event, i);
    ChannelsAreIndependent(r, before, i);
    match event
    case NodeCommand(_, _) => assert lived + [] == lived;
    case NodeTick(levels, t) => RunChannelTick(c, lived, Waiting(r, before, i), levels[i], t);
    case NodeReportAll => RunChannelSnoc(c, lived, ReportCurrent);
  }

  /** What the node reports under a channel's id is exactly what the channel alone reports. */
  lemma {:induction false} ReportsAreIndependent(r: Registry, events: seq<NodeEvent>, i: nat)
    requires r.Sized() && WellFormed(events) && i < TURNOUTS_PER_NODE && Distinct(Ids(r.turnouts))
    ensures OnId(NodeReports(r, events), Ids(r.turnouts)[i]) ==
            ChannelReports(r.turnouts[i], ChannelEvents(r, events, i))
  {
    if events != [] {
      var before, event := events[..|events| - 1], events[|events| - 1];
      assert events == before + [event];
      hide RunNode, ChannelReports, ChannelEvents, EventReports;
      ReportsAreIndependent(r, before, i);
      IdsAreKept(r, before);
      OnIdConcat(NodeReports(r, before), EventReports(RunNode(r, before), event), Ids(r.turnouts)[i]);
      OnIdEventReports(RunNode(r, before), event, i);
      ChannelTells(r, before, event, i);
    }
  }

  // ----- Node-wide agreement ---------------------------------------------------------------------

  /** The channel's state at the end of each tick; its initial state comes first if a forced
      report precedes every tick. */
  function TickStates(r: Registry, events: seq<NodeEvent>, i: nat): seq<TurnoutState>
    requires r.Sized() && WellFormed(events) && i < TURNOUTS_PER_NODE
  {
    if events == [] then []
    else
      var before := TickStates(r, events[..|events| - 1], i);
      match events[|events| - 1]
      case NodeCommand(_, _) => before
      case NodeTick(_, _) => before + [RunNode(r, events).turnouts[i].motion.State()]
      case NodeReportAll => if before == [] then [r.turnouts[i].motion.State()] else before
  }

  lemma ShownSnoc(c: Channel, events: seq<TurnoutEvent>, event: TurnoutEvent)
    ensures ShownStates(c, events + [event]) ==
            if event.MoveTo? then ShownStates(c, events)
            else ShownStates(c, events) + [RunChannel(c, events + [event]).motion.State()]
  {
    assert (events + [event])[..|events|] == events;
  }

  lemma ShownAfterTick(c: Channel, events: seq<TurnoutEvent>, waiting: Option<Position>, level: Level, t: nat)
    ensures var all := events + TickLived(waiting, level, t);
            ShownStates(c, all) == ShownStates(c, events) + [RunChannel(c, all).motion.State()]
  {
    if waiting.Some? {
      var move := MoveTo(waiting.value, t);
      ShownSnoc(c, events, move);
      ShownSnoc(c, events + [move], Tick(level, t));
      assert events + TickLived(waiting, level, t) == events + [move] + [Tick(level, t)];
    } else {
      ShownSnoc(c, events, Tick(level, t));
      assert events + TickLived(waiting, level, t) == events + [Tick(level, t)];
    }
  }

  /** How the states a channel shows grow with one node event. */
  lemma ShownOnEvent(r: Registry, before: seq<NodeEvent>, event: NodeEvent, i: nat)
    requires r.Sized() && WellFormed(before) && WellFormedEvent(event) && i < TURNOUTS_PER_NODE
    ensures WellFormed(before + [event])
    ensures var c, state := r.turnouts[i], RunNode(r, before + [event]).turnouts[i].motion.State();
            ShownStates(c, ChannelEvents(r, before + [event], i)) ==
            ShownStates(c, ChannelEvents(r, before, i)) + if event.NodeCommand? then [] else [state]
  {
    hide Channel.Ticked, StepChannel, RunNode;
    var c, lived := r.turnouts[i], ChannelEvents(r, before, i);
    ChannelEventsSnoc(r, before, event, i);
    ChannelsAreIndependent(r, before + [event], i);
    match event
    case NodeCommand(_, _) =>
      assert lived + [] == lived && ShownStates(c, lived) + [] == ShownStates(c, lived);
    case NodeTick(levels, t) =>
      ShownAfterTick(c, lived, Waiting(r, before, i), levels[i], t);
    case NodeReportAll => ShownSnoc(c, lived, ReportCurrent);
  }

  /** Only a tick changes what a channel's motion machine shows. */
  lemma OnlyTicksMove(r: Registry, before: seq<NodeEvent>, event: NodeEvent, i: nat)
    requires r.Sized() && WellFormed(before) && WellFormedEvent(event) && i < TURNOUTS_PER_NODE
    requires !event.NodeTick?
    ensures WellFormed(before + [event])
    ensures RunNode(r, before + [event]).turnouts[i].motion == RunNode(r, before).turnouts[i].motion
  {
    assert (before + [event])[..|before|] == before;
  }

  /** Forced reports between ticks show nothing new. */
  lemma {:induction false} ForcedReportsShowNothingNew(r: Registry, events: seq<NodeEvent>, i: nat)
    requires r.Sized() && WellFormed(events) && i < TURNOUTS_PER_NODE
    ensures var shown := ShownStates(r.turnouts[i], ChannelEvents(r, events, i));
            Collapse(shown) == Collapse(TickStates(r, events, i)) && Last(shown) == Last(TickStates(r, events, i))
    ensures var now := RunNode(r, events).turnouts[i].motion;
            if TickStates(r, events, i) == [] then now == r.turnouts[i].motion
            else Last(TickStates(r, events, i)) == Some(now.State())
  {
    if events != [] {
      hide RunNode, ChannelEvents, ShownStates, Collapse, Motion.State;
      var before, event := events[..|events| - 1], events[|events| - 1];
      assert events == before + [event];
      ForcedReportsShowNothingNew(r, before, i);
      ShownOnEvent(r, before, event, i);
      if !event.NodeTick? {
        OnlyTicksMove(r, before, event, i);
      }
      var shown := ShownStates(r.turnouts[i], ChannelEvents(r, before, i));
      var state := RunNode(r, events).turnouts[i].motion.State();
      match event
      case NodeCommand(_, _) => assert shown + [] == shown;
      case NodeTick(_, _) => ShowBoth(shown, TickStates(r, before, i), state);
      case NodeReportAll => ShowAgain(shown, TickStates(r, before, i), state);
    }
  }

  lemma ShowBoth(shown: seq<TurnoutState>, ticks: seq<TurnoutState>, state: TurnoutState)
    requires Collapse(shown) == Collapse(ticks) && Last(shown) == Last(ticks)
    ensures Collapse(shown + [state]) == Collapse(ticks + [state])
    ensures Last(shown + [state]) == Last(ticks + [state]) == Some(state)
  {
    CollapseSnoc(shown, state);
    CollapseSnoc(ticks, state);
  }

  lemma ShowAgain(shown: seq<TurnoutState>, ticks: seq<TurnoutState>, state: TurnoutState)
    requires Collapse(shown) == Collapse(ticks) && Last(shown) == Last(ticks)
    requires ticks == [] || Last(ticks) == Some(state)
    ensures var ticks' := if ticks == [] then [state] else ticks;
            Collapse(shown + [state]) == Collapse(ticks') && Last(shown + [state]) == Last(ticks') == Some(state)
  {
    CollapseSnoc(shown, state);
    assert ticks == [] ==> shown == [];
  }

  /** A node as it starts: nothing waiting, nothing written, nothing reported, ids distinct. */
  ghost predicate JustStarted(r: Registry) {
    r.Sized() && Distinct(Ids(r.turnouts)) &&
    forall i :: 0 <= i < TURNOUTS_PER_NODE ==>
      r.pending[i] == None && r.turnouts[i].writes == [] && r.turnouts[i].lastReported == None
  }

  /** Main result: after any run, what has been reported for a channel is, repeats collapsed, its
      state after each tick; after every tick nothing waits, the last report is the present state,
      and a channel ever commanded has its pin at the level of the position it aims for. */
  lemma NodeAgrees(r: Registry, events: seq<NodeEvent>, i: nat)
    requires JustStarted(r) && WellFormed(events) && i < TURNOUTS_PER_NODE
    ensures Collapse(OnId(NodeReports(r, events), Ids(r.turnouts)[i])) == Collapse(TickStates(r, events, i))
    ensures var c := RunNode(r, events).turnouts[i];
            match LastCommanded(ChannelEvents(r, events, i))
            case None => c.writes == [] && c.motion.target == r.turnouts[i].motion.target
            case Some(p) => c.motion.target == p && Last(c.writes) == Some(r.turnouts[i].orientation.ToLevel(p))
    ensures events != [] && events[|events| - 1].NodeTick? ==>
            var after := RunNode(r, events);
            after.pending[i] == None &&
            Last(OnId(NodeReports(r, events), Ids(r.turnouts)[i])) == after.turnouts[i].lastReported ==
            Some(after.turnouts[i].motion.State())
  {
    ReportsAreIndependent(r, events, i);
    ChannelsAreIndependent(r, events, i);
    ForcedReportsShowNothingNew(r, events, i);
    ReportsMirrorStates(r.turnouts[i], ChannelEvents(r, events, i));
    OutputMatchesTarget(r.turnouts[i], ChannelEvents(r, events, i));
  }

  /** Exactly when a node tick reports a channel: when the state it leaves the channel in is not
      the one last reported for it. */
  lemma NodeTickReportsExactlyChanges(r: Registry, events: seq<NodeEvent>, levels: seq<Level>, t: nat, i: nat)
    requires JustStarted(r) && WellFormed(events) && |levels| == TURNOUTS_PER_NODE && i < TURNOUTS_PER_NODE
    ensures var all, id := events + [NodeTick(levels, t)], Ids(r.turnouts)[i];
            WellFormed(all) &&
            var state := RunNode(r, all).turnouts[i].motion.State();
            OnId(NodeReports(r, all), id) ==
            OnId(NodeReports(r, events), id) +
            if Last(OnId(NodeReports(r, events), id)) == Some(state) then [] else [state]
  {
    hide RunNode, NodeReports, OnId, Ids, ChannelEvents, ChannelReports, RunChannel, Motion.State, Waiting, TickLived;
    var all, c, lived := events + [NodeTick(levels, t)], r.turnouts[i], ChannelEvents(r, events, i);
    var waiting := Waiting(r, events, i);
    ChannelEventsSnoc(r, events, NodeTick(levels, t), i);
    ReportsAreIndependent(r, events, i);
    ReportsAreIndependent(r, all, i);
    ChannelsAreIndependent(r, all, i);
    TickLivedReports(c, lived, waiting, levels[i], t);
  }

  lemma TickLivedReports(c: Channel, lived: seq<TurnoutEvent>, waiting: Option<Position>, level: Level, t: nat)
    requires c.lastReported.None?
    ensures var all := lived + TickLived(waiting, level, t);
            var state := RunChannel(c, all).motion.State();
            ChannelReports(c, all) ==
            ChannelReports(c, lived) + if Last(ChannelReports(c, lived)) == Some(state) then [] else [state]
  {
    hide RunChannel, ChannelReports, Motion.State;
    if waiting.Some? {
      var moved := lived + [MoveTo(waiting.value, t)];
      CommandsReportNothing(c, lived, waiting.value, t);
      TickReportsExactlyChanges(c, moved, level, t);
      assert lived + TickLived(waiting, level, t) == moved + [Tick(level, t)];
    } else {
      TickReportsExactlyChanges(c, lived, level, t);
      assert lived + TickLived(waiting, level, t) == lived + [Tick(level, t)];
    }
  }

  /** Main result: without forced reports the node reports each channel's changes of state, once
      each, and never repeats itself. */
  lemma NodeReportsAreTheChanges(r: Registry, events: seq<NodeEvent>, i: nat)
    requires JustStarted(r) && WellFormed(events) && i < TURNOUTS_PER_NODE
    requires forall k :: 0 <= k < |events| ==> !events[k].NodeReportAll?
    ensures OnId(NodeReports(r, events), Ids(r.turnouts)[i]) == Collapse(TickStates(r, events, i))
  {
    hide RunNode, NodeReports, OnId, Ids, ChannelEvents, ChannelReports, RunChannel, Motion.State, Collapse, TickStates;
    ReportsAreIndependent(r, events, i);
    NothingForced(r, events, i);
    ReportsAreTheChanges(r.turnouts[i], ChannelEvents(r, events, i));
    ForcedReportsShowNothingNew(r, events, i);
  }

  lemma {:induction false} NothingForced(r: Registry, events: seq<NodeEvent>, i: nat)
    requires r.Sized() && WellFormed(events) && i < TURNOUTS_PER_NODE
    requires forall k :: 0 <= k < |events| ==> !events[k].NodeReportAll?
    ensures forall k :: 0 <= k < |ChannelEvents(r, events, i)| ==> !ChannelEvents(r, events, i)[k].ReportCurrent?
  {
    if events != [] {
      hide Waiting;
      NothingForced(r, events[..|events| - 1], i);
    }
  }

  // ----- The order of one node event's reports -----------------------------------------------------

  /** The channels that have something to say, ascending. */
  function Speaking(told: seq<seq<TurnoutState>>, n: nat): (channels: seq<nat>)
    requires n <= |told|
    ensures forall k :: 0 <= k < |channels| ==> channels[k] < n
  {
    if n == 0 then [] else Speaking(told, n - 1) + if told[n - 1] == [] then [] else [n - 1]
  }

  /** Reports gathered from channels that each say at most one thing: one report per speaking
      channel, in ascending order of channels. */
  lemma {:induction false} GatheredInOrder(ids: seq<int>, told: seq<seq<TurnoutState>>, n: nat)
    requires n <= |ids| == |told| && forall i :: 0 <= i < |told| ==> |told[i]| <= 1
    ensures var speaking, reports := Speaking(told, n), Gathered(ids, told, n);
            |reports| == |speaking| &&
            (forall k :: 0 <= k < |speaking| ==>
              told[speaking[k]] != [] && reports[k] == StateReport(ids[speaking[k]], told[speaking[k]][0])) &&
            (forall j, k :: 0 <= j < k < |speaking| ==> speaking[j] < speaking[k]) &&
            (forall i :: 0 <= i < n ==> (i in speaking <==> told[i] != []))
  {
    if n > 0 {
      GatheredInOrder(ids, told, n - 1);
    }
  }

  /** Each channel's report of one event comes before those of the channels after it. */
  lemma EventReportsInOrder(r: Registry, event: NodeEvent, i: nat, j: nat)
    requires r.Sized() && WellFormedEvent(event) && Distinct(Ids(r.turnouts))
    requires i < |EventReports(r, event)| && j < |EventReports(r, event)|
    ensures var reports, ids := EventReports(r, event), Ids(r.turnouts);
            exists a, b :: 0 <= a < TURNOUTS_PER_NODE && 0 <= b < TURNOUTS_PER_NODE &&
                           reports[i].id == ids[a] && reports[j].id == ids[b] && (i < j <==> a < b)
  {
    hide Channel.TickReports, Motion.State, Gathered, Speaking;
    match event
    case NodeCommand(_, _) =>
    case NodeTick(levels, t) =>
      var dispatched := r.Dispatched(Wrap(t));
      DispatchKeepsIds(r, Wrap(t));
      var told := ToldByTick(dispatched, levels, Wrap(t));
      TicksSayOneThing(dispatched, levels, Wrap(t));
      GatheredInOrder(Ids(dispatched), told, TURNOUTS_PER_NODE);
      var speaking := Speaking(told, TURNOUTS_PER_NODE);
      assert i < j <==> speaking[i] < speaking[j];
    case NodeReportAll =>
      var told := ToldByForce(r.turnouts);
      GatheredInOrder(Ids(r.turnouts), told, TURNOUTS_PER_NODE);
      var speaking := Speaking(told, TURNOUTS_PER_NODE);
      assert i < j <==> speaking[i] < speaking[j];
  }

  lemma TicksSayOneThing(channels: seq<Channel>, levels: seq<Level>, now: Instant)
    requires |channels| == |levels| == TURNOUTS_PER_NODE
    ensures forall i :: 0 <= i < TURNOUTS_PER_NODE ==> |ToldByTick(channels, levels, now)[i]| <= 1
  {
  }
}
