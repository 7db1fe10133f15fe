/** TurnoutRegistry.h: the eight channels of a node behind one queue-of-one per channel. */
module Registries {
  import opened Clock
  import opened Positions
  import opened Motions
  import opened Turnouts

  const TURNOUTS_PER_NODE := 8

  /** Integer division and remainder as C++ computes them, truncating toward zero. */
  function TruncDiv(a: int, b: int): int
    requires b > 0
  {
    if a < 0 then -((-a) / b) else a / b
  }

  function TruncMod(a: int, b: int): int
    requires b > 0
  {
    a - TruncDiv(a, b) * b
  }

  /** A channel handed the command that waits for it, if one does. */
  function Handed(c: Channel, waiting: Option<Position>, now: Instant): Channel {
    if waiting.Some? then c.MovedTo(waiting.value, now) else c
  }

  /** Eight channels, each ticked with its own contact's level. */
  function TickedAll(channels: seq<Channel>, levels: seq<Level>, now: Instant): (ticked: seq<Channel>)
    requires |channels| == |levels| == TURNOUTS_PER_NODE
    ensures |ticked| == TURNOUTS_PER_NODE
  {
    seq(TURNOUTS_PER_NODE, i requires 0 <= i < TURNOUTS_PER_NODE => channels[i].Ticked(levels[i], now))
  }

  /** What each channel says, in channel order, labelled with its id: the first `n` channels. */
  function Gathered(ids: seq<int>, told: seq<seq<TurnoutState>>, n: nat): seq<Report>
    requires n <= |ids| == |told|
  {
    if n == 0 then [] else Gathered(ids, told, n - 1) + Labelled(ids[n - 1], told[n - 1])
  }

  function Ids(channels: seq<Channel>): (ids: seq<int>)
    ensures |ids| == |channels|
  {
    seq(|channels|, i requires 0 <= i < |channels| => channels[i].id)
  }

  /** What each of those ticks reports. */
  function ToldByTick(channels: seq<Channel>, levels: seq<Level>, now: Instant): (told: seq<seq<TurnoutState>>)
    requires |channels| == |levels| == TURNOUTS_PER_NODE
    ensures |told| == TURNOUTS_PER_NODE
  {
    seq(TURNOUTS_PER_NODE, i requires 0 <= i < TURNOUTS_PER_NODE => channels[i].TickReports(levels[i], now))
  }

  /** What each channel says when forced to report. */
  function ToldByForce(channels: seq<Channel>): (told: seq<seq<TurnoutState>>)
    requires |channels| == TURNOUTS_PER_NODE
    ensures |told| == TURNOUTS_PER_NODE
  {
    seq(TURNOUTS_PER_NODE, i requires 0 <= i < TURNOUTS_PER_NODE => [channels[i].motion.State()])
  }

  function TickReports(channels: seq<Channel>, levels: seq<Level>, now: Instant): seq<Report>
    requires |channels| == |levels| == TURNOUTS_PER_NODE
  {
    Gathered(Ids(channels), ToldByTick(channels, levels, now), TURNOUTS_PER_NODE)
  }

  function ForcedReports(channels: seq<Channel>): seq<Report>
    requires |channels| == TURNOUTS_PER_NODE
  {
    Gathered(Ids(channels), ToldByForce(channels), TURNOUTS_PER_NODE)
  }

  function AllReported(channels: seq<Channel>): (reported: seq<Channel>)
    requires |channels| == TURNOUTS_PER_NODE
    ensures |reported| == TURNOUTS_PER_NODE
  {
    seq(TURNOUTS_PER_NODE, i requires 0 <= i < TURNOUTS_PER_NODE => channels[i].ReportedCurrent())
  }

  /** The state of a registry: its turnouts and the command waiting for each. */
  datatype Registry = Registry(nodeId: int, turnouts: seq<Channel>, pending: seq<Option<Position>>) {

    predicate Sized() {
      |turnouts| == |pending| == TURNOUTS_PER_NODE
    }

    function Commanded(id: int, position: Position): (r: Registry)
      requires Sized()
    {
      var channel := TruncMod(id, 100);
      if TruncDiv(id, 100) != nodeId || channel < 1 || channel > TURNOUTS_PER_NODE then this
      else this.(pending := pending[channel - 1 := Some(position)])
    }

    /** The channels once each waiting command has been handed over. */
    function Dispatched(now: Instant): (channels: seq<Channel>)
      requires Sized()
    {
      seq(TURNOUTS_PER_NODE, i requires 0 <= i < TURNOUTS_PER_NODE => Handed(turnouts[i], pending[i], now))
    }

    function Ticked(levels: seq<Level>, now: Instant): Registry
      requires Sized() && |levels| == TURNOUTS_PER_NODE
    {
      Registry(nodeId, TickedAll(Dispatched(now), levels, now), seq(TURNOUTS_PER_NODE, _ => None))
    }

    function ReportedAll(): Registry
      requires Sized()
    {
      this.(turnouts := AllReported(turnouts))
    }
  }

  class TurnoutRegistry {
    const nodeId: int
    const turnouts: seq<Turnout>
    const pending: array<Option<Position>>
    const reporter: PositionReporter

    /** The channels are whole, share the reporter and nothing else. */
    ghost predicate Valid() {
      |turnouts| == pending.Length == TURNOUTS_PER_NODE &&
      (forall i :: 0 <= i < |turnouts| ==>
        turnouts[i].Valid() && turnouts[i].reporter == reporter &&
        this !in turnouts[i].Repr() && pending !in turnouts[i].Repr() && reporter !in turnouts[i].Repr()) &&
      (forall i, j :: 0 <= i < |turnouts| && 0 <= j < |turnouts| && i != j ==>
        turnouts[i].Repr() !! turnouts[j].Repr()) &&
      (forall i, j :: 0 <= i < |turnouts| && 0 <= j < |turnouts| ==>
        turnouts[i].sensor.input !in turnouts[j].Repr())
    }

    ghost function Footprint(): set<object> {
      set i, o | 0 <= i < |turnouts| && o in turnouts[i].Repr() :: o
    }

    ghost function Channels(): (channels: seq<Channel>)
      reads Footprint()
      ensures |channels| == |turnouts|
    {
      seq(|turnouts|, i requires 0 <= i < |turnouts| reads Footprint() => turnouts[i].Value())
    }

    ghost function Value(): Registry
      reads this, pending, Footprint()
    {
      Registry(nodeId, Channels(), pending[..])
    }

    /** The levels the channels' contacts stand at. */
    ghost function InputLevels(): (levels: seq<Level>)
      reads set i | 0 <= i < |turnouts| :: turnouts[i].sensor.input
      ensures |levels| == |turnouts|
    {
      seq(|turnouts|, i requires 0 <= i < |turnouts|
                        reads set i | 0 <= i < |turnouts| :: turnouts[i].sensor.input
                      => turnouts[i].sensor.input.level)
    }

    constructor (nodeId: int, turnouts: seq<Turnout>, reporter: PositionReporter)
      requires |turnouts| == TURNOUTS_PER_NODE
      requires forall i :: 0 <= i < |turnouts| ==>
        turnouts[i].Valid() && turnouts[i].reporter == reporter && reporter !in turnouts[i].Repr()
      requires forall i, j :: 0 <= i < |turnouts| && 0 <= j < |turnouts| && i != j ==>
        turnouts[i].Repr() !! turnouts[j].Repr()
      requires forall i, j :: 0 <= i < |turnouts| && 0 <= j < |turnouts| ==>
        turnouts[i].sensor.input !in turnouts[j].Repr()
      ensures Valid() && this.turnouts == turnouts && this.reporter == reporter
      ensures Value() == Registry(nodeId, Channels(), seq(TURNOUTS_PER_NODE, _ => None))
    {
      this.nodeId, this.turnouts, this.reporter := nodeId, turnouts, reporter;
      pending := new Option<Position>[TURNOUTS_PER_NODE](_ => None);
    }

    method Command(id: int, position: Position)
      requires Valid()
      modifies pending
      ensures Value() == old(Value()).Commanded(id, position)
    {
      var owningNode := TruncDiv(id, 100);
      var channel := TruncMod(id, 100);
      if owningNode != nodeId {
        return;
      }
      if channel < 1 || channel > TURNOUTS_PER_NODE {
        return;
      }
      pending[channel - 1] := Some(position);
    }

    lemma InFootprint(i: nat)
      requires i < |turnouts|
      ensures turnouts[i].Repr() <= Footprint()
    {
    }

    /** Hands channel `i` its waiting command, touching no other channel. */
    method Dispatch(i: nat, now: Instant)
      requires Valid() && i < TURNOUTS_PER_NODE
      modifies pending, turnouts[i].Repr()
      ensures pending[..] == old(pending[..])[i := None]
      ensures Channels() == old(Channels())[i := old(Value()).Dispatched(now)[i]]
      ensures InputLevels() == old(InputLevels())
    {
      if pending[i].Some? {
        turnouts[i].MoveTo(pending[i].value, now);
        pending[i] := None;
      }
    }

    /** The first loop of a tick: every waiting command reaches its channel. */
    method DispatchAll(now: Instant)
      requires Valid()
      modifies pending, Footprint()
      ensures Channels() == old(Value()).Dispatched(now)
      ensures pending[..] == seq(TURNOUTS_PER_NODE, _ => None)
      ensures InputLevels() == old(InputLevels())
    {
      hide Handed, Channels, Turnout.Valid, Turnout.Repr, Turnout.Value;
      ghost var was := Value();
      for i := 0 to TURNOUTS_PER_NODE
        invariant forall j :: 0 <= j < TURNOUTS_PER_NODE ==> pending[j] == if j < i then None else was.pending[j]
        invariant forall j :: 0 <= j < TURNOUTS_PER_NODE ==>
          Channels()[j] == if j < i then was.Dispatched(now)[j] else was.turnouts[j]
        invariant InputLevels() == old(InputLevels())
      {
        InFootprint(i);
        Dispatch(i, now);
      }
    }

    /** Ticks channel `i`, touching no other channel. */
    method TickChannel(i: nat, now: Instant)
      requires Valid() && i < TURNOUTS_PER_NODE
      modifies turnouts[i].Repr(), reporter
      ensures Channels() == old(Channels())[i := old(Channels())[i].Ticked(old(InputLevels())[i], now)]
      ensures reporter.log == old(reporter.log) +
              Labelled(old(Channels())[i].id, old(Channels())[i].TickReports(old(InputLevels())[i], now))
      ensures pending[..] == old(pending[..]) && InputLevels() == old(InputLevels())
    {
      turnouts[i].Tick(now);
    }

    /** The second loop of a tick: every channel samples, moves on and reports a change. */
    method TickAll(now: Instant)
      requires Valid()
      modifies Footprint(), reporter
      ensures Channels() == TickedAll(old(Channels()), old(InputLevels()), now)
      ensures reporter.log == old(reporter.log) +
              TickReports(old(Channels()), old(InputLevels()), now)
      ensures pending[..] == old(pending[..])
    {
      hide Channel.Ticked, Channel.TickReports, Channels, Labelled, Turnout.Valid, Turnout.Repr, Turnout.Value;
      ghost var was := Channels();
      ghost var levels := InputLevels();
      for i := 0 to TURNOUTS_PER_NODE
        invariant pending[..] == old(pending[..]) && InputLevels() == levels
        invariant forall j :: 0 <= j < TURNOUTS_PER_NODE ==>
          Channels()[j] == if j < i then was[j].Ticked(levels[j], now) else was[j]
        invariant reporter.log == old(reporter.log) + Gathered(Ids(was), ToldByTick(was, levels, now), i)
      {
        InFootprint(i);
        TickChannel(i, now);
      }
    }

    method Tick(now: Instant)
      requires Valid()
      modifies pending, Footprint(), reporter
      ensures Value() == old(Value()).Ticked(old(InputLevels()), now)
      ensures reporter.log == old(reporter.log) +
              TickReports(old(Value()).Dispatched(now), old(InputLevels()), now)
    {
      DispatchAll(now);
      TickAll(now);
    }

    /** Reports channel `i`, touching no other channel. */
    method ReportChannel(i: nat)
      requires Valid() && i < TURNOUTS_PER_NODE
      modifies turnouts[i].Repr(), reporter
      ensures Channels() == old(Channels())[i := old(Channels())[i].ReportedCurrent()]
      ensures reporter.log == old(reporter.log) +
              Labelled(old(Channels())[i].id, [old(Channels())[i].motion.State()])
      ensures pending[..] == old(pending[..])
    {
      turnouts[i].ReportCurrent();
    }

    method ReportAll()
      requires Valid()
      modifies Footprint(), reporter
      ensures Value() == old(Value()).ReportedAll()
      ensures reporter.log == old(reporter.log) + ForcedReports(old(Value()).turnouts)
    {
      hide Channel.ReportedCurrent, Motion.State, Channels, Labelled, Turnout.Valid, Turnout.Repr, Turnout.Value;
      ghost var was := Channels();
      for i := 0 to TURNOUTS_PER_NODE
        invariant pending[..] == old(pending[..])
        invariant forall j :: 0 <= j < TURNOUTS_PER_NODE ==>
          Channels()[j] == if j < i then was[j].ReportedCurrent() else was[j]
        invariant reporter.log == old(reporter.log) + Gathered(Ids(was), ToldByForce(was), i)
      {
        InFootprint(i);
        ReportChannel(i);
      }
    }
  }
}
