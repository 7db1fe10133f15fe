/** PeriodicPositionRepublisher.h: a rebroadcast when the connection comes up and once per
    interval while it lasts. */
module Republishers {
  import opened Clock
  import opened Products

  /** The fields of a PeriodicPositionRepublisher. */
  datatype Republish = Republish(interval: Duration, last: Instant, wasConnected: bool) {

    predicate Due(now: Instant) {
      !wasConnected || Since(now, last) >= interval
    }

    predicate Broadcasts(now: Instant, connected: bool) {
      connected && Due(now)
    }

    function Updated(now: Instant, connected: bool): Republish {
      Republish(interval, if Broadcasts(now, connected) then now else last, connected)
    }
  }

  /** The port the broadcast goes to: how often it was asked to report everything. */
  class PositionBroadcaster {
    var broadcasts: nat

    constructor ()
      ensures broadcasts == 0
    {
      broadcasts := 0;
    }

    method ReportAll()
      modifies this
      ensures broadcasts == old(broadcasts) + 1
    {
      broadcasts := broadcasts + 1;
    }
  }

  class PeriodicPositionRepublisher {
    const broadcaster: PositionBroadcaster
    const interval: Duration
    var lastRepublished: Instant
    var wasConnected: bool

    ghost function Value(): Republish
      reads this
    {
      Republish(interval, lastRepublished, wasConnected)
    }

    constructor (broadcaster: PositionBroadcaster, interval: Duration)
      ensures this.broadcaster == broadcaster && Value() == Republish(interval, 0, false)
    {
      this.broadcaster, this.interval := broadcaster, interval;
      lastRepublished, wasConnected := 0, false;
    }

    method Update(now: Instant, connected: bool)
      modifies this, broadcaster
      ensures Value() == old(Value()).Updated(now, connected)
      ensures broadcaster.broadcasts ==
              old(broadcaster.broadcasts) + if old(Value()).Broadcasts(now, connected) then 1 else 0
    {
      if connected && (!wasConnected || Since(now, lastRepublished) >= interval) {
        broadcaster.ReportAll();
        lastRepublished := now;
      }
      wasConnected := connected;
    }
  }

  /** One loop pass: the connection as it stood at a true time. */
  datatype Poll = Poll(t: nat, connected: bool)

  function RunRepublish(p: Republish, polls: seq<Poll>): Republish {
    if polls == [] then p
    else
      var poll := polls[|polls| - 1];
      RunRepublish(p, polls[..|polls| - 1]).Updated(Wrap(poll.t), poll.connected)
  }

  /** The true times at which the run broadcast. */
  function BroadcastTimes(p: Republish, polls: seq<Poll>): seq<nat> {
    if polls == [] then []
    else
      var before, poll := polls[..|polls| - 1], polls[|polls| - 1];
      BroadcastTimes(p, before) +
      if RunRepublish(p, before).Broadcasts(Wrap(poll.t), poll.connected) then [poll.t] else []
  }

  /** A connected stretch: polls at most `gap` ms apart in true time, all connected. */
  ghost predicate ConnectedStretch(polls: seq<Poll>, gap: nat) {
    (forall i :: 0 <= i < |polls| ==> polls[i].connected) &&
    forall i :: 0 < i < |polls| ==> polls[i - 1].t <= polls[i].t <= polls[i - 1].t + gap
  }

  /** Broadcast times with gaps in [interval, interval + gap). */
  ghost predicate Spaced(times: seq<nat>, interval: Duration, gap: nat) {
    forall k :: 0 < k < |times| ==> interval <= times[k] - times[k - 1] < interval + gap
  }

  /** The stale-instant invariant of a connected stretch: the stored instant is the image of the
      last broadcast, which is less than an interval old. */
  ghost predicate Fresh(p: Republish, interval: Duration, lastBroadcast: nat, now: nat) {
    p == Republish(interval, Wrap(lastBroadcast), true) && 0 <= now - lastBroadcast < interval
  }

  /** One connected poll later the elapsed time is read correctly. */
  lemma PollStaysFresh(p: Republish, interval: Duration, lastBroadcast: nat, now: nat, t: nat, gap: nat)
    requires Fresh(p, interval, lastBroadcast, now) && interval + gap <= WRAP && now <= t <= now + gap
    ensures p.Broadcasts(Wrap(t), true) <==> t - lastBroadcast >= interval
    ensures Fresh(p.Updated(Wrap(t), true), interval, if t - lastBroadcast >= interval then t else lastBroadcast, t)
  {
    SinceIsTrueDifference(t, lastBroadcast);
  }

  /** What the first poll and every later one of a stretch leave behind. */
  ghost predicate WellSpaced(p: Republish, polls: seq<Poll>, gap: nat)
    requires polls != []
  {
    var times := BroadcastTimes(p, polls);
    times != [] && times[0] == polls[0].t && Spaced(times, p.interval, gap) &&
    Fresh(RunRepublish(p, polls), p.interval, times[|times| - 1], polls[|polls| - 1].t)
  }

  /** Main result: in every connected stretch of any run (it starts disconnected, with whatever
      instant was left over) the first poll broadcasts, later broadcasts are at least an interval
      and less than an interval and a poll gap apart, and at no poll is the last one an interval
      old; across any number of wraps. */
  lemma {:induction false} StretchIsSpaced(p: Republish, polls: seq<Poll>, gap: nat)
    requires !p.wasConnected && p.interval > 0 && p.interval + gap <= WRAP
    requires polls != [] && ConnectedStretch(polls, gap)
    ensures WellSpaced(p, polls, gap)
  {
    var before, poll := polls[..|polls| - 1], polls[|polls| - 1];
    if before == [] {
      assert RunRepublish(p, before) == p && BroadcastTimes(p, before) == [];
    } else {
      assert ConnectedStretch(before, gap);
      StretchIsSpaced(p, before, gap);
      var times, q := BroadcastTimes(p, before), RunRepublish(p, before);
      PollStaysFresh(q, p.interval, times[|times| - 1], before[|before| - 1].t, poll.t, gap);
      SpacedSnoc(times, p.interval, gap, poll.t);
    }
  }

  lemma SpacedSnoc(times: seq<nat>, interval: Duration, gap: nat, t: nat)
    requires times != [] && Spaced(times, interval, gap)
    ensures interval <= t - times[|times| - 1] < interval + gap ==> Spaced(times + [t], interval, gap)
  {
  }

  /** Polls every millisecond until just short of the interval, then one after a pause that takes
      the counter exactly once round. */
  function MissedWrap(interval: Duration): (polls: seq<Poll>)
    requires interval > 0
    ensures |polls| == interval + 1
  {
    seq(interval, (i: nat) => Poll(i, true)) + [Poll(WRAP, true)]
  }

  lemma {:induction false} OneBroadcastSoFar(interval: Duration, n: nat)
    requires 0 < n <= interval
    ensures var p, polls := Republish(interval, 0, false), MissedWrap(interval)[..n];
            RunRepublish(p, polls) == Republish(interval, 0, true) && BroadcastTimes(p, polls) == [0]
  {
    var p, polls := Republish(interval, 0, false), MissedWrap(interval)[..n];
    assert polls[..n - 1] == MissedWrap(interval)[..n - 1];
    if n == 1 {
      assert RunRepublish(p, polls[..0]) == p && BroadcastTimes(p, polls[..0]) == [];
    } else {
      OneBroadcastSoFar(interval, n - 1);
    }
  }

  /** The condition is exact: with polls at most `gap` ms apart every connected stretch is well
      spaced if and only if the interval and the gap together fit the counter's range. */
  lemma StretchesSpacedExactlyWhenIntervalFits(interval: Duration, gap: nat)
    requires interval > 0
    ensures interval + gap <= WRAP <==>
            forall last: Instant, polls :: polls != [] && ConnectedStretch(polls, gap) ==>
              WellSpaced(Republish(interval, last, false), polls, gap)
  {
    hide WellSpaced, RunRepublish, BroadcastTimes;
    if interval + gap <= WRAP {
      forall last: Instant, polls | polls != [] && ConnectedStretch(polls, gap)
        ensures WellSpaced(Republish(interval, last, false), polls, gap)
      {
        StretchIsSpaced(Republish(interval, last, false), polls, gap);
      }
    } else {
      MissedWrapIsNotSpaced(interval, gap);
    }
  }

  lemma MissedWrapIsNotSpaced(interval: Duration, gap: nat)
    requires interval > 0 && interval + gap > WRAP
    ensures MissedWrap(interval) != [] && ConnectedStretch(MissedWrap(interval), gap)
    ensures !WellSpaced(Republish(interval, 0, false), MissedWrap(interval), gap)
  {
    var p, polls := Republish(interval, 0, false), MissedWrap(interval);
    OneBroadcastSoFar(interval, interval);
    assert polls[..|polls| - 1] == polls[..interval];
    assert BroadcastTimes(p, polls) == [0];
  }

  function ConnectedTimes(polls: seq<Poll>): seq<nat> {
    if polls == [] then []
    else
      var before, poll := ConnectedTimes(polls[..|polls| - 1]), polls[|polls| - 1];
      if poll.connected then before + [poll.t] else before
  }

  /** With no interval at all every connected poll broadcasts, at any times. */
  lemma {:induction false} NoIntervalBroadcastsEveryPoll(p: Republish, polls: seq<Poll>)
    requires p.interval == 0
    ensures BroadcastTimes(p, polls) == ConnectedTimes(polls)
  {
    if polls != [] {
      NoIntervalBroadcastsEveryPoll(p, polls[..|polls| - 1]);
      IntervalIsKept(p, polls[..|polls| - 1]);
    }
  }

  /** A stretch of length L has at most 1 + L / interval broadcasts. */
  lemma StretchBroadcastsAreFew(p: Republish, polls: seq<Poll>, gap: nat)
    requires !p.wasConnected && p.interval > 0 && p.interval + gap <= WRAP
    requires polls != [] && ConnectedStretch(polls, gap)
    ensures |BroadcastTimes(p, polls)| <= 1 + (polls[|polls| - 1].t - polls[0].t) / p.interval
  {
    StretchIsSpaced(p, polls, gap);
    var times := BroadcastTimes(p, polls);
    SpacedSpan(times, p.interval, gap, |times|);
    QuotientBound(|times| - 1, p.interval, polls[|polls| - 1].t - polls[0].t);
  }

  lemma {:induction false} SpacedSpan(times: seq<nat>, interval: Duration, gap: nat, n: nat)
    requires Spaced(times, interval, gap) && 0 < n <= |times|
    ensures times[n - 1] - times[0] >= (n - 1) * interval
  {
    if n > 1 {
      SpacedSpan(times, interval, gap, n - 1);
      assert (n - 1) * interval == (n - 2) * interval + interval;
    }
  }

  /** A disconnected poll never broadcasts and starts the next stretch afresh, so every connected
      stretch of a longer run meets the results above. */
  lemma DisconnectionStartsAfresh(p: Republish, polls: seq<Poll>, down: Poll, stretch: seq<Poll>)
    requires !down.connected
    ensures var start := RunRepublish(p, polls + [down]);
            !start.wasConnected && start.interval == p.interval &&
            BroadcastTimes(p, polls + [down] + stretch) == BroadcastTimes(p, polls) + BroadcastTimes(start, stretch)
  {
    assert (polls + [down])[..|polls|] == polls;
    IntervalIsKept(p, polls);
    RunsCompose(p, polls + [down], stretch);
  }

  lemma {:induction false} IntervalIsKept(p: Republish, polls: seq<Poll>)
    ensures RunRepublish(p, polls).interval == p.interval
  {
    if polls != [] {
      IntervalIsKept(p, polls[..|polls| - 1]);
    }
  }

  lemma {:induction false} RunsCompose(p: Republish, first: seq<Poll>, second: seq<Poll>)
    ensures RunRepublish(p, first + second) == RunRepublish(RunRepublish(p, first), second)
    ensures BroadcastTimes(p, first + second) ==
            BroadcastTimes(p, first) + BroadcastTimes(RunRepublish(p, first), second)
  {
    if second == [] {
      assert first + second == first;
    } else {
      assert (first + second)[..|first + second| - 1] == first + second[..|second| - 1];
      RunsCompose(p, first, second[..|second| - 1]);
    }
  }
}
