/** BlinkOutIdentifier.h and FlashBurst.h: the two status-LED patterns, computed from elapsed
    milliseconds in 32-bit arithmetic. */
module BlinkPatterns {
  import opened Clock
  import opened Positions
  import opened Products

  /** BlinkOutIdentifier: the node id as that many blinks, then a pause, over and over. */
  datatype BlinkOut = BlinkOut(id: int32, on: Duration, off: Duration, pause: Duration) {
    function BlinkPeriod(): uint32 {
      Wrap(on + off)
    }

    function BlinkingPhase(): uint32 {
      Wrap(BlinkPeriod() * Wrap(id))
    }

    function Cycle(): uint32 {
      Wrap(BlinkingPhase() + pause)
    }

    function LevelAt(elapsed: Duration): Level
      requires Cycle() != 0
    {
      var t := elapsed % Cycle();
      if t >= BlinkingPhase() then Low
      else if t % BlinkPeriod() < on then High
      else Low
    }
  }

  /** FlashBurst: one burst of blinks, then dark. */
  datatype FlashBurst = FlashBurst(on: Duration, off: Duration, count: int32) {
    function Period(): uint32 {
      Wrap(on + off)
    }

    function Total(): uint32 {
      Wrap(Period() * Wrap(count))
    }

    function LevelAt(elapsed: Duration): Level {
      if elapsed >= Total() then Low
      else if elapsed % Period() < on then High
      else Low
    }
  }

  // ----- Pulse trains ------------------------------------------------------------------------------

  function Steady(level: Level, n: nat): seq<Level> {
    seq(n, _ => level)
  }

  /** `n` pulses, millisecond by millisecond. */
  function Train(on: nat, off: nat, n: nat): (levels: seq<Level>)
    ensures |levels| == n * (on + off)
  {
    if n == 0 then [] else Train(on, off, n - 1) + Steady(High, on) + Steady(Low, off)
  }

  lemma {:induction false} TrainAt(on: nat, off: nat, n: nat, t: nat)
    requires t < n * (on + off)
    ensures Train(on, off, n)[t] == if t % (on + off) < on then High else Low
  {
    var period := on + off;
    NextMultiple(n - 1, period);
    if t < (n - 1) * period {
      TrainAt(on, off, n - 1, t);
    } else {
      RemainderIs(t, n - 1, t - (n - 1) * period, period);
    }
  }

  /** A train and a dark tail. */
  function Pattern(on: nat, off: nat, n: nat, tail: nat): (levels: seq<Level>)
    ensures |levels| == n * (on + off) + tail
  {
    Train(on, off, n) + Steady(Low, tail)
  }

  lemma PatternAt(on: nat, off: nat, n: nat, tail: nat, t: nat)
    requires t < n * (on + off) + tail
    ensures Pattern(on, off, n, tail)[t] ==
            if t >= n * (on + off) then Low else if t % (on + off) < on then High else Low
  {
    if t < n * (on + off) {
      TrainAt(on, off, n, t);
    }
  }

  /** Milliseconds lit. */
  function HighMs(levels: seq<Level>): nat {
    if levels == [] then 0
    else HighMs(levels[..|levels| - 1]) + if levels[|levels| - 1] == High then 1 else 0
  }

  /** Times the light comes on, having been at `before` just earlier. */
  function Rises(before: Level, levels: seq<Level>): nat {
    if levels == [] then 0
    else
      var n := |levels| - 1;
      Rises(before, levels[..n]) + if levels[n] == High && LastOr(before, levels[..n]) == Low then 1 else 0
  }

  function LastOr(before: Level, levels: seq<Level>): Level {
    if levels == [] then before else levels[|levels| - 1]
  }

  lemma {:induction false} SteadyCounts(before: Level, levels: seq<Level>, level: Level, n: nat)
    ensures var all := levels + Steady(level, n);
            HighMs(all) == HighMs(levels) + (if level == High then n else 0) &&
            Rises(before, all) ==
            Rises(before, levels) + (if n > 0 && level == High && LastOr(before, levels) == Low then 1 else 0)
  {
    if n == 0 {
      assert levels + Steady(level, 0) == levels;
    } else {
      var all, shorter := levels + Steady(level, n), levels + Steady(level, n - 1);
      SteadyCounts(before, levels, level, n - 1);
      assert all[..|all| - 1] == shorter;
      assert n > 1 ==> LastOr(before, shorter) == level;
      assert n == 1 ==> shorter == levels;
    }
  }

  /** A train of `n` pulses after dark, with a dark tail, is lit `n * on` ms and comes on `n` times. */
  lemma {:induction false} TrainCounts(on: nat, off: nat, n: nat, tail: nat)
    requires on > 0 && off > 0
    ensures var levels := Pattern(on, off, n, tail);
            HighMs(levels) == n * on && Rises(Low, levels) == n && LastOr(Low, levels) == Low
  {
    SteadyCounts(Low, Train(on, off, n), Low, tail);
    if n > 0 {
      TrainCounts(on, off, n - 1, 0);
      var before := Train(on, off, n - 1);
      assert Pattern(on, off, n - 1, 0) == before;
      SteadyCounts(Low, before, High, on);
      SteadyCounts(Low, before + Steady(High, on), Low, off);
      assert n * on == (n - 1) * on + on;
    }
  }

  // ----- What the LED shows ----------------------------------------------------------------------------

  /** The pattern fits the counter: nothing in its arithmetic wraps. */
  predicate Fits(b: BlinkOut) {
    b.id > 0 && 0 < b.id * (b.on + b.off) + b.pause < WRAP
  }

  lemma SmallIsUnwrapped(n: nat)
    requires n < WRAP
    ensures Wrap(n) == n
  {
  }

  lemma FittingArithmetic(b: BlinkOut)
    requires Fits(b)
    ensures b.BlinkPeriod() == b.on + b.off && b.BlinkingPhase() == b.id * (b.on + b.off)
    ensures b.Cycle() == b.id * (b.on + b.off) + b.pause
  {
    hide Wrap;
    ProductsAscend(1, b.id, b.on + b.off);
    assert (b.on + b.off) * b.id == b.id * (b.on + b.off);
    SmallIsUnwrapped(b.on + b.off);
    SmallIsUnwrapped(b.id);
    SmallIsUnwrapped(b.id * (b.on + b.off));
    SmallIsUnwrapped(b.id * (b.on + b.off) + b.pause);
  }

  /** The levels of the `k`-th full cycle. */
  function CycleLevels(b: BlinkOut, k: nat): (levels: seq<Level>)
    requires b.Cycle() != 0 && (k + 1) * b.Cycle() <= WRAP
    ensures |levels| == b.Cycle()
  {
    NextMultiple(k, b.Cycle());
    seq(b.Cycle(), (t: nat) requires t < b.Cycle() => b.LevelAt(k * b.Cycle() + t))
  }

  lemma CycleLevelIsLevelAt(b: BlinkOut, k: nat, t: nat)
    requires b.Cycle() != 0 && (k + 1) * b.Cycle() <= WRAP && t < b.Cycle()
    ensures k * b.Cycle() + t < WRAP && CycleLevels(b, k)[t] == b.LevelAt(k * b.Cycle() + t)
  {
    hide BlinkOut.Cycle, BlinkOut.LevelAt;
    NextMultiple(k, b.Cycle());
  }

  lemma LevelInCycle(b: BlinkOut, elapsed: Duration, t: nat)
    requires b.Cycle() != 0 && elapsed % b.Cycle() == t
    ensures b.LevelAt(elapsed) ==
            if t >= b.BlinkingPhase() then Low else if t % b.BlinkPeriod() < b.on then High else Low
  {
    hide BlinkOut.Cycle, BlinkOut.BlinkPeriod, BlinkOut.BlinkingPhase;
  }

  /** Each millisecond of a cycle is that of the pulse train, or dark after it. */
  lemma CycleLevelIs(b: BlinkOut, k: nat, t: nat)
    requires b.Cycle() != 0 && (k + 1) * b.Cycle() <= WRAP && t < b.Cycle()
    ensures CycleLevels(b, k)[t] ==
            if t >= b.BlinkingPhase() then Low else if t % b.BlinkPeriod() < b.on then High else Low
  {
    hide CycleLevels, BlinkOut.LevelAt, BlinkOut.Cycle, BlinkOut.BlinkPeriod, BlinkOut.BlinkingPhase;
    CycleLevelIsLevelAt(b, k, t);
    RemainderIs(k * b.Cycle() + t, k, t, b.Cycle());
    LevelInCycle(b, k * b.Cycle() + t, t);
  }

  /** Main result: every full cycle within the counter's range is the id in pulses, then the
      pause; with positive on and off times it is lit `id * on` ms and comes on `id` times. */
  lemma BlinkOutShowsId(b: BlinkOut, k: nat)
    requires Fits(b) && (k + 1) * b.Cycle() <= WRAP
    ensures b.Cycle() == b.id * (b.on + b.off) + b.pause > 0
    ensures CycleLevels(b, k) == Pattern(b.on, b.off, b.id, b.pause)
    ensures b.on > 0 && b.off > 0 ==> HighMs(CycleLevels(b, k)) == b.id * b.on && Rises(Low, CycleLevels(b, k)) == b.id
  {
    FittingArithmetic(b);
    hide CycleLevels, Pattern, BlinkOut.Cycle, BlinkOut.BlinkPeriod, BlinkOut.BlinkingPhase, HighMs, Rises;
    var levels, pattern := CycleLevels(b, k), Pattern(b.on, b.off, b.id, b.pause);
    forall t: nat | t < b.Cycle()
      ensures levels[t] == pattern[t]
    {
      CycleLevelIs(b, k, t);
      PatternAt(b.on, b.off, b.id, b.pause, t);
    }
    assert levels == pattern;
    if b.on > 0 && b.off > 0 {
      TrainCounts(b.on, b.off, b.id, b.pause);
    }
  }

  /** The burst's length in true milliseconds, when it fits the counter. */
  predicate BurstFits(f: FlashBurst) {
    f.count >= 0 && f.on + f.off < WRAP && f.count * (f.on + f.off) < WRAP
  }

  lemma BurstArithmetic(f: FlashBurst)
    requires BurstFits(f)
    ensures f.Period() == f.on + f.off && f.Total() == f.count * (f.on + f.off)
  {
    hide Wrap;
    SmallIsUnwrapped(f.on + f.off);
    SmallIsUnwrapped(f.count);
    assert (f.on + f.off) * f.count == f.count * (f.on + f.off);
    SmallIsUnwrapped(f.count * (f.on + f.off));
  }

  /** The first `length` levels of a burst. */
  function BurstLevels(f: FlashBurst, length: nat): (levels: seq<Level>)
    requires length <= WRAP
    ensures |levels| == length
  {
    seq(length, (t: nat) requires t < length => f.LevelAt(t))
  }

  /** Main result: a burst whose length fits the counter is exactly its pulses, then dark for as
      long as one looks. */
  lemma FlashBurstIsOneTrain(f: FlashBurst, length: nat)
    requires BurstFits(f) && f.count * (f.on + f.off) <= length <= WRAP
    ensures BurstLevels(f, length) == Pattern(f.on, f.off, f.count, length - f.count * (f.on + f.off))
    ensures f.on > 0 && f.off > 0 ==>
            HighMs(BurstLevels(f, length)) == f.count * f.on && Rises(Low, BurstLevels(f, length)) == f.count
  {
    BurstArithmetic(f);
    hide Pattern, FlashBurst.Period, FlashBurst.Total, HighMs, Rises;
    var tail := length - f.count * (f.on + f.off);
    var levels, pattern := BurstLevels(f, length), Pattern(f.on, f.off, f.count, tail);
    forall t: nat | t < length
      ensures levels[t] == pattern[t]
    {
      PatternAt(f.on, f.off, f.count, tail, t);
    }
    assert levels == pattern;
    if f.on > 0 && f.off > 0 {
      TrainCounts(f.on, f.off, f.count, tail);
    }
  }
}
