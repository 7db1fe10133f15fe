/** What debouncing means on the whole history of samples in true time, and exactly when the
    incremental 32-bit debouncer computes it. */
module DebounceHistory {
  import opened Clock
  import opened Positions
  import opened Debouncers

  /** Sample `k` ends a run of equal samples that spans at least `window` of true time. */
  ghost predicate Steady(h: seq<Sample>, k: nat, window: Duration)
    requires k < |h|
  {
    exists i :: 0 <= i <= k && (forall m :: i <= m <= k ==> h[m].level == h[k].level) && h[k].t - h[i].t >= window
  }

  /** The level of the latest steady sample among the first `n`, or the initial level. */
  ghost function Debounced(h: seq<Sample>, n: nat, initial: Level, window: Duration): Level
    requires n <= |h|
  {
    if n == 0 then initial
    else if Steady(h, n - 1, window) then h[n - 1].level
    else Debounced(h, n - 1, initial, window)
  }

  /** The incremental debouncer after the first `n` samples. */
  function DebounceAfter(h: seq<Sample>, n: nat, initial: Level, window: Duration): Debounce
    requires n <= |h|
  {
    if n == 0 then NewDebounce(initial, window)
    else DebounceAfter(h, n - 1, initial, window).Sampled(h[n - 1].level, Wrap(h[n - 1].t))
  }

  /** Where the run of equal samples that ends at sample `k` began. */
  function RunStart(h: seq<Sample>, k: nat): (i: nat)
    requires k < |h|
    ensures i <= k && (forall m :: i <= m <= k ==> h[m].level == h[k].level)
    ensures i > 0 ==> h[i - 1].level != h[k].level
  {
    if k > 0 && h[k - 1].level == h[k].level then RunStart(h, k - 1) else k
  }

  /** True time does not run backwards and consecutive samples are at most `gap` ms apart. */
  ghost predicate SampledWithin(h: seq<Sample>, gap: nat) {
    forall i :: 0 < i < |h| ==> h[i - 1].t <= h[i].t <= h[i - 1].t + gap
  }

  lemma {:induction false} TimesAscend(h: seq<Sample>, gap: nat, i: nat, j: nat)
    requires SampledWithin(h, gap) && i <= j < |h|
    ensures h[i].t <= h[j].t
  {
    if i < j {
      TimesAscend(h, gap, i, j - 1);
    }
  }

  /** A run is steady exactly when it is steady from where it began. */
  lemma SteadyFromRunStart(h: seq<Sample>, k: nat, window: Duration, gap: nat)
    requires k < |h| && SampledWithin(h, gap)
    ensures Steady(h, k, window) <==> h[k].t - h[RunStart(h, k)].t >= window
  {
    if Steady(h, k, window) {
      var i :| 0 <= i <= k && (forall m :: i <= m <= k ==> h[m].level == h[k].level) && h[k].t - h[i].t >= window;
      assert RunStart(h, k) <= i;
      TimesAscend(h, gap, RunStart(h, k), i);
    }
  }

  /** Reads Debounced as a statement about the history: the latest steady sample decides. */
  lemma {:induction false} DebouncedIsLatestSteady(h: seq<Sample>, n: nat, initial: Level, window: Duration, k: nat)
    requires k < n <= |h| && Steady(h, k, window)
    requires forall m :: k < m < n ==> !Steady(h, m, window)
    ensures Debounced(h, n, initial, window) == h[k].level
  {
    hide Steady;
    if k < n - 1 {
      DebouncedIsLatestSteady(h, n - 1, initial, window, k);
    }
  }

  lemma {:induction false} DebouncedKeepsInitial(h: seq<Sample>, n: nat, initial: Level, window: Duration)
    requires n <= |h| && forall m :: 0 <= m < n ==> !Steady(h, m, window)
    ensures Debounced(h, n, initial, window) == initial
  {
    hide Steady;
    if n > 0 {
      DebouncedKeepsInitial(h, n - 1, initial, window);
    }
  }

  /** The stale-instant invariant: the candidate is the last level seen, and its instant is the
      image of its run's start whenever the debouncer would still consult it. */
  ghost predicate Tracks(d: Debounce, h: seq<Sample>, n: nat, initial: Level, window: Duration)
    requires n <= |h|
  {
    d.window == window &&
    d.stable == Debounced(h, n, initial, window) &&
    d.candidate == (if n == 0 then initial else h[n - 1].level) &&
    (d.candidate != d.stable ==> n > 0 && d.since == Wrap(h[RunStart(h, n - 1)].t))
  }

  lemma SampleTracks(d: Debounce, h: seq<Sample>, n: nat, initial: Level, window: Duration, gap: nat)
    requires n < |h| && Tracks(d, h, n, initial, window)
    requires SampledWithin(h, gap) && (window == 0 || window + gap <= WRAP)
    ensures Tracks(d.Sampled(h[n].level, Wrap(h[n].t)), h, n + 1, initial, window)
  {
    var start := RunStart(h, n);
    SteadyFromRunStart(h, n, window, gap);
    TimesAscend(h, gap, start, n);
    SinceIsTrueDifference(h[n].t, h[start].t);
    if start < n {
      SteadyFromRunStart(h, n - 1, window, gap);
    }
  }

  lemma {:induction false} DebounceTracks(h: seq<Sample>, n: nat, initial: Level, window: Duration, gap: nat)
    requires n <= |h|
    requires SampledWithin(h, gap) && (window == 0 || window + gap <= WRAP)
    ensures Tracks(DebounceAfter(h, n, initial, window), h, n, initial, window)
  {
    hide Debounced, Steady, SampledWithin, RunStart;
    if n == 0 {
      assert Debounced(h, 0, initial, window) == initial by {
        DebouncedKeepsInitial(h, 0, initial, window);
      }
    } else {
      DebounceTracks(h, n - 1, initial, window, gap);
      SampleTracks(DebounceAfter(h, n - 1, initial, window), h, n - 1, initial, window, gap);
    }
  }

  ghost predicate DebouncesTruly(h: seq<Sample>, initial: Level, window: Duration) {
    DebounceAfter(h, |h|, initial, window).stable == Debounced(h, |h|, initial, window)
  }

  /** Main result: with samples at most `gap` ms apart the incremental debouncer gives the
      history's answer on every history, across any number of wraps, exactly when the window
      and the gap together fit the counter's range (or the window is zero). */
  lemma DebouncerExactlyWhenWindowFits(window: Duration, gap: nat)
    ensures (window == 0 || window + gap <= WRAP) <==>
            forall h, initial :: SampledWithin(h, gap) ==> DebouncesTruly(h, initial, window)
  {
    if window == 0 || window + gap <= WRAP {
      forall h, initial | SampledWithin(h, gap)
        ensures DebouncesTruly(h, initial, window)
      {
        DebounceTracks(h, |h|, initial, window, gap);
      }
    } else {
      var h := MissedWrap(window);
      MissedWrapIsMissed(window);
      assert !DebouncesTruly(h, Low, window);
    }
  }

  /** High sampled every millisecond until just short of the window, then again after a pause
      that takes the counter exactly once round. */
  function MissedWrap(window: Duration): (h: seq<Sample>)
    requires window > 0
    ensures |h| == window + 1
  {
    seq(window, (i: nat) => Sample(High, i)) + [Sample(High, WRAP)]
  }

  lemma MissedWrapIsMissed(window: Duration)
    requires window > 0
    ensures !DebouncesTruly(MissedWrap(window), Low, window)
  {
    var h := MissedWrap(window);
    StillUnsettled(window, window);
    assert h[window].t - h[0].t >= window;
    assert Steady(h, window, window);
  }

  lemma {:induction false} StillUnsettled(window: Duration, n: nat)
    requires 0 < n <= window
    ensures DebounceAfter(MissedWrap(window), n, Low, window) == Debounce(Low, High, 0, window)
  {
    if n > 1 {
      StillUnsettled(window, n - 1);
    }
  }
}
