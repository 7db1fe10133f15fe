/** Debouncer.h: incremental debouncing on the 32-bit clock. */
module Debouncers {
  import opened Clock
  import opened Positions

  /** A level read at a true time. */
  datatype Sample = Sample(level: Level, t: nat)

  /** The fields of a Debouncer. */
  datatype Debounce = Debounce(stable: Level, candidate: Level, since: Instant, window: Duration) {
    function Sampled(level: Level, now: Instant): Debounce {
      var since' := if level != candidate then now else since;
      this.(candidate := level,
            since := since',
            stable := if level != stable && Since(now, since') >= window then level else stable)
    }
  }

  function NewDebounce(initial: Level, window: Duration): Debounce {
    Debounce(initial, initial, 0, window)
  }

  class Debouncer {
    var stableLevel: Level
    var candidateLevel: Level
    var candidateSince: Instant
    var stableDuration: Duration

    ghost function Value(): Debounce
      reads this
    {
      Debounce(stableLevel, candidateLevel, candidateSince, stableDuration)
    }

    constructor (initialLevel: Level, stableDuration: Duration)
      ensures Value() == NewDebounce(initialLevel, stableDuration)
    {
      stableLevel, candidateLevel := initialLevel, initialLevel;
      candidateSince := 0;
      this.stableDuration := stableDuration;
    }

    /** Construction in place, as std::optional::emplace does it. */
    method Emplace(initialLevel: Level, stableDuration: Duration)
      modifies this
      ensures Value() == NewDebounce(initialLevel, stableDuration)
    {
      stableLevel, candidateLevel := initialLevel, initialLevel;
      candidateSince := 0;
      this.stableDuration := stableDuration;
    }

    method Sample(level: Level, now: Instant)
      modifies this
      ensures Value() == old(Value()).Sampled(level, now)
    {
      if level != candidateLevel {
        candidateLevel := level;
        candidateSince := now;
      }
      if candidateLevel != stableLevel && Since(now, candidateSince) >= stableDuration {
        stableLevel := candidateLevel;
      }
    }
  }
}
