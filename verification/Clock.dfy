/** The 32-bit millisecond clock: instants and durations that wrap at 2^32. */
module Clock {

  const WRAP: int := 0x1_0000_0000
  const HALF: int := 0x8000_0000

  type uint32 = n: nat | n < 0x1_0000_0000
  type int32 = n: int | -0x8000_0000 <= n < 0x8000_0000

  type Instant = uint32
  type Duration = uint32

  /** What the 32-bit counter shows at true time `t`; also the conversion of an int to uint32_t. */
  function Wrap(t: int): uint32 {
    t % WRAP
  }

  /** `now - earlier` on Instants. */
  function Since(now: Instant, earlier: Instant): Duration {
    Wrap(now - earlier)
  }

  /** `instant + duration`. */
  function Plus(instant: Instant, duration: Duration): Instant {
    Wrap(instant + duration)
  }

  /** Reinterpreting a uint32_t as an int32_t. */
  function Signed(n: uint32): int32 {
    if n < HALF then n else n - WRAP
  }

  /** Unsigned subtraction recovers the true difference of two times modulo 2^32, so it
      recovers the difference itself exactly when that lies in [0, 2^32). */
  lemma SinceIsTrueDifference(later: nat, earlier: nat)
    ensures Since(Wrap(later), Wrap(earlier)) == Wrap(later - earlier)
    ensures Since(Wrap(later), Wrap(earlier)) == later - earlier <==> 0 <= later - earlier < WRAP
  {
    var turns := later / WRAP - earlier / WRAP;
    assert later - earlier == Wrap(later) - Wrap(earlier) + turns * WRAP;
    WholeTurns(Wrap(later) - Wrap(earlier), turns);
  }

  lemma WholeTurns(t: int, turns: int)
    ensures Wrap(t + turns * WRAP) == Wrap(t)
  {
    assert t + turns * WRAP == WRAP * (t / WRAP + turns) + t % WRAP;
  }

  /** Adding a duration commutes with wrapping. */
  lemma PlusIsTrueSum(t: nat, duration: Duration)
    ensures Plus(Wrap(t), duration) == Wrap(t + duration)
  {
  }
}
