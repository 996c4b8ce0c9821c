/** game/match_timing.go: the periods of a match. Settings are whole seconds; instants and
    durations are nanoseconds, as in Go's time package. */
module Timing {
  const MILLISECOND: int := 1_000_000
  const SECOND: int := 1_000_000_000

  function Seconds(n: int): int { n * 1_000_000_000 }

  /** How long FUEL still counts for a shift after it ends, for a HUB that was active in it. */
  const SCORING_GRACE: int := 3 * SECOND

  datatype MatchTiming = MatchTiming(
    warmupSec: int,
    autoSec: int,
    pauseSec: int,
    teleopSec: int,
    transitionSec: int,
    shiftSec: int,
    endgameSec: int)
  {
    function AutoEnd(): int { Seconds(warmupSec + autoSec) }

    function TeleopStart(): int { Seconds(warmupSec + autoSec + pauseSec) }

    function TeleopEnd(): int { Seconds(warmupSec + autoSec + pauseSec + teleopSec) }

    function TransitionEnd(): int { TeleopStart() + Seconds(transitionSec) }

    /** Seconds of teleop left after the transition shift and the four alliance shifts. This, not
        endgameSec, is what the fine clocks in game/hub.go use for the endgame. */
    function TailSec(): int { teleopSec - transitionSec - 4 * shiftSec }

    /** Settings a match can be played with: nothing is negative, and AUTO and the shifts exist. The
        settings form does not check this. */
    predicate Valid() {
      && 0 <= warmupSec && 0 <= autoSec && 0 < warmupSec + autoSec
      && 0 <= pauseSec && 0 <= teleopSec
      && 0 < transitionSec && 0 < shiftSec && 0 <= endgameSec
    }
  }

  predicate InTeleop(tm: MatchTiming, elapsed: int) { tm.TeleopStart() <= elapsed < tm.TeleopEnd() }

  /** The durations the controller starts with. */
  const DEFAULT_TIMING := MatchTiming(0, 20, 3, 140, 10, 25, 30)
}
