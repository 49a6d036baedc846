/**
 * Concrete inputs on which the unclamped doubling of pipe.c misbehaves,
 * next to what the clamped doubling does on the same inputs, and four
 * worked polls.
 */
module Findings {
  import opened Wrappers
  import opened Pipe
  import opened Loss
  import opened Runs
  import opened Growth

  /**
   * Below the ceiling but more than half way to it, the as-written poll asks
   * the pipe for a limit above its maximum; the clamped poll asks for the maximum.
   */
  lemma OvershootWitness()
    ensures Poll(AsWritten, Initial, Channel(3, 0, 5, 0, 600, 1000, {})).request == Some(1200)
    ensures Poll(Capped, Initial, Channel(3, 0, 5, 0, 600, 1000, {})).request == Some(1000)
    // Should the pipe adopt 1200 anyway, the next poll with new drops fails the assertion.
    ensures Poll(AsWritten, Baseline(5, 0), Channel(3, 0, 9, 0, 1200, 1000, {})).status == AssertionFailed
  {
  }

  /**
   * Doubling from 100 towards a maximum of 1000 never lands on 1000: the
   * as-written growth's last request is 1600, the clamped growth's is 1000.
   */
  lemma NeverLandsWitness()
    ensures Climb(AsWritten, 100, 1000) == 1600
    ensures Climb(Capped, 100, 1000) == 1000
  {
  }

  /**
   * At 2^31 the unsigned doubling wraps to zero, so the as-written poll asks
   * for an empty queue; the clamped poll asks for the maximum.
   */
  lemma WrapWitness()
    ensures Poll(AsWritten, Initial, Channel(3, 0, 1, 0, U32_HALF, U32_BOUND - 1, {})).request == Some(0)
    ensures Poll(Capped, Initial, Channel(3, 0, 1, 0, U32_HALF, U32_BOUND - 1, {})).request == Some(U32_BOUND - 1)
  {
  }

  /** New drops from the initial baseline log one warning and double 100 to 200. */
  lemma ExampleDoubles()
    ensures Poll(AsWritten, Initial, Channel(3, 10, 5, 0, 100, 1000, {}))
            == Step(Completed, Baseline(5, 0), [Dropped(5, 5), Resized(200)],
                    StatsOrder + LimitOrder, Some(200))
  {
  }

  /** An unchanged drop count does nothing at all. */
  lemma ExampleUnchanged()
    ensures Poll(AsWritten, Baseline(5, 0), Channel(3, 20, 5, 0, 200, 1000, {}))
            == Step(Completed, Baseline(5, 0), [], StatsOrder, None)
  {
  }

  /** New truncates and new drops log both warnings, in that order, and double 200 to 400. */
  lemma ExampleBothWarnings()
    ensures Poll(AsWritten, Baseline(5, 0), Channel(3, 30, 12, 2, 200, 1000, {}))
            == Step(Completed, Baseline(12, 2), [Truncated(2, 2), Dropped(12, 7), Resized(400)],
                    StatsOrder + LimitOrder, Some(400))
  {
  }

  /** At the ceiling new drops are logged but nothing is requested. */
  lemma ExampleCeiling()
    ensures Poll(AsWritten, Baseline(12, 2), Channel(3, 40, 20, 2, 1000, 1000, {}))
            == Step(Completed, Baseline(20, 2), [Dropped(20, 8)], StatsOrder + [GetQlimit, GetQlimitMax], None)
  {
  }
}
