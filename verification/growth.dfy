/**
 * Where repeated growth of the queue limit leads: the limit the pipe is
 * asked for last when every poll sees new drops, every request succeeds and
 * the pipe adopts each requested limit.
 */
module Growth {
  import opened Wrappers
  import opened Pipe
  import opened Loss

  /** 2^k, the factor `k` doublings multiply a limit by. */
  function Pow2(k: nat): (r: nat)
    ensures r >= 1
  {
    if k == 0 then 1 else 2 * Pow2(k - 1)
  }

  /**
   * Growth under `policy` from the limit `cur`, stopping at the first limit
   * that reaches the maximum.  Under the clamped doubling that is the
   * maximum itself; under the unclamped doubling it can be anything up to
   * (but not including) twice the maximum.  Limits stay below 2^31, where
   * doubling does not wrap.
   */
  function Climb(policy: Policy, cur: u32, max: u32): (r: u32)
    requires 1 <= cur <= max < U32_HALF
    ensures max <= r < 2 * max
    ensures policy == Capped ==> r == max
    decreases max - cur
  {
    if cur == max then cur
    else
      var n := NextLimit(policy, cur, max);
      if n >= max then n else Climb(policy, n, max)
  }

  /**
   * A current limit of zero never grows: under either policy a lossy poll
   * below the ceiling asks for zero again, so `Climb` starts at one.
   */
  lemma ZeroLimitNeverGrows(policy: Policy, b: Baseline, ch: Channel)
    requires StatsOk(ch) && LimitsOk(ch) && SetQlimit !in ch.failing
    requires ch.drops != b.drops && ch.qlimit == 0 < ch.qlimitMax
    ensures Poll(policy, b, ch).status.Completed?
    ensures Poll(policy, b, ch).request == Some(0)
  {
  }

  lemma Pow2Grows(k: nat)
    requires k >= 2
    ensures Pow2(k) >= 4
  {
  }

  /** Starting from twice the limit is one doubling ahead. */
  lemma ShiftPow2(cur: nat, k: nat)
    ensures cur * Pow2(k + 1) == (2 * cur) * Pow2(k)
  {
  }

  /** From `cur`, a power of two no smaller than 4 overshoots twice `cur`. */
  lemma OvershootsDouble(cur: nat, k: nat)
    requires cur >= 1 && k >= 2
    ensures cur * Pow2(k) > 2 * cur
  {
    Pow2Grows(k);
  }

  /**
   * The unclamped doubling lands exactly on the maximum if and only if the
   * maximum is the starting limit times a power of two; otherwise its last
   * request overshoots the maximum.
   */
  lemma {:induction false} ClimbLandsIff(cur: u32, max: u32)
    requires 1 <= cur <= max < U32_HALF
    ensures Climb(AsWritten, cur, max) == max <==> exists k: nat :: cur * Pow2(k) == max
    ensures Climb(AsWritten, cur, max) != max ==> Climb(AsWritten, cur, max) > max
    decreases max - cur
  {
    if cur == max {
      assert cur * Pow2(0) == max;
    } else {
      var n := 2 * cur;
      assert NextLimit(AsWritten, cur, max) == n;
      if n >= max {
        assert Climb(AsWritten, cur, max) == n;
        if n == max {
          assert Pow2(1) == 2;
          assert cur * Pow2(1) == max;
        } else {
          forall k: nat | cur * Pow2(k) == max
            ensures false
          {
            if k >= 2 {
              OvershootsDouble(cur, k);
            }
          }
        }
      } else {
        ClimbLandsIff(n, max);
        if exists k: nat :: cur * Pow2(k) == max {
          var k: nat :| cur * Pow2(k) == max;
          assert k != 0;
          ShiftPow2(cur, k - 1);
        }
        if exists k: nat :: n * Pow2(k) == max {
          var k: nat :| n * Pow2(k) == max;
          ShiftPow2(cur, k);
        }
      }
    }
  }
}
