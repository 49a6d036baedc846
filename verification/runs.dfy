/**
 * Successive polls of one pipe, as the daemon's main loop makes them: the
 * baseline one poll leaves is the baseline the next one starts from, and a
 * poll that does not complete ends the process.
 */
module Runs {
  import opened Pipe
  import opened Loss

  /** What a sequence of polls leaves behind: the baseline, every warning, and whether it died. */
  datatype Trace = Trace(baseline: Baseline, events: seq<Event>, stopped: bool)

  /** Poll once per snapshot in `chs`, in order, stopping at the first poll that does not complete. */
  function Run(policy: Policy, b: Baseline, chs: seq<Channel>): Trace
    decreases |chs|
  {
    if chs == [] then Trace(b, [], false)
    else
      var p := Poll(policy, b, chs[0]);
      if !p.status.Completed? then Trace(p.baseline, p.events, true)
      else
        var rest := Run(policy, p.baseline, chs[1..]);
        Trace(rest.baseline, p.events + rest.events, rest.stopped)
  }

  /**
   * Over any run, the deltas the warnings carry add up to how far the
   * baseline moved: no loss is reported twice and none is skipped, even
   * when the run ends in a fatal error after a drop warning.
   */
  lemma {:induction false} RunReportsEveryChange(policy: Policy, b: Baseline, chs: seq<Channel>)
    ensures DroppedTotal(Run(policy, b, chs).events) == Run(policy, b, chs).baseline.drops - b.drops
    ensures TruncatedTotal(Run(policy, b, chs).events) == Run(policy, b, chs).baseline.truncates - b.truncates
    decreases |chs|
  {
    if chs != [] {
      var p := Poll(policy, b, chs[0]);
      PollReportsEveryChange(policy, b, chs[0]);
      if p.status.Completed? {
        var rest := Run(policy, p.baseline, chs[1..]);
        RunReportsEveryChange(policy, p.baseline, chs[1..]);
        TotalsAppend(p.events, rest.events);
      }
    }
  }

  /**
   * A run that did not die leaves the drop baseline equal to the drop count
   * of its last poll, whatever the counters did on the way.
   */
  lemma {:induction false} RunEndsOnLastDrops(policy: Policy, b: Baseline, chs: seq<Channel>)
    requires chs != []
    ensures !Run(policy, b, chs).stopped ==> Run(policy, b, chs).baseline.drops == chs[|chs| - 1].drops
    decreases |chs|
  {
    var p := Poll(policy, b, chs[0]);
    if p.status.Completed? && |chs| > 1 {
      RunEndsOnLastDrops(policy, p.baseline, chs[1..]);
      assert chs[1..][|chs[1..]| - 1] == chs[|chs| - 1];
    }
  }

  /**
   * The kernel's counters never go down: each snapshot's drop and truncate
   * counts are at least those of the baseline and of every earlier snapshot.
   */
  predicate KernelMonotone(b: Baseline, chs: seq<Channel>)
  {
    && (forall i :: 0 <= i < |chs| ==> b.drops <= chs[i].drops && b.truncates <= chs[i].truncates)
    && (forall i, j :: 0 <= i <= j < |chs| ==>
          chs[i].drops <= chs[j].drops && chs[i].truncates <= chs[j].truncates)
  }

  /**
   * With counters that never go down, the baseline never goes down, every
   * drop warning reports a positive delta, and a run that did not die ends
   * with the baseline equal to the last counters it saw.
   */
  lemma {:induction false} RunBaselineMonotone(policy: Policy, b: Baseline, chs: seq<Channel>)
    requires KernelMonotone(b, chs)
    ensures b.drops <= Run(policy, b, chs).baseline.drops
    ensures b.truncates <= Run(policy, b, chs).baseline.truncates
    ensures forall e :: e in Run(policy, b, chs).events && e.Dropped? ==> e.dropDelta > 0
    ensures chs != [] && !Run(policy, b, chs).stopped ==>
              Run(policy, b, chs).baseline == Baseline(chs[|chs| - 1].drops, chs[|chs| - 1].truncates)
    decreases |chs|
  {
    if chs != [] {
      var p := Poll(policy, b, chs[0]);
      assert b.drops <= chs[0].drops;
      if p.status.Completed? {
        var rest := Run(policy, p.baseline, chs[1..]);
        assert p.baseline == Baseline(chs[0].drops, chs[0].truncates);
        assert KernelMonotone(p.baseline, chs[1..]) by {
          forall i | 0 <= i < |chs[1..]|
            ensures p.baseline.drops <= chs[1..][i].drops && p.baseline.truncates <= chs[1..][i].truncates
          {
            assert chs[1..][i] == chs[i + 1];
          }
          forall i, j | 0 <= i <= j < |chs[1..]|
            ensures chs[1..][i].drops <= chs[1..][j].drops && chs[1..][i].truncates <= chs[1..][j].truncates
          {
            assert chs[1..][i] == chs[i + 1] && chs[1..][j] == chs[j + 1];
          }
        }
        RunBaselineMonotone(policy, p.baseline, chs[1..]);
        if |chs| > 1 {
          assert chs[1..][|chs[1..]| - 1] == chs[|chs| - 1];
        }
      }
    }
  }
}
