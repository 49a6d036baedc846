/**
 * The loss controller of pipe.c: on every poll it fetches the pipe's
 * counters, reports growth of the truncate counter, and on any change of
 * the drop counter reports it and tries to double the pipe's queue limit.
 * The two counters pipe.c keeps in static variables become an explicit
 * `Baseline` that a poll takes and returns.
 */
module Loss {
  import opened Wrappers
  import opened Pipe

  /** The drop and truncate counts seen by the previous poll. */
  datatype Baseline = Baseline(drops: nat, truncates: nat)

  /** Both static counters start at zero. */
  const Initial: Baseline := Baseline(0, 0)

  /** The warnings a poll logs, each carrying what its message prints. */
  datatype Event =
    | Truncated(truncTotal: nat, truncDelta: nat)  // "audit pipe truncated ..."
    | Dropped(dropTotal: nat, dropDelta: int)      // "audit pipe dropped a total of ..."
    | Resized(limit: u32)                          // "resized queue to ..."

  /**
   * How the next queue limit is chosen: `AsWritten` is pipe.c's unclamped
   * doubling of an unsigned int; `Capped` is the doubling clamped to the
   * maximum limit that its comment suggests.
   */
  datatype Policy = AsWritten | Capped

  /**
   * How a poll ends: normally, with a fatal error on a failed request (the
   * process logs it and exits), or on the failed `cur <= max` assertion.
   */
  datatype Status = Completed | Fatal(op: Cmd) | AssertionFailed

  /**
   * Everything one poll produces: how it ended, the baseline it leaves, the
   * warnings it logged in order, the requests it issued in order, and the
   * queue limit it asked the pipe to adopt, if it got that far.
   */
  datatype Step = Step(
    status: Status,
    baseline: Baseline,
    events: seq<Event>,
    calls: seq<Cmd>,
    request: Option<u32>)

  /** A baseline together with the warnings logged while updating it. */
  datatype Noted = Noted(baseline: Baseline, events: seq<Event>)

  /** The queue-limit half of a poll (pipe.c:71-84). */
  datatype Growth = Growth(status: Status, events: seq<Event>, calls: seq<Cmd>, request: Option<u32>)

  /** The order of the queue-limit requests. */
  const LimitOrder: seq<Cmd> := [GetQlimit, GetQlimitMax, SetQlimit]

  function Max(a: nat, b: nat): nat { if a < b then b else a }

  /** Position of an event kind in the order a poll logs them. */
  function Rank(e: Event): nat
  {
    match e
    case Truncated(_, _) => 0
    case Dropped(_, _) => 1
    case Resized(_) => 2
  }

  /** At most one event of each kind, truncate before drop before resize. */
  predicate Ordered(es: seq<Event>)
  {
    forall i, j :: 0 <= i < j < |es| ==> Rank(es[i]) < Rank(es[j])
  }

  /** Sum of the deltas carried by the drop warnings in `es`. */
  function DroppedTotal(es: seq<Event>): int
  {
    if es == [] then 0
    else (if es[0].Dropped? then es[0].dropDelta else 0) + DroppedTotal(es[1..])
  }

  /** Sum of the deltas carried by the truncate warnings in `es`. */
  function TruncatedTotal(es: seq<Event>): nat
  {
    if es == [] then 0
    else (if es[0].Truncated? then es[0].truncDelta else 0) + TruncatedTotal(es[1..])
  }

  /**
   * Truncate check: a strict increase over the baseline is logged with the
   * cumulative count and the delta, and the baseline moves up to it; the
   * truncate baseline is therefore the highest count seen so far.
   */
  function NoteTruncates(b: Baseline, truncates: nat): (r: Noted)
    ensures r.baseline.drops == b.drops
    ensures r.baseline.truncates == Max(b.truncates, truncates)
    ensures truncates > b.truncates ==> r.events == [Truncated(truncates, truncates - b.truncates)]
    ensures truncates <= b.truncates ==> r.events == []
  {
    if truncates > b.truncates then
      Noted(b.(truncates := truncates), [Truncated(truncates, truncates - b.truncates)])
    else
      Noted(b, [])
  }

  /**
   * Drop check: an unchanged drop count means nothing to do (`None`); any
   * other count, higher or lower, is logged with the cumulative count and
   * the signed delta, and the drop baseline becomes that count.
   */
  function NoteDrops(b: Baseline, drops: nat): (r: Option<Noted>)
    ensures r.None? <==> drops == b.drops
    ensures r.Some? ==> r.value.baseline == Baseline(drops, b.truncates)
    ensures r.Some? ==> r.value.events == [Dropped(drops, drops - b.drops)]
    ensures r.Some? ==> r.value.events[0].dropDelta != 0
  {
    if drops == b.drops then None
    else Some(Noted(b.(drops := drops), [Dropped(drops, drops - b.drops)]))
  }

  /**
   * pipe.c's `cur_qlim *= 2` on an unsigned int: exactly twice the current
   * limit below 2^31, and a wrapped value smaller than the current limit
   * from there on.
   */
  function DoubledLimit(cur: u32): (n: u32)
    ensures cur < U32_HALF ==> n == 2 * cur
    ensures cur >= U32_HALF ==> n + U32_BOUND == 2 * cur && n < cur
  {
    (2 * cur) % U32_BOUND
  }

  /**
   * The doubling clamped to the maximum: never above `max`, never below a
   * current limit that is within it, and exactly twice the current limit
   * whenever that fits.
   */
  function CappedLimit(cur: u32, max: u32): (n: u32)
    ensures n <= max
    ensures n == max || n == 2 * cur
    ensures cur <= max ==> cur <= n
    ensures 2 * cur <= max ==> n == 2 * cur
    ensures 2 * cur >= max ==> n == max
  {
    if 2 * cur < max then 2 * cur else max
  }

  function NextLimit(policy: Policy, cur: u32, max: u32): u32
  {
    match policy
    case AsWritten => DoubledLimit(cur)
    case Capped => CappedLimit(cur, max)
  }

  /**
   * The queue-limit half of a poll: fetch the current and maximum limit
   * (a failure of either is fatal); stop quietly at the ceiling; fail the
   * assertion if the current limit is above the maximum; otherwise request
   * the next limit, which is fatal if refused and logged if accepted.
   */
  function Grow(policy: Policy, ch: Channel): (g: Growth)
    ensures 0 < |g.calls| <= |LimitOrder| && g.calls == LimitOrder[..|g.calls|]
    ensures GetQlimit !in ch.failing ==> |g.calls| >= 2
    ensures g.status.Fatal? ==> StoppedAt(g.calls, LimitOrder, g.status.op, ch.failing)
    ensures g.status.AssertionFailed? <==>
              GetQlimit !in ch.failing && GetQlimitMax !in ch.failing && ch.qlimit > ch.qlimitMax
    ensures g.request.Some? <==> SetQlimit in g.calls
    ensures g.request.Some? <==>
              GetQlimit !in ch.failing && GetQlimitMax !in ch.failing && ch.qlimit < ch.qlimitMax
    ensures g.request.Some? ==> g.request.value == NextLimit(policy, ch.qlimit, ch.qlimitMax)
    ensures g.status.Completed? && g.request.None? ==> ch.qlimit == ch.qlimitMax && g.events == []
    ensures g.status.Completed? && g.request.Some? ==> g.events == [Resized(g.request.value)]
    ensures !g.status.Completed? ==> g.events == []
    // Each failed request is fatal, in request order.
    ensures GetQlimit in ch.failing ==> g.status == Fatal(GetQlimit)
    ensures GetQlimit !in ch.failing && GetQlimitMax in ch.failing ==> g.status == Fatal(GetQlimitMax)
    ensures g.request.Some? ==> (g.status == Fatal(SetQlimit) <==> SetQlimit in ch.failing)
    ensures g.status.Completed? <==>
              LimitsOk(ch) && (ch.qlimit == ch.qlimitMax || (ch.qlimit < ch.qlimitMax && SetQlimit !in ch.failing))
  {
    if GetQlimit in ch.failing then
      Growth(Fatal(GetQlimit), [], [GetQlimit], None)
    else if GetQlimitMax in ch.failing then
      Growth(Fatal(GetQlimitMax), [], [GetQlimit, GetQlimitMax], None)
    else if ch.qlimit == ch.qlimitMax then
      Growth(Completed, [], [GetQlimit, GetQlimitMax], None)
    else if ch.qlimit > ch.qlimitMax then
      Growth(AssertionFailed, [], [GetQlimit, GetQlimitMax], None)
    else
      var n := NextLimit(policy, ch.qlimit, ch.qlimitMax);
      if SetQlimit in ch.failing then
        Growth(Fatal(SetQlimit), [], [GetQlimit, GetQlimitMax, SetQlimit], Some(n))
      else
        Growth(Completed, [Resized(n)], [GetQlimit, GetQlimitMax, SetQlimit], Some(n))
  }

  /** True when all three counter requests succeed on `ch`. */
  predicate StatsOk(ch: Channel)
  {
    GetReads !in ch.failing && GetDrops !in ch.failing && GetTruncates !in ch.failing
  }

  /** True when both queue-limit queries succeed on `ch`. */
  predicate LimitsOk(ch: Channel)
  {
    GetQlimit !in ch.failing && GetQlimitMax !in ch.failing
  }

  /**
   * One call of pipe_analyze_loss with the baseline `b` on the pipe `ch`.
   */
  function Poll(policy: Policy, b: Baseline, ch: Channel): (p: Step)
    // A failed counter query is fatal before anything is logged or updated.
    ensures !StatsOk(ch) ==>
              && p.status.Fatal?
              && StoppedAt(p.calls, StatsOrder, p.status.op, ch.failing)
              && p.baseline == b && p.events == [] && p.request.None?
    // No new loss: nothing logged, nothing updated, no queue-limit request.
    ensures StatsOk(ch) && ch.drops == b.drops && ch.truncates <= b.truncates ==>
              p == Step(Completed, b, [], StatsOrder, None)
    // Truncate path: a strict increase is logged first and recorded.
    ensures StatsOk(ch) && ch.truncates > b.truncates ==>
              && |p.events| > 0
              && p.events[0] == Truncated(ch.truncates, ch.truncates - b.truncates)
              && p.baseline.truncates == ch.truncates
    ensures StatsOk(ch) && ch.truncates <= b.truncates ==>
              p.baseline.truncates == b.truncates && forall e :: e in p.events ==> !e.Truncated?
    // Truncate growth alone leaves the drop baseline and the queue alone.
    ensures StatsOk(ch) && ch.drops == b.drops ==>
              && p.status.Completed?
              && p.baseline.drops == b.drops
              && p.calls == StatsOrder
              && p.request.None?
              && forall e :: e in p.events ==> e.Truncated?
    // Drop path: any change is logged once and recorded before the queue is touched.
    ensures StatsOk(ch) && ch.drops != b.drops ==>
              && Dropped(ch.drops, ch.drops - b.drops) in p.events
              && (forall e :: e in p.events && e.Dropped? ==> e == Dropped(ch.drops, ch.drops - b.drops))
              && p.baseline.drops == ch.drops
              && |p.calls| > |StatsOrder|
              && p.calls[..|StatsOrder|] == StatsOrder
              && p.calls[|StatsOrder|] == GetQlimit
    // Ceiling: no request, no resize message.
    ensures StatsOk(ch) && ch.drops != b.drops && LimitsOk(ch) && ch.qlimit == ch.qlimitMax ==>
              && p.status.Completed?
              && p.request.None?
              && SetQlimit !in p.calls
              && forall e :: e in p.events ==> !e.Resized?
    // Below the ceiling: the next limit is requested; refused is fatal, accepted is logged last.
    ensures StatsOk(ch) && ch.drops != b.drops && LimitsOk(ch) && ch.qlimit < ch.qlimitMax ==>
              && p.request == Some(NextLimit(policy, ch.qlimit, ch.qlimitMax))
              && (SetQlimit in ch.failing <==> p.status == Fatal(SetQlimit))
              && (SetQlimit !in ch.failing <==>
                    p.status.Completed? && p.events[|p.events| - 1] == Resized(p.request.value))
    // After a drop change, a failed queue-limit query is fatal and nothing is requested.
    ensures StatsOk(ch) && ch.drops != b.drops && !LimitsOk(ch) ==>
              && p.status == Fatal(if GetQlimit in ch.failing then GetQlimit else GetQlimitMax)
              && p.request.None?
              && SetQlimit !in p.calls
    // The failed assertion stops the poll before any request.
    ensures p.status.AssertionFailed? ==> p.request.None? && SetQlimit !in p.calls
    // The assertion cur <= max fails only on a limit pair that breaks it.
    ensures p.status.AssertionFailed? <==>
              StatsOk(ch) && ch.drops != b.drops && LimitsOk(ch) && ch.qlimit > ch.qlimitMax
    // Whatever happens, warnings come in the fixed order.
    ensures Ordered(p.events) && |p.events| <= 3
    ensures p.request.Some? <==> SetQlimit in p.calls
  {
    var q := GetStats(ch);
    match q.answer
    case Failed(op) => Step(Fatal(op), b, [], q.calls, None)
    case Value(s) =>
      var t := NoteTruncates(b, s.truncates);
      match NoteDrops(t.baseline, s.drops)
      case None => Step(Completed, t.baseline, t.events, q.calls, None)
      case Some(d) =>
        var g := Grow(policy, ch);
        Step(g.status, d.baseline, t.events + d.events + g.events, q.calls + g.calls, g.request)
  }

  /**
   * Every change a poll makes to the baseline is reported: the deltas its
   * drop and truncate warnings carry add up to how far it moved each count.
   */
  lemma PollReportsEveryChange(policy: Policy, b: Baseline, ch: Channel)
    ensures DroppedTotal(Poll(policy, b, ch).events) == Poll(policy, b, ch).baseline.drops - b.drops
    ensures TruncatedTotal(Poll(policy, b, ch).events) == Poll(policy, b, ch).baseline.truncates - b.truncates
  {
    var p := Poll(policy, b, ch);
    if StatsOk(ch) {
      var t := NoteTruncates(b, ch.truncates);
      if ch.drops != b.drops {
        var d := NoteDrops(t.baseline, ch.drops).value;
        var g := Grow(policy, ch);
        assert p.events == t.events + d.events + g.events;
        TotalsAppend(t.events + d.events, g.events);
        TotalsAppend(t.events, d.events);
      }
    }
  }

  /**
   * After a drop change the queue-limit requests follow the three counter
   * requests in pipe.c's order, GET_QLIMIT, GET_QLIMIT_MAX, SET_QLIMIT, each
   * at most once and stopping at the first failure; GET_QLIMIT_MAX is
   * always issued once GET_QLIMIT succeeds.  A "resized" warning is only
   * ever logged by a poll that completed, and it names the limit requested.
   */
  lemma PollGrowthPath(policy: Policy, b: Baseline, ch: Channel)
    ensures var p := Poll(policy, b, ch);
            StatsOk(ch) && ch.drops != b.drops ==>
              var g := p.calls[|StatsOrder|..];
              && |g| <= |LimitOrder|
              && g == LimitOrder[..|g|]
              && (GetQlimit !in ch.failing ==> |g| >= 2)
              && (p.status.Fatal? ==> StoppedAt(g, LimitOrder, p.status.op, ch.failing))
    ensures var p := Poll(policy, b, ch);
            forall e :: e in p.events && e.Resized? ==> p.status.Completed? && p.request == Some(e.limit)
  {
    var p := Poll(policy, b, ch);
    if StatsOk(ch) {
      var t := NoteTruncates(b, ch.truncates);
      if ch.drops != b.drops {
        var d := NoteDrops(t.baseline, ch.drops).value;
        var g := Grow(policy, ch);
        assert p.calls == StatsOrder + g.calls;
        assert p.calls[|StatsOrder|..] == g.calls;
        assert p.events == t.events + d.events + g.events;
      }
    }
  }

  /** Both totals distribute over concatenation. */
  lemma {:induction false} TotalsAppend(a: seq<Event>, c: seq<Event>)
    ensures DroppedTotal(a + c) == DroppedTotal(a) + DroppedTotal(c)
    ensures TruncatedTotal(a + c) == TruncatedTotal(a) + TruncatedTotal(c)
  {
    if a != [] {
      assert (a + c)[1..] == a[1..] + c;
      TotalsAppend(a[1..], c);
    } else {
      assert a + c == c;
    }
  }
}
