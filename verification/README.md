# bsmtrace audit-pipe loss controller, in Dafny

bsmtrace reads audit records from a FreeBSD audit pipe. When the pipe's
in-kernel queue fills up, the kernel drops records. When a record is too
large, the kernel truncates it. `pipe.c` watches for both:

- `pipe_analyze_loss` fetches the pipe's cumulative counters and compares
  them with two counters it kept from the previous call.
- It logs any growth of the truncate count.
- On any change of the drop count it logs the change and tries to double the
  pipe's queue limit.
- `pipe_report_stats` writes the three counters to stderr or to syslog.

The model is purely functional:

- **Pipe** (`pipe.dfy`): a `Channel` is one snapshot of the pipe. It holds
  the descriptor, the counters, the current and maximum queue limit (32-bit
  unsigned), and the set of ioctl requests that would fail on it.
  `GetStats` fetches reads, drops and truncates with all-or-fatal semantics.
- **Loss** (`loss.dfy`): the static counters become an explicit `Baseline`.
  A `Poll` takes a baseline and a snapshot and returns a `Step`:
  - how the poll ended: completed, `Fatal(op)` or `AssertionFailed`;
  - the new baseline;
  - the warnings logged, in order;
  - the ioctl requests issued, in order;
  - the queue limit requested, if any.

  `bsmtrace_error(0, …)` (bsmtrace.c:59-81) is modelled as appending an
  `Event`. `bsmtrace_error(1, …)` logs and exits the process, so it is
  modelled as the `Fatal` status. A failed C `assert` aborts the process,
  so it is modelled as the `AssertionFailed` status. The way the next limit
  is chosen is a `Policy`:
  - `AsWritten` is pipe.c's `cur_qlim *= 2` on an `unsigned int`. It is not
    clamped and wraps modulo 2^32.
  - `Capped` is the doubling clamped to the maximum, which pipe.c's comment
    suggests (see Findings).

  Every `Poll` property below holds for both policies unless it names one.
- **Runs** (`runs.dfy`): successive polls that thread the baseline through.
  A run stops at the first poll that does not complete, because the process
  exits there.
- **Growth** (`growth.dfy`): where repeated doubling leads when every poll
  sees new drops and every request succeeds.
- **Report** (`report.dfy`): `pipe_report_stats`, with a read-back of its
  output.
- **Findings** (`findings.dfy`): concrete inputs that show the findings
  below, and worked polls.

Three behaviours of pipe.c are easy to misread; the model follows the code:

- The new limit is `2*cur`, not `min(2*cur, max)` (pipe.c:80).
- The drop path is taken on any inequality (`==` test at pipe.c:59), not
  only on an increase.
- The truncate path needs a strict increase (pipe.c:48). So "nothing
  happens" holds whenever the truncate count is at or below the baseline,
  not only when it equals it.

## Model

| member | source | states |
|---|---|---|
| Pipe.GetStats | pipe.c:87-101 | Fetches reads, drops, truncates in that order and stops at the first failing request, which is fatal. The counters are returned only if all three requests succeed. The requests issued are exactly the prefix up to the failure. |
| Loss.NoteTruncates | pipe.c:44-53 | Only a strict increase is logged, with the cumulative count and the delta. The truncate baseline becomes the higher of the old baseline and the observed count. The drop baseline is untouched. |
| Loss.NoteDrops | pipe.c:54-64 | An unchanged drop count means nothing to do. Any other count, higher or lower, yields exactly one warning with the count and a nonzero signed delta. The drop baseline becomes the observed count. The truncate baseline is untouched. |
| Loss.DoubledLimit | pipe.c:79-80 | The as-written new limit is exactly twice the current one below 2^31. From 2^31 up it wraps to a value smaller than the current limit. |
| Loss.CappedLimit | pipe.c:65-70 | The clamped new limit never exceeds the maximum and never falls below a current limit that is within it. It is twice the current limit when that fits and the maximum otherwise. |
| Loss.Grow | pipe.c:65-84 | GET_QLIMIT then GET_QLIMIT_MAX, where the first one failing is fatal and ends the requests. At `cur == max` it stops with no request and no message. With `cur > max` the assertion fails. Otherwise it issues exactly one SET_QLIMIT with the policy's next limit. A refused set is fatal. An accepted set logs one "resized" event carrying the requested value. |
| Loss.Poll | pipe.c:37-85 | (1) A failed counter fetch is fatal with no log and no baseline change. (2) No new loss: nothing logged, baseline unchanged, only the three counter requests issued. (3) A truncate increase is logged first and recorded. (4) Truncate growth alone never touches the drop baseline or the queue. (5) A drop change is logged exactly once and recorded before the first queue-limit request, so it survives a later fatal error. (6) At the ceiling there is no set and no resize message. (6a) After a drop change, a failed GET_QLIMIT or GET_QLIMIT_MAX is fatal, naming the first one that failed, with no request. (7) Below the ceiling the policy's next limit is requested; refusal is fatal, and acceptance ends the log with the resize message. (8) The assertion fails only when cur > max, and it stops the poll before any SET_QLIMIT. (9) Warnings are always in the order truncate, drop, resize. |
| Loss.PollGrowthPath | pipe.c:61-84 | After a drop change, the requests following the three counter requests are a prefix of GET_QLIMIT, GET_QLIMIT_MAX, SET_QLIMIT. Each is issued at most once, GET_QLIMIT_MAX is always issued once GET_QLIMIT succeeds, and a fatal poll stops at the first failing one. A "resized" warning appears only in a poll that completed, and it carries the limit that poll requested. |
| Loss.PollReportsEveryChange | pipe.c:48-64 | In one poll, the deltas of the drop warnings add up to how far the drop baseline moved. The same holds for truncates. |
| Runs.RunReportsEveryChange | pipe.c:34-64 | Over any sequence of polls, the reported deltas add up to the total movement of each baseline: no loss is reported twice or skipped. This holds even when the run ends in a fatal error. |
| Runs.RunEndsOnLastDrops | pipe.c:59-64 | A sequence of polls that did not die leaves the drop baseline equal to the drop count of its last poll. |
| Runs.RunBaselineMonotone | pipe.c:48-64 | If the kernel counters never go down, then the baseline never goes down and every drop warning reports a positive delta. A run that did not die ends with the baseline equal to the last counters seen. |
| Growth.Climb | pipe.c:71-84 | Repeated growth from a limit stops at the first limit that reaches the maximum. Under the clamped policy that limit is exactly the maximum. Under the as-written policy it is below twice the maximum. |
| Growth.ZeroLimitNeverGrows | pipe.c:77-84 | With a current limit of 0 below the maximum, a lossy poll whose requests all succeed asks for 0 again under either policy, so growth never starts. |
| Growth.ClimbLandsIff | pipe.c:77-80 | The as-written doubling lands exactly on the maximum if and only if the maximum is the start limit times a power of two. Otherwise its last request overshoots the maximum. |
| Report.ListingReadsBack | pipe.c:111-120 | The three report fields, looked up by name, read back as the counters they were built from. |
| Report.ReportStats | pipe.c:103-121 | A descriptor at or below zero fails the assertion before any request. A failed counter fetch is fatal. Otherwise the output goes to the console when in the foreground and to syslog otherwise. It lists drops, reads, truncates once each, in that order, and reads back as exactly the pipe's counters. It takes no baseline, so it changes nothing the loss controller sees. |
| Findings.OvershootWitness | pipe.c:79-83 | With limit 600 of 1000, the as-written poll requests 1200 and the clamped poll requests 1000. If the pipe adopted 1200, the next lossy poll would fail the assertion. |
| Findings.NeverLandsWitness | pipe.c:65-80 | Doubling from 100 towards 1000 ends with a request for 1600 as written, and 1000 when clamped. |
| Findings.WrapWitness | pipe.c:80 | At limit 2^31, the as-written doubling requests 0 and the clamped one requests the maximum. |
| Findings.ExampleDoubles | pipe.c:59-84 | Worked poll: from the initial baseline, drops 5 logs one drop warning (5, delta 5), sets the drop baseline to 5 and doubles the limit from 100 to 200. |
| Findings.ExampleUnchanged | pipe.c:54-60 | Worked poll: an unchanged drop count of 5 logs nothing, keeps the baseline, and issues only the counter requests. |
| Findings.ExampleBothWarnings | pipe.c:44-84 | Worked poll: drops 12 with truncates 2 logs the truncate warning (2, delta 2), then the drop warning (12, delta 7), then doubles 200 to 400. |
| Findings.ExampleCeiling | pipe.c:71-78 | Worked poll: at limit 1000 of 1000, new drops are logged but no SET_QLIMIT is issued and no resize is logged. |

## Left out

- Daemon plumbing in bsmtrace.c: pid file, daemonizing, option parsing, `usage`, `dprintf`, `exit`. Only the meaning of `bsmtrace_error` is kept: warning means an event, fatal means the process ends.
- The ioctl mechanics and the layout of `struct pipe_stats`: `includes.h` is not part of this model. Each request's success is an input (`Channel.failing`).
- The kernel's handling of SET_QLIMIT, including whether it refuses a limit above the maximum: the kernel is not part of this model, so acceptance is an input. Growth.Climb assumes that every request is adopted.
- Message text, the stderr copy of warnings before daemonizing, and syslog priorities: events carry the numbers their messages print.
- Integer widths of the counters and the baseline (signed `int` baseline, unsigned counters, wrap of a negative delta): counters are naturals and the drop delta is an unbounded signed integer. The queue limits are modelled as 32-bit, with their wrap.
- Growth.Climb: stated for limits below 2^31, where doubling does not wrap, and from a current limit of at least 1. At 0 both policies request 0 forever (Growth.ZeroLimitNeverGrows), so there is no climb to describe. The wrap is shown separately by Findings.WrapWitness.
- Growth.ClimbLandsIff: the same two bounds as Growth.Climb.
- The `AUDITPIPE_GET_DROPS` compile-time gate: the feature is assumed present. Builds with `NDEBUG`, where the assertions vanish, are not modelled.
- Concurrency with the record-reading loop and the polling cadence: both belong to the caller. Runs takes the snapshots as given.

## Findings

| source | as written | input that shows it | evidently intended | confidence | as-written member | corrected member |
|---|---|---|---|---|---|---|
| pipe.c:80 | `cur_qlim *= 2` is not clamped to `max_qlim`, although the comment at pipe.c:66-69 speaks of running up against the maximum | current limit 600, maximum 1000, new drops: the request is 1200. From 100 towards 1000 the growth never lands on 1000 and ends asking for 1600 | request `min(2*cur, max)`, so growth ends exactly at the maximum (proved: Growth.Climb under `Capped`) | medium, not executed | Findings.OvershootWitness | Loss.CappedLimit |
| pipe.c:80 | doubling an `unsigned int` wraps modulo 2^32 | current limit 2^31, maximum 2^32-1, new drops: the request is 0 | never request less than the current limit | low (real maximum limits are far smaller), not executed | Findings.WrapWitness | Loss.CappedLimit |
