/**
 * The audit pipe as the loss controller sees it through ioctl(2): an open
 * descriptor with three cumulative counters and a queue-limit pair.  The
 * kernel is not modelled; a `Channel` is one snapshot of what the pipe would
 * answer, together with the set of requests that would fail on it.
 */
module Pipe {

  /** One more than the largest C `unsigned int`, the type of the queue limits. */
  const U32_BOUND: nat := 0x1_0000_0000

  /** Half of `U32_BOUND`: doubling an `unsigned int` at or above this wraps. */
  const U32_HALF: nat := 0x8000_0000

  type u32 = x: nat | x < U32_BOUND

  /** The ioctl requests issued on the pipe descriptor. */
  datatype Cmd =
    | GetReads      // AUDITPIPE_GET_READS
    | GetDrops      // AUDITPIPE_GET_DROPS
    | GetTruncates  // AUDITPIPE_GET_TRUNCATES
    | GetQlimit     // AUDITPIPE_GET_QLIMIT
    | GetQlimitMax  // AUDITPIPE_GET_QLIMIT_MAX
    | SetQlimit     // AUDITPIPE_SET_QLIMIT

  /**
   * A snapshot of an open audit pipe: its descriptor, the kernel's
   * cumulative counters, the current and maximum queue limit, and the
   * requests that fail on it at this moment.
   */
  datatype Channel = Channel(
    fd: int,
    readCount: nat,   // ap_reads
    drops: nat,
    truncates: nat,
    qlimit: u32,
    qlimitMax: u32,
    failing: set<Cmd>)

  /** The counters fetched together by one statistics query (`readCount` is ap_reads). */
  datatype Stats = Stats(readCount: nat, drops: nat, truncates: nat)

  /** The answer to a query, or the request whose failure was fatal. */
  datatype Answer<+T> = Value(value: T) | Failed(op: Cmd)

  /** The order in which the three counters are fetched. */
  const StatsOrder: seq<Cmd> := [GetReads, GetDrops, GetTruncates]

  /** A statistics query: the requests actually issued, and its answer. */
  datatype StatsQuery = StatsQuery(calls: seq<Cmd>, answer: Answer<Stats>)

  /**
   * True when `calls` is what a caller issuing `order` one request at a time
   * sends before stopping at the first failing one, and `op` is that request.
   */
  predicate StoppedAt(calls: seq<Cmd>, order: seq<Cmd>, op: Cmd, failing: set<Cmd>)
  {
    && 0 < |calls| <= |order|
    && calls == order[..|calls|]
    && op == calls[|calls| - 1]
    && op in failing
    && forall i :: 0 <= i < |calls| - 1 ==> calls[i] !in failing
  }

  /**
   * Fetch reads, drops and truncates, in that order; the first failing
   * request is fatal, so the caller gets all three counters or none.
   */
  function GetStats(ch: Channel): (q: StatsQuery)
    ensures q.answer.Value? <==> forall c :: c in StatsOrder ==> c !in ch.failing
    ensures q.answer.Value? ==>
              && q.calls == StatsOrder
              && q.answer.value == Stats(ch.readCount, ch.drops, ch.truncates)
    ensures q.answer.Failed? ==> StoppedAt(q.calls, StatsOrder, q.answer.op, ch.failing)
  {
    if GetReads in ch.failing then
      StatsQuery([GetReads], Failed(GetReads))
    else if GetDrops in ch.failing then
      StatsQuery([GetReads, GetDrops], Failed(GetDrops))
    else if GetTruncates in ch.failing then
      StatsQuery([GetReads, GetDrops, GetTruncates], Failed(GetTruncates))
    else
      StatsQuery([GetReads, GetDrops, GetTruncates], Value(Stats(ch.readCount, ch.drops, ch.truncates)))
  }
}
