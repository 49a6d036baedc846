/**
 * pipe_report_stats: a read-only snapshot of the pipe's three counters,
 * written either to stderr (foreground) or as one syslog record at
 * LOG_AUTH | LOG_INFO (daemon).  It takes no baseline, so it cannot change
 * what the loss controller will see next.
 */
module Report {
  import opened Wrappers
  import opened Pipe

  datatype Counter = DropsCounter | ReadsCounter | TruncatesCounter

  /** One "name value" item of a report. */
  datatype Field = Field(counter: Counter, value: nat)

  /** Three lines on the console stream, or one system-log record. */
  datatype Output = Console(lines: seq<Field>) | Syslog(record: seq<Field>)

  /**
   * How a report ends: shown, fatal on a failed counter request, or aborted
   * by the `pipefd > 0` assertion before anything is asked of the pipe.
   */
  datatype Reported =
    | Shown(calls: seq<Cmd>, output: Output)
    | Died(calls: seq<Cmd>, op: Cmd)
    | Aborted

  /** The order in which a report lists the counters. */
  const ReportOrder: seq<Counter> := [DropsCounter, ReadsCounter, TruncatesCounter]

  function Fields(o: Output): seq<Field>
  {
    match o
    case Console(lines) => lines
    case Syslog(record) => record
  }

  /** The value of the first field naming counter `c`, if any. */
  function Lookup(fs: seq<Field>, c: Counter): Option<nat>
  {
    if fs == [] then None
    else if fs[0].counter == c then Some(fs[0].value)
    else Lookup(fs[1..], c)
  }

  /** What an operator reads back from a report: each counter found by its name. */
  function Readback(o: Output): Option<Stats>
  {
    var fs := Fields(o);
    match (Lookup(fs, ReadsCounter), Lookup(fs, DropsCounter), Lookup(fs, TruncatesCounter))
    case (Some(r), Some(d), Some(t)) => Some(Stats(r, d, t))
    case _ => None
  }

  /** The three fields of a report of `s`, in report order. */
  function Listing(s: Stats): seq<Field>
  {
    [Field(DropsCounter, s.drops), Field(ReadsCounter, s.readCount), Field(TruncatesCounter, s.truncates)]
  }

  lemma ListingReadsBack(s: Stats)
    ensures Readback(Console(Listing(s))) == Some(s)
    ensures Readback(Syslog(Listing(s))) == Some(s)
  {
    var fs := Listing(s);
    var last := [Field(TruncatesCounter, s.truncates)];
    assert fs[1..][1..] == last;
    assert Lookup(last, TruncatesCounter) == Some(s.truncates);
    assert Lookup(fs[1..], TruncatesCounter) == Lookup(last, TruncatesCounter);
    assert Lookup(fs, TruncatesCounter) == Some(s.truncates);
    assert Lookup(fs, ReadsCounter) == Some(s.readCount);
    assert Lookup(fs, DropsCounter) == Some(s.drops);
  }

  function ReportStats(ch: Channel, foreground: bool): (r: Reported)
    ensures r.Aborted? <==> ch.fd <= 0
    ensures r.Shown? <==> ch.fd > 0 && forall c :: c in StatsOrder ==> c !in ch.failing
    ensures r.Died? ==> StoppedAt(r.calls, StatsOrder, r.op, ch.failing)
    ensures r.Shown? ==> r.calls == StatsOrder && (foreground <==> r.output.Console?)
    // The report reads back as exactly the pipe's counters ...
    ensures r.Shown? ==> Readback(r.output) == Some(Stats(ch.readCount, ch.drops, ch.truncates))
    // ... listed once each: drops, reads, truncates.
    ensures r.Shown? ==>
              && |Fields(r.output)| == |ReportOrder|
              && forall i :: 0 <= i < |ReportOrder| ==> Fields(r.output)[i].counter == ReportOrder[i]
  {
    if ch.fd <= 0 then Aborted
    else
      var q := GetStats(ch);
      match q.answer
      case Failed(op) => Died(q.calls, op)
      case Value(s) =>
        var fs := Listing(s);
        ListingReadsBack(s);
        if foreground then Shown(q.calls, Console(fs)) else Shown(q.calls, Syslog(fs))
  }
}
