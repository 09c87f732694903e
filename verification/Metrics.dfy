/** The report of a run, attempt by attempt, and the attempt being recorded. */
module Metrics {
  import opened Sequences
  import opened Usage
  import opened Wrappers

  type Code = int

  datatype AttemptOutcome = Committed | Retried(cause: Code) | Failed

  datatype ConflictKeys = NotRequested | Available(ranges: seq<(seq<int>, seq<int>)>) | ReadFailed(code: Code)

  datatype AttemptMetrics = AttemptMetrics(
    index: nat,
    usage: UsageSnapshot,
    customMetrics: map<MetricKey, nat>,
    duration: Option<nat>,
    commitDuration: Option<nat>,
    grvDuration: Option<nat>,
    onErrorDuration: Option<nat>,
    outcome: AttemptOutcome,
    conflictingKeys: ConflictKeys,
    readVersion: Option<int>)

  datatype TransactionInfo =
    TransactionInfo(retries: nat, conflictCount: nat, readVersion: Option<int>, commitVersion: Option<int>)

  datatype MetricsReport =
    MetricsReport(attempts: seq<AttemptMetrics>, totalDuration: Option<nat>, transaction: TransactionInfo)

  const NO_REPORT: MetricsReport := MetricsReport([], None, TransactionInfo(0, 0, None, None))

  /** The attempt being recorded holds its generation of usage. */
  datatype OpenAttempt = OpenAttempt(
    usage: Option<AttemptUsage>,
    duration: Option<nat>,
    commitDuration: Option<nat>,
    grvDuration: Option<nat>,
    conflictingKeys: ConflictKeys,
    readVersion: Option<int>)

  const NOTHING_OPEN: OpenAttempt := OpenAttempt(None, None, None, None, NotRequested, None)

  // ---------- the report ----------

  function RetriedCount(attempts: seq<AttemptMetrics>): nat {
    if attempts == [] then 0
    else RetriedCount(attempts[..|attempts| - 1]) + if attempts[|attempts| - 1].outcome.Retried? then 1 else 0
  }

  /** Attempts are numbered in order, and the retries are those that were retried. */
  ghost predicate IsReport(r: MetricsReport) {
    && (forall i :: 0 <= i < |r.attempts| ==> r.attempts[i].index == i)
    && r.transaction.retries == RetriedCount(r.attempts)
  }

  lemma RetriedNext(attempts: seq<AttemptMetrics>, a: AttemptMetrics)
    ensures RetriedCount(attempts + [a]) == RetriedCount(attempts) + if a.outcome.Retried? then 1 else 0
  {
    assert (attempts + [a])[..|attempts|] == attempts;
  }

  /** When exactly the last attempt was not retried, the retries are one fewer than the attempts. */
  lemma {:induction false} RetriesOfCompletedRun(attempts: seq<AttemptMetrics>)
    requires attempts != [] && !attempts[|attempts| - 1].outcome.Retried?
    requires forall i :: 0 <= i < |attempts| - 1 ==> attempts[i].outcome.Retried?
    ensures RetriedCount(attempts) == |attempts| - 1
  {
    AllRetried(attempts[..|attempts| - 1]);
  }

  lemma {:induction false} AllRetried(attempts: seq<AttemptMetrics>)
    requires forall i :: 0 <= i < |attempts| ==> attempts[i].outcome.Retried?
    ensures RetriedCount(attempts) == |attempts|
  {
    if attempts != [] {
      AllRetried(attempts[..|attempts| - 1]);
    }
  }

  function Sum(a: UsageSnapshot, b: UsageSnapshot): UsageSnapshot {
    UsageSnapshot(a.elapsed + b.elapsed, a.counters.Plus(b.counters))
  }

  /** The usage of all attempts, from the first one. */
  function UsageOf(attempts: seq<AttemptMetrics>): UsageSnapshot {
    if attempts == [] then UsageSnapshot(0, ZERO) else Sum(attempts[0].usage, UsageOf(attempts[1..]))
  }

  lemma {:induction false} UsageOfConcat(a: seq<AttemptMetrics>, b: seq<AttemptMetrics>)
    ensures UsageOf(a + b) == Sum(UsageOf(a), UsageOf(b))
  {
    if a == [] {
      Empty(b);
    } else {
      TailOfConcat(a, b);
      UsageOfConcat(a[1..], b);
    }
  }

  method TotalUsage(report: MetricsReport) returns (total: UsageSnapshot)
    ensures total == UsageOf(report.attempts)
  {
    hide UsageOf;
    total := UsageSnapshot(0, ZERO);
    NoUsage();
    for i := 0 to |report.attempts|
      invariant total == UsageOf(report.attempts[..i])
    {
      TakeNext(report.attempts, i);
      UsageOfConcat(report.attempts[..i], [report.attempts[i]]);
      UsageOfOne(report.attempts[i]);
      var usage := report.attempts[i].usage;
      var c := usage.counters;
      total := UsageSnapshot(
        total.elapsed + usage.elapsed,
        Counters(total.counters.bytesRead + c.bytesRead, total.counters.bytesWritten + c.bytesWritten,
                 total.counters.keysValuesFetched + c.keysValuesFetched, total.counters.callGet + c.callGet,
                 total.counters.callGetRange + c.callGetRange, total.counters.callSet + c.callSet,
                 total.counters.callClear + c.callClear, total.counters.callClearRange + c.callClearRange,
                 total.counters.callAtomicOp + c.callAtomicOp));
    }
    TakeEnds(report.attempts);
  }

  lemma NoUsage()
    ensures UsageOf([]) == UsageSnapshot(0, ZERO)
  {
  }

  lemma UsageOfOne(a: AttemptMetrics)
    ensures UsageOf([a]) == a.usage
  {
  }

  // ---------- the collector ----------

  class TransactionMetrics {
    var report: MetricsReport
    var open: OpenAttempt

    constructor ()
      ensures report == NO_REPORT && open == NOTHING_OPEN && IsReport(report)
    {
      report, open := NO_REPORT, NOTHING_OPEN;
    }

    /** Starts an attempt; what was open and did not end is dropped. */
    method BeginAttempt(usage: AttemptUsage)
      modifies this`open
      ensures open == NOTHING_OPEN.(usage := Some(usage))
    {
      open := NOTHING_OPEN.(usage := Some(usage));
    }

    /** Freezes the duration of the attempt; later calls do not move it. */
    method MarkAttemptEnd(now: nat)
      modifies this`open
      ensures open == old(open).(duration := FrozenAt(old(open), now))
    {
      if open.duration.None? {
        open := open.(duration := if open.usage.Some? then Some(open.usage.value.Elapsed(now)) else None);
      }
    }

    method RecordCommit(duration: nat, now: nat)
      modifies this`open
      ensures open == old(open).(duration := FrozenAt(old(open), now), commitDuration := Some(duration))
    {
      open := open.(commitDuration := Some(duration));
      if open.duration.None? {
        open := open.(duration := if open.usage.Some? then Some(open.usage.value.Elapsed(now)) else None);
      }
    }

    static function FrozenAt(open: OpenAttempt, now: nat): Option<nat> {
      if open.duration.Some? then open.duration
      else if open.usage.Some? then Some(open.usage.value.Elapsed(now))
      else None
    }

    /** Records a completion only while the attempt that issued it is still open; the first duration is kept. */
    method RecordGrv(usage: AttemptUsage, duration: nat, version: Option<int>)
      requires IsReport(report)
      modifies this
      ensures IsReport(report) && report.attempts == old(report.attempts)
      ensures old(open).usage != Some(usage) ==> report == old(report) && open == old(open)
      ensures old(open).usage == Some(usage) ==>
                && open == old(open).(
                     grvDuration := if old(open).grvDuration.Some? then old(open).grvDuration else Some(duration),
                     readVersion := if version.Some? then version else old(open).readVersion)
                && report == old(report).(transaction := old(report).transaction.(
                     readVersion := if version.Some? then version else old(report).transaction.readVersion))
    {
      if open.usage.None? || open.usage.value != usage {
        return;
      }
      if open.grvDuration.None? {
        open := open.(grvDuration := Some(duration));
      }
      if version.Some? {
        open := open.(readVersion := version);
        report := report.(transaction := report.transaction.(readVersion := version));
      }
    }

    /** Pushes the attempt that is open, once. */
    method FinishAttempt(outcome: AttemptOutcome, now: nat)
      requires IsReport(report)
      modifies this
      ensures IsReport(report) && open.usage == None
      ensures old(open).usage.None? ==> report == old(report) && open == old(open)
      ensures old(open).usage.Some? ==>
                && open == NOTHING_OPEN
                && report.attempts == old(report.attempts) + [Entry(old(open), |old(report.attempts)|, outcome, now)]
                && var entry, usage := report.attempts[|old(report.attempts)|], old(open).usage.value;
                && entry.usage.elapsed == usage.Elapsed(now) && entry.usage.counters == usage.Counts()
                && entry.customMetrics == usage.custom
                && entry.duration == (if old(open).duration.Some? then old(open).duration else Some(usage.Elapsed(now)))
                && entry.commitDuration == old(open).commitDuration && entry.grvDuration == old(open).grvDuration
                && entry.onErrorDuration == None && entry.outcome == outcome
                && entry.conflictingKeys == old(open).conflictingKeys && entry.readVersion == old(open).readVersion
                && report == old(report).(
                     attempts := report.attempts,
                     transaction := old(report).transaction.(retries := report.transaction.retries))
    {
      hide RetriedCount;
      if open.usage.None? {
        return;
      }
      var taken := open;
      open := NOTHING_OPEN;
      var entry := Entry(taken, |report.attempts|, outcome, now);
      RetriedNext(report.attempts, entry);
      report := report.(attempts := report.attempts + [entry]);
      if outcome.Retried? {
        report := report.(transaction := report.transaction.(retries := report.transaction.retries + 1));
      }
    }

    static function Entry(open: OpenAttempt, index: nat, outcome: AttemptOutcome, now: nat): AttemptMetrics
      requires open.usage.Some?
      reads open.usage.value
    {
      var usage := open.usage.value;
      AttemptMetrics(index, usage.Snapshot(now), usage.custom,
                     if open.duration.Some? then open.duration else Some(usage.Elapsed(now)),
                     open.commitDuration, open.grvDuration, None, outcome, open.conflictingKeys, open.readVersion)
    }

    /** Lands on the last attempt of the report. */
    method SetOnErrorDuration(duration: nat)
      requires IsReport(report)
      modifies this`report
      ensures IsReport(report)
      ensures var n := |old(report).attempts|;
              report == if n == 0 then old(report)
                        else old(report).(attempts := old(report).attempts[
                               n - 1 := old(report).attempts[n - 1].(onErrorDuration := Some(duration))])
    {
      var n := |report.attempts|;
      if n > 0 {
        var last := report.attempts[n - 1].(onErrorDuration := Some(duration));
        RetriedNext(report.attempts[..n - 1], report.attempts[n - 1]);
        RetriedNext(report.attempts[..n - 1], last);
        Unsnoc(report.attempts);
        assert report.attempts[n - 1 := last] == report.attempts[..n - 1] + [last];
        report := report.(attempts := report.attempts[n - 1 := last]);
      }
    }

    method SetTotalDuration(duration: nat)
      requires IsReport(report)
      modifies this`report
      ensures IsReport(report) && report == old(report).(totalDuration := Some(duration))
    {
      report := report.(totalDuration := Some(duration));
    }

    method SetConflictingKeys(keys: ConflictKeys)
      modifies this`open
      ensures open == old(open).(conflictingKeys := keys)
    {
      open := open.(conflictingKeys := keys);
    }

    method SetCommitVersion(version: int)
      requires IsReport(report)
      modifies this`report
      ensures IsReport(report)
      ensures report == old(report).(transaction := old(report).transaction.(commitVersion := Some(version)))
    {
      report := report.(transaction := report.transaction.(commitVersion := Some(version)));
    }

    method IncrementConflictCount()
      requires IsReport(report)
      modifies this`report
      ensures IsReport(report)
      ensures report == old(report).(transaction := old(report).transaction.(
                conflictCount := old(report).transaction.conflictCount + 1))
    {
      report := report.(transaction := report.transaction.(conflictCount := report.transaction.conflictCount + 1));
    }
  }
}
