/** Runs that collect metrics: the hooks and the transaction record what the retry loop does. */
module InstrumentedRuns {
  import opened AttemptHistories
  import opened Attempts
  import opened Metrics
  import opened RunReports
  import opened Sequences
  import opened Usage
  import opened Wrappers

  import R = Runner

  class MetricsHooks {
    const metrics: TransactionMetrics
    const start: nat

    constructor (metrics: TransactionMetrics, now: nat)
      ensures this.metrics == metrics && start == now
    {
      this.metrics, this.start := metrics, now;
    }

    /** Counts a conflict, and keeps the conflicting keys, whether they could be read or not. */
    method OnCommitError(code: Code, keys: ConflictKeys)
      requires IsReport(metrics.report)
      modifies metrics
      ensures IsReport(metrics.report)
      ensures metrics.open == old(metrics.open).(conflictingKeys := keys)
      ensures metrics.report == old(metrics.report).(transaction := old(metrics.report).transaction.(
                conflictCount := old(metrics.report).transaction.conflictCount
                                 + if code == R.NOT_COMMITTED then 1 else 0))
    {
      if code == R.NOT_COMMITTED {
        metrics.IncrementConflictCount();
      }
      metrics.SetConflictingKeys(keys);
    }

    method OnErrorDuration(duration: nat)
      requires IsReport(metrics.report)
      modifies metrics`report
      ensures IsReport(metrics.report)
      ensures metrics.report == old(metrics.report).(attempts := WithDuration(old(metrics.report.attempts), duration))
    {
      metrics.SetOnErrorDuration(duration);
    }

    method OnCommitSuccess(version: Option<int>)
      requires IsReport(metrics.report)
      modifies metrics`report
      ensures IsReport(metrics.report)
      ensures metrics.report == old(metrics.report).(transaction := old(metrics.report).transaction.(
                commitVersion := if version.Some? then version else old(metrics.report).transaction.commitVersion))
    {
      if version.Some? {
        metrics.SetCommitVersion(version.value);
      }
    }

    /** An attempt that is still open when the run ends is the one that failed. */
    method OnComplete(now: nat)
      requires IsReport(metrics.report)
      modifies metrics
      ensures IsReport(metrics.report) && metrics.open.usage.None?
      ensures metrics.report
           == WithAttempts(old(metrics.report), old(Pushed(metrics.report, metrics.open, Failed, now))).(
                totalDuration := Some(Since(start, now)))
    {
      hide RetriedCount;
      Empty(metrics.report.attempts);
      metrics.FinishAttempt(Failed, now);
      metrics.SetTotalDuration(Since(start, now));
    }
  }

  function WithDuration(attempts: seq<AttemptMetrics>, duration: nat): seq<AttemptMetrics> {
    var n := |attempts|;
    if n == 0 then attempts else attempts[n - 1 := attempts[n - 1].(onErrorDuration := Some(duration))]
  }

  // ---------- what is collected ----------

  /** The report shows what was collected. */
  ghost predicate Shows(report: MetricsReport, c: Collected) {
    && SummariesOf(report.attempts) == c.entries
    && report.transaction.conflictCount == c.conflicts && report.transaction.commitVersion == c.commitVersion
    && report.totalDuration == c.totalDuration
  }

  ghost predicate ShowsOpen(open: OpenAttempt, part: Option<Part>) {
    && (open.usage.Some? <==> part.Some?)
    && (part.Some? ==> part.value == Part(open.duration, open.commitDuration, open.conflictingKeys))
  }

  /** A transaction and its collector have recorded what was collected so far. */
  ghost predicate Collects(trx: Transaction, c: Collected)
    reads trx, trx.slot, trx.metrics, trx.generations, trx.slot.usage
  {
    && trx.Valid() && trx.attached == c.attached
    && trx.slot.usage.recorded == c.ops && trx.slot.usage.startedAt == c.startedAt
    && Shows(trx.metrics.report, c) && ShowsOpen(trx.metrics.open, c.open)
  }

  lemma SummariesNext(attempts: seq<AttemptMetrics>, a: AttemptMetrics)
    ensures SummariesOf(attempts + [a]) == SummariesOf(attempts) + [SummaryOf(a)]
  {
  }

  lemma SummariesWithDuration(attempts: seq<AttemptMetrics>, duration: nat)
    ensures SummariesOf(WithDuration(attempts, duration)) == LastWith(SummariesOf(attempts), duration)
  {
  }

  /** An entry that is pushed shows the attempt that has ended. */
  lemma PushedShows(report: MetricsReport, open: OpenAttempt, outcome: AttemptOutcome, now: nat, c: Collected)
    requires Shows(report, c) && ShowsOpen(open, c.open)
    requires open.usage.Some? ==>
               && open.usage.value.Valid() && open.usage.value.recorded == c.ops
               && open.usage.value.startedAt == c.startedAt
    ensures Shows(WithAttempts(report, Pushed(report, open, outcome, now)), Ended(c, outcome, now))
  {
    hide Tally, AreValuesOf, RetriedCount, SummariesOf;
    if open.usage.Some? {
      SummariesNext(report.attempts, TransactionMetrics.Entry(open, |report.attempts|, outcome, now));
    } else {
      Empty(report.attempts);
    }
  }

  // ---------- step by step ----------

  /** Operations of the attempt that is current, which resolve before it ends. */
  method RecordAll(trx: Transaction, ops: seq<Op>, ghost c: Collected)
    requires Collects(trx, c)
    modifies trx`inFlight, trx`history, trx.slot.usage
    ensures Collects(trx, c.(ops := c.ops + ops))
  {
    hide Tally, AttemptUsage.Valid, Transaction.Valid;
    Empty(c.ops);
    for k := 0 to |ops|
      invariant Collects(trx, c.(ops := c.ops + ops[..k]))
    {
      var i := trx.Issue(ops[k]);
      trx.Resolve(i);
      TakeNext(ops, k);
      Assoc(c.ops, ops[..k], [ops[k]]);
    }
    TakeEnds(ops);
  }

  /** The transaction records how long the commit took, and ends the attempt if it succeeded. */
  method CommitSucceeded(trx: Transaction, hooks: MetricsHooks, k: nat, s: Surroundings, ghost c: Collected)
    requires Collects(trx, c) && hooks.metrics == trx.metrics
    modifies trx`pushes, trx.metrics
    ensures Collects(trx, CommitSuccess(c, k, s))
  {
    hide Tally, AttemptUsage.Valid, Transaction.GenerationsValid, AreInFlight, ArePushes, IsReport, WithAttempts,
      SummariesOf;
    ghost var open :=
      if trx.attached then Answered(trx.metrics.open, s.commitDuration(k), s.answered(k)) else trx.metrics.open;
    CurrentIsValid(trx);
    PushedShows(trx.metrics.report, open, Committed, s.reported(k), CommitAnswered(c, k, s));
    trx.Commit(true, s.commitDuration(k), s.answered(k), s.reported(k));
    hooks.OnCommitSuccess(s.version);
  }

  /** What is open belongs to the current generation. */
  lemma CurrentIsValid(trx: Transaction)
    requires trx.Valid()
    ensures trx.slot.usage.Valid()
    ensures trx.metrics.open.usage.Some? ==> trx.metrics.open.usage.value == trx.slot.usage
  {
    hide IsHistory, RecordedIn, ArePushes, AreInFlight, AttemptUsage.Valid, RestartCount;
  }

  method CommitFailed(
    trx: Transaction, hooks: MetricsHooks, k: nat, code: R.Code, s: Surroundings, ghost c: Collected
  )
    requires Collects(trx, c) && hooks.metrics == trx.metrics
    modifies trx`pushes, trx.metrics
    ensures Collects(trx, CommitFailure(c, k, code, s))
  {
    hide Tally, AttemptUsage.Valid, Transaction.GenerationsValid, AreInFlight, ArePushes, IsReport, WithAttempts,
      SummariesOf;
    CurrentIsValid(trx);
    trx.Commit(false, s.commitDuration(k), s.answered(k), s.reported(k));
    hooks.OnCommitError(code, s.conflicts(k));
  }

  /** The error handler, unless the closure has kept the transaction. */
  method HandleError<T, E>(
    trx: Transaction, a: R.Attempt<T, E>, k: nat, code: R.Code, s: Surroundings, ghost c: Collected
  )
    requires Collects(trx, c)
    modifies trx`generations, trx`history, trx`pushes, trx.slot, trx.metrics
    ensures Collects(trx, Handled(c, a, k, code, s))
    ensures trx.slot.usage == old(trx.slot.usage) || fresh(trx.slot.usage)
  {
    hide Tally, AttemptUsage.Valid, Transaction.GenerationsValid, AreInFlight, ArePushes, IsReport, WithAttempts,
      SummariesOf;
    if a.ClosureFails? && a.refusal.Some? && a.refusal.value.ReferenceKept? {
      return;
    }
    ghost var open := trx.metrics.open.(duration := TransactionMetrics.FrozenAt(trx.metrics.open, s.handled(k)));
    CurrentIsValid(trx);
    PushedShows(trx.metrics.report, open, Retried(code), s.reported(k), Frozen(c, s.handled(k)));
    var accepted := (a.CommitFails? && a.refused.None?) || (a.ClosureFails? && a.refusal.None?);
    trx.OnError(code, accepted, s.handled(k), s.reported(k), s.started(k + 1));
  }

  method ErrorHandled(trx: Transaction, hooks: MetricsHooks, k: nat, s: Surroundings, ghost c: Collected)
    requires Collects(trx, c) && hooks.metrics == trx.metrics
    modifies trx.metrics`report
    ensures Collects(trx, c.(entries := LastWith(c.entries, s.onErrorDuration(k))))
  {
    hide Tally, AttemptUsage.Valid, Transaction.GenerationsValid, AreInFlight, ArePushes, IsReport, SummariesOf,
      WithDuration;
    var report := trx.metrics.report;
    PushesShow(trx.history, trx.pushes, report.attempts, s.onErrorDuration(k), trx.Closed());
    SummariesWithDuration(report.attempts, s.onErrorDuration(k));
    hooks.OnErrorDuration(s.onErrorDuration(k));
  }

  /** The time that error handling took is no usage. */
  lemma PushesShow(
    history: seq<Event>, pushes: seq<Push>, attempts: seq<AttemptMetrics>, duration: nat, closed: nat
  )
    requires ArePushes(history, pushes, attempts, closed)
    ensures ArePushes(history, pushes, WithDuration(attempts, duration), closed)
  {
    hide IsHistory, RecordedIn, Tally;
    forall k | 0 <= k < |pushes| ensures IsSnapshotOf(history, pushes[k], WithDuration(attempts, duration)[k]) {
      assert IsSnapshotOf(history, pushes[k], attempts[k]);
    }
  }

  /** The hook ends an attempt that is still open, without its transaction. */
  method Complete(trx: Transaction, hooks: MetricsHooks, s: Surroundings, ghost c: Collected)
    requires Collects(trx, c) && hooks.metrics == trx.metrics && hooks.start == s.begin
    modifies trx`pushes, trx.metrics
    ensures Collects(trx, Ended(c, Failed, s.end).(totalDuration := Some(Since(s.begin, s.end))))
  {
    hide Tally, AreValuesOf, AreInFlight, IsReport, SummariesOf, IsHistory, RecordedIn, RetriedCount, ArePushes,
      RestartCount;
    CurrentIsValid(trx);
    PushedShows(trx.metrics.report, trx.metrics.open, Failed, s.end, c);
    Empty(trx.metrics.report.attempts);
    if trx.metrics.open.usage.Some? {
      ghost var entry := Pushed(trx.metrics.report, trx.metrics.open, Failed, s.end)[0];
      PushesNext(trx.history, trx.pushes, trx.metrics.report.attempts, |trx.generations| - 1, entry);
      trx.pushes := trx.pushes + [Push(|trx.generations| - 1, |trx.history|)];
    }
    hooks.OnComplete(s.end);
  }

  method PlayStep<T, E>(
    trx: Transaction, hooks: MetricsHooks, step: R.Step, script: seq<R.Attempt<T, E>>, s: Surroundings,
    ghost c: Collected
  )
    requires Collects(trx, c) && hooks.metrics == trx.metrics && hooks.start == s.begin
    modifies trx, trx.slot, trx.metrics, trx.slot.usage
    ensures Collects(trx, After(c, step, script, s))
    ensures trx.slot.usage == old(trx.slot.usage) || fresh(trx.slot.usage)
  {
    hide Collects, Transaction.Valid, Ended, Begun, CommitSuccess, CommitFailure, LastWith, Accepts;
    match step
    case CallClosure(k, _) => RecordAll(trx, s.called(k), c);
    case OnAttemptStart(_) => Start(trx, c);
    case AwaitClosure(k) => RecordAll(trx, s.awaited(k), c);
    case OnCommitSuccess(k) => CommitSucceeded(trx, hooks, k, s, c);
    case OnCommitError(k, code) => CommitFailed(trx, hooks, k, code, s, c);
    case OnError(k, code) =>
      if k < |script| {
        HandleError(trx, script[k], k, code, s, c);
      }
    case OnErrorDuration(k) => ErrorHandled(trx, hooks, k, s, c);
    case OnComplete => Complete(trx, hooks, s, c);
    case _ =>
  }

  method Start(trx: Transaction, ghost c: Collected)
    requires Collects(trx, c)
    modifies trx`attached, trx.metrics
    ensures Collects(trx, if c.attached then c else c.(attached := true, open := Some(NEW)))
  {
    hide Tally, AttemptUsage.Valid, Transaction.Valid, SummariesOf;
    trx.Attach();
  }

  method Play<T, E>(
    trx: Transaction, hooks: MetricsHooks, steps: seq<R.Step>, script: seq<R.Attempt<T, E>>, s: Surroundings,
    ghost c: Collected
  )
    requires Collects(trx, c) && hooks.metrics == trx.metrics && hooks.start == s.begin
    modifies trx, trx.slot, trx.metrics, trx.slot.usage
    ensures Collects(trx, AfterAll(c, steps, script, s))
  {
    hide Collects, After;
    ghost var d := c;
    for i := 0 to |steps|
      invariant Collects(trx, d) && AfterAll(d, steps[i..], script, s) == AfterAll(c, steps, script, s)
      invariant trx.slot.usage == old(trx.slot.usage) || fresh(trx.slot.usage)
    {
      PlayStep(trx, hooks, steps[i], script, s, d);
      Uncons(steps[i..]);
      d := After(d, steps[i], script, s);
    }
  }

  /**
   A run that collects metrics, up to where its script ends or it does. The report has one entry for each attempt that
   was made, with the usage of its operations, the outcome, and what the commit and the error handling have left; of a
   run whose transaction could not be created it has the total duration only.
   */
  method InstrumentedRun<T, E>(
    client: R.Client<E>, creation: Option<R.Code>, script: seq<R.Attempt<T, E>>, s: Surroundings
  )
    returns (result: Option<Result<T, R.RunError<E>>>, report: MetricsReport, made: nat)
    ensures IsReport(report)
    ensures creation.Some? ==>
              && result == Some(Err(R.Native(creation.value)))
              && report == NO_REPORT.(totalDuration := Some(Since(s.begin, s.end)))
    ensures creation.None? ==>
              && R.Makes(script, made) && result == R.ResultAfter(script, made)
              && SummariesOf(report.attempts) == EntriesOf(script, made, s)
              && report.transaction.conflictCount == ConflictsIn(script[..made])
              && report.transaction.commitVersion == VersionOf(script, made, s)
              && report.totalDuration == if result.Some? then Some(Since(s.begin, s.end)) else None
  {
    hide AfterAll, R.StepsOfAll, R.EndOf, ConflictsIn, EntriesOf, SummariesOf, VersionOf, R.ResultAfter,
      AttemptUsage.Valid, Transaction.GenerationsValid, AreInFlight, ArePushes;
    var metrics := new TransactionMetrics();
    var hooks := new MetricsHooks(metrics, s.begin);
    var steps;
    result, steps, made := R.Run(client, creation, script);
    if creation.Some? {
      hooks.OnComplete(s.end);
      Empty(NO_REPORT.attempts);
      return result, metrics.report, 0;
    }
    var trx := new Transaction(metrics, s.started(0));
    NothingShown(s);
    Play(trx, hooks, steps, script, s, Nothing(s));
    RunCollected(client, script, made, s);
    report := metrics.report;
  }

  lemma NothingShown(s: Surroundings)
    ensures Shows(NO_REPORT, Nothing(s)) && ShowsOpen(NOTHING_OPEN, None)
  {
  }
}
