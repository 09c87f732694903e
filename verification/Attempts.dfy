/** A transaction over its attempts: operations record into the generation of usage they were issued in. */
module Attempts {
  import opened AttemptHistories
  import opened Metrics
  import opened Sequences
  import opened Usage
  import opened Wrappers

  /** An operation that was issued, with the generation it records into. */
  datatype InFlight = InFlight(op: Op, usage: AttemptUsage)

  /** The generation of a reported attempt, and the length of the history when it was reported. */
  datatype Push = Push(generation: nat, at: nat)

  /** The counters of an entry are what its generation had recorded when it was pushed. */
  ghost predicate IsSnapshotOf(history: seq<Event>, p: Push, a: AttemptMetrics)
    requires IsHistory(history)
  {
    && p.at <= |history| && IsHistory(history[..p.at])
    && a.usage.counters == Tally(RecordedIn(history[..p.at], p.generation))
  }

  /** One entry for each push, of generations in order; the current one is not pushed while it is open. */
  ghost predicate ArePushes(history: seq<Event>, pushes: seq<Push>, attempts: seq<AttemptMetrics>, closed: nat) {
    && IsHistory(history) && |pushes| == |attempts|
    && (forall k :: 0 <= k < |pushes| ==> IsSnapshotOf(history, pushes[k], attempts[k]))
    && (forall k, l :: 0 <= k < l < |pushes| ==> pushes[k].generation < pushes[l].generation)
    && (forall k :: 0 <= k < |pushes| ==> pushes[k].generation < closed)
  }

  /** Every push was made at some point of the history. */
  ghost predicate ArePlaced(history: seq<Event>, pushes: seq<Push>) {
    forall k :: 0 <= k < |pushes| ==> pushes[k].at <= |history| && IsHistory(history[..pushes[k].at])
  }

  /** What the reported attempts had recorded when they were reported. */
  ghost function RecordedOps(history: seq<Event>, pushes: seq<Push>): seq<Op>
    requires ArePlaced(history, pushes)
  {
    if pushes == [] then []
    else RecordedIn(history[..pushes[0].at], pushes[0].generation) + RecordedOps(history, pushes[1..])
  }

  /** What had been issued in the reported attempts by then. */
  ghost function IssuedOps(history: seq<Event>, pushes: seq<Push>): seq<Op>
    requires ArePlaced(history, pushes)
  {
    if pushes == [] then []
    else IssuedIn(history[..pushes[0].at], pushes[0].generation) + IssuedOps(history, pushes[1..])
  }

  /** Every operation of a reported attempt had resolved when the attempt was reported. */
  ghost predicate AreComplete(history: seq<Event>, pushes: seq<Push>)
    requires ArePlaced(history, pushes)
  {
    forall k :: 0 <= k < |pushes| ==> AllResolved(history[..pushes[k].at], pushes[k].generation)
  }

  lemma PushesArePlaced(history: seq<Event>, pushes: seq<Push>, attempts: seq<AttemptMetrics>, closed: nat)
    requires ArePushes(history, pushes, attempts, closed)
    ensures ArePlaced(history, pushes)
  {
    hide IsHistory;
    forall k | 0 <= k < |pushes| ensures pushes[k].at <= |history| && IsHistory(history[..pushes[k].at]) {
      assert IsSnapshotOf(history, pushes[k], attempts[k]);
    }
  }

  lemma {:induction false} ReportIsTally(history: seq<Event>, pushes: seq<Push>, attempts: seq<AttemptMetrics>)
    requires IsHistory(history) && |pushes| == |attempts| && ArePlaced(history, pushes)
    requires forall k :: 0 <= k < |pushes| ==> IsSnapshotOf(history, pushes[k], attempts[k])
    ensures UsageOf(attempts).counters == Tally(RecordedOps(history, pushes))
    decreases |pushes|
  {
    hide IsHistory, RecordedIn, Tally;
    if pushes == [] {
      NothingTallied();
    } else {
      var p := pushes[0];
      assert IsSnapshotOf(history, p, attempts[0]);
      ReportIsTally(history, pushes[1..], attempts[1..]);
      TallyConcat(RecordedIn(history[..p.at], p.generation), RecordedOps(history, pushes[1..]));
    }
  }

  /** Each operation is recorded at most once, and once in a report that all of them had resolved for. */
  lemma {:induction false} ReportedWereIssued(history: seq<Event>, pushes: seq<Push>)
    requires ArePlaced(history, pushes)
    ensures multiset(RecordedOps(history, pushes)) <= multiset(IssuedOps(history, pushes))
    ensures AreComplete(history, pushes) ==>
              multiset(RecordedOps(history, pushes)) == multiset(IssuedOps(history, pushes))
  {
    hide IsHistory, RecordedIn, IssuedIn, AllResolved;
    if pushes != [] {
      var p := pushes[0];
      ReportedWereIssued(history, pushes[1..]);
      RecordedWereIssued(history[..p.at], p.generation);
      Joined(RecordedIn(history[..p.at], p.generation), RecordedOps(history, pushes[1..]));
      Joined(IssuedIn(history[..p.at], p.generation), IssuedOps(history, pushes[1..]));
    }
  }

  lemma Joined<T>(a: seq<T>, b: seq<T>)
    ensures multiset(a + b) == multiset(a) + multiset(b)
  {
  }

  lemma PushesStay(
    history: seq<Event>, e: Event, pushes: seq<Push>, attempts: seq<AttemptMetrics>, closed: nat, more: nat
  )
    requires ArePushes(history, pushes, attempts, closed) && closed <= more && IsHistory(history + [e])
    ensures ArePushes(history + [e], pushes, attempts, more)
  {
    hide IsHistory, RecordedIn, Tally;
    forall k | 0 <= k < |pushes| ensures IsSnapshotOf(history + [e], pushes[k], attempts[k]) {
      assert (history + [e])[..pushes[k].at] == history[..pushes[k].at];
    }
  }

  /** The next generation is pushed with what it has recorded. */
  lemma PushesNext(
    history: seq<Event>, pushes: seq<Push>, attempts: seq<AttemptMetrics>, generation: nat, a: AttemptMetrics
  )
    requires ArePushes(history, pushes, attempts, generation)
    requires a.usage.counters == Tally(RecordedIn(history, generation))
    ensures ArePushes(history, pushes + [Push(generation, |history|)], attempts + [a], generation + 1)
  {
    hide IsHistory, RecordedIn, Tally;
    TakeEnds(history);
    var more := pushes + [Push(generation, |history|)];
    forall k | 0 <= k < |more| ensures IsSnapshotOf(history, more[k], (attempts + [a])[k]) {
      assert k < |pushes| ==> IsSnapshotOf(history, pushes[k], attempts[k]);
    }
  }

  /** Every operation in flight holds the generation it was issued in. */
  ghost predicate AreInFlight(history: seq<Event>, inFlight: seq<InFlight>, generations: seq<AttemptUsage>) {
    && |inFlight| == IssuedCount(history)
    && (forall i :: 0 <= i < |inFlight| ==>
          && inFlight[i].op == IssueOf(history, i).0
          && IssueOf(history, i).1 < |generations| && inFlight[i].usage == generations[IssueOf(history, i).1])
  }

  lemma InFlightStays(
    history: seq<Event>, e: Event, inFlight: seq<InFlight>, generations: seq<AttemptUsage>, more: seq<AttemptUsage>
  )
    requires IsHistory(history) && AreInFlight(history, inFlight, generations) && generations <= more
    requires !e.Issued? && (e.Resolved? ==> IsUnresolved(history, e.i))
    ensures AreInFlight(history + [e], inFlight, more)
  {
    hide IssuedCount, IssueOf, RecordedIn, IsHistory, RestartCount;
    HistoryNext(history, e);
  }

  lemma HeldBy(history: seq<Event>, inFlight: seq<InFlight>, generations: seq<AttemptUsage>, i: nat)
    requires AreInFlight(history, inFlight, generations) && i < |inFlight|
    ensures i < IssuedCount(history) && IssueOf(history, i).1 < |generations|
    ensures inFlight[i] == InFlight(IssueOf(history, i).0, generations[IssueOf(history, i).1])
  {
  }

  /** Each generation has recorded the operations that were issued in it and have resolved. */
  ghost predicate AreGenerations(history: seq<Event>, generations: seq<AttemptUsage>)
    reads generations
  {
    && IsHistory(history) && |generations| == RestartCount(history) + 1
    && (forall g, h :: 0 <= g < h < |generations| ==> generations[g] != generations[h])
    && (forall g :: 0 <= g < |generations| ==>
          generations[g].Valid() && generations[g].recorded == RecordedIn(history, g))
  }

  lemma GenerationsAreHistory(history: seq<Event>, generations: seq<AttemptUsage>)
    requires AreGenerations(history, generations)
    ensures IsHistory(history) && |generations| == RestartCount(history) + 1
  {
    hide RestartCount, IsHistory, AttemptUsage.Valid;
  }

  lemma GenerationsNext(history: seq<Event>, generations: seq<AttemptUsage>, usage: AttemptUsage)
    requires AreGenerations(history, generations) && usage !in generations
    requires usage.Valid() && usage.recorded == []
    ensures AreGenerations(history + [Restarted], generations + [usage])
  {
    hide RestartCount, RecordedIn, IsHistory, Tally, AttemptUsage.Valid;
    RestartedNext(history);
    NothingRecordedYet(history, |generations|);
  }

  /** What is pushed of an attempt that ends, if one is open. */
  function Pushed(report: MetricsReport, open: OpenAttempt, outcome: AttemptOutcome, now: nat): seq<AttemptMetrics>
    reads if open.usage.Some? then {open.usage.value} else {}
  {
    if open.usage.None? then [] else [TransactionMetrics.Entry(open, |report.attempts|, outcome, now)]
  }

  function WithAttempts(report: MetricsReport, more: seq<AttemptMetrics>): MetricsReport {
    var attempts := report.attempts + more;
    report.(attempts := attempts, transaction := report.transaction.(retries := RetriedCount(attempts)))
  }

  /** An open attempt whose commit was answered: its work is over. */
  function Answered(open: OpenAttempt, duration: nat, now: nat): OpenAttempt {
    open.(duration := TransactionMetrics.FrozenAt(open, now), commitDuration := Some(duration))
  }

  /** A transaction, whose attempts are reported from when its collector is attached. */
  class Transaction {
    const slot: UsageSlot
    const metrics: TransactionMetrics
    var attached: bool
    var inFlight: seq<InFlight>
    ghost var generations: seq<AttemptUsage>
    ghost var history: seq<Event>
    ghost var pushes: seq<Push>

    ghost predicate GenerationsValid()
      reads this, slot, generations
    {
      AreGenerations(history, generations) && slot.usage == generations[|generations| - 1]
    }

    ghost predicate ReportValid()
      reads this, metrics
    {
      && IsReport(metrics.report)
      && generations != []
      && (metrics.open.usage.Some? ==> metrics.open.usage.value == generations[|generations| - 1])
      && (!attached ==> metrics.open.usage.None? && pushes == [])
      && ArePushes(history, pushes, metrics.report.attempts, Closed())
    }

    /** The generations that nothing more will be pushed of. */
    ghost function Closed(): nat
      requires generations != []
      reads this, metrics
    {
      |generations| - if metrics.open.usage.Some? then 1 else 0
    }

    ghost predicate Valid()
      reads this, slot, metrics, generations
    {
      GenerationsValid() && AreInFlight(history, inFlight, generations) && ReportValid()
    }

    /**
     * The total usage of the report, at any time, is that of operations issued in the reported attempts, each counted
     * at most once, and of all of them when they had resolved before their attempts were reported.
     */
    lemma TotalUsageIsTally()
      requires Valid()
      ensures ArePlaced(history, pushes)
      ensures UsageOf(metrics.report.attempts).counters == Tally(RecordedOps(history, pushes))
      ensures multiset(RecordedOps(history, pushes)) <= multiset(IssuedOps(history, pushes))
      ensures AreComplete(history, pushes) ==>
                UsageOf(metrics.report.attempts).counters == Tally(IssuedOps(history, pushes))
    {
      hide IsHistory, Tally, IsReport, RecordedOps, IssuedOps, AreInFlight, AreComplete, ArePlaced;
      PushesArePlaced(history, pushes, metrics.report.attempts, Closed());
      ReportIsTally(history, pushes, metrics.report.attempts);
      ReportedWereIssued(history, pushes);
      if AreComplete(history, pushes) {
        TallyOfMultiset(RecordedOps(history, pushes), IssuedOps(history, pushes));
      }
    }

    constructor (metrics: TransactionMetrics, now: nat)
      requires metrics.report == NO_REPORT && metrics.open.usage.None?
      ensures Valid() && fresh(slot) && fresh(slot.usage) && this.metrics == metrics && !attached
      ensures history == [] && inFlight == [] && slot.usage.recorded == [] && slot.usage.notes == []
      ensures slot.usage.startedAt == now
    {
      this.metrics := metrics;
      slot := new UsageSlot(now);
      attached, inFlight, history, pushes := false, [], [], [];
      new;
      generations := [slot.usage];
    }

    /** The first attempt is reported from here on, with what it has recorded already. */
    method Attach()
      requires Valid()
      modifies this`attached, metrics
      ensures Valid() && attached && metrics.report == old(metrics.report)
      ensures metrics.open
           == if old(attached) then old(metrics.open) else NOTHING_OPEN.(usage := Some(slot.usage))
    {
      hide IssuedCount, RestartCount, IssueOf, RecordedIn, IsHistory, Tally, IsReport, AttemptUsage.Valid;
      if !attached {
        attached := true;
        var usage := slot.Current();
        metrics.BeginAttempt(usage);
      }
    }

    /** An operation holds the generation that is current when it is issued. */
    method Issue(op: Op) returns (i: nat)
      requires Valid()
      modifies this`inFlight, this`history
      ensures Valid() && i == |old(inFlight)| && inFlight == old(inFlight) + [InFlight(op, slot.usage)]
      ensures history == old(history) + [Issued(op)] && !IsResolved(history, i)
    {
      hide IssuedCount, RestartCount, IssueOf, RecordedIn, IsHistory, ArePushes, Tally, IsReport, AttemptUsage.Valid,
        IsResolved;
      HistoryNext(history, Issued(op));
      NextIsUnresolved(history, op);
      PushesStay(history, Issued(op), pushes, metrics.report.attempts, Closed(), Closed());
      var usage := slot.Current();
      i := |inFlight|;
      inFlight := inFlight + [InFlight(op, usage)];
      history := history + [Issued(op)];
    }

    /** It resolves once, and records into that generation, whatever the current one is then. */
    method Resolve(i: nat)
      requires Valid() && i < |inFlight| && !IsResolved(history, i)
      modifies this`history, inFlight[i].usage
      ensures Valid() && history == old(history) + [Resolved(i)]
      ensures inFlight[i].usage.recorded == old(inFlight[i].usage.recorded) + [inFlight[i].op]
    {
      hide IssuedCount, RestartCount, IssueOf, RecordedIn, IsHistory, AreInFlight, ArePushes, Tally, IsReport,
        AttemptUsage.Valid;
      HeldBy(history, inFlight, generations, i);
      InFlightStays(history, Resolved(i), inFlight, generations, generations);
      ResolvedNext(history, i);
      PushesStay(history, Resolved(i), pushes, metrics.report.attempts, Closed(), Closed());
      Record(inFlight[i].usage, inFlight[i].op);
      history := history + [Resolved(i)];
    }

    static method Record(usage: AttemptUsage, op: Op)
      requires usage.Valid()
      modifies usage
      ensures usage.Valid() && usage.recorded == old(usage.recorded) + [op] && usage.notes == old(usage.notes)
    {
      hide Tally, AreValuesOf;
      match op
      case Get(bytes, keysValues) => usage.RecordGet(bytes, keysValues);
      case GetRange(bytes, keysValues) => usage.RecordGetRange(bytes, keysValues);
      case Set(bytes) => usage.RecordSet(bytes);
      case Clear(bytes) => usage.RecordClear(bytes);
      case ClearRange(bytes) => usage.RecordClearRange(bytes);
      case AtomicOp(bytes) => usage.RecordAtomicOp(bytes);
    }

    /** An application metric belongs to the attempt it is recorded in. */
    method SetCustomMetric(key: MetricKey, value: nat)
      requires Valid()
      modifies slot.usage`custom, slot.usage`notes
      ensures Valid() && slot.usage.notes == old(slot.usage.notes) + [Replaced(key, value)]
    {
      hide IssuedCount, RestartCount, IssueOf, RecordedIn, IsHistory, AreInFlight, ArePushes, Tally, IsReport,
        AreValuesOf;
      var usage := slot.Current();
      usage.SetCustom(key, value);
    }

    method IncrementCustomMetric(key: MetricKey, amount: nat)
      requires Valid()
      modifies slot.usage`custom, slot.usage`notes
      ensures Valid() && slot.usage.notes == old(slot.usage.notes) + [Added(key, amount)]
    {
      hide IssuedCount, RestartCount, IssueOf, RecordedIn, IsHistory, AreInFlight, ArePushes, Tally, IsReport,
        AreValuesOf;
      var usage := slot.Current();
      usage.IncrementCustom(key, amount);
    }

    /** A new attempt gets a fresh generation, which the metrics record from now on. */
    method BeginAttempt(now: nat)
      requires Valid()
      modifies this`generations, this`history, slot, metrics
      ensures Valid() && history == old(history) + [Restarted]
      ensures |generations| == |old(generations)| + 1 && old(generations) <= generations
      ensures slot.usage == generations[|old(generations)|] && fresh(slot.usage)
      ensures slot.usage.recorded == [] && slot.usage.notes == [] && slot.usage.startedAt == now
      ensures metrics.report == old(metrics.report)
      ensures metrics.open == if attached then NOTHING_OPEN.(usage := Some(slot.usage)) else old(metrics.open)
    {
      hide IssuedCount, RestartCount, IssueOf, RecordedIn, IsHistory, AreInFlight, ArePushes, Tally, IsReport,
        AttemptUsage.Valid, AreGenerations;
      GenerationsAreHistory(history, generations);
      RestartedNext(history);
      PushesStay(history, Restarted, pushes, metrics.report.attempts, Closed(),
                 |generations| + if attached then 0 else 1);
      slot.Begin(now);
      var usage := slot.Current();
      GenerationsNext(history, generations, usage);
      InFlightStays(history, Restarted, inFlight, generations, generations + [usage]);
      generations, history := generations + [usage], history + [Restarted];
      if attached {
        metrics.BeginAttempt(usage);
      }
    }

    /** Pushes the attempt that is open, if one is: entries before it stay as they are. */
    method EndAttempt(outcome: AttemptOutcome, now: nat)
      requires Valid()
      modifies this`pushes, metrics
      ensures Valid() && metrics.open.usage.None?
      ensures metrics.report
           == WithAttempts(old(metrics.report), old(Pushed(metrics.report, metrics.open, outcome, now)))
    {
      hide IssuedCount, RestartCount, IssueOf, RecordedIn, IsHistory, Tally, RetriedCount, ArePushes;
      Empty(metrics.report.attempts);
      if metrics.open.usage.Some? {
        ghost var entry := Pushed(metrics.report, metrics.open, outcome, now)[0];
        PushesNext(history, pushes, metrics.report.attempts, |generations| - 1, entry);
        pushes := pushes + [Push(|generations| - 1, |history|)];
      }
      metrics.FinishAttempt(outcome, now);
    }

    /** A commit that the client has answered; one that succeeded ends the attempt. */
    method Commit(committed: bool, duration: nat, now: nat, later: nat)
      requires Valid()
      modifies this`pushes, metrics
      ensures Valid() && (committed ==> metrics.open.usage.None?)
      ensures var open := if attached then Answered(old(metrics.open), duration, now) else old(metrics.open);
              && (!committed ==> metrics.open == open && metrics.report == old(metrics.report))
              && (committed ==>
                    metrics.report
                    == WithAttempts(old(metrics.report), old(Pushed(metrics.report, open, Committed, later))))
    {
      hide IssuedCount, RestartCount, IssueOf, RecordedIn, IsHistory, ArePushes, Tally, IsReport, AttemptUsage.Valid,
        WithAttempts;
      if attached {
        metrics.RecordCommit(duration, now);
      }
      if committed {
        EndAttempt(Committed, later);
      }
    }

    /** The error handler: an attempt that it accepts to retry is reported, and the next one begins. */
    method OnError(cause: Code, accepted: bool, now: nat, later: nat, next: nat)
      requires Valid()
      modifies this`generations, this`history, this`pushes, slot, metrics
      ensures Valid()
      ensures var open := old(metrics.open).(duration := TransactionMetrics.FrozenAt(old(metrics.open), now));
              && (!accepted ==>
                    && metrics.report == old(metrics.report) && metrics.open == open
                    && slot.usage == old(slot.usage) && history == old(history))
              && (accepted ==>
                    && metrics.report
                    == WithAttempts(old(metrics.report), old(Pushed(metrics.report, open, Retried(cause), later)))
                    && (if attached then metrics.open == NOTHING_OPEN.(usage := Some(slot.usage))
                        else metrics.open.usage.None?)
                    && fresh(slot.usage) && slot.usage.recorded == [] && slot.usage.notes == []
                    && slot.usage.startedAt == next
                    && history == old(history) + [Restarted])
    {
      hide IssuedCount, RestartCount, IssueOf, RecordedIn, IsHistory, ArePushes, Tally, IsReport, AttemptUsage.Valid,
        WithAttempts;
      metrics.MarkAttemptEnd(now);
      if accepted {
        EndAttempt(Retried(cause), later);
        BeginAttempt(next);
      }
    }

    /** A read version records into the report only while the attempt that asked for it is open. */
    method ResolveReadVersion(usage: AttemptUsage, duration: nat, version: Option<int>)
      requires Valid()
      modifies metrics
      ensures Valid() && metrics.report.attempts == old(metrics.report.attempts)
      ensures usage != slot.usage ==> metrics.report == old(metrics.report) && metrics.open == old(metrics.open)
    {
      hide IssuedCount, RestartCount, IssueOf, RecordedIn, IsHistory, Tally, IsReport, IsSnapshotOf;
      metrics.RecordGrv(usage, duration, version);
    }
  }
}
