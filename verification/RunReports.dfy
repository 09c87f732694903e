/** What a metrics collector makes of the steps of a run, and what that says of whole runs. */
module RunReports {
  import opened Metrics
  import opened Sequences
  import opened Usage
  import opened Wrappers

  import R = Runner
  import opened RunnerContract

  /**
   What a run meets besides its script: for each attempt the operations that its closure records while its future is
   made and while it is awaited, the conflicting keys and durations, and the readings of the clock when the attempt
   begins, its commit is answered, its error is handled and it is reported.
   */
  datatype Surroundings = Surroundings(
    called: nat -> seq<Op>,
    awaited: nat -> seq<Op>,
    conflicts: nat -> ConflictKeys,
    commitDuration: nat -> nat,
    onErrorDuration: nat -> nat,
    version: Option<int>,
    started: nat -> nat,
    answered: nat -> nat,
    handled: nat -> nat,
    reported: nat -> nat,
    begin: nat,
    end: nat)
  {
    function OpsOf(k: nat): seq<Op> {
      called(k) + awaited(k)
    }
  }

  /** The entry of an attempt in a report, but for its index, read version and application metrics. */
  datatype Summary = Summary(
    usage: UsageSnapshot,
    duration: Option<nat>,
    commitDuration: Option<nat>,
    onErrorDuration: Option<nat>,
    conflictingKeys: ConflictKeys,
    outcome: AttemptOutcome)

  function SummaryOf(a: AttemptMetrics): Summary {
    Summary(a.usage, a.duration, a.commitDuration, a.onErrorDuration, a.conflictingKeys, a.outcome)
  }

  function SummariesOf(attempts: seq<AttemptMetrics>): seq<Summary> {
    seq(|attempts|, i requires 0 <= i < |attempts| => SummaryOf(attempts[i]))
  }

  // ---------- step by step ----------

  datatype Part = Part(duration: Option<nat>, commitDuration: Option<nat>, conflictingKeys: ConflictKeys)

  const NEW: Part := Part(None, None, NotRequested)

  /** What is collected so far: entries, the current generation's operations and start, and the attempt that is open. */
  datatype Collected = Collected(
    entries: seq<Summary>,
    ops: seq<Op>,
    startedAt: nat,
    open: Option<Part>,
    attached: bool,
    conflicts: nat,
    commitVersion: Option<int>,
    totalDuration: Option<nat>)

  function Nothing(s: Surroundings): Collected {
    Collected([], [], s.started(0), None, false, 0, None, None)
  }

  function Ended(c: Collected, outcome: AttemptOutcome, now: nat): Collected {
    if c.open.None? then c
    else
      var open, elapsed := c.open.value, Since(c.startedAt, now);
      c.(open := None,
         entries := c.entries
                    + [Summary(UsageSnapshot(elapsed, Tally(c.ops)),
                               if open.duration.Some? then open.duration else Some(elapsed),
                               open.commitDuration, None, open.conflictingKeys, outcome)])
  }

  function Begun(c: Collected, now: nat): Collected {
    c.(ops := [], startedAt := now, open := if c.attached then Some(NEW) else c.open)
  }

  /** The duration of an attempt is frozen once. */
  function Frozen(c: Collected, now: nat): Collected {
    if c.open.None? || c.open.value.duration.Some? then c
    else c.(open := Some(c.open.value.(duration := Some(Since(c.startedAt, now)))))
  }

  function CommitAnswered(c: Collected, k: nat, s: Surroundings): Collected {
    var d := Frozen(c, s.answered(k));
    if d.open.None? then d else d.(open := Some(d.open.value.(commitDuration := Some(s.commitDuration(k)))))
  }

  function CommitSuccess(c: Collected, k: nat, s: Surroundings): Collected {
    var d := Ended(CommitAnswered(c, k, s), Committed, s.reported(k));
    if s.version.Some? then d.(commitVersion := s.version) else d
  }

  function CommitFailure(c: Collected, k: nat, code: R.Code, s: Surroundings): Collected {
    var d := CommitAnswered(c, k, s);
    d.(open := if d.open.None? then None else Some(d.open.value.(conflictingKeys := s.conflicts(k))),
       conflicts := d.conflicts + if code == R.NOT_COMMITTED then 1 else 0)
  }

  function LastWith(entries: seq<Summary>, duration: nat): seq<Summary> {
    var n := |entries|;
    if n == 0 then entries else entries[n - 1 := entries[n - 1].(onErrorDuration := Some(duration))]
  }

  /** Whether `on_error` restarts the transaction. */
  predicate Accepts<T, E>(a: R.Attempt<T, E>) {
    (a.CommitFails? && a.refused.None?) || (a.ClosureFails? && a.refusal.None?)
  }

  /** Whether the closure has kept the transaction, so that `on_error` is not called on it. */
  predicate Keeps<T, E>(a: R.Attempt<T, E>) {
    a.ClosureFails? && a.refusal.Some? && a.refusal.value.ReferenceKept?
  }

  /** The error handler of the transaction, with the error that the policy chose. */
  function Handled<T, E>(c: Collected, a: R.Attempt<T, E>, k: nat, code: R.Code, s: Surroundings): Collected {
    if Keeps(a) then c
    else
      var d := Frozen(c, s.handled(k));
      if Accepts(a) then Begun(Ended(d, Retried(code), s.reported(k)), s.started(k + 1)) else d
  }

  function After<T, E>(c: Collected, step: R.Step, script: seq<R.Attempt<T, E>>, s: Surroundings): Collected {
    match step
    case CallClosure(k, _) => c.(ops := c.ops + s.called(k))
    case OnAttemptStart(_) => if c.attached then c else c.(attached := true, open := Some(NEW))
    case AwaitClosure(k) => c.(ops := c.ops + s.awaited(k))
    case OnCommitSuccess(k) => CommitSuccess(c, k, s)
    case OnCommitError(k, code) => CommitFailure(c, k, code, s)
    case OnError(k, code) => if k < |script| then Handled(c, script[k], k, code, s) else c
    case OnErrorDuration(k) => c.(entries := LastWith(c.entries, s.onErrorDuration(k)))
    case OnComplete => Ended(c, Failed, s.end).(totalDuration := Some(Since(s.begin, s.end)))
    case _ => c
  }

  function AfterAll<T, E>(c: Collected, steps: seq<R.Step>, script: seq<R.Attempt<T, E>>, s: Surroundings): Collected
    decreases |steps|
  {
    if steps == [] then c else AfterAll(After(c, steps[0], script, s), steps[1..], script, s)
  }

  lemma AfterNext<T, E>(
    c: Collected, step: R.Step, rest: seq<R.Step>, script: seq<R.Attempt<T, E>>, s: Surroundings
  )
    ensures AfterAll(c, [step] + rest, script, s) == AfterAll(After(c, step, script, s), rest, script, s)
  {
    TailOfConcat([step], rest);
    Empty(rest);
  }

  lemma AfterOne<T, E>(c: Collected, step: R.Step, script: seq<R.Attempt<T, E>>, s: Surroundings)
    ensures AfterAll(c, [step], script, s) == After(c, step, script, s)
    ensures AfterAll(c, [], script, s) == c
  {
    Empty([step]);
    AfterNext(c, step, [], script, s);
  }

  lemma {:induction false} AfterConcat<T, E>(
    c: Collected, a: seq<R.Step>, b: seq<R.Step>, script: seq<R.Attempt<T, E>>, s: Surroundings
  )
    ensures AfterAll(c, a + b, script, s) == AfterAll(AfterAll(c, a, script, s), b, script, s)
    decreases |a|
  {
    hide After;
    if a == [] {
      Empty(b);
    } else {
      TailOfConcat(a, b);
      AfterConcat(After(c, a[0], script, s), a[1..], b, script, s);
    }
  }

  // ---------- attempts ----------

  /** How an attempt of a run ends, and the cause of a retry: the error that the policy chose. */
  function OutcomeOf<T, E>(a: R.Attempt<T, E>): AttemptOutcome {
    if R.EndOf(a).None? then Retried(R.CodeOf(a.policy).value)
    else if a.Commits? then Committed
    else Failed
  }

  predicate IsConflict<T, E>(a: R.Attempt<T, E>) {
    a.CommitFails? && a.code == R.NOT_COMMITTED
  }

  /** When the work of an attempt was over, if anything told the collector. */
  function EndOfWork<T, E>(a: R.Attempt<T, E>, k: nat, s: Surroundings): Option<nat> {
    if a.Commits? || a.CommitFails? then Some(s.answered(k))
    else if a.ClosureFails? && !a.policy.Fatal? && !Keeps(a) then Some(s.handled(k))
    else None
  }

  /** When an attempt was reported: a failed one at the end of its run. */
  function ReportedAt<T, E>(a: R.Attempt<T, E>, k: nat, s: Surroundings): nat {
    if OutcomeOf(a).Failed? then s.end else s.reported(k)
  }

  /** What the duration of an attempt measures up to. */
  function WorkedUntil<T, E>(a: R.Attempt<T, E>, k: nat, s: Surroundings): nat {
    if EndOfWork(a, k, s).Some? then EndOfWork(a, k, s).value else ReportedAt(a, k, s)
  }

  /** The entry that an attempt of a script leaves. */
  function EntryOf<T, E>(a: R.Attempt<T, E>, k: nat, s: Surroundings): Summary {
    Summary(
      UsageSnapshot(Since(s.started(k), ReportedAt(a, k, s)), Tally(s.OpsOf(k))),
      Some(Since(s.started(k), WorkedUntil(a, k, s))),
      if a.Commits? || a.CommitFails? then Some(s.commitDuration(k)) else None,
      if R.EndOf(a).None? then Some(s.onErrorDuration(k)) else None,
      if a.CommitFails? then s.conflicts(k) else NotRequested,
      OutcomeOf(a))
  }

  /** Where a run stands before an attempt. */
  predicate IsBefore(c: Collected, k: nat, s: Surroundings) {
    c.ops == [] && c.startedAt == s.started(k) && c.open == if c.attached then Some(NEW) else None
  }

  function Open(c: Collected, k: nat, s: Surroundings): Collected {
    c.(attached := true, open := Some(NEW), ops := s.OpsOf(k))
  }

  /** The attempt is open after its pass, with what was recorded in it. */
  lemma AttemptCollected<T, E>(c: Collected, flag: bool, k: nat, script: seq<R.Attempt<T, E>>, s: Surroundings)
    requires k < |script| && IsBefore(c, k, s)
    ensures AfterAll(c, [R.CallClosure(k, flag)] + R.AttemptSteps(script[k], k), script, s)
         == Open(c, k, s)
  {
    hide AfterAll;
    var a := script[k];
    var rest := if a.ClosureFails? then [] else [R.BeforeCommit(k)] + (R.HookError(k, a.beforeCommit) + [R.Commit(k)]);
    var d := c.(ops := s.called(k));
    var e := d.(attached := true, open := Some(NEW));
    var f := e.(ops := s.OpsOf(k));
    Empty(s.called(k));
    assert [R.OnAttemptStart(k), R.AwaitClosure(k)] + rest == [R.OnAttemptStart(k)] + ([R.AwaitClosure(k)] + rest);
    AfterNext(c, R.CallClosure(k, flag), [R.OnAttemptStart(k)] + ([R.AwaitClosure(k)] + rest), script, s);
    AfterNext(d, R.OnAttemptStart(k), [R.AwaitClosure(k)] + rest, script, s);
    AfterNext(e, R.AwaitClosure(k), rest, script, s);
    AfterOne(f, R.Commit(k), script, s);
    if !a.ClosureFails? {
      AfterNext(f, R.BeforeCommit(k), R.HookError(k, a.beforeCommit) + [R.Commit(k)], script, s);
      HookErrorCollected(f, k, a.beforeCommit, [R.Commit(k)], script, s);
    }
  }

  lemma HookErrorCollected<T, E>(
    c: Collected, k: nat, hook: Option<R.Code>, rest: seq<R.Step>, script: seq<R.Attempt<T, E>>, s: Surroundings
  )
    ensures AfterAll(c, R.HookError(k, hook) + rest, script, s) == AfterAll(c, rest, script, s)
  {
    hide AfterAll;
    if hook.Some? {
      AfterNext(c, R.OnHookError(k, hook.value), rest, script, s);
    } else {
      Empty(rest);
    }
  }

  /** The error handler and its hook: an attempt that is retried leaves its entry, with the time that this took. */
  function HandledWith<T, E>(c: Collected, a: R.Attempt<T, E>, k: nat, code: R.Code, s: Surroundings): Collected {
    var d := Handled(c, a, k, code, s);
    if Accepts(a) then d.(entries := LastWith(d.entries, s.onErrorDuration(k))) else d
  }

  lemma OnErrorCollected<T, E>(
    c: Collected, k: nat, code: R.Code, script: seq<R.Attempt<T, E>>, s: Surroundings
  )
    requires k < |script|
    ensures AfterAll(c, [R.OnError(k, code)]
                        + if Accepts(script[k]) then [R.OnErrorDuration(k), R.OnRetry(k)] else [], script, s)
         == HandledWith(c, script[k], k, code, s)
  {
    hide AfterAll, Accepts, Handled, LastWith;
    var d := After(c, R.OnError(k, code), script, s);
    if Accepts(script[k]) {
      assert [R.OnErrorDuration(k), R.OnRetry(k)] == [R.OnErrorDuration(k)] + [R.OnRetry(k)];
      AfterNext(c, R.OnError(k, code), [R.OnErrorDuration(k)] + [R.OnRetry(k)], script, s);
      AfterNext(d, R.OnErrorDuration(k), [R.OnRetry(k)], script, s);
      AfterOne(After(d, R.OnErrorDuration(k), script, s), R.OnRetry(k), script, s);
    } else {
      AfterNext(c, R.OnError(k, code), [], script, s);
      AfterOne(d, R.OnRetry(k), script, s);
    }
  }

  lemma RetryCollected<T, E>(
    c: Collected, k: nat, policy: R.RetryDecision, inClosure: bool, script: seq<R.Attempt<T, E>>, s: Surroundings
  )
    requires k < |script|
    ensures AfterAll(c, R.RetrySteps(k, policy, inClosure, Accepts(script[k])), script, s)
         == if policy.Fatal? then c else HandledWith(c, script[k], k, R.CodeOf(policy).value, s)
  {
    hide AfterAll, Accepts, HandledWith;
    if policy.Fatal? {
      AfterOne(c, R.OnRetry(k), script, s);
    } else {
      var code := R.CodeOf(policy).value;
      var rest := [R.OnError(k, code)] + if Accepts(script[k]) then [R.OnErrorDuration(k), R.OnRetry(k)] else [];
      if inClosure {
        AfterNext(c, R.OnClosureError(k, code), rest, script, s);
      } else {
        Empty(rest);
      }
      OnErrorCollected(c, k, code, script, s);
    }
  }

  lemma CommitFailureCollected<T, E>(
    c: Collected, k: nat, code: R.Code, after: Option<R.Code>, policy: R.RetryDecision, script: seq<R.Attempt<T, E>>,
    s: Surroundings
  )
    requires k < |script|
    ensures AfterAll(c, R.CommitFailureSteps(k, code, after, policy, Accepts(script[k])), script, s)
         == var d := After(c, R.OnCommitError(k, code), script, s);
            if policy.Fatal? then d else HandledWith(d, script[k], k, R.CodeOf(policy).value, s)
  {
    hide AfterAll, Accepts, HandledWith, R.RetrySteps;
    var retry := R.RetrySteps(k, policy, false, Accepts(script[k]));
    var rest := [R.Decide(k, R.Fdb(code))] + retry;
    var d := After(c, R.OnCommitError(k, code), script, s);
    AfterNext(c, R.OnCommitError(k, code), R.HookError(k, after) + rest, script, s);
    HookErrorCollected(d, k, after, rest, script, s);
    AfterNext(d, R.Decide(k, R.Fdb(code)), retry, script, s);
    RetryCollected(d, k, policy, false, script, s);
  }

  /** An attempt that commits or is retried leaves its entry, and one that fails is still open. */
  function Left<T, E>(c: Collected, a: R.Attempt<T, E>, k: nat, s: Surroundings): Collected {
    var entry := EntryOf(a, k, s);
    var d := c.(attached := true, conflicts := c.conflicts + if IsConflict(a) then 1 else 0);
    if R.EndOf(a).None? then
      d.(entries := c.entries + [entry], open := Some(NEW), ops := [], startedAt := s.started(k + 1))
    else if a.Commits? then
      d.(entries := c.entries + [entry], open := None, ops := s.OpsOf(k),
         commitVersion := if s.version.Some? then s.version else c.commitVersion)
    else
      var work := EndOfWork(a, k, s);
      var duration := if work.Some? then Some(Since(s.started(k), work.value)) else None;
      d.(open := Some(Part(duration, entry.commitDuration, entry.conflictingKeys)), ops := s.OpsOf(k))
  }

  /** What the end of an attempt makes of it. */
  lemma OpenIsLeft<T, E>(c: Collected, a: R.Attempt<T, E>, k: nat, s: Surroundings)
    requires IsBefore(c, k, s)
    ensures a.Commits? ==> CommitSuccess(Open(c, k, s), k, s) == Left(c, a, k, s)
    ensures a.KeepsReference? ==> Open(c, k, s) == Left(c, a, k, s)
    ensures a.ClosureFails? ==>
              Left(c, a, k, s) == var d := Open(c, k, s);
                                  if a.policy.Fatal? then d else HandledWith(d, a, k, R.CodeOf(a.policy).value, s)
  {
    hide Tally;
  }

  lemma FailureIsLeft<T, E>(c: Collected, a: R.Attempt<T, E>, k: nat, s: Surroundings)
    requires IsBefore(c, k, s) && a.CommitFails?
    ensures Left(c, a, k, s) == var d := CommitFailure(Open(c, k, s), k, a.code, s);
                                if a.policy.Fatal? then d else HandledWith(d, a, k, R.CodeOf(a.policy).value, s)
  {
    hide Tally;
  }

  lemma TurnCollected<T, E>(
    c: Collected, client: R.Client<E>, k: nat, flag: bool, script: seq<R.Attempt<T, E>>, s: Surroundings
  )
    requires k < |script| && IsBefore(c, k, s)
    ensures AfterAll(c, R.StepsOf(client, script[k], k, flag), script, s) == Left(c, script[k], k, s)
  {
    hide AfterAll, R.AttemptSteps, R.CommitFailureSteps, R.RetrySteps, Left, HandledWith;
    var a := script[k];
    var open := Open(c, k, s);
    OpenIsLeft(c, a, k, s);
    var more := R.MoreSteps(client, a, k);
    Assoc([R.CallClosure(k, flag)], R.AttemptSteps(a, k), more);
    AfterConcat(c, [R.CallClosure(k, flag)] + R.AttemptSteps(a, k), more, script, s);
    AttemptCollected(c, flag, k, script, s);
    match a
    case Commits(_, _) =>
      AfterOne(open, R.OnCommitSuccess(k), script, s);
    case KeepsReference(_, _) =>
      AfterOne(open, R.OnCommitSuccess(k), script, s);
    case CommitFails(_, code, after, policy, refused) =>
      FailureIsLeft(c, a, k, s);
      CommitFailureCollected(open, k, code, after, policy, script, s);
    case ClosureFails(error, policy, refusal) =>
      AfterNext(open, R.Decide(k, client.classify(error)), R.RetrySteps(k, policy, true, refusal.None?), script, s);
      RetryCollected(open, k, policy, true, script, s);
  }

  // ---------- runs ----------

  /** The attempts of a run that did not end in between. */
  function EntriesOf<T, E>(script: seq<R.Attempt<T, E>>, made: nat, s: Surroundings): seq<Summary>
    requires made <= |script|
  {
    seq(made, k requires 0 <= k < made => EntryOf(script[k], k, s))
  }

  function ConflictsIn<T, E>(script: seq<R.Attempt<T, E>>): nat {
    if script == [] then 0
    else ConflictsIn(script[..|script| - 1]) + if IsConflict(script[|script| - 1]) then 1 else 0
  }

  /** The commit version is that of the attempt that ended the run by committing. */
  function VersionOf<T, E>(script: seq<R.Attempt<T, E>>, made: nat, s: Surroundings): Option<int>
    requires made <= |script|
  {
    if made > 0 && script[made - 1].Commits? then s.version else None
  }

  /** What is collected of the attempts that a run has made, before or after its completion. */
  predicate IsOfRun<T, E>(c: Collected, script: seq<R.Attempt<T, E>>, made: nat, s: Surroundings)
    requires made <= |script|
  {
    && c.entries == EntriesOf(script, made, s) && c.conflicts == ConflictsIn(script[..made])
    && c.commitVersion == VersionOf(script, made, s)
    && c.totalDuration == if R.ResultAfter(script, made).Some? then Some(Since(s.begin, s.end)) else None
  }

  lemma NextAttempt<T, E>(script: seq<R.Attempt<T, E>>, k: nat, s: Surroundings)
    requires k < |script|
    ensures EntriesOf(script, k + 1, s) == EntriesOf(script, k, s) + [EntryOf(script[k], k, s)]
    ensures ConflictsIn(script[..k + 1]) == ConflictsIn(script[..k]) + if IsConflict(script[k]) then 1 else 0
  {
    hide EntryOf;
    assert script[..k + 1][..k] == script[..k];
  }

  /** The run goes on after some attempts, each of which has left its entry. */
  lemma {:induction false} AttemptsCollected<T, E>(
    client: R.Client<E>, script: seq<R.Attempt<T, E>>, made: nat, s: Surroundings
  )
    requires made <= |script| && forall i :: 0 <= i < made ==> R.EndOf(script[i]).None?
    ensures var c := AfterAll(Nothing(s), R.StepsOfAll(client, script, made), script, s);
            && IsBefore(c, made, s) && IsOfRun(c, script, made, s)
  {
    hide AfterAll, R.StepsOf, R.EndOf, EntryOf, ConflictsIn, EntriesOf;
    if made == 0 {
      NothingCollected(client, script, s);
    } else {
      var k := made - 1;
      AttemptsCollected(client, script, k, s);
      var flag := R.InDoubt(client, script, k);
      var c := AfterAll(Nothing(s), R.StepsOfAll(client, script, k), script, s);
      AfterConcat(Nothing(s), R.StepsOfAll(client, script, k), R.StepsOf(client, script[k], k, flag), script, s);
      TurnCollected(c, client, k, flag, script, s);
      NextAttempt(script, k, s);
      NoVersionYet(script, k, s);
      NoVersionYet(script, made, s);
    }
  }

  lemma NoVersionYet<T, E>(script: seq<R.Attempt<T, E>>, made: nat, s: Surroundings)
    requires made <= |script| && R.ResultAfter(script, made).None?
    ensures VersionOf(script, made, s) == None
  {
  }

  lemma NothingCollected<T, E>(client: R.Client<E>, script: seq<R.Attempt<T, E>>, s: Surroundings)
    ensures AfterAll(Nothing(s), R.StepsOfAll(client, script, 0), script, s) == Nothing(s)
    ensures IsOfRun(Nothing(s), script, 0, s)
  {
  }

  /** Each attempt that a run makes leaves one entry, also the last one, whatever ends the run. */
  lemma RunCollected<T, E>(client: R.Client<E>, script: seq<R.Attempt<T, E>>, made: nat, s: Surroundings)
    requires R.Makes(script, made)
    ensures IsOfRun(AfterAll(Nothing(s), StepsOfRun(client, script, made), script, s), script, made, s)
  {
    hide AfterAll, R.StepsOf, R.EndOf, EntryOf, ConflictsIn, EntriesOf, After;
    var steps := R.StepsOfAll(client, script, made);
    if R.ResultAfter(script, made).None? {
      Empty(steps);
      AttemptsCollected(client, script, made, s);
    } else {
      var k := made - 1;
      AttemptsCollected(client, script, k, s);
      var flag := R.InDoubt(client, script, k);
      var c := AfterAll(Nothing(s), R.StepsOfAll(client, script, k), script, s);
      AfterConcat(Nothing(s), R.StepsOfAll(client, script, k), R.StepsOf(client, script[k], k, flag), script, s);
      TurnCollected(c, client, k, flag, script, s);
      NextAttempt(script, k, s);
      AfterConcat(Nothing(s), steps, [R.OnComplete], script, s);
      AfterOne(Left(c, script[k], k, s), R.OnComplete, script, s);
      NoVersionYet(script, k, s);
      Completed(c, script[k], k, script, s);
    }
  }

  lemma Completed<T, E>(c: Collected, a: R.Attempt<T, E>, k: nat, script: seq<R.Attempt<T, E>>, s: Surroundings)
    requires R.EndOf(a).Some? && c.commitVersion == None && IsBefore(c, k, s)
    ensures var d := After(Left(c, a, k, s), R.OnComplete, script, s);
            && d.entries == c.entries + [EntryOf(a, k, s)]
            && d.conflicts == c.conflicts + (if IsConflict(a) then 1 else 0)
            && d.commitVersion == (if a.Commits? then s.version else None)
            && d.totalDuration == Some(Since(s.begin, s.end))
  {
    hide Tally;
  }

  // ---------- what a report says of its run ----------

  /** Of a run that ended, the retries are one fewer than the attempts, and only the last one can have committed. */
  lemma ReportOfEndedRun<T, E>(script: seq<R.Attempt<T, E>>, made: nat, s: Surroundings, report: MetricsReport)
    requires R.Makes(script, made) && R.ResultAfter(script, made).Some? && IsReport(report)
    requires SummariesOf(report.attempts) == EntriesOf(script, made, s)
    ensures |report.attempts| == made && report.transaction.retries == made - 1
    ensures forall i :: 0 <= i < made ==>
              && report.attempts[i].index == i
              && (report.attempts[i].outcome.Retried? <==> i < made - 1)
              && (report.attempts[i].outcome.Committed? ==> i == made - 1)
    ensures report.attempts[made - 1].outcome.Committed? <==> R.ResultAfter(script, made).value.Ok?
  {
    hide Tally;
    assert |SummariesOf(report.attempts)| == made;
    forall i | 0 <= i < made ensures report.attempts[i].outcome == OutcomeOf(script[i]) {
      assert SummariesOf(report.attempts)[i] == EntriesOf(script, made, s)[i];
    }
    RetriesOfCompletedRun(report.attempts);
  }

  /** The operations of the attempts that a run has made. */
  function OpsOfAll(s: Surroundings, made: nat): seq<Op> {
    if made == 0 then [] else OpsOfAll(s, made - 1) + s.OpsOf(made - 1)
  }

  /** The total usage of a report counts the operations of every attempt of its run, and nothing else. */
  lemma {:induction false} UsageOfRun<T, E>(
    script: seq<R.Attempt<T, E>>, made: nat, s: Surroundings, attempts: seq<AttemptMetrics>
  )
    requires made <= |script| && SummariesOf(attempts) == EntriesOf(script, made, s)
    ensures UsageOf(attempts).counters == Tally(OpsOfAll(s, made))
  {
    hide Tally;
    assert |SummariesOf(attempts)| == made;
    if made == 0 {
      NothingTallied();
    } else {
      var k := made - 1;
      assert SummariesOf(attempts)[k] == EntriesOf(script, made, s)[k];
      FirstSummaries(script, k, s, attempts);
      UsageOfRun(script, k, s, attempts[..k]);
      Unsnoc(attempts);
      UsageOfConcat(attempts[..k], [attempts[k]]);
      UsageOfOne(attempts[k]);
      TallyConcat(OpsOfAll(s, k), s.OpsOf(k));
    }
  }

  lemma FirstSummaries<T, E>(script: seq<R.Attempt<T, E>>, k: nat, s: Surroundings, attempts: seq<AttemptMetrics>)
    requires k < |script| && SummariesOf(attempts) == EntriesOf(script, k + 1, s)
    ensures SummariesOf(attempts[..k]) == EntriesOf(script, k, s)
  {
    hide EntryOf;
    assert |SummariesOf(attempts)| == k + 1;
    forall i | 0 <= i < k ensures SummariesOf(attempts[..k])[i] == EntriesOf(script, k, s)[i] {
      assert SummariesOf(attempts)[i] == EntriesOf(script, k + 1, s)[i];
    }
  }

  /** The durations of attempts, from the first one. */
  function SumOfDurations(attempts: seq<AttemptMetrics>): nat {
    if attempts == [] then 0
    else
      var duration := attempts[|attempts| - 1].duration;
      SumOfDurations(attempts[..|attempts| - 1]) + if duration.Some? then duration.value else 0
  }

  /** The clock does not go backwards in an attempt. */
  ghost predicate ClockRuns<T, E>(script: seq<R.Attempt<T, E>>, made: nat, s: Surroundings)
    requires made <= |script|
  {
    forall k :: 0 <= k < made ==> s.started(k) <= WorkedUntil(script[k], k, s) <= ReportedAt(script[k], k, s)
  }

  /**
   The elapsed time of the total usage is the sum of the durations of the attempts exactly when each of them was
   reported as soon as its work was over. Else it is greater: the time in the error handler counts as elapsed.
   */
  lemma {:induction false} ElapsedIsSumOfDurationsWhen<T, E>(
    script: seq<R.Attempt<T, E>>, made: nat, s: Surroundings, attempts: seq<AttemptMetrics>
  )
    requires made <= |script| && SummariesOf(attempts) == EntriesOf(script, made, s) && ClockRuns(script, made, s)
    ensures UsageOf(attempts).elapsed >= SumOfDurations(attempts)
    ensures UsageOf(attempts).elapsed == SumOfDurations(attempts)
       <==> forall k :: 0 <= k < made ==> WorkedUntil(script[k], k, s) == ReportedAt(script[k], k, s)
  {
    hide Tally, WorkedUntil, ReportedAt, UsageOf;
    assert |SummariesOf(attempts)| == made;
    if made == 0 {
      NoUsage();
    } else {
      var k := made - 1;
      assert SummariesOf(attempts)[k] == EntriesOf(script, made, s)[k];
      FirstSummaries(script, k, s, attempts);
      ElapsedIsSumOfDurationsWhen(script, k, s, attempts[..k]);
      Unsnoc(attempts);
      UsageOfConcat(attempts[..k], [attempts[k]]);
      UsageOfOne(attempts[k]);
    }
  }

  /** A retry whose error handling takes time on the clock, as a backoff does. */
  lemma BackoffIsElapsed<T, E>(
    script: seq<R.Attempt<T, E>>, made: nat, s: Surroundings, attempts: seq<AttemptMetrics>, k: nat
  )
    requires made <= |script| && SummariesOf(attempts) == EntriesOf(script, made, s) && ClockRuns(script, made, s)
    requires k < made && script[k].ClosureFails? && R.EndOf(script[k]).None? && s.handled(k) < s.reported(k)
    ensures UsageOf(attempts).elapsed > SumOfDurations(attempts)
  {
    hide Tally, UsageOf, SumOfDurations;
    ElapsedIsSumOfDurationsWhen(script, made, s, attempts);
    assert WorkedUntil(script[k], k, s) < ReportedAt(script[k], k, s);
  }

  /** The commit conflicts that were retried. */
  function RetriedConflictsIn<T, E>(script: seq<R.Attempt<T, E>>): nat {
    if script == [] then 0
    else
      var last := script[|script| - 1];
      RetriedConflictsIn(script[..|script| - 1]) + if IsConflict(last) && R.EndOf(last).None? then 1 else 0
  }

  lemma {:induction false} ConflictsBeforeTheLast<T, E>(script: seq<R.Attempt<T, E>>)
    requires forall i :: 0 <= i < |script| ==> R.EndOf(script[i]).None?
    ensures ConflictsIn(script) == RetriedConflictsIn(script)
  {
    if script != [] {
      ConflictsBeforeTheLast(script[..|script| - 1]);
    }
  }

  /** The conflicts of a run are the retries that conflicts caused, unless it is a conflict that ended the run. */
  lemma ConflictsAreRetriesWhen<T, E>(script: seq<R.Attempt<T, E>>, made: nat)
    requires R.Makes(script, made)
    ensures ConflictsIn(script[..made]) == RetriedConflictsIn(script[..made])
       <==> !(made > 0 && IsConflict(script[made - 1]) && R.EndOf(script[made - 1]).Some?)
  {
    hide R.EndOf, IsConflict;
    if made > 0 {
      assert script[..made][..made - 1] == script[..made - 1];
      ConflictsBeforeTheLast(script[..made - 1]);
    }
  }

  /** A conflict that the policy takes for fatal is counted without a retry. */
  lemma ConflictWithoutRetry<T, E>()
    ensures var script: seq<R.Attempt<T, E>> := [R.CommitFails(None, R.NOT_COMMITTED, None, R.Fatal, None)];
            && R.Makes(script, 1) && R.ResultAfter(script, 1) == Some(Err(R.Native(R.NOT_COMMITTED)))
            && ConflictsIn(script[..1]) == 1 && RetriedConflictsIn(script[..1]) == 0
  {
    var script: seq<R.Attempt<T, E>> := [R.CommitFails(None, R.NOT_COMMITTED, None, R.Fatal, None)];
    assert script[..1][..0] == [];
  }
}
