/** What holds of every run: the order of its steps, the doubt its closures are told of, and that hooks only watch. */
module RunnerContract {
  import opened Runner
  import opened Sequences
  import opened Wrappers

  // ---------- the order of the steps ----------

  /** Where a run is, said by what happened last in the current attempt. */
  datatype Phase =
    | Ready | ClosureCalled | Started | ClosureAwaited
    | CommitNext | CommitNextAfterHookError | CommitDone | Succeeded
    | CommitErrorSeen | CommitErrorHookFailed | CommitDecided
    | ClosureDecided | ClosureErrorSeen
    | OnErrorCalled | Restarted
    | Ended

  datatype Place = Place(phase: Phase, attempt: nat)

  /** The phases in which a run may end. */
  predicate MayEnd(p: Place) {
    match p.phase
    case Succeeded => true
    case CommitDone => true
    case ClosureDecided => true
    case CommitDecided => true
    case OnErrorCalled => true
    case _ => p == Place(Ready, 0)
  }

  /** The phase an attempt moves to, if the step may happen in it; a step of another attempt never may. */
  function Follow(p: Place, s: Step): Option<Place> {
    if s.OnComplete? then
      if MayEnd(p) then Some(Place(Ended, p.attempt)) else None
    else if s.attempt != p.attempt then
      None
    else
      match p.phase
      case Ready => To(s.CallClosure?, ClosureCalled, p)
      case ClosureCalled => To(s.OnAttemptStart?, Started, p)
      case Started => To(s.AwaitClosure?, ClosureAwaited, p)
      case ClosureAwaited => if s.BeforeCommit? then To(true, CommitNext, p) else To(s.Decide?, ClosureDecided, p)
      case CommitNext =>
        if s.OnHookError? then To(true, CommitNextAfterHookError, p) else To(s.Commit?, CommitDone, p)
      case CommitNextAfterHookError => To(s.Commit?, CommitDone, p)
      case CommitDone => if s.OnCommitSuccess? then To(true, Succeeded, p) else To(s.OnCommitError?, CommitErrorSeen, p)
      case Succeeded => None
      case CommitErrorSeen =>
        if s.OnHookError? then To(true, CommitErrorHookFailed, p) else To(s.Decide?, CommitDecided, p)
      case CommitErrorHookFailed => To(s.Decide?, CommitDecided, p)
      case CommitDecided => To(s.OnError?, OnErrorCalled, p)
      case ClosureDecided => To(s.OnClosureError?, ClosureErrorSeen, p)
      case ClosureErrorSeen => To(s.OnError?, OnErrorCalled, p)
      case OnErrorCalled => To(s.OnErrorDuration?, Restarted, p)
      case Restarted => if s.OnRetry? then Some(Place(Ready, p.attempt + 1)) else None
      case Ended => None
  }

  function To(may: bool, next: Phase, p: Place): Option<Place> {
    if may then Some(Place(next, p.attempt)) else None
  }

  function FollowAll(p: Place, steps: seq<Step>): Option<Place>
    decreases |steps|
  {
    if steps == [] then Some(p)
    else match Follow(p, steps[0])
      case None => None
      case Some(q) => FollowAll(q, steps[1..])
  }

  lemma FollowNext(p: Place, s: Step, rest: seq<Step>)
    ensures FollowAll(p, [s] + rest) == match Follow(p, s) case None => None case Some(q) => FollowAll(q, rest)
  {
    TailOfConcat([s], rest);
    Empty(rest);
  }

  lemma {:induction false} FollowConcat(p: Place, a: seq<Step>, b: seq<Step>)
    ensures FollowAll(p, a + b) == match FollowAll(p, a) case None => None case Some(q) => FollowAll(q, b)
    decreases |a|
  {
    hide Follow;
    if a == [] {
      Empty(b);
    } else {
      TailOfConcat(a, b);
      if Follow(p, a[0]).Some? {
        FollowConcat(Follow(p, a[0]).value, a[1..], b);
      }
    }
  }

  lemma FollowOne(p: Place, s: Step)
    ensures FollowAll(p, [s]) == Follow(p, s)
  {
    Empty([s]);
    FollowNext(p, s, []);
  }

  lemma FollowHookError(p: Place, k: nat, hook: Option<Code>, rest: seq<Step>)
    requires p == Place(CommitNext, k) || p == Place(CommitErrorSeen, k)
    ensures FollowAll(p, HookError(k, hook) + rest)
         == FollowAll(if hook.None? then p else Place(if p.phase.CommitNext? then CommitNextAfterHookError
                                                      else CommitErrorHookFailed, k), rest)
  {
    hide FollowAll;
    if hook.Some? {
      FollowNext(p, OnHookError(k, hook.value), rest);
    } else {
      Empty(rest);
    }
  }

  lemma FollowRetry(k: nat, policy: RetryDecision, inClosure: bool, restarted: bool)
    ensures FollowAll(Place(if inClosure then ClosureDecided else CommitDecided, k),
                      RetrySteps(k, policy, inClosure, restarted))
         == Some(if policy.Fatal? then Place(if inClosure then ClosureDecided else CommitDecided, k)
                 else if restarted then Place(Ready, k + 1) else Place(OnErrorCalled, k))
  {
    hide FollowAll;
    var p := Place(if inClosure then ClosureDecided else CommitDecided, k);
    if policy.Fatal? {
      FollowNone(p);
    } else {
      var code := CodeOf(policy).value;
      var end := if restarted then [OnErrorDuration(k), OnRetry(k)] else [];
      var rest := [OnError(k, code)] + end;
      if inClosure {
        FollowNext(p, OnClosureError(k, code), rest);
        FollowNext(Place(ClosureErrorSeen, k), OnError(k, code), end);
      } else {
        Empty(rest);
        FollowNext(p, OnError(k, code), end);
      }
      if restarted {
        assert end == [OnErrorDuration(k)] + [OnRetry(k)];
        FollowNext(Place(OnErrorCalled, k), OnErrorDuration(k), [OnRetry(k)]);
        FollowOne(Place(Restarted, k), OnRetry(k));
      } else {
        FollowNone(Place(OnErrorCalled, k));
      }
    }
  }

  lemma FollowNone(p: Place)
    ensures FollowAll(p, []) == Some(p)
  {
  }

  /** The pass over the closure and the commit. */
  lemma FollowAttempt<T, E>(a: Attempt<T, E>, k: nat)
    ensures FollowAll(Place(ClosureCalled, k), AttemptSteps(a, k))
         == Some(Place(if a.ClosureFails? then ClosureAwaited else CommitDone, k))
  {
    hide FollowAll;
    var rest := if a.ClosureFails? then [] else [BeforeCommit(k)] + (HookError(k, a.beforeCommit) + [Commit(k)]);
    assert [OnAttemptStart(k), AwaitClosure(k)] + rest == [OnAttemptStart(k)] + ([AwaitClosure(k)] + rest);
    FollowNext(Place(ClosureCalled, k), OnAttemptStart(k), [AwaitClosure(k)] + rest);
    FollowNext(Place(Started, k), AwaitClosure(k), rest);
    FollowNone(Place(ClosureAwaited, k));
    if !a.ClosureFails? {
      FollowNext(Place(ClosureAwaited, k), BeforeCommit(k), HookError(k, a.beforeCommit) + [Commit(k)]);
      FollowHookError(Place(CommitNext, k), k, a.beforeCommit, [Commit(k)]);
      FollowOne(Place(CommitNext, k), Commit(k));
      FollowOne(Place(CommitNextAfterHookError, k), Commit(k));
    }
  }

  lemma FollowCommitFailure(k: nat, code: Code, after: Option<Code>, policy: RetryDecision, restarted: bool)
    ensures FollowAll(Place(CommitDone, k), CommitFailureSteps(k, code, after, policy, restarted))
         == FollowAll(Place(CommitDecided, k), RetrySteps(k, policy, false, restarted))
  {
    hide FollowAll, RetrySteps;
    var retry := RetrySteps(k, policy, false, restarted);
    var rest := [Decide(k, Fdb(code))] + retry;
    FollowNext(Place(CommitDone, k), OnCommitError(k, code), HookError(k, after) + rest);
    FollowHookError(Place(CommitErrorSeen, k), k, after, rest);
    FollowNext(Place(CommitErrorSeen, k), Decide(k, Fdb(code)), retry);
    FollowNext(Place(CommitErrorHookFailed, k), Decide(k, Fdb(code)), retry);
  }

  /** The steps of an attempt lead to the next one, or to a phase where the run may end. */
  lemma FollowTurn<T, E>(client: Client<E>, a: Attempt<T, E>, k: nat, flag: bool)
    ensures var p := FollowAll(Place(Ready, k), StepsOf(client, a, k, flag));
            && p.Some?
            && (EndOf(a).None? ==> p.value == Place(Ready, k + 1))
            && (EndOf(a).Some? ==> MayEnd(p.value) && p.value.attempt == k && !p.value.phase.Ready?)
  {
    hide FollowAll, AttemptSteps, RetrySteps, CommitFailureSteps;
    var more := MoreSteps(client, a, k);
    FollowNext(Place(Ready, k), CallClosure(k, flag), AttemptSteps(a, k) + more);
    FollowConcat(Place(ClosureCalled, k), AttemptSteps(a, k), more);
    FollowAttempt(a, k);
    match a
    case Commits(_, _) =>
      FollowOne(Place(CommitDone, k), OnCommitSuccess(k));
    case KeepsReference(_, _) =>
      FollowNone(Place(CommitDone, k));
    case CommitFails(_, code, after, policy, refused) =>
      FollowCommitFailure(k, code, after, policy, refused.None?);
      FollowRetry(k, policy, false, refused.None?);
    case ClosureFails(error, policy, refusal) =>
      FollowNext(Place(ClosureAwaited, k), Decide(k, client.classify(error)),
                 RetrySteps(k, policy, true, refusal.None?));
      FollowRetry(k, policy, true, refusal.None?);
  }

  lemma {:induction false} AttemptsFollow<T, E>(client: Client<E>, script: seq<Attempt<T, E>>, made: nat)
    requires made <= |script| && forall i :: 0 <= i < made - 1 ==> EndOf(script[i]).None?
    ensures var p := FollowAll(Place(Ready, 0), StepsOfAll(client, script, made));
            && p.Some?
            && (ResultAfter(script, made).None? ==> p.value == Place(Ready, made))
            && (ResultAfter(script, made).Some? ==> MayEnd(p.value))
  {
    hide FollowAll, StepsOf, EndOf, MayEnd;
    if made == 0 {
      FollowNone(Place(Ready, 0));
    } else {
      var k := made - 1;
      AttemptsFollow(client, script, k);
      var flag := InDoubt(client, script, k);
      FollowConcat(Place(Ready, 0), StepsOfAll(client, script, k), StepsOf(client, script[k], k, flag));
      FollowTurn(client, script[k], k, flag);
    }
  }

  /** What `Runner.Run` shows of a run that makes some attempts. */
  ghost function StepsOfRun<T, E>(client: Client<E>, script: seq<Attempt<T, E>>, made: nat): seq<Step>
    requires made <= |script|
  {
    StepsOfAll(client, script, made) + if ResultAfter(script, made).Some? then [OnComplete] else []
  }

  function CompleteCount(steps: seq<Step>): nat {
    if steps == [] then 0 else (if steps[0].OnComplete? then 1 else 0) + CompleteCount(steps[1..])
  }

  lemma {:induction false} CompletesOnce(p: Place, steps: seq<Step>)
    requires FollowAll(p, steps).Some? && !p.phase.Ended?
    ensures CompleteCount(steps) == if FollowAll(p, steps).value.phase.Ended? then 1 else 0
    ensures FollowAll(p, steps).value.phase.Ended? ==> steps != [] && steps[|steps| - 1].OnComplete?
    decreases |steps|
  {
    if steps != [] {
      var q := Follow(p, steps[0]).value;
      if q.phase.Ended? {
        assert steps[1..] == [];
      } else {
        CompletesOnce(q, steps[1..]);
      }
    }
  }

  /**
   The steps of every run come in the code's order, attempt by attempt with consecutive indexes. A run that ends
   completes once, as its last step; one that goes on is ready for its next attempt.
   */
  lemma RunsFollowTheContract<T, E>(client: Client<E>, script: seq<Attempt<T, E>>, made: nat)
    requires Makes(script, made)
    ensures var steps := StepsOfRun(client, script, made);
            var p := FollowAll(Place(Ready, 0), steps);
            && p.Some?
            && CompleteCount(steps) == (if ResultAfter(script, made).Some? then 1 else 0)
            && (if ResultAfter(script, made).Some? then p.value.phase.Ended? else p.value == Place(Ready, made))
  {
    hide FollowAll, CompleteCount, StepsOfAll, MayEnd, EndOf;
    var steps := StepsOfAll(client, script, made);
    AttemptsFollow(client, script, made);
    var p := FollowAll(Place(Ready, 0), steps).value;
    if ResultAfter(script, made).Some? {
      FollowConcat(Place(Ready, 0), steps, [OnComplete]);
      FollowOne(p, OnComplete);
    } else {
      Empty(steps);
    }
    CompletesOnce(Place(Ready, 0), StepsOfRun(client, script, made));
  }

  // ---------- the documented order ----------

  /** The steps that the documentation orders: its closure runs when its future is awaited. */
  function WithoutCalls(steps: seq<Step>): seq<Step> {
    if steps == [] then []
    else (if steps[0].CallClosure? then [] else [steps[0]]) + WithoutCalls(steps[1..])
  }

  /** The documented order begins an attempt with its start hook; the rest is that of the code. */
  function FollowDocumented(p: Place, s: Step): Option<Place> {
    if s.CallClosure? then None
    else if p.phase.Ready? && s.OnAttemptStart? then To(s.attempt == p.attempt, Started, p)
    else Follow(p, s)
  }

  function FollowAllDocumented(p: Place, steps: seq<Step>): Option<Place>
    decreases |steps|
  {
    if steps == [] then Some(p)
    else match FollowDocumented(p, steps[0])
      case None => None
      case Some(q) => FollowAllDocumented(q, steps[1..])
  }

  /** A place of the code, as the documentation has it. */
  function Documented(p: Place): Place {
    if p.phase.ClosureCalled? then Place(Ready, p.attempt) else p
  }

  lemma {:induction false} CodeFollowsDocumented(p: Place, steps: seq<Step>)
    requires FollowAll(p, steps).Some?
    ensures FollowAllDocumented(Documented(p), WithoutCalls(steps)) == Some(Documented(FollowAll(p, steps).value))
    decreases |steps|
  {
    if steps != [] {
      CodeFollowsDocumented(Follow(p, steps[0]).value, steps[1..]);
      var rest := WithoutCalls(steps[1..]);
      if steps[0].CallClosure? {
        Empty(rest);
      } else {
        TailOfConcat([steps[0]], rest);
        Empty(rest);
      }
    }
  }

  /** But for the calls that make the futures of the closures, the steps of every run come in the documented order. */
  lemma RunsFollowTheDocumentation<T, E>(client: Client<E>, script: seq<Attempt<T, E>>, made: nat)
    requires Makes(script, made)
    ensures var p := FollowAllDocumented(Place(Ready, 0), WithoutCalls(StepsOfRun(client, script, made)));
            && p.Some?
            && (if ResultAfter(script, made).Some? then p.value.phase.Ended? else p.value == Place(Ready, made))
  {
    hide FollowAll, FollowAllDocumented, WithoutCalls, StepsOfRun, EndOf;
    RunsFollowTheContract(client, script, made);
    CodeFollowsDocumented(Place(Ready, 0), StepsOfRun(client, script, made));
  }

  /** The closure of every attempt is called just before the start hook, and awaited just after it. */
  lemma {:induction false} ClosureIsCalledFirst<T, E>(client: Client<E>, script: seq<Attempt<T, E>>, made: nat, k: nat)
    requires k < made <= |script|
    ensures var steps, i := StepsOfAll(client, script, made), |StepsOfAll(client, script, k)|;
            && i + 3 <= |steps|
            && steps[i..i + 3] == [CallClosure(k, InDoubt(client, script, k)), OnAttemptStart(k), AwaitClosure(k)]
  {
    hide InDoubt, StepsOf;
    var n := made - 1;
    var before, turn := StepsOfAll(client, script, n), StepsOf(client, script[n], n, InDoubt(client, script, n));
    if k < n {
      ClosureIsCalledFirst(client, script, n, k);
      var i := |StepsOfAll(client, script, k)|;
      assert (before + turn)[i..i + 3] == before[i..i + 3];
    } else {
      FirstSteps(client, script[n], n, InDoubt(client, script, n));
      assert (before + turn)[|before|..|before| + 3] == turn[..3];
    }
  }

  lemma FirstSteps<T, E>(client: Client<E>, a: Attempt<T, E>, k: nat, flag: bool)
    ensures var steps := StepsOf(client, a, k, flag);
            |steps| >= 3 && steps[..3] == [CallClosure(k, flag), OnAttemptStart(k), AwaitClosure(k)]
  {
    hide MoreSteps;
  }

  // ---------- what the closures are told ----------

  /** The flags handed to the closures, in order. */
  function FlagsOf(steps: seq<Step>): seq<bool> {
    if steps == [] then []
    else (if steps[0].CallClosure? then [steps[0].maybeCommitted] else []) + FlagsOf(steps[1..])
  }

  lemma {:induction false} FlagsConcat(a: seq<Step>, b: seq<Step>)
    ensures FlagsOf(a + b) == FlagsOf(a) + FlagsOf(b)
  {
    if a == [] {
      Empty(b);
      Empty(FlagsOf(b));
    } else {
      TailOfConcat(a, b);
      FlagsConcat(a[1..], b);
      Assoc(if a[0].CallClosure? then [a[0].maybeCommitted] else [], FlagsOf(a[1..]), FlagsOf(b));
    }
  }

  lemma {:induction false} NoFlags(steps: seq<Step>)
    requires forall i :: 0 <= i < |steps| ==> !steps[i].CallClosure?
    ensures FlagsOf(steps) == []
  {
    if steps != [] {
      NoFlags(steps[1..]);
    }
  }

  lemma NoFlagsInAttempt<T, E>(a: Attempt<T, E>, k: nat)
    ensures FlagsOf(AttemptSteps(a, k)) == []
  {
    hide FlagsOf;
    NoFlags(AttemptSteps(a, k));
  }

  lemma NoFlagsInRetry(k: nat, policy: RetryDecision, inClosure: bool, restarted: bool)
    ensures FlagsOf(RetrySteps(k, policy, inClosure, restarted)) == []
  {
    hide FlagsOf;
    NoFlags(RetrySteps(k, policy, inClosure, restarted));
  }

  lemma NoFlagsAfter<T, E>(client: Client<E>, a: Attempt<T, E>, k: nat)
    ensures FlagsOf(MoreSteps(client, a, k)) == []
  {
    hide FlagsOf, RetrySteps;
    match a
    case Commits(_, _) => NoFlags([OnCommitSuccess(k)]);
    case KeepsReference(_, _) => NoFlags([]);
    case CommitFails(_, code, after, policy, refused) =>
      var retry := RetrySteps(k, policy, false, refused.None?);
      var decide := [Decide(k, Fdb(code))];
      FlagsConcat([OnCommitError(k, code)], HookError(k, after) + (decide + retry));
      FlagsConcat(HookError(k, after), decide + retry);
      FlagsConcat(decide, retry);
      NoFlags([OnCommitError(k, code)]);
      NoFlags(HookError(k, after));
      NoFlags(decide);
      NoFlagsInRetry(k, policy, false, refused.None?);
    case ClosureFails(error, policy, refusal) =>
      var decide := [Decide(k, client.classify(error))];
      FlagsConcat(decide, RetrySteps(k, policy, true, refusal.None?));
      NoFlags(decide);
      NoFlagsInRetry(k, policy, true, refusal.None?);
  }

  lemma OneFlag<T, E>(client: Client<E>, a: Attempt<T, E>, k: nat, flag: bool)
    ensures FlagsOf(StepsOf(client, a, k, flag)) == [flag]
  {
    hide AttemptSteps, MoreSteps;
    FlagsConcat([CallClosure(k, flag)], AttemptSteps(a, k) + MoreSteps(client, a, k));
    FlagsConcat(AttemptSteps(a, k), MoreSteps(client, a, k));
    NoFlagsInAttempt(a, k);
    NoFlagsAfter(client, a, k);
  }

  /**
   Every attempt's closure is called once, and told exactly whether an earlier attempt failed with an original error
   that leaves its commit in doubt, whatever the policy decided about that error.
   */
  lemma {:induction false} FlagsAreDoubts<T, E>(client: Client<E>, script: seq<Attempt<T, E>>, made: nat)
    requires made <= |script|
    ensures var flags := FlagsOf(StepsOfAll(client, script, made));
            |flags| == made && forall k :: 0 <= k < made ==> flags[k] == InDoubt(client, script, k)
  {
    hide StepsOf, InDoubt, FlagsOf;
    if made == 0 {
      NoFlags([]);
    } else {
      FlagsAreDoubts(client, script, made - 1);
      var flag := InDoubt(client, script, made - 1);
      FlagsConcat(StepsOfAll(client, script, made - 1), StepsOf(client, script[made - 1], made - 1, flag));
      OneFlag(client, script[made - 1], made - 1, flag);
    }
  }

  // ---------- hooks only watch ----------

  /** The attempt with hooks that succeed. */
  function Unwatched<T, E>(a: Attempt<T, E>): Attempt<T, E> {
    match a
    case Commits(value, _) => Commits(value, None)
    case KeepsReference(_, binding) => KeepsReference(None, binding)
    case CommitFails(_, code, _, policy, refused) => CommitFails(None, code, None, policy, refused)
    case ClosureFails(_, _, _) => a
  }

  /** Two scripts that differ in the results of hooks only. */
  ghost predicate SameButHooks<T, E>(a: seq<Attempt<T, E>>, b: seq<Attempt<T, E>>) {
    |a| == |b| && forall i :: 0 <= i < |a| ==> Unwatched(a[i]) == Unwatched(b[i])
  }

  /** The steps without the reports of failed hooks. */
  function WithoutHookErrors(steps: seq<Step>): seq<Step> {
    if steps == [] then []
    else (if steps[0].OnHookError? then [] else [steps[0]]) + WithoutHookErrors(steps[1..])
  }

  lemma {:induction false} WithoutConcat(a: seq<Step>, b: seq<Step>)
    ensures WithoutHookErrors(a + b) == WithoutHookErrors(a) + WithoutHookErrors(b)
  {
    if a == [] {
      Empty(b);
      Empty(WithoutHookErrors(b));
    } else {
      TailOfConcat(a, b);
      WithoutConcat(a[1..], b);
      Assoc(if a[0].OnHookError? then [] else [a[0]], WithoutHookErrors(a[1..]), WithoutHookErrors(b));
    }
  }

  lemma NoHookError(k: nat, hook: Option<Code>)
    ensures WithoutHookErrors(HookError(k, hook)) == []
  {
    if hook.Some? {
      assert HookError(k, hook)[1..] == [];
    }
  }

  lemma SameAttemptSteps<T, E>(a: Attempt<T, E>, b: Attempt<T, E>, k: nat)
    requires Unwatched(a) == Unwatched(b)
    ensures WithoutHookErrors(AttemptSteps(a, k)) == WithoutHookErrors(AttemptSteps(b, k))
  {
    hide WithoutHookErrors;
    if !a.ClosureFails? {
      var start, before, commit := [OnAttemptStart(k), AwaitClosure(k)], [BeforeCommit(k)], [Commit(k)];
      WithoutConcat(start, before + (HookError(k, a.beforeCommit) + commit));
      WithoutConcat(before, HookError(k, a.beforeCommit) + commit);
      WithoutConcat(HookError(k, a.beforeCommit), commit);
      NoHookError(k, a.beforeCommit);
      WithoutConcat(start, before + (HookError(k, b.beforeCommit) + commit));
      WithoutConcat(before, HookError(k, b.beforeCommit) + commit);
      WithoutConcat(HookError(k, b.beforeCommit), commit);
      NoHookError(k, b.beforeCommit);
    }
  }

  lemma SameFailureSteps(k: nat, code: Code, a: Option<Code>, b: Option<Code>, policy: RetryDecision, restarted: bool)
    ensures WithoutHookErrors(CommitFailureSteps(k, code, a, policy, restarted))
         == WithoutHookErrors(CommitFailureSteps(k, code, b, policy, restarted))
  {
    hide WithoutHookErrors, RetrySteps;
    var seen, rest := [OnCommitError(k, code)], [Decide(k, Fdb(code))] + RetrySteps(k, policy, false, restarted);
    WithoutConcat(seen, HookError(k, a) + rest);
    WithoutConcat(HookError(k, a), rest);
    NoHookError(k, a);
    WithoutConcat(seen, HookError(k, b) + rest);
    WithoutConcat(HookError(k, b), rest);
    NoHookError(k, b);
  }

  lemma SameSteps<T, E>(client: Client<E>, a: Attempt<T, E>, b: Attempt<T, E>, k: nat, flag: bool)
    requires Unwatched(a) == Unwatched(b)
    ensures WithoutHookErrors(StepsOf(client, a, k, flag)) == WithoutHookErrors(StepsOf(client, b, k, flag))
  {
    hide WithoutHookErrors, AttemptSteps, RetrySteps, CommitFailureSteps;
    SameAttemptSteps(a, b, k);
    var call := [CallClosure(k, flag)];
    var moreA, moreB := MoreSteps(client, a, k), MoreSteps(client, b, k);
    WithoutConcat(call, AttemptSteps(a, k) + moreA);
    WithoutConcat(AttemptSteps(a, k), moreA);
    WithoutConcat(call, AttemptSteps(b, k) + moreB);
    WithoutConcat(AttemptSteps(b, k), moreB);
    if a.CommitFails? {
      SameFailureSteps(k, a.code, a.onCommitError, b.onCommitError, a.policy, a.refused.None?);
    }
  }

  lemma {:induction false} SameStepsOfAll<T, E>(client: Client<E>, a: seq<Attempt<T, E>>, b: seq<Attempt<T, E>>, k: nat)
    requires SameButHooks(a, b) && k <= |a|
    ensures WithoutHookErrors(StepsOfAll(client, a, k)) == WithoutHookErrors(StepsOfAll(client, b, k))
  {
    hide WithoutHookErrors, StepsOf, Unwatched;
    if k > 0 {
      SameStepsOfAll(client, a, b, k - 1);
      SameDoubt(client, a, b, k - 1);
      var flag := InDoubt(client, a, k - 1);
      WithoutConcat(StepsOfAll(client, a, k - 1), StepsOf(client, a[k - 1], k - 1, flag));
      WithoutConcat(StepsOfAll(client, b, k - 1), StepsOf(client, b[k - 1], k - 1, flag));
      SameSteps(client, a[k - 1], b[k - 1], k - 1, flag);
    }
  }

  lemma SameDoubt<T, E>(client: Client<E>, a: seq<Attempt<T, E>>, b: seq<Attempt<T, E>>, k: nat)
    requires SameButHooks(a, b) && k <= |a|
    ensures InDoubt(client, a, k) == InDoubt(client, b, k)
  {
    hide LeavesDoubt;
    forall i | 0 <= i < k ensures LeavesDoubt(client, a[i]) == LeavesDoubt(client, b[i]) {
      SameOutcome(client, a[i], b[i]);
    }
  }

  lemma SameOutcome<T, E>(client: Client<E>, a: Attempt<T, E>, b: Attempt<T, E>)
    requires Unwatched(a) == Unwatched(b)
    ensures LeavesDoubt(client, a) == LeavesDoubt(client, b) && EndOf(a) == EndOf(b)
  {
  }

  /**
   Runs that differ only in the results of hooks make the same attempts, return the same result, and take the same
   steps, flags included, but for the reports of the hooks that failed.
   */
  lemma HooksOnlyWatch<T, E>(client: Client<E>, a: seq<Attempt<T, E>>, b: seq<Attempt<T, E>>, m: nat, n: nat)
    requires SameButHooks(a, b) && Makes(a, m) && Makes(b, n)
    ensures m == n && ResultAfter(a, m) == ResultAfter(b, n)
    ensures WithoutHookErrors(StepsOfAll(client, a, m)) == WithoutHookErrors(StepsOfAll(client, b, n))
  {
    hide WithoutHookErrors, StepsOfAll, EndOf, Unwatched;
    forall i | 0 <= i < |a| ensures EndOf(a[i]) == EndOf(b[i]) {
      SameOutcome(client, a[i], b[i]);
    }
    SameStepsOfAll(client, a, b, m);
  }
}
