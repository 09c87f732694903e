/** The retry runner: attempts, the policy that decides about failed ones, and the hooks that only watch. */
module Runner {
  import opened Wrappers

  type Code = int

  const NOT_COMMITTED: Code := 1020

  datatype RetryDecision = Fdb(code: Code) | Retry | Fatal

  /** The closure's own error, or one made from an error of the client or of the binding. */
  datatype RunError<+E> = Original(error: E) | Native(code: Code) | Binding(code: Code)

  /** Why a transaction could not be restarted after a closure failed. */
  datatype Refusal = Refused(code: Code) | ReferenceKept(code: Code)

  /**
   Everything one attempt meets: what the closure and the client answer, what the policy decides, and the errors of the
   two hooks that can fail.
   */
  datatype Attempt<+T, +E> =
    | Commits(value: T, beforeCommit: Option<Code>)
    | KeepsReference(beforeCommit: Option<Code>, binding: Code)
    | CommitFails(beforeCommit: Option<Code>, code: Code, onCommitError: Option<Code>, policy: RetryDecision,
                  refused: Option<Code>)
    | ClosureFails(error: E, policy: RetryDecision, refusal: Option<Refusal>)

  /** What an observer sees of a run, in order. `Decide` is the policy, `OnError` the client's error handling. */
  datatype Step =
    | CallClosure(attempt: nat, maybeCommitted: bool)
    | OnAttemptStart(attempt: nat)
    | AwaitClosure(attempt: nat)
    | BeforeCommit(attempt: nat)
    | OnHookError(attempt: nat, code: Code)
    | Commit(attempt: nat)
    | OnCommitSuccess(attempt: nat)
    | OnCommitError(attempt: nat, code: Code)
    | Decide(attempt: nat, proposed: RetryDecision)
    | OnClosureError(attempt: nat, code: Code)
    | OnError(attempt: nat, code: Code)
    | OnErrorDuration(attempt: nat)
    | OnRetry(attempt: nat)
    | OnComplete

  /** What a run is given: how errors are classified, and which native errors may hide a commit. */
  datatype Client<!E> = Client(classify: E -> RetryDecision, isMaybeCommitted: Code -> bool)

  /** The code that goes to `on_error`, unless the decision ends the run. */
  function CodeOf(d: RetryDecision): Option<Code> {
    match d
    case Fdb(code) => Some(code)
    case Retry => Some(NOT_COMMITTED)
    case Fatal => None
  }

  /** Whether the original error of an attempt leaves open that its writes were committed. */
  predicate LeavesDoubt<T, E>(client: Client<E>, a: Attempt<T, E>) {
    match a
    case Commits(_, _) => false
    case KeepsReference(_, _) => false
    case CommitFails(_, code, _, _, _) => client.isMaybeCommitted(code)
    case ClosureFails(error, _, _) =>
      (match client.classify(error)
       case Fdb(code) => client.isMaybeCommitted(code)
       case Retry => false
       case Fatal => false)
  }

  /** The result of a run that an attempt ends, if it does. */
  function EndOf<T, E>(a: Attempt<T, E>): Option<Result<T, RunError<E>>> {
    match a
    case Commits(value, _) => Some(Ok(value))
    case KeepsReference(_, binding) => Some(Err(Binding(binding)))
    case CommitFails(_, code, _, policy, refused) =>
      if policy.Fatal? then Some(Err(Native(code)))
      else if refused.Some? then Some(Err(Native(refused.value)))
      else None
    case ClosureFails(error, policy, refusal) =>
      if policy.Fatal? then Some(Err(Original(error)))
      else match refusal
        case None => None
        case Some(Refused(_)) => Some(Err(Original(error)))
        case Some(ReferenceKept(code)) => Some(Err(Binding(code)))
  }

  function HookError(attempt: nat, hook: Option<Code>): seq<Step> {
    if hook.Some? then [OnHookError(attempt, hook.value)] else []
  }

  /** The steps from a policy's decision to the restart of the transaction, or to the end of the run. */
  function RetrySteps(attempt: nat, policy: RetryDecision, inClosure: bool, restarted: bool): seq<Step> {
    match CodeOf(policy)
    case None => []
    case Some(code) =>
      (if inClosure then [OnClosureError(attempt, code)] else [])
      + ([OnError(attempt, code)] + if restarted then [OnErrorDuration(attempt), OnRetry(attempt)] else [])
  }

  /** The steps of a commit that failed, from its hook on. */
  function CommitFailureSteps(attempt: nat, code: Code, after: Option<Code>, policy: RetryDecision, restarted: bool)
    : seq<Step>
  {
    [OnCommitError(attempt, code)] + (HookError(attempt, after)
    + ([Decide(attempt, Fdb(code))] + RetrySteps(attempt, policy, false, restarted)))
  }

  /** The steps after the closure, and the commit if there was one, have answered. */
  function MoreSteps<T, E>(client: Client<E>, a: Attempt<T, E>, attempt: nat): seq<Step> {
    match a
    case Commits(_, _) => [OnCommitSuccess(attempt)]
    case KeepsReference(_, _) => []
    case CommitFails(_, code, after, policy, refused) =>
      CommitFailureSteps(attempt, code, after, policy, refused.None?)
    case ClosureFails(error, policy, refusal) =>
      [Decide(attempt, client.classify(error))] + RetrySteps(attempt, policy, true, refusal.None?)
  }

  function StepsOf<T, E>(client: Client<E>, a: Attempt<T, E>, attempt: nat, flag: bool): seq<Step> {
    [CallClosure(attempt, flag)] + (AttemptSteps(a, attempt) + MoreSteps(client, a, attempt))
  }

  /** The steps of one pass over the closure and the commit. */
  function AttemptSteps<T, E>(a: Attempt<T, E>, attempt: nat): seq<Step> {
    [OnAttemptStart(attempt), AwaitClosure(attempt)]
    + if a.ClosureFails? then []
      else [BeforeCommit(attempt)] + (HookError(attempt, a.beforeCommit) + [Commit(attempt)])
  }

  /** Whether the commit of one of the first `k` attempts is in doubt. */
  ghost predicate InDoubt<T, E>(client: Client<E>, script: seq<Attempt<T, E>>, k: nat)
    requires k <= |script|
  {
    exists i :: 0 <= i < k && LeavesDoubt(client, script[i])
  }

  /** The steps of the first `k` attempts. */
  ghost function StepsOfAll<T, E>(client: Client<E>, script: seq<Attempt<T, E>>, k: nat): seq<Step>
    requires k <= |script|
  {
    if k == 0 then []
    else StepsOfAll(client, script, k - 1) + StepsOf(client, script[k - 1], k - 1, InDoubt(client, script, k - 1))
  }

  /** The attempts that are made: the first one that ends the run is the last one. */
  ghost predicate Makes<T, E>(script: seq<Attempt<T, E>>, made: nat) {
    && made <= |script|
    && (forall i :: 0 <= i < made - 1 ==> EndOf(script[i]).None?)
    && (made < |script| ==> made > 0 && EndOf(script[made - 1]).Some?)
  }

  /** The result after some attempts, none when the run is still going. */
  function ResultAfter<T, E>(script: seq<Attempt<T, E>>, made: nat): Option<Result<T, RunError<E>>>
    requires made <= |script|
  {
    if made == 0 then None else EndOf(script[made - 1])
  }

  // ---------- the loop ----------

  /** The closure's value or error, then the commit; hooks that fail are reported and change nothing. */
  method RunAttempt<T, E>(a: Attempt<T, E>, attempt: nat) returns (steps: seq<Step>)
    ensures steps == AttemptSteps(a, attempt)
  {
    steps := [OnAttemptStart(attempt)];
    steps := steps + [AwaitClosure(attempt)];
    if a.ClosureFails? {
      return;
    }
    steps := steps + [BeforeCommit(attempt)];
    if a.beforeCommit.Some? {
      steps := steps + [OnHookError(attempt, a.beforeCommit.value)];
    }
    steps := steps + [Commit(attempt)];
  }

  /** The policy's decision, and `on_error` with the code it chose: how a failed attempt goes on. */
  method DecideAndRestart(policy: RetryDecision, attempt: nat, inClosure: bool, restarted: bool)
    returns (steps: seq<Step>, fatal: bool)
    ensures steps == RetrySteps(attempt, policy, inClosure, restarted) && fatal == policy.Fatal?
  {
    var code: Code;
    match policy {
      case Fdb(c) => code := c;
      case Retry => code := NOT_COMMITTED;
      case Fatal => return [], true;
    }
    steps, fatal := [], false;
    if inClosure {
      steps := steps + [OnClosureError(attempt, code)];
    }
    steps := steps + [OnError(attempt, code)];
    if restarted {
      steps := steps + [OnErrorDuration(attempt)];
      steps := steps + [OnRetry(attempt)];
    }
  }

  /** A commit that failed: its hook, and what the policy makes of it. */
  method AfterCommitFailure<T, E>(
    attempt: nat, code: Code, after: Option<Code>, policy: RetryDecision, refused: Option<Code>
  )
    returns (steps: seq<Step>, result: Option<Result<T, RunError<E>>>)
    ensures steps == CommitFailureSteps(attempt, code, after, policy, refused.None?)
    ensures forall before :: result == EndOf(CommitFails(before, code, after, policy, refused))
  {
    hide RetrySteps;
    steps := [OnCommitError(attempt, code)];
    if after.Some? {
      steps := steps + [OnHookError(attempt, after.value)];
    }
    steps := steps + [Decide(attempt, Fdb(code))];
    var more, fatal := DecideAndRestart(policy, attempt, false, refused.None?);
    steps := steps + more;
    if fatal {
      return steps, Some(Err(Native(code)));
    }
    result := if refused.Some? then Some(Err(Native(refused.value))) else None;
  }

  /** One turn of the loop: the steps of an attempt, its result if it ends the run, and the doubt it adds. */
  method Turn<T, E>(client: Client<E>, a: Attempt<T, E>, attempt: nat, maybeCommitted: bool)
    returns (steps: seq<Step>, result: Option<Result<T, RunError<E>>>, doubt: bool)
    ensures steps == StepsOf(client, a, attempt, maybeCommitted)
    ensures result == EndOf(a) && doubt == (maybeCommitted || LeavesDoubt(client, a))
  {
    hide AttemptSteps, CommitFailureSteps, RetrySteps;
    var call := [CallClosure(attempt, maybeCommitted)];
    doubt := maybeCommitted;
    steps := RunAttempt(a, attempt);
    var more := [];
    match a {
      case Commits(value, _) =>
        more := [OnCommitSuccess(attempt)];
        result := Some(Ok(value));
      case KeepsReference(_, binding) =>
        result := Some(Err(Binding(binding)));
      case ClosureFails(error, policy, refusal) =>
        var proposed := client.classify(error);
        if proposed.Fdb? {
          doubt := doubt || client.isMaybeCommitted(proposed.code);
        }
        var fatal;
        more, fatal := DecideAndRestart(policy, attempt, true, refusal.None?);
        more := [Decide(attempt, proposed)] + more;
        if fatal {
          result := Some(Err(Original(error)));
        } else {
          result := match refusal
            case None => None
            case Some(Refused(_)) => Some(Err(Original(error)))
            case Some(ReferenceKept(code)) => Some(Err(Binding(code)));
        }
      case CommitFails(_, code, after, policy, refused) =>
        doubt := doubt || client.isMaybeCommitted(code);
        more, result := AfterCommitFailure(attempt, code, after, policy, refused);
    }
    steps := call + (steps + more);
  }

  /** Attempts until one ends the run; the attempts of a run that goes on beyond the script are not all made. */
  method RetryLoop<T, E>(client: Client<E>, script: seq<Attempt<T, E>>)
    returns (result: Option<Result<T, RunError<E>>>, steps: seq<Step>, made: nat)
    ensures Makes(script, made)
    ensures result == ResultAfter(script, made) && steps == StepsOfAll(client, script, made)
  {
    hide StepsOf, EndOf, LeavesDoubt;
    var maybeCommitted := false;
    made, steps, result := 0, [], None;
    while made < |script|
      invariant made <= |script| && result == None
      invariant forall i :: 0 <= i < made ==> EndOf(script[i]).None?
      invariant maybeCommitted <==> InDoubt(client, script, made)
      invariant steps == StepsOfAll(client, script, made)
    {
      var turn, doubt;
      turn, result, doubt := Turn(client, script[made], made, maybeCommitted);
      DoubtNext(client, script, made);
      steps, made, maybeCommitted := steps + turn, made + 1, doubt;
      if result.Some? {
        return;
      }
    }
  }

  lemma DoubtNext<T, E>(client: Client<E>, script: seq<Attempt<T, E>>, k: nat)
    requires k < |script|
    ensures InDoubt(client, script, k + 1) <==> InDoubt(client, script, k) || LeavesDoubt(client, script[k])
  {
  }

  /** `on_complete` follows every run that ends, also one whose transaction could not be created. */
  method Run<T, E>(client: Client<E>, creation: Option<Code>, script: seq<Attempt<T, E>>)
    returns (result: Option<Result<T, RunError<E>>>, steps: seq<Step>, made: nat)
    ensures creation.Some? ==> made == 0 && result == Some(Err(Native(creation.value))) && steps == [OnComplete]
    ensures creation.None? ==>
              && Makes(script, made) && result == ResultAfter(script, made)
              && steps == StepsOfAll(client, script, made) + if result.Some? then [OnComplete] else []
  {
    if creation.Some? {
      return Some(Err(Native(creation.value))), [OnComplete], 0;
    }
    result, steps, made := RetryLoop(client, script);
    if result.Some? {
      steps := steps + [OnComplete];
    }
  }
}
