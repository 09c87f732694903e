/** Which steps a run takes and how it ends, said of its script alone. */
module RunnerSteps {
  import opened Runner
  import opened RunnerContract
  import opened Wrappers

  /** Some attempt before `k` failed with an original native error that may hide a commit. */
  ghost predicate MayHaveCommitted<T, E>(client: Client<E>, script: seq<Attempt<T, E>>, k: nat)
    requires k <= |script|
  {
    exists i :: 0 <= i < k &&
      match script[i]
      case CommitFails(_, code, _, _, _) => client.isMaybeCommitted(code)
      case ClosureFails(error, _, _) =>
        client.classify(error).Fdb? && client.isMaybeCommitted(client.classify(error).code)
      case _ => false
  }

  /** An attempt that failed, was not found fatal, and could be restarted. */
  predicate GoesOn<T, E>(a: Attempt<T, E>) {
    match a
    case CommitFails(_, _, _, policy, refused) => policy != Fatal && refused == None
    case ClosureFails(_, policy, refusal) => policy != Fatal && refusal == None
    case _ => false
  }

  /** The error that goes to `on_error`: the one the policy chose, `not_committed` when it only said to retry. */
  predicate IsChosen<T, E>(a: Attempt<T, E>, code: Code) {
    && (a.CommitFails? || a.ClosureFails?)
    && (a.policy == Fdb(code) || (a.policy == Retry && code == 1020))
  }

  /** The steps of one attempt, given what its closure is told. */
  predicate HappensIn<T, E>(client: Client<E>, a: Attempt<T, E>, flag: bool, step: Step) {
    match step
    case CallClosure(_, maybeCommitted) => maybeCommitted == flag
    case OnAttemptStart(_) => true
    case AwaitClosure(_) => true
    case BeforeCommit(_) => !a.ClosureFails?
    case Commit(_) => !a.ClosureFails?
    case OnHookError(_, code) =>
      (!a.ClosureFails? && a.beforeCommit == Some(code)) || (a.CommitFails? && a.onCommitError == Some(code))
    case OnCommitSuccess(_) => a.Commits?
    case OnCommitError(_, code) => a.CommitFails? && code == a.code
    case Decide(_, proposed) =>
      (a.CommitFails? && proposed == Fdb(a.code)) || (a.ClosureFails? && proposed == client.classify(a.error))
    case OnClosureError(_, code) => a.ClosureFails? && IsChosen(a, code)
    case OnError(_, code) => IsChosen(a, code)
    case OnErrorDuration(_) => GoesOn(a)
    case OnRetry(_) => GoesOn(a)
    case OnComplete => false
  }

  ghost predicate Happens<T, E>(client: Client<E>, script: seq<Attempt<T, E>>, made: nat, step: Step)
    requires made <= |script|
  {
    && step != OnComplete && step.attempt < made
    && HappensIn(client, script[step.attempt], MayHaveCommitted(client, script, step.attempt), step)
  }

  lemma StepsOfAttempt<T, E>(a: Attempt<T, E>, k: nat, step: Step)
    ensures step in AttemptSteps(a, k) <==>
            match step
            case OnAttemptStart(j) => j == k
            case AwaitClosure(j) => j == k
            case BeforeCommit(j) => j == k && !a.ClosureFails?
            case Commit(j) => j == k && !a.ClosureFails?
            case OnHookError(j, code) => j == k && !a.ClosureFails? && a.beforeCommit == Some(code)
            case _ => false
  {
  }

  lemma StepsOfRetry(k: nat, policy: RetryDecision, inClosure: bool, restarted: bool, step: Step)
    ensures step in RetrySteps(k, policy, inClosure, restarted) <==>
            match step
            case OnClosureError(j, code) =>
              j == k && inClosure && (policy == Fdb(code) || (policy == Retry && code == 1020))
            case OnError(j, code) => j == k && (policy == Fdb(code) || (policy == Retry && code == 1020))
            case OnErrorDuration(j) => j == k && policy != Fatal && restarted
            case OnRetry(j) => j == k && policy != Fatal && restarted
            case _ => false
  {
  }

  lemma StepsOfFailure(
    k: nat, code: Code, after: Option<Code>, policy: RetryDecision, restarted: bool, step: Step
  )
    ensures step in CommitFailureSteps(k, code, after, policy, restarted) <==>
            || step == OnCommitError(k, code) || step == Decide(k, Fdb(code))
            || (step.OnHookError? && step.attempt == k && after == Some(step.code))
            || step in RetrySteps(k, policy, false, restarted)
  {
    hide RetrySteps;
  }

  lemma StepsOfTurn<T, E>(client: Client<E>, a: Attempt<T, E>, k: nat, flag: bool, step: Step)
    ensures step in StepsOf(client, a, k, flag)
       <==> step != OnComplete && step.attempt == k && HappensIn(client, a, flag, step)
  {
    hide AttemptSteps, RetrySteps, CommitFailureSteps;
    StepsOfAttempt(a, k, step);
    match a
    case Commits(_, _) =>
    case KeepsReference(_, _) =>
    case CommitFails(_, code, after, policy, refused) =>
      StepsOfFailure(k, code, after, policy, refused.None?, step);
      StepsOfRetry(k, policy, false, refused.None?, step);
    case ClosureFails(_, policy, refusal) =>
      StepsOfRetry(k, policy, true, refusal.None?, step);
  }

  lemma DoubtIsSaid<T, E>(client: Client<E>, script: seq<Attempt<T, E>>, k: nat)
    requires k <= |script|
    ensures InDoubt(client, script, k) == MayHaveCommitted(client, script, k)
  {
    if i :| 0 <= i < k && LeavesDoubt(client, script[i]) {
      assert MayHaveCommitted(client, script, k);
    }
  }

  /**
   The steps of a run's attempts are exactly those that its script says, the flags of its closures included. With their
   order, in which each comes once but for the two hooks that can fail, this is all there is to know of them.
   */
  lemma {:induction false} StepsAreSaid<T, E>(client: Client<E>, script: seq<Attempt<T, E>>, made: nat, step: Step)
    requires made <= |script|
    ensures step in StepsOfAll(client, script, made) <==> Happens(client, script, made, step)
  {
    hide StepsOf, HappensIn, InDoubt, MayHaveCommitted;
    if made > 0 {
      var k := made - 1;
      var flag := InDoubt(client, script, k);
      StepsAreSaid(client, script, k, step);
      DoubtIsSaid(client, script, k);
      StepsOfTurn(client, script[k], k, flag, step);
    }
  }

  /** What `Run` hands to its closures: attempt `k` is told of a possible commit exactly when one before it had one. */
  lemma FlagsAreSaid<T, E>(client: Client<E>, script: seq<Attempt<T, E>>, made: nat, k: nat, flag: bool)
    requires Makes(script, made)
    ensures CallClosure(k, flag) in StepsOfRun(client, script, made)
       <==> k < made && flag == MayHaveCommitted(client, script, k)
  {
    hide StepsOfAll, EndOf, MayHaveCommitted;
    StepsAreSaid(client, script, made, CallClosure(k, flag));
  }

  /** The same attempt, but for what the policy decides. */
  ghost predicate SameButPolicy<T, E>(a: Attempt<T, E>, b: Attempt<T, E>) {
    match a
    case CommitFails(before, code, after, _, refused) =>
      b.CommitFails? && b == CommitFails(before, code, after, b.policy, refused)
    case ClosureFails(error, _, refusal) => b.ClosureFails? && b == ClosureFails(error, b.policy, refusal)
    case _ => a == b
  }

  /** Policies do not change what closures are told, over the attempts that both runs make. */
  lemma PoliciesKeepFlags<T, E>(
    client: Client<E>, a: seq<Attempt<T, E>>, b: seq<Attempt<T, E>>, m: nat, n: nat, k: nat, flag: bool
  )
    requires |a| == |b| && forall i :: 0 <= i < |a| ==> SameButPolicy(a[i], b[i])
    requires Makes(a, m) && Makes(b, n) && k < m && k < n
    ensures CallClosure(k, flag) in StepsOfRun(client, a, m) <==> CallClosure(k, flag) in StepsOfRun(client, b, n)
  {
    hide StepsOfRun, EndOf;
    FlagsAreSaid(client, a, m, k, flag);
    FlagsAreSaid(client, b, n, k, flag);
    assert forall i :: 0 <= i < k ==> SameButPolicy(a[i], b[i]);
  }

  /**
   How a run ends: it goes on past exactly the attempts that failed, were not found fatal and could be restarted. Its
   result is the closure's value, its own error when the policy or the client gives up on it, the native error of a
   commit or of the restart after one, and the binding's error when the closure kept the transaction.
   */
  lemma RunEndsAsSaid<T, E>(script: seq<Attempt<T, E>>, made: nat)
    requires Makes(script, made)
    ensures forall i :: 0 <= i < made - 1 ==> GoesOn(script[i])
    ensures made < |script| ==> made > 0 && !GoesOn(script[made - 1])
    ensures made > 0 ==>
              var result := ResultAfter(script, made);
              match script[made - 1]
              case Commits(value, _) => result == Some(Ok(value))
              case KeepsReference(_, binding) => result == Some(Err(Binding(binding)))
              case CommitFails(_, code, _, policy, refused) =>
                (match policy
                 case Fatal => result == Some(Err(Native(code)))
                 case _ => result == if refused == None then None else Some(Err(Native(refused.value))))
              case ClosureFails(error, policy, refusal) =>
                (match policy
                 case Fatal => result == Some(Err(Original(error)))
                 case _ =>
                   && (refusal == None ==> result == None)
                   && (forall c :: refusal == Some(Refused(c)) ==> result == Some(Err(Original(error))))
                   && (forall c :: refusal == Some(ReferenceKept(c)) ==> result == Some(Err(Binding(c)))))
  {
  }
}
