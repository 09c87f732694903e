/** `Database::transact`: the older retry loop, which counts its tries and knows whether a closure may run twice. */
module Transact {
  import opened Wrappers

  type Code = int

  /** No limit when `retryLimit` is absent, no deadline when `timeOut` is not set. */
  datatype TransactOption = TransactOption(retryLimit: Option<nat>, timeOut: bool, isIdempotent: bool)

  /** The closure's own error, or a native one. */
  datatype TransactError<+E> = Own(error: E) | Native(code: Code)

  datatype Answer<+T, +E> =
    | Committed(value: T)
    | CommitFailed(code: Code)
    | ClosureFailed(code: Code)
    | ClosureFailedForGood(error: E)

  /**
   What one call of the closure meets: the answer, whether the deadline had not passed when it was looked at, the error
   of `on_error` if it refused to restart, and whether the writes of the attempt reached the database.
   */
  datatype Try<+T, +E> = Try(answer: Answer<T, E>, inTime: bool, refused: Option<Code>, applied: bool)

  /** A failed attempt that is known not to have been committed. */
  predicate KnownNotCommitted<T, E>(maybeCommitted: Code -> bool, a: Answer<T, E>) {
    (a.CommitFailed? || a.ClosureFailed?) && !maybeCommitted(a.code)
  }

  /** What the database does: a commit applies the writes, and a failure known not to have committed does not. */
  ghost predicate IsHonest<T, E>(maybeCommitted: Code -> bool, t: Try<T, E>) {
    && (t.answer.Committed? ==> t.applied)
    && (KnownNotCommitted(maybeCommitted, t.answer) ==> !t.applied)
  }

  function AppliedCount<T, E>(tries: seq<Try<T, E>>): nat {
    if tries == [] then 0
    else AppliedCount(tries[..|tries| - 1]) + if tries[|tries| - 1].applied then 1 else 0
  }

  /** An attempt that the loop repeats as the try number `n`, from 1. */
  predicate IsRetried<T, E>(maybeCommitted: Code -> bool, options: TransactOption, t: Try<T, E>, n: nat) {
    && (t.answer.CommitFailed? || t.answer.ClosureFailed?)
    && (options.isIdempotent || !maybeCommitted(t.answer.code))
    && (options.retryLimit.None? || n < options.retryLimit.value)
    && (options.timeOut ==> t.inTime)
    && t.refused.None?
  }

  /** The error of an attempt that is not repeated: that of `on_error` when the loop did ask for a restart. */
  function ResultOf<T, E>(maybeCommitted: Code -> bool, options: TransactOption, t: Try<T, E>, n: nat)
    : Result<T, TransactError<E>>
  {
    match t.answer
    case Committed(value) => Ok(value)
    case ClosureFailedForGood(error) => Err(Own(error))
    case CommitFailed(code) => Err(Native(LastCode(maybeCommitted, options, t, code, n)))
    case ClosureFailed(code) => Err(Native(LastCode(maybeCommitted, options, t, code, n)))
  }

  function LastCode<T, E>(maybeCommitted: Code -> bool, options: TransactOption, t: Try<T, E>, code: Code, n: nat): Code
    requires t.answer == CommitFailed(code) || t.answer == ClosureFailed(code)
  {
    if t.refused.Some? && IsRetried(maybeCommitted, options, t.(refused := None), n) then t.refused.value else code
  }

  /** The counter behind `can_retry`: it counts a try each time it is asked. */
  class Tries {
    const limit: Option<nat>
    var count: nat

    constructor (limit: Option<nat>)
      ensures this.limit == limit && count == 0
    {
      this.limit := limit;
      count := 0;
    }

    method CanRetry(timeOut: bool, inTime: bool) returns (may: bool)
      modifies this
      ensures count == old(count) + 1
      ensures may <==> (limit.None? || count < limit.value) && (timeOut ==> inTime)
    {
      count := count + 1;
      may := (limit.None? || count < limit.value) && (!timeOut || inTime);
    }
  }

  /**
   Calls the closure until it commits, fails for good or may not be retried; `calls` is how often. The result is absent
   when the script ends before the loop does. The loop goes on past a native error exactly when it may ask for a restart
   and is not refused one; else the error is that of the refusal, or the native one when it may not ask.
   */
  method Transact<T, E>(
    maybeCommitted: Code -> bool, options: TransactOption, creation: Option<Code>, script: seq<Try<T, E>>
  )
    returns (result: Option<Result<T, TransactError<E>>>, calls: nat)
    ensures calls <= |script|
    ensures creation.Some? ==> calls == 0 && result == Some(Err(Native(creation.value)))
    ensures IsRun(maybeCommitted, options, script[..calls])
    ensures creation.None? && result.None? ==>
              calls == |script| && (calls > 0 ==> IsRetried(maybeCommitted, options, script[calls - 1], calls))
    ensures creation.None? && result.Some? ==>
              && calls > 0 && !IsRetried(maybeCommitted, options, script[calls - 1], calls)
              && result.value == ResultOf(maybeCommitted, options, script[calls - 1], calls)
    ensures creation.None? ==> forall i :: 0 <= i < calls ==>
              match script[i].answer
              case Committed(value) => i + 1 == calls && result == Some(Ok(value))
              case ClosureFailedForGood(error) => i + 1 == calls && result == Some(Err(Own(error)))
              case _ =>
                var code := script[i].answer.code;
                var asks := (options.isIdempotent || !maybeCommitted(code))
                            && (options.retryLimit.Some? ==> i + 1 < options.retryLimit.value)
                            && (options.timeOut ==> script[i].inTime);
                && (asks && script[i].refused.None? <==> i + 1 < calls || result.None?)
                && (!asks ==> result == Some(Err(Native(code))))
                && (asks && script[i].refused.Some? ==> result == Some(Err(Native(script[i].refused.value))))
  {
    calls := 0;
    if creation.Some? {
      return Some(Err(Native(creation.value))), 0;
    }
    var tries := new Tries(options.retryLimit);
    while calls < |script|
      invariant calls <= |script| && tries.count == calls && tries.limit == options.retryLimit
      invariant forall i :: 0 <= i < calls ==> IsRetried(maybeCommitted, options, script[i], i + 1)
    {
      var t := script[calls];
      calls := calls + 1;
      var code;
      match t.answer {
        case Committed(value) => return Some(Ok(value)), calls;
        case ClosureFailedForGood(error) => return Some(Err(Own(error))), calls;
        case CommitFailed(c) => code := c;
        case ClosureFailed(c) => code := c;
      }
      if options.isIdempotent || !maybeCommitted(code) {
        var may := tries.CanRetry(options.timeOut, t.inTime);
        if may {
          if t.refused.Some? {
            return Some(Err(Native(t.refused.value))), calls;
          }
        } else {
          return Some(Err(Native(code))), calls;
        }
      } else {
        return Some(Err(Native(code))), calls;
      }
    }
    result := None;
  }

  // ---------- what every run keeps ----------

  /** The calls of a run: every one but the last was retried. */
  ghost predicate IsRun<T, E>(maybeCommitted: Code -> bool, options: TransactOption, calls: seq<Try<T, E>>) {
    forall i :: 0 <= i < |calls| - 1 ==> IsRetried(maybeCommitted, options, calls[i], i + 1)
  }

  /** The closure is called at most as often as the limit says, and once when the limit is zero. */
  lemma CallsAreLimited<T, E>(maybeCommitted: Code -> bool, options: TransactOption, calls: seq<Try<T, E>>)
    requires IsRun(maybeCommitted, options, calls) && options.retryLimit.Some?
    ensures |calls| <= if options.retryLimit.value > 1 then options.retryLimit.value else 1
  {
    if |calls| > 1 {
      assert IsRetried(maybeCommitted, options, calls[|calls| - 2], |calls| - 1);
    }
  }

  lemma {:induction false} NoneApplied<T, E>(maybeCommitted: Code -> bool, calls: seq<Try<T, E>>)
    requires forall i :: 0 <= i < |calls| ==> IsHonest(maybeCommitted, calls[i])
    requires forall i :: 0 <= i < |calls| ==> KnownNotCommitted(maybeCommitted, calls[i].answer)
    ensures AppliedCount(calls) == 0
  {
    if calls != [] {
      NoneApplied(maybeCommitted, calls[..|calls| - 1]);
    }
  }

  /**
   A closure that is not declared idempotent is only called again after a failure that is known not to have committed:
   over a whole run its writes are applied at most once, and exactly once, by the last call, when it commits.
   */
  lemma AppliedAtMostOnce<T, E>(maybeCommitted: Code -> bool, options: TransactOption, calls: seq<Try<T, E>>)
    requires IsRun(maybeCommitted, options, calls) && !options.isIdempotent
    requires forall i :: 0 <= i < |calls| ==> IsHonest(maybeCommitted, calls[i])
    ensures forall i :: 0 <= i < |calls| - 1 ==>
              KnownNotCommitted(maybeCommitted, calls[i].answer) && !calls[i].applied
    ensures AppliedCount(calls) <= 1
    ensures calls != [] && calls[|calls| - 1].answer.Committed? ==> AppliedCount(calls) == 1
  {
    if calls != [] {
      forall i | 0 <= i < |calls| - 1
        ensures KnownNotCommitted(maybeCommitted, calls[i].answer) && !calls[i].applied
      {
        assert IsRetried(maybeCommitted, options, calls[i], i + 1);
      }
      NoneApplied(maybeCommitted, calls[..|calls| - 1]);
    }
  }

  /** Two calls of an idempotent closure that both apply its writes: the first commit is in doubt. */
  lemma AppliedTwice<T, E>(maybeCommitted: Code -> bool, options: TransactOption, code: Code, value: T)
    returns (calls: seq<Try<T, E>>)
    requires maybeCommitted(code) && options.isIdempotent
    requires options.retryLimit.None? || options.retryLimit.value > 1
    ensures IsRun(maybeCommitted, options, calls) && AppliedCount(calls) == 2
    ensures forall i :: 0 <= i < |calls| ==> IsHonest(maybeCommitted, calls[i])
  {
    calls := [Try(CommitFailed(code), true, None, true), Try(Committed(value), true, None, true)];
    assert calls[..1][..0] == [];
    assert AppliedCount(calls[..1]) == 1;
  }

  /** Every run applies the writes of its closure at most once. */
  ghost predicate AppliesAtMostOnce<T(!new), E(!new)>(maybeCommitted: Code -> bool, options: TransactOption) {
    forall calls: seq<Try<T, E>> ::
      IsRun(maybeCommitted, options, calls) && (forall i :: 0 <= i < |calls| ==> IsHonest(maybeCommitted, calls[i])) ==>
        AppliedCount(calls) <= 1
  }

  lemma {:induction false} AppliedAtMostCalled<T, E>(calls: seq<Try<T, E>>)
    ensures AppliedCount(calls) <= |calls|
  {
    if calls != [] {
      AppliedAtMostCalled(calls[..|calls| - 1]);
    }
  }

  /**
   As long as some error leaves a commit in doubt, writes are applied at most once in every run exactly when the closure
   is not declared idempotent or may not be called twice.
   */
  lemma AppliedAtMostOnceWhen<T(!new), E(!new)>(
    maybeCommitted: Code -> bool, options: TransactOption, code: Code, value: T
  )
    requires maybeCommitted(code)
    ensures AppliesAtMostOnce<T, E>(maybeCommitted, options)
       <==> !options.isIdempotent || (options.retryLimit.Some? && options.retryLimit.value <= 1)
  {
    if options.isIdempotent && (options.retryLimit.None? || options.retryLimit.value > 1) {
      var calls: seq<Try<T, E>> := AppliedTwice(maybeCommitted, options, code, value);
    } else {
      forall calls: seq<Try<T, E>> |
        IsRun(maybeCommitted, options, calls) && forall i :: 0 <= i < |calls| ==> IsHonest(maybeCommitted, calls[i])
        ensures AppliedCount(calls) <= 1
      {
        if options.isIdempotent {
          CallsAreLimited(maybeCommitted, options, calls);
          AppliedAtMostCalled(calls);
        } else {
          AppliedAtMostOnce(maybeCommitted, options, calls);
        }
      }
    }
  }
}
