/**
 * What one execution of the retry loop does, as a function of the engine's
 * configuration and of the outcomes the operation produces, and the
 * properties of that function.
 *
 * The operation is given as the script of its outcomes: its i-th invocation
 * (counting from 1) produces `operation[i - 1]`. The waits the loop performs
 * are recorded as a trace instead of being slept.
 */
module RetrySpec {
  import opened Wrappers
  import opened Classification

  /** What one invocation of the operation does: return a value or throw. */
  datatype Outcome<T> = Success(value: T) | Fail(error: Exn)

  /**
   * How an execution ends: the operation's value is returned, or the
   * exception of the last attempt propagates unchanged. `Unfinished` means
   * the loop would invoke the operation once more than the script covers.
   */
  datatype Result<T> = Returned(value: T) | Rethrown(error: Exn) | Unfinished

  /** A wait the loop requested: after failed attempt `attempt`, for `duration` ticks. */
  datatype Wait = Wait(attempt: int, duration: int)

  /** The observable effect of one execution: its result, how often the operation was invoked, the waits in order. */
  datatype Execution<T> = Execution(result: Result<T>, invocations: nat, waits: seq<Wait>)

  /** The configuration of an engine: the rule predicates, the optional attempt limit, the optional delay selector. */
  datatype Config = Config(rules: seq<Exn -> bool>, maxTryCount: Option<int>, delaySelector: Option<int -> int>)

  /** The lifted comparison `i >= maxTryCount`, false when no limit is set. */
  predicate LimitReached(maxTryCount: Option<int>, i: int)
  {
    maxTryCount.Some? && i >= maxTryCount.value
  }

  /** The wait requested after failed attempt `i`, if a delay selector is set. */
  function WaitAfter(c: Config, i: int): seq<Wait>
  {
    if c.delaySelector.Some? then [Wait(i, c.delaySelector.value(i))] else []
  }

  /** The execution from attempt `i` on. */
  function RunFrom<T>(c: Config, operation: seq<Outcome<T>>, i: nat): Execution<T>
    requires 1 <= i
    decreases |operation| + 1 - i
  {
    if i > |operation| then Execution(Unfinished, |operation|, [])
    else match operation[i - 1]
      case Success(v) => Execution(Returned(v), i, [])
      case Fail(e) =>
        if LimitReached(c.maxTryCount, i) then Execution(Rethrown(e), i, [])
        else if !Any(c.rules, e) then Execution(Rethrown(e), i, [])
        else
          var rest := RunFrom(c, operation, i + 1);
          rest.(waits := WaitAfter(c, i) + rest.waits)
  }

  /** A whole execution, starting at attempt 1. */
  function Run<T>(c: Config, operation: seq<Outcome<T>>): Execution<T>
  {
    RunFrom(c, operation, 1)
  }

  // ----- an independent description of an execution -----

  /** Attempt `i` is followed by another attempt: it failed, the limit is not reached, and a rule matches its exception. */
  predicate Retries<T>(c: Config, operation: seq<Outcome<T>>, i: int)
  {
    1 <= i <= |operation| &&
    var o := operation[i - 1];
    o.Fail? && !LimitReached(c.maxTryCount, i) && Any(c.rules, o.error)
  }

  /** The result of an execution whose last attempt ended in `o`. */
  function Final<T>(o: Outcome<T>): Result<T>
  {
    match o
    case Success(v) => Returned(v)
    case Fail(e) => Rethrown(e)
  }

  /** The waits requested after attempts `from` up to, not including, `to`. */
  function WaitsBetween(c: Config, from: int, to: int): (r: seq<Wait>)
    decreases to - from
    ensures c.delaySelector.None? ==> r == []
    ensures c.delaySelector.Some? ==>
              |r| == (if from < to then to - from else 0) &&
              forall j :: 0 <= j < |r| ==> r[j] == Wait(from + j, c.delaySelector.value(from + j))
  {
    if from >= to then [] else WaitAfter(c, from) + WaitsBetween(c, from + 1, to)
  }

  /**
   * An execution stops at the first attempt that is not retried: it then has
   * invoked the operation exactly that many times, ends with that attempt's
   * value or exception, and has waited once after each earlier attempt.
   */
  lemma {:induction false} RunFromStopsAt<T>(c: Config, operation: seq<Outcome<T>>, i: nat, k: nat)
    requires 1 <= i <= k <= |operation|
    requires forall j :: i <= j < k ==> Retries(c, operation, j)
    requires !Retries(c, operation, k)
    ensures RunFrom(c, operation, i) == Execution(Final(operation[k - 1]), k, WaitsBetween(c, i, k))
    decreases k - i
  {
    if i < k {
      assert Retries(c, operation, i);
      RunFromStopsAt(c, operation, i + 1, k);
    }
  }

  /** When every attempt the script covers is retried, the execution needs more outcomes than the script has. */
  lemma {:induction false} RunFromUnfinished<T>(c: Config, operation: seq<Outcome<T>>, i: nat)
    requires 1 <= i <= |operation| + 1
    requires forall j :: i <= j <= |operation| ==> Retries(c, operation, j)
    ensures RunFrom(c, operation, i) == Execution(Unfinished, |operation|, WaitsBetween(c, i, |operation| + 1))
    decreases |operation| + 1 - i
  {
    if i <= |operation| {
      assert Retries(c, operation, i);
      RunFromUnfinished(c, operation, i + 1);
    }
  }

  /**
   * Every execution either stops at the first attempt that is not retried or
   * runs out of script; a finished one ends with the outcome of its last
   * attempt, so an exception is rethrown unchanged and never wrapped.
   */
  lemma {:induction false} RunFromShape<T>(c: Config, operation: seq<Outcome<T>>, i: nat)
    requires 1 <= i <= |operation| + 1
    ensures var r := RunFrom(c, operation, i);
            i - 1 <= r.invocations <= |operation| &&
            (r.result.Unfinished? <==> forall j :: i <= j <= |operation| ==> Retries(c, operation, j)) &&
            (!r.result.Unfinished? ==>
               i <= r.invocations &&
               r.result == Final(operation[r.invocations - 1]) &&
               !Retries(c, operation, r.invocations) &&
               forall j :: i <= j < r.invocations ==> Retries(c, operation, j))
    decreases |operation| + 1 - i
  {
    if i <= |operation| && Retries(c, operation, i) {
      RunFromShape(c, operation, i + 1);
    }
  }

  // ----- the scenarios the engine promises -----

  /**
   * An operation that first succeeds at attempt `k`, after failures that were
   * all matched and all below the limit, has its value returned after exactly
   * `k` invocations. The successful attempt is not classified or limited: the
   * value is returned even when the limit is reached at `k` or no rule exists.
   */
  lemma SuccessAfterMatchedFailures<T>(c: Config, operation: seq<Outcome<T>>, k: nat)
    requires 1 <= k <= |operation| && operation[k - 1].Success?
    requires forall j :: 0 <= j < k - 1 ==>
               operation[j].Fail? && Any(c.rules, operation[j].error) && !LimitReached(c.maxTryCount, j + 1)
    ensures Run(c, operation) == Execution(Returned(operation[k - 1].value), k, WaitsBetween(c, 1, k))
  {
    assert forall j :: 1 <= j < k ==> Retries(c, operation, j);
    RunFromStopsAt(c, operation, 1, k);
  }

  /**
   * With the limit set to `n` and an operation that keeps failing with
   * matched exceptions, the operation is invoked exactly `n` times (once when
   * `n` is below 1) and the last exception is rethrown unchanged: the limit
   * stops retries even of retryable failures.
   */
  lemma MaxTryCountStopsRetries<T>(c: Config, operation: seq<Outcome<T>>, n: int)
    requires c.maxTryCount == Some(n)
    requires forall j :: 0 <= j < |operation| ==> operation[j].Fail? && Any(c.rules, operation[j].error)
    requires |operation| >= n && |operation| >= 1
    ensures var m := if n < 1 then 1 else n;
            Run(c, operation) == Execution(Rethrown(operation[m - 1].error), m, WaitsBetween(c, 1, m))
  {
    var m := if n < 1 then 1 else n;
    assert forall j :: 1 <= j < m ==> Retries(c, operation, j);
    RunFromStopsAt(c, operation, 1, m);
  }

  /** However the operation behaves, a limit of `n` bounds the invocations by `n` (by 1 when `n` is below 1). */
  lemma RunRespectsMaxTryCount<T>(c: Config, operation: seq<Outcome<T>>, n: int)
    requires c.maxTryCount == Some(n)
    ensures Run(c, operation).invocations <= if n < 1 then 1 else n
  {
    RunFromShape(c, operation, 1);
    var r := Run(c, operation);
    var m := if n < 1 then 1 else n;
    // attempt m reaches the limit, so it is never retried and no attempt after it happens
    assert !Retries(c, operation, m);
  }

  /**
   * A failure no rule matches is rethrown at the attempt where it occurs:
   * no further invocation, and no wait after it.
   */
  lemma UnmatchedFailureRethrown<T>(c: Config, operation: seq<Outcome<T>>, k: nat)
    requires 1 <= k <= |operation|
    requires forall j :: 1 <= j < k ==> Retries(c, operation, j)
    requires operation[k - 1].Fail? && !Any(c.rules, operation[k - 1].error)
    ensures Run(c, operation) == Execution(Rethrown(operation[k - 1].error), k, WaitsBetween(c, 1, k))
  {
    RunFromStopsAt(c, operation, 1, k);
  }

  /** With no rules nothing is retried: the first attempt decides the execution, and nothing is waited for. */
  lemma EmptyClassifierNeverRetries<T>(c: Config, operation: seq<Outcome<T>>)
    requires c.rules == [] && |operation| >= 1
    ensures Run(c, operation) == Execution(Final(operation[0]), 1, [])
  {
    RunFromStopsAt(c, operation, 1, 1);
  }

  /**
   * The delay selector is consulted once per retry and never after the last
   * attempt: in an execution that ends at attempt `k`, the waits are those
   * after attempts 1 to `k - 1`, in order, each for the duration the selector
   * gives for that attempt's number.
   */
  lemma DelaysOnlyBeforeRetries<T>(c: Config, operation: seq<Outcome<T>>)
    ensures var r := Run(c, operation);
            (c.delaySelector.None? ==> r.waits == []) &&
            (c.delaySelector.Some? && !r.result.Unfinished? ==>
               |r.waits| == r.invocations - 1 &&
               forall j :: 0 <= j < |r.waits| ==> r.waits[j] == Wait(j + 1, c.delaySelector.value(j + 1)))
  {
    RunFromShape(c, operation, 1);
    var r := Run(c, operation);
    if r.result.Unfinished? {
      RunFromUnfinished(c, operation, 1);
    } else {
      RunFromStopsAt(c, operation, 1, r.invocations);
    }
  }
}
