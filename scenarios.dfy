/**
 * The scenarios of the engine's test suite, as clients of the `Retry` class:
 * each configures an engine through its chained calls, executes a scripted
 * operation and states how the execution ends and how often the operation
 * was invoked.
 */
module RetryScenarios {
  import opened Wrappers
  import opened Classification
  import opened RetrySpec
  import opened Failsafe

  /** The exception types of the tests: the root type, and a test exception with two subtypes. */
  const Exception: TypeId := 0
  const DummyException: TypeId := 1
  const DummyExceptionA: TypeId := 2
  const DummyExceptionB: TypeId := 3

  const Types: Hierarchy := map[DummyException := Exception, DummyExceptionA := DummyException, DummyExceptionB := DummyException]

  /** A thrown exception of the given type with no properties set. */
  function Thrown(kind: TypeId): Exn
  {
    Exn(kind, map[])
  }

  /** Retrying on any exception: four failures, then success on the fifth invocation. */
  method AnyExceptionScenario() returns (result: Result<bool>, invocations: nat)
    ensures result == Returned(true) && invocations == 5
  {
    var retry := Retry.Create();
    retry := retry.Catch(Types, Exception, true, None);
    var f := Fail(Thrown(DummyException));
    var operation := [f, f, f, f, Success(true)];
    var waits;
    result, invocations, waits := retry.Execute(operation);
    assert retry.maxTryCount == None && Any(retry.rules, f.error);
    assert forall j :: 0 <= j < 4 ==> operation[j] == f;
    SuccessAfterMatchedFailures(retry.Settings(), operation, 5);
  }

  /** A limit of 10 on an operation that always fails: exactly 10 invocations, and the exception propagates. */
  method ExceedRetryLimitScenario() returns (result: Result<bool>, invocations: nat)
    ensures result == Rethrown(Thrown(DummyException)) && invocations == 10
  {
    var retry := Retry.Create();
    retry := retry.WithMaxTryCount(10);
    retry := retry.Catch(Types, Exception, true, None);
    var operation: seq<Outcome<bool>> := seq(11, _ => Fail(Thrown(DummyException)));
    var waits;
    result, invocations, waits := retry.Execute(operation);
    MaxTryCountStopsRetries(retry.Settings(), operation, 10);
  }

  /** Two specific rules: failures of either type are retried until success on the fifth invocation. */
  method SpecificExceptionScenario() returns (result: Result<bool>, invocations: nat)
    ensures result == Returned(true) && invocations == 5
  {
    var retry := Retry.Create();
    retry := retry.Catch(Types, DummyExceptionA, false, None);
    retry := retry.Catch(Types, DummyExceptionB, false, None);
    var a, b := Fail(Thrown(DummyExceptionA)), Fail(Thrown(DummyExceptionB));
    var operation := [a, a, b, b, Success(true)];
    var waits;
    result, invocations, waits := retry.Execute(operation);
    assert retry.maxTryCount == None && Any(retry.rules, a.error) && Any(retry.rules, b.error);
    forall j | 0 <= j < 4
      ensures operation[j].Fail? && Any(retry.rules, operation[j].error)
    {
      if j < 2 {
        assert operation[j] == a;
      } else {
        assert operation[j] == b;
      }
    }
    SuccessAfterMatchedFailures(retry.Settings(), operation, 5);
  }

  /** A failure of a type no rule names propagates from the first invocation. */
  method DifferentExceptionScenario() returns (result: Result<bool>, invocations: nat)
    ensures result == Rethrown(Thrown(DummyExceptionB)) && invocations == 1
  {
    var retry := Retry.Create();
    retry := retry.Catch(Types, DummyExceptionA, false, None);
    var b := Fail(Thrown(DummyExceptionB));
    var operation := [b, b, b, b, Success(true)];
    var waits;
    result, invocations, waits := retry.Execute(operation);
    UnmatchedFailureRethrown(retry.Settings(), operation, 1);
  }

  /** A rule for the base type without derived types does not retry a subtype's failure. */
  method ExactRuleOnDerivedScenario() returns (result: Result<bool>, invocations: nat)
    ensures result == Rethrown(Thrown(DummyExceptionA)) && invocations == 1
  {
    var retry := Retry.Create();
    retry := retry.Catch(Types, DummyException, false, None);
    var a := Fail(Thrown(DummyExceptionA));
    var operation := [a, a, a, a, Success(true)];
    var waits;
    result, invocations, waits := retry.Execute(operation);
    UnmatchedFailureRethrown(retry.Settings(), operation, 1);
  }

  /** A rule for the base type with derived types retries a subtype's failure. */
  method DerivedRuleOnDerivedScenario() returns (result: Result<bool>, invocations: nat)
    ensures result == Returned(true) && invocations == 5
  {
    var retry := Retry.Create();
    retry := retry.Catch(Types, DummyException, true, None);
    var a := Fail(Thrown(DummyExceptionA));
    var operation := [a, a, a, a, Success(true)];
    var waits;
    result, invocations, waits := retry.Execute(operation);
    assert retry.maxTryCount == None && Any(retry.rules, a.error);
    assert forall j :: 0 <= j < 4 ==> operation[j] == a;
    SuccessAfterMatchedFailures(retry.Settings(), operation, 5);
  }

  /** A rule with derived types still retries its own exact type. */
  method DerivedRuleOnSameTypeScenario() returns (result: Result<bool>, invocations: nat)
    ensures result == Returned(true) && invocations == 5
  {
    var retry := Retry.Create();
    retry := retry.Catch(Types, DummyException, true, None);
    var d := Fail(Thrown(DummyException));
    var operation := [d, d, d, d, Success(true)];
    var waits;
    result, invocations, waits := retry.Execute(operation);
    assert retry.maxTryCount == None && Any(retry.rules, d.error);
    assert forall j :: 0 <= j < 4 ==> operation[j] == d;
    SuccessAfterMatchedFailures(retry.Settings(), operation, 5);
  }

  /**
   * A payload predicate that requires the exception's property to be set:
   * four failures with it set are retried, the fifth without it propagates.
   */
  method PayloadPredicateScenario() returns (result: Result<bool>, invocations: nat)
    ensures result == Rethrown(Thrown(DummyException)) && invocations == 5
  {
    var retry := Retry.Create();
    retry := retry.Catch(Types, DummyException, false, Some((e: Exn) => "DummyProperty" in e.properties));
    var withProperty := Fail(Exn(DummyException, map["DummyProperty" := "Hello world"]));
    var withoutProperty := Fail(Thrown(DummyException));
    var operation: seq<Outcome<bool>> := [withProperty, withProperty, withProperty, withProperty, withoutProperty, withoutProperty];
    var waits;
    result, invocations, waits := retry.Execute(operation);
    UnmatchedFailureRethrown(retry.Settings(), operation, 5);
  }
}
