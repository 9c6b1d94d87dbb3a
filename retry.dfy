/**
 * The retry engine: a mutable object configured by chained calls, and the
 * retry loop that executes an operation under that configuration.
 */
module Failsafe {
  import opened Wrappers
  import opened Classification
  import opened RetrySpec

  class Retry {
    /** One predicate per `Catch` call, in registration order. */
    var rules: seq<Exn -> bool>
    /** The attempt limit; `None` is the null of `int?`, meaning no limit. */
    var maxTryCount: Option<int>
    /** The delay selector, from the number of the failed attempt to the wait in ticks; `None` means no wait. */
    var delaySelector: Option<int -> int>

    /** The configuration this engine currently holds. */
    function Settings(): Config
      reads this
    {
      Config(rules, maxTryCount, delaySelector)
    }

    /** A fresh engine: no rules, no limit, no delay. */
    constructor ()
      ensures rules == [] && maxTryCount == None && delaySelector == None
    {
      rules := [];
      maxTryCount := None;
      delaySelector := None;
    }

    /** The shorthand for creating an engine. */
    static method Create() returns (retry: Retry)
      ensures fresh(retry)
      ensures retry.rules == [] && retry.maxTryCount == None && retry.delaySelector == None
    {
      retry := new Retry();
    }

    /** Whether any registered rule matches `ex`. */
    function MatchException(ex: Exn): (matched: bool)
      reads this
      ensures matched <==> exists i :: 0 <= i < |rules| && rules[i](ex)
    {
      AnyIffSome(rules, ex);
      Any(rules, ex)
    }

    /** Registers one rule for `exceptionType` and returns this same engine; nothing else changes. */
    method Catch(h: Hierarchy, exceptionType: TypeId, catchDerivedExceptions: bool,
                 exceptionPredicate: Option<Exn -> bool>) returns (self: Retry)
      modifies this
      ensures self == this
      ensures rules == old(rules) + [CreateFullExceptionPredicate(h, exceptionType, catchDerivedExceptions, exceptionPredicate)]
      ensures maxTryCount == old(maxTryCount) && delaySelector == old(delaySelector)
    {
      var fullPredicate := CreateFullExceptionPredicate(h, exceptionType, catchDerivedExceptions, exceptionPredicate);
      rules := rules + [fullPredicate];
      self := this;
    }

    /** Sets the attempt limit, replacing any earlier one, and returns this same engine. */
    method WithMaxTryCount(n: int) returns (self: Retry)
      modifies this
      ensures self == this
      ensures maxTryCount == Some(n)
      ensures rules == old(rules) && delaySelector == old(delaySelector)
    {
      maxTryCount := Some(n);
      self := this;
    }

    /** Sets the delay selector, replacing any earlier one, and returns this same engine. */
    method WithDelay(selector: int -> int) returns (self: Retry)
      modifies this
      ensures self == this
      ensures delaySelector == Some(selector)
      ensures rules == old(rules) && maxTryCount == old(maxTryCount)
    {
      delaySelector := Some(selector);
      self := this;
    }

    /**
     * Runs the retry loop over the operation's outcomes. The effect is the
     * execution `Run` describes for this engine's configuration; the lemmas
     * of RetrySpec say what that is. The method changes no field.
     */
    method Execute<T>(operation: seq<Outcome<T>>) returns (result: Result<T>, invocations: nat, waits: seq<Wait>)
      ensures Execution(result, invocations, waits) == Run(Settings(), operation)
    {
      var i := 1;
      waits := [];
      while i <= |operation|
        invariant 1 <= i <= |operation| + 1
        invariant var rest := RunFrom(Settings(), operation, i);
                  Run(Settings(), operation) == Execution(rest.result, rest.invocations, waits + rest.waits)
        decreases |operation| + 1 - i
      {
        var outcome := operation[i - 1];
        if outcome.Success? {
          return Returned(outcome.value), i, waits;
        }
        var ex := outcome.error;
        // the limit is checked before the classifier
        if maxTryCount.Some? && i >= maxTryCount.value {
          return Rethrown(ex), i, waits;
        }
        if !MatchException(ex) {
          return Rethrown(ex), i, waits;
        }
        if delaySelector.Some? {
          waits := waits + [Wait(i, delaySelector.value(i))];
        }
        i := i + 1;
      }
      return Unfinished, |operation|, waits;
    }
  }
}
