# Failsafe retry engine in Dafny

This project models the retry engine of Failsafe, a C# library. A `Retry` object is configured by chained calls:

- `Catch` registers a rule that says which exceptions are retried.
- `WithMaxTryCount` limits the number of attempts.
- `WithDelay` sets a function from the number of the failed attempt to a wait.

`Execute` then invokes an operation in a loop. It returns the first successful result. It rethrows a failure once the attempt limit is reached or when no rule matches the failure. Otherwise it waits and tries again. `ExecuteAsync` runs the same loop, awaiting the operation and the wait instead of blocking on them.

Files:

- `wrappers.dfy`: `Option`, which stands for the nullable `int?` and the nullable delegates.
- `classification.dfy`, module `Classification`: exception types and their base-type hierarchy. It holds the rule closure built by `CreateFullExceptionPredicate`, the ordered `Any` over the registered rules, and lemmas about matching.
- `retry_spec.dfy`, module `RetrySpec`: a function `Run` that gives the whole effect of one execution for a configuration and a scripted operation. Its lemmas state what the engine promises.
- `retry.dfy`, module `Failsafe`: the `Retry` class. It has the three fields of the C# class, the configuration methods, and `Execute` as a `while` loop proved equal to `Run`.
- `scenarios.dfy`, module `RetryScenarios`: the scenarios of `Failsafe.Tests/RetryTests.cs`, written as clients of the class.

How the model represents the engine:

- **Exception types.** An exception type is a number. The runtime type system is a `Hierarchy`, a map from each type to its direct base type. Every type is numbered above its base type, which keeps the hierarchy acyclic. `IsSubclassOf` is the strict-descendant relation.
- **Exceptions.** An exception is its type together with its properties by name. A payload predicate is a function over the exception.
- **The operation.** The operation is a script of outcomes: its i-th invocation returns `Success(v)` or throws `Fail(e)`. If the loop would invoke the operation more often than the script covers, the result is `Unfinished`. The C# loop would instead go on invoking the operation.
- **Waits.** Every wait the loop asks for is recorded, in order, as `Wait(attempt, duration)`.

Where the code's behaviour is easy to misread, the model follows the code:

- **Attempt limit.** `WithMaxTryCount` accepts any `int`. With a limit below 1, the test `i >= _maxTryCount` holds at attempt 1, so the first failure is rethrown. `MaxTryCountStopsRetries` and `RunRespectsMaxTryCount` state this case.
- **Null arguments.** `Retry.cs` checks no argument for null; only the extension methods in `Failsafe/Extensions.cs` guard against null.
- **Test exception types.** The tests use `DummyExceptionA` and `DummyExceptionB`, but their declarations are not part of this model. `scenarios.dfy` makes `DummyExceptionA` a subtype of `DummyException`: the test at `Failsafe.Tests/RetryTests.cs:150-171` needs it to be a strict descendant, and the one at 129-148 needs it to differ. `DummyExceptionB` is also placed under `DummyException`; this is an assumption, since the tests at `Failsafe.Tests/RetryTests.cs:81-127` only need it to differ from `DummyExceptionA`.
- **One type system.** `Catch` takes the type hierarchy as a parameter, standing for the runtime's single type system. Every `Catch` on an engine is meant to receive the same hierarchy, as the scenarios do.

## Model

| member | source | states |
|---|---|---|
| `Classification.SubclassIsBelow` | Failsafe/Retry.cs:113 | a strict ancestor of a type is always numbered below it, so the walk up the base types ends |
| `Classification.SubclassIsAcyclic` | Failsafe/Retry.cs:113 | no type is a subclass of itself, and two types are never subclasses of each other |
| `Classification.SubclassIsTransitive` | Failsafe/Retry.cs:113 | a subclass of a subclass of `c` is a subclass of `c` |
| `Classification.ExactRuleMatchesOnlyItsType` | Failsafe/Retry.cs:112-113 | a rule without derived matching, with or without a payload predicate, matches only its own type and never a strict descendant; without a predicate it matches every exception of its type |
| `Classification.DerivedRuleMatchesDescendants` | Failsafe/Retry.cs:112-113 | a rule with derived matching, with or without a payload predicate, matches only the rule's type and its strict descendants; without a predicate it matches all of them |
| `Classification.RuleNeverMatchesAncestor` | Failsafe/Retry.cs:112-117 | whatever its options and payload predicate, a rule never matches an exception of a strict ancestor type |
| `Classification.PayloadPredicateGatesRule` | Failsafe/Retry.cs:115-124 | a failed type test rejects whatever the payload predicate says; after a passed one a present predicate decides and an absent one matches |
| `Classification.AnyIffSome` | Failsafe/Retry.cs:19 | the ordered short-circuit search over the rules holds exactly when some rule of the list matches |
| `Classification.EmptyClassifierMatchesNothing` | Failsafe/Retry.cs:19 | with no rules, no exception is matched |
| `Classification.AddingRuleKeepsMatches` | Failsafe/Retry.cs:19-29 | appending a rule gives the old classification OR the new rule, so a matched exception stays matched |
| `Classification.MatchIgnoresOrder` | Failsafe/Retry.cs:19 | two rule lists with the same members classify every exception alike, whatever their order or repetition |
| `RetrySpec.WaitsBetween` | Failsafe/Retry.cs:68-70 | the waits after attempts `from` to `to - 1` are one per attempt, in order, each for the selector's duration at that attempt's number; there are none without a selector |
| `RetrySpec.RunFromStopsAt` | Failsafe/Retry.cs:52-72 | if every attempt before `k` is retried and attempt `k` is not, the execution invokes the operation exactly `k` times, ends with attempt `k`'s value or exception, and waits once after each earlier attempt |
| `RetrySpec.RunFromUnfinished` | Failsafe/Retry.cs:52-72 | if every scripted attempt is retried, the loop needs a further invocation, after waiting once per attempt |
| `RetrySpec.RunFromShape` | Failsafe/Retry.cs:52-72 | every execution ends at the first attempt that is not retried, with that attempt's own value or exception, unwrapped; or it runs out of script exactly when every scripted attempt is retried |
| `RetrySpec.SuccessAfterMatchedFailures` | Failsafe/Retry.cs:52-57 | a first success at attempt `k` after matched failures below the limit returns that value after exactly `k` invocations; the success itself is not classified or limited |
| `RetrySpec.MaxTryCountStopsRetries` | Failsafe/Retry.cs:60-62 | with limit `n` and an operation that keeps failing with matched exceptions, the operation is invoked exactly `n` times (once if `n < 1`) and the last exception is rethrown unchanged |
| `RetrySpec.RunRespectsMaxTryCount` | Failsafe/Retry.cs:60-62 | with limit `n`, no execution invokes the operation more than `n` times (more than once if `n < 1`) |
| `RetrySpec.UnmatchedFailureRethrown` | Failsafe/Retry.cs:64-66 | an unmatched failure at attempt `k` is rethrown there: `k` invocations, and no wait after attempt `k` |
| `RetrySpec.EmptyClassifierNeverRetries` | Failsafe/Retry.cs:64-66 | with no rules, the first attempt's outcome ends the execution after one invocation and no wait |
| `RetrySpec.DelaysOnlyBeforeRetries` | Failsafe/Retry.cs:60-70 | in a finished execution, the selector is consulted for attempts 1 to `invocations - 1` in order and never for the last attempt; nothing is waited for without a selector |
| `Failsafe.Retry.constructor` | Failsafe/Retry.cs:14-17 | a new engine has no rules, no limit and no delay selector |
| `Failsafe.Retry.Create` | Failsafe/Retry.cs:137 | returns a fresh engine with no rules, no limit and no delay selector |
| `Failsafe.Retry.MatchException` | Failsafe/Retry.cs:19 | an exception is matched exactly when one of the registered rule predicates accepts it |
| `Failsafe.Retry.Catch` | Failsafe/Retry.cs:22-32 | appends exactly one rule, the closure of `CreateFullExceptionPredicate` (Failsafe/Retry.cs:105-129), keeps the limit and selector, and returns the same engine |
| `Failsafe.Retry.WithMaxTryCount` | Failsafe/Retry.cs:35-39 | replaces the limit with the new one, keeps the rules and selector, and returns the same engine |
| `Failsafe.Retry.WithDelay` | Failsafe/Retry.cs:42-46 | replaces the delay selector with the new one, keeps the rules and limit, and returns the same engine |
| `Failsafe.Retry.Execute` | Failsafe/Retry.cs:49-100 | the loop's result, invocation count and wait trace are exactly the execution `Run` gives for the engine's configuration; it modifies nothing, so configuration is unchanged by execution |
| `RetryScenarios.AnyExceptionScenario` | Failsafe.Tests/RetryTests.cs:9-30 | catching any exception, four failures then success return the value after five invocations |
| `RetryScenarios.ExceedRetryLimitScenario` | Failsafe.Tests/RetryTests.cs:57-79 | a limit of 10 on an always-failing operation rethrows its exception after exactly 10 invocations |
| `RetryScenarios.SpecificExceptionScenario` | Failsafe.Tests/RetryTests.cs:81-106 | rules for two types retry failures of either type until success on the fifth invocation |
| `RetryScenarios.DifferentExceptionScenario` | Failsafe.Tests/RetryTests.cs:108-127 | a failure of a type no rule names is rethrown from the first invocation |
| `RetryScenarios.ExactRuleOnDerivedScenario` | Failsafe.Tests/RetryTests.cs:129-148 | a base-type rule without derived matching rethrows a subtype's failure at the first invocation |
| `RetryScenarios.DerivedRuleOnDerivedScenario` | Failsafe.Tests/RetryTests.cs:150-171 | a base-type rule with derived matching retries a subtype's failures until success |
| `RetryScenarios.DerivedRuleOnSameTypeScenario` | Failsafe.Tests/RetryTests.cs:173-194 | a rule with derived matching still retries its own exact type until success |
| `RetryScenarios.PayloadPredicateScenario` | Failsafe.Tests/RetryTests.cs:196-220 | a payload predicate accepts four failures, rejects the fifth, and that fifth exception is rethrown after five invocations |

## Left out

- Waiting: `Thread.Sleep` and `Task.Delay` are not modelled. A wait is recorded in the trace instead. A `TimeSpan` is an integer number of ticks, so negative or infinite durations and their exceptions are not modelled.
- Asynchrony: `ExecuteAsync` (Failsafe/Retry.cs:76-100) has the same loop as `Execute`, with `await` at the invocation and the wait. `Failsafe.Retry.Execute` stands for both, and suspension is not modelled.
- Runtime reflection: `GetType`, `IsSubclassOf` and the cast to `TException` are replaced by the explicit `Hierarchy`. The payload predicate takes the exception itself, so no cast is needed.
- Side effects of the operation: the operation is its script of outcomes. The delay selector and payload predicates are pure, total functions, so an exception thrown by either is not modelled.
- Counter overflow: the loop counter is an unbounded integer. The C# `int` counter would wrap after 2^31 - 1 attempts of an unlimited execution.
- Script exhaustion: an execution that retries every scripted outcome ends as `Unfinished`. The C# loop would invoke the operation again, and without a limit it may never stop.
- `Failsafe.Retry.WithDelay`: takes a selector, never null. Passing null in C#, which would switch the delay off again, is not modelled.
- Adapters: the extension methods in `Failsafe/Extensions.cs` are not modelled. `CatchAnyException` is `Catch` on the root exception type with derived matching; `AnyExceptionScenario` calls it that way. The wrappers that turn an action into a function returning null are also not modelled.
- `Failsafe/Internal/Extensions.cs`, `Failsafe/Internal/Guards.cs` and `Failsafe/IRetry.cs` are not part of this model: they hold adapters, a null-argument guard and the interface declaration.
