# kaizen-metrics core in Dafny

This project models three small parts of the kaizen-metrics toolkit and proves properties about them:

- **`MetricName`** is an immutable (scope, name) pair. It has value equality, a hash that agrees with that equality, a total order (scope first, then name) and the text form `scope:name`. It is modelled as a datatype with pure functions in `metric_name.dfy` (module `MetricNames`).
- **`Counter`** is a signed 64-bit accumulator with a fixed metric name. Its operations are `inc`, `dec`, `count` and `reset`. It is modelled in `counter.dfy` (module `Counters`) as a class whose one `count` field is updated in place, with two's-complement wrap-around. A specification function `Applied` folds a sequence of `inc`/`dec` updates. The lemmas prove three things about it:
  - it equals the wrapped sum of the deltas;
  - the order of the updates does not matter;
  - `dec(n)` is `inc(0 - n)`.
  The method `ApplyAll` calls `inc`/`dec` on a counter object for each update in turn, and is proved to end at that fold.
- **`SimpleTimer`** is a stopwatch. `start`, `end` and `reset` change its two `long` timestamps, where `0` means "unset". From those timestamps it derives the elapsed time, throughput, mean latency and a linear ETA (estimated time to completion). It is modelled in `simple_timer.dfy` (module `Timers`):
  - The timer is a class with the two fields.
  - Every operation that reads the wall clock takes the reading as an argument `now`.
  - Quotients that the source computes in `double` are computed over mathematical reals.
  - The source's `(long)` cast of such a quotient is rounding toward zero with saturation.
  - Java `int` and `long` arithmetic wraps explicitly.
  - Short client methods reproduce the unit tests' scenarios without sleeping, as exact statements.

`java_numerics.dfy` (module `JavaNumerics`) holds the Java numeric types that the three models share:
- `int32` and `int64`;
- the wrap-around of `int` and `long` arithmetic;
- the `(long)` cast of a floating-point value.

In these corner cases the model follows the code:
- Timestamps may be any `long`, not only positive ones. An `end` before any `start` stores its timestamp, and the elapsed time still reads 0.
- When items have been processed but no time has elapsed, `getETA` returns 0. The `double` throughput is infinite there, and a finite number divided by infinity is zero.
- The counter is not monotonic: `dec` and negative `inc` are allowed.
- The unit test named `testReset` never calls `reset()`. The reset scenario (`Timers.ResetTimer`) is modelled from `reset()` itself.

## Model

| member | source | states |
|---|---|---|
| `JavaNumerics.DoubleToLong` | src/main/java/com/kaizencreek/metrics/SimpleTimer.java:117 | Java's `(long)` cast of a value inside the `long` range truncates it toward zero. Values at or beyond `Long.MAX_VALUE` / `Long.MIN_VALUE` saturate to that bound. |
| `MetricNames.CompareStringsIsLexicographic` | src/main/java/com/kaizencreek/metrics/MetricName.java:64-66 | The modelled `String.compareTo` is negative exactly when the first string is lexicographically smaller. Lexicographic order is defined separately: either a proper prefix, or the first differing character is smaller. |
| `MetricNames.CompareStringsZeroIffEqual` | src/main/java/com/kaizencreek/metrics/MetricName.java:64-66 | String comparison returns 0 exactly when the two strings are equal. |
| `MetricNames.CompareStringsAntisymmetric` | src/main/java/com/kaizencreek/metrics/MetricName.java:64-66 | Swapping the two arguments negates the string comparison. |
| `MetricNames.CompareStringsTransitive` | src/main/java/com/kaizencreek/metrics/MetricName.java:64-66 | String comparison is transitive: a < b and b < c give a < c. |
| `MetricNames.AccessorsReturnArguments` | src/main/java/com/kaizencreek/metrics/MetricName.java:19-34 | `getScope` and `getName` return exactly the constructor's arguments. |
| `MetricNames.MetricName.ToString` | src/main/java/com/kaizencreek/metrics/MetricName.java:37-40 | The text form is the scope, then one `:`, then the name. Its length is `|scope| + 1 + |name|`. |
| `MetricNames.ToStringInjective` | src/main/java/com/kaizencreek/metrics/MetricName.java:37-40 | When neither scope contains `:`, two names with the same text form are equal. |
| `MetricNames.ToStringNotEscaped` | src/main/java/com/kaizencreek/metrics/MetricName.java:37-40 | The separator is not escaped: `("a:b","c")` and `("a","b:c")` are different names that print alike. |
| `MetricNames.EqualsIsValueEquality` | src/main/java/com/kaizencreek/metrics/MetricName.java:42-53 | `equals` holds exactly for another `MetricName` with the same scope and name. It is false for null and for other classes, and it is reflexive and symmetric. |
| `MetricNames.HashCodeIsWrappedCombination` | src/main/java/com/kaizencreek/metrics/MetricName.java:55-60 | The hash is the 32-bit wrap of `31 * hash(scope) + hash(name)`. Names that are `equals` have equal hashes. |
| `MetricNames.CompareToScopeFirst` | src/main/java/com/kaizencreek/metrics/MetricName.java:62-67 | When the scopes differ, the scopes decide the comparison. Only when they are equal do the names decide it. |
| `MetricNames.CompareToZeroIffEquals` | src/main/java/com/kaizencreek/metrics/MetricName.java:62-67 | `compareTo` returns 0 exactly when `equals` holds. |
| `MetricNames.CompareToAntisymmetric` | src/main/java/com/kaizencreek/metrics/MetricName.java:62-67 | `b.compareTo(a)` is `-a.compareTo(b)`. |
| `MetricNames.CompareToTransitive` | src/main/java/com/kaizencreek/metrics/MetricName.java:62-67 | `compareTo` is transitive on names. |
| `MetricNames.CompareToIsLexicographic` | src/main/java/com/kaizencreek/metrics/MetricName.java:62-67 | `a < b` exactly when a's scope is lexicographically smaller, or the scopes are equal and a's name is smaller. |
| `MetricNames.CompareToTrichotomy` | src/main/java/com/kaizencreek/metrics/MetricName.java:62-67 | For any two names, exactly one of less, equal or greater holds, so the order is total. |
| `Counters.Counter.constructor` | src/main/java/com/kaizencreek/metrics/Counter.java:14-17 | A new counter holds 0 and carries the given metric name. |
| `Counters.Counter.GetMetricName` | src/main/java/com/kaizencreek/metrics/AbstractMetric.java:10-19 | Returns the name fixed at construction. The name is a `const` field, so no operation can change it. |
| `Counters.Counter.Inc` | src/main/java/com/kaizencreek/metrics/Counter.java:22-24 | `inc()` is the update `inc(1)`. |
| `Counters.Counter.IncBy` | src/main/java/com/kaizencreek/metrics/Counter.java:31-33 | `inc(n)` makes the count `count + n` modulo 2^64. The result lies within 2^64 of the exact sum, and nothing else changes. |
| `Counters.Counter.Dec` | src/main/java/com/kaizencreek/metrics/Counter.java:38-40 | `dec()` is the update `dec(1)`. |
| `Counters.Counter.DecBy` | src/main/java/com/kaizencreek/metrics/Counter.java:47-49 | `dec(n)` adds the wrapped `0 - n`, which leaves the count at the wrapped `count - n`. |
| `Counters.Counter.Count` | src/main/java/com/kaizencreek/metrics/Counter.java:56-58 | Returns the current value and changes nothing. |
| `Counters.Counter.Reset` | src/main/java/com/kaizencreek/metrics/Counter.java:64-66 | Sets the count to 0 whatever it held. |
| `Counters.Counter.ApplyAll` | src/main/java/com/kaizencreek/metrics/Counter.java:31-49 | Calling `inc(n)` / `dec(n)` on the object for each update of a sequence, one after another, leaves the count at the fold `Applied` of those updates from the old count. |
| `Counters.AppliedAppend` | src/main/java/com/kaizencreek/metrics/Counter.java:31-49 | Applying one more update after a sequence is one more step of `inc` or `dec`. |
| `Counters.SubtractIsWrappedDifference` | src/main/java/com/kaizencreek/metrics/Counter.java:47-49 | `dec(n)` is the same update as `inc(0 - n)`, and both give the wrapped difference. |
| `Counters.SubtractMinLong` | src/main/java/com/kaizencreek/metrics/Counter.java:47-49 | `dec(Long.MIN_VALUE)` adds `Long.MIN_VALUE`, because `0 - MIN_VALUE` wraps back to itself. |
| `Counters.AppliedIsWrappedSum` | src/main/java/com/kaizencreek/metrics/Counter.java:31-49 | With no `reset` in between, any sequence of `inc`/`dec` updates leaves the count at the start value plus the algebraic sum of all deltas, wrapped to 64 bits. |
| `Counters.OrderIndependent` | src/main/java/com/kaizencreek/metrics/Counter.java:31-49 | Any two orderings of the same updates give the same final count, so no update is lost or depends on order. |
| `Counters.RepeatedIncrements` | src/main/java/com/kaizencreek/metrics/Counter.java:22-33 | `k` increments of a fresh counter give `k`, for any `k` below 2^63. |
| `Timers.SimpleTimer.constructor` | src/main/java/com/kaizencreek/metrics/SimpleTimer.java:14-30 | A new timer has both timestamps 0 and is unstarted. |
| `Timers.SimpleTimer.Start` | src/main/java/com/kaizencreek/metrics/SimpleTimer.java:37-41 | Resets, then sets the start to `now` and the end to 0, from any prior state. A nonzero reading leaves the timer running; a reading of 0 leaves it unstarted. |
| `Timers.SimpleTimer.End` | src/main/java/com/kaizencreek/metrics/SimpleTimer.java:48-51 | Sets only the end time. A started timer becomes stopped, and an unstarted one stays unstarted. |
| `Timers.SimpleTimer.Reset` | src/main/java/com/kaizencreek/metrics/SimpleTimer.java:58-61 | Both timestamps become 0 from any state, and the timer is unstarted. |
| `Timers.SimpleTimer.GetStartTime` | src/main/java/com/kaizencreek/metrics/SimpleTimer.java:68-70 | Returns the start timestamp. |
| `Timers.SimpleTimer.GetEndTime` | src/main/java/com/kaizencreek/metrics/SimpleTimer.java:77-79 | Returns the end timestamp. |
| `Timers.ElapsedTimeCases` | src/main/java/com/kaizencreek/metrics/SimpleTimer.java:90-98 | Elapsed time has three cases. Unstarted gives 0, whatever the end time. Running gives `now - start`. Stopped gives `end - start`. With ordered, non-negative timestamps nothing wraps. |
| `Timers.StoppedElapsedIsFixed` | src/main/java/com/kaizencreek/metrics/SimpleTimer.java:94-97 | Once stopped, the elapsed time and duration no longer depend on the clock, so repeated reads agree. |
| `Timers.RunningElapsedMonotone` | src/main/java/com/kaizencreek/metrics/SimpleTimer.java:94-96 | While running, the elapsed time is non-negative and does not decrease as the clock advances. |
| `Timers.SimpleTimer.GetDuration` | src/main/java/com/kaizencreek/metrics/SimpleTimer.java:140-142 | The duration is the elapsed time in milliseconds. |
| `Timers.EstimateMillis` | src/main/java/com/kaizencreek/metrics/SimpleTimer.java:111-120 | The ETA is 0 when nothing has been processed, whatever the total. It is also 0 when no time has elapsed. |
| `Timers.ETAIsLinearProjection` | src/main/java/com/kaizencreek/metrics/SimpleTimer.java:116-118 | With items processed and time elapsed, the remaining items divided by the throughput equal `elapsed * (total - processed) / processed`, cast to `long`. The subtraction is Java `int` arithmetic. |
| `Timers.ProjectionIsRemainingTimesLatency` | src/main/java/com/kaizencreek/metrics/SimpleTimer.java:116-118 | That projection equals the remaining items times the mean latency so far. |
| `Timers.ETASign` | src/main/java/com/kaizencreek/metrics/SimpleTimer.java:111-118 | The ETA is not clamped. With positive progress beyond the total it is at most 0, and with the total still ahead it is at least 0. |
| `Timers.ETAWithinAMillisecond` | src/main/java/com/kaizencreek/metrics/SimpleTimer.java:116-118 | Below saturation, the ETA is the exact projection truncated toward zero, so it lies within 1 ms of it on the side of zero. |
| `Timers.SimpleTimer.GetETATime` | src/main/java/com/kaizencreek/metrics/SimpleTimer.java:129-133 | The ETA time is the clock reading plus the ETA. It is the clock reading itself when nothing has been processed or no time has elapsed. |
| `Timers.Throughput` | src/main/java/com/kaizencreek/metrics/SimpleTimer.java:152-156 | Throughput is 0 when no time has elapsed. Otherwise throughput times the elapsed milliseconds is `1000 * num`, i.e. items per second. |
| `Timers.MeanLatency` | src/main/java/com/kaizencreek/metrics/SimpleTimer.java:164-167 | Mean latency is 0 for zero items. Otherwise latency times the item count is the elapsed milliseconds. |
| `Timers.ThroughputTimesLatency` | src/main/java/com/kaizencreek/metrics/SimpleTimer.java:152-167 | With items and elapsed time both nonzero, throughput times mean latency is 1000: they are reciprocal, one per second and one in milliseconds. |
| `Timers.UnstartedTimer` | src/test/java/com/kaizencreek/metrics/SimpleTimerTest.java:16-27 | A new timer has start, end, elapsed time, duration, `getMeanLatencyInMillis(0)` and `getThroughput(0)` all 0, at any clock reading. |
| `Timers.StartedTimer` | src/test/java/com/kaizencreek/metrics/SimpleTimerTest.java:29-37 | Started at a positive clock reading, a timer reports that start, which is positive, and is running. |
| `Timers.EndedTimer` | src/test/java/com/kaizencreek/metrics/SimpleTimerTest.java:39-53 | Started at `t0` and ended at `t1`, a timer reports `t1 - t0` as elapsed time and duration, identically at any later readings. |
| `Timers.ResetTimer` | src/main/java/com/kaizencreek/metrics/SimpleTimer.java:58-61 | A started-then-ended timer that is reset reads elapsed 0 and is unstarted. |
| `Timers.ETAAfterSteadyWork` | src/test/java/com/kaizencreek/metrics/SimpleTimerTest.java:90-113 | A timer that is still running, read 1000 ms after it started with 50 of 500 items done, gives an ETA of 9000 ms and an ETA time of that reading plus 9000. Throughput is 50 items/s and mean latency is 20 ms. |

## Left out

- Clock reads (`System.currentTimeMillis`, `new DateTime()`) are external input. They become the `now` argument.
- Timers.SimpleTimer.GetETATime: the source reads the clock twice, once inside `getETA` for the elapsed time and once for the `DateTime`. The model uses one reading for both.
- Timers.SimpleTimer.GetETATime: Joda's `DateTime.plus` is not part of this model. The result is plain integer addition, and Joda's behaviour on `long` overflow is not captured.
- Timers.EstimateMillis, Timers.Throughput, Timers.MeanLatency: IEEE `double` rounding is not modelled, because the quotients are exact reals. Throughput and mean latency may differ from Java's in the last bits.
- Timers.EstimateMillis: Java's ETA can be 1 ms lower or higher than the model's when the exact projection is an integer or very close to one. The `(long)` cast turns a last-bit rounding error into a whole millisecond. For example, with 7 of 42 items processed in 3 ms, Java computes `35 / (7 / 3.0)` as 14.999999999999998 and returns 14; the model returns 15. The cast itself is modelled: it truncates and saturates. The infinite-throughput case (items processed, no time elapsed) is exact in both, giving 0.
- Timers.ETAWithinAMillisecond: the 1 ms bound holds over real numbers only. Java's `double` ETA can fall just outside it, as in the 7-of-42 example above.
- `SimpleTimer.toString` and `durationToString` are left out. They delegate to Joda's `PeriodFormatter`, a library that is not part of this model.
- `Duration` is modelled as a millisecond count, and the ETA time as an integer millisecond instant.
- The fluent `return this` of `start`, `end` and `reset` is left out. The methods return nothing, and callers sequence statements instead.
- The atomicity of `AtomicLong` is left out. Counter operations are modelled sequentially, and `OrderIndependent` covers only sequential orderings of the updates, not concurrent interleavings.
- `Counter.toString` is left out. It uses locale-grouped `String.format`, which is library formatting.
- The reflection constructor `MetricName(Class<?>, String)` is left out. It depends on `Class.getName`, which is a foreign call.
- MetricNames.MetricName: scope, name and the argument of `compareTo` are taken to be non-null. The Java constructor accepts null, and the model drops every path that follows from that: `toString` printing `null`, and the `NullPointerException` thrown by `equals` (on a null field of either name), `hashCode` (on a null scope or name) and `compareTo` (on a null argument or a null field). Similarly, `Counters.Counter` takes its metric name to be non-null.
- Java's `String.hashCode` is not modelled. `HashCode` takes it as a parameter `strHash`.
- MetricNames.CompareStrings compares Dafny `char`s, which are Unicode scalar values. Java compares UTF-16 code units, so the two orders agree only for text inside the Basic Multilingual Plane.
- The reference-identity shortcut `this == o` in `equals` is folded into value equality. Both give `true` for the same object.
- The `Metric` interface is not part of this model. `AbstractMetric` only stores and returns the name, and that is folded into the `Counter` class.
- `SimpleTimerTest` sleeps and asserts within tolerances. Its scenarios are restated with exact clock readings instead.
