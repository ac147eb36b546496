# http-remoting client core in Dafny

This project models four self-contained pieces of sequential logic from the
http-remoting client libraries and proves properties about them:

- **Sample window** (`SampleWindow`, `sample_window.dfy`): the immutable
  statistics record of the adaptive concurrency limiter. It holds the minimum
  RTT, the RTT sum, the sample count, the largest in-flight count and a sticky
  drop flag. Each sample or drop returns a fresh record. Java `long`/`int`
  arithmetic wraps around explicitly (`JavaInt`, `java_int.dfy`), and the
  average uses Java's truncating division.
- **Trace-state stack** (`Tracing`, `traces.dfy`): one thread's view of the
  tracing entry point. The class `Traces` holds the deque of trace states
  (index 0 is the deque's head, the current span) and the subscriber set. Its
  methods push, pop, reset, copy and force the stack in place.
- **Null-collection coercion** (`CoerceNullCollections`,
  `coerce_null_collections.dfy`): the Retrofit call-adapter factory. It picks
  an empty List, Set or Map default from the declared body type. A successful
  response with a null body gets that default. Every other response, and
  every failure, passes through unchanged.
- **User-Agent value** (`UserAgent`, `user_agent.dfy`): the two factories,
  the version fallback to `"0.0.0"`, `merge`, and an agent's validity check.

`Wrappers` (`wrappers.dfy`) holds the `Option` and `Result` types. They stand
for Java's `Optional` and for thrown exceptions.

## Model

| member | source | states |
|---|---|---|
| `SampleWindow.Empty` | okhttp-clients/src/main/java/com/palantir/remoting3/okhttp/ImmutableSampleWindow.java:30-36 | a fresh window has minRtt = Long.MAX_VALUE, sum 0, no samples, maxInFlight 0 and no drop |
| `SampleWindow.AddSample` | okhttp-clients/src/main/java/com/palantir/remoting3/okhttp/ImmutableSampleWindow.java:46-53 | minRtt becomes the smaller of rtt and the old minimum, maxInFlight the larger of the two counts; sum grows by rtt and the count by one when no overflow occurs; didDrop is unchanged |
| `SampleWindow.AddDroppedSample` | okhttp-clients/src/main/java/com/palantir/remoting3/okhttp/ImmutableSampleWindow.java:55-57 | only maxInFlight (to the maximum) and didDrop (to true) change; minRtt, sum and count stay |
| `SampleWindow.AverageRtt` | okhttp-clients/src/main/java/com/palantir/remoting3/okhttp/ImmutableSampleWindow.java:63-65 | 1 without samples; otherwise sum / count rounded toward zero: the remainder is smaller than the count and is zero or has the sum's sign, and the result is never larger in magnitude than the sum |
| `SampleWindow.DidDropSticky` | okhttp-clients/src/main/java/com/palantir/remoting3/okhttp/ImmutableSampleWindow.java:46-57 | after any sequence of observations didDrop holds iff it held before or some observation was a drop; once true it stays true |
| `SampleWindow.MaxInFlightIsMaximum` | okhttp-clients/src/main/java/com/palantir/remoting3/okhttp/ImmutableSampleWindow.java:46-57 | maxInFlight never decreases and ends as the maximum of its start value and every reported in-flight count |
| `SampleWindow.MinRttIsMinimum` | okhttp-clients/src/main/java/com/palantir/remoting3/okhttp/ImmutableSampleWindow.java:46-57 | minRtt ends as the minimum of its start value and every sampled RTT; drops leave it alone |
| `SampleWindow.SumAndCount` | okhttp-clients/src/main/java/com/palantir/remoting3/okhttp/ImmutableSampleWindow.java:46-57 | without overflow, sum and count grow by exactly the total of the sampled RTTs and the number of samples |
| `SampleWindow.FreshWindowStatistics` | okhttp-clients/src/main/java/com/palantir/remoting3/okhttp/ImmutableSampleWindow.java:30-65 | from a fresh window: count = number of samples, sum = their total, candidate RTT = their minimum, and with at least one sample the average RTT is at least the candidate RTT |
| `JavaInt.WrapLong` | okhttp-clients/src/main/java/com/palantir/remoting3/okhttp/ImmutableSampleWindow.java:49 | the 64-bit result equals the exact value when that fits, and is congruent to it modulo 2^64 |
| `JavaInt.WrapInt` | okhttp-clients/src/main/java/com/palantir/remoting3/okhttp/ImmutableSampleWindow.java:51 | the 32-bit `sampleCount + 1` equals the exact value when that fits, and is congruent to it modulo 2^32 |
| `SampleWindow.JavaDivPositiveOrWrap` | okhttp-clients/src/main/java/com/palantir/remoting3/okhttp/ImmutableSampleWindow.java:64 | `sum / sampleCount` in `long` arithmetic: for a positive count it is Java's truncated quotient and never larger in magnitude than the sum |
| `JavaInt.JavaDiv` | okhttp-clients/src/main/java/com/palantir/remoting3/okhttp/ImmutableSampleWindow.java:64 | Java division: the remainder is smaller than the divisor in magnitude and is zero or has the dividend's sign |
| `JavaInt.JavaDivLowerBound` | okhttp-clients/src/main/java/com/palantir/remoting3/okhttp/ImmutableSampleWindow.java:64 | a truncated quotient by a positive divisor is at least m whenever the dividend is at least divisor times m |
| `Tracing.Traces.constructor` | tracing/src/main/java/com/palantir/remoting1/tracing/Traces.java:42-50 | a thread starts with an empty stack and no subscribers |
| `Tracing.Traces.GetCopyOfState` | tracing/src/main/java/com/palantir/remoting1/tracing/Traces.java:55-57 | returns a value equal to the stack, element by element |
| `Tracing.ForcedAsWritten` | tracing/src/main/java/com/palantir/remoting1/tracing/Traces.java:62-65 | as written, forcing fails on an empty stack and otherwise yields exactly the old stack without its head (`current[1..]`), followed by the forced states |
| `Tracing.Traces.ForceState` | tracing/src/main/java/com/palantir/remoting1/tracing/Traces.java:62-65 | as written: on a non-empty stack the new stack is the old tail followed by the forced states; on an empty stack it fails and changes nothing |
| `Tracing.ForceStateAsWrittenKeepsOldStates` | tracing/src/main/java/com/palantir/remoting1/tracing/Traces.java:62-65 | forcing [c] onto [a, b] yields [b, c] rather than [c]; forcing onto an empty stack fails |
| `Tracing.Traces.ForceStateReplacing` | tracing/src/main/java/com/palantir/remoting1/tracing/Traces.java:59-65 | the intended behaviour: the stack becomes exactly the forced one |
| `Tracing.InheritState` | tracing/src/main/java/com/palantir/remoting1/tracing/Traces.java:52-65 | with the intended forceState, a copy of one thread's state forced into another thread leaves that thread's stack equal to the copy |
| `Tracing.Traces.GetTrace` | tracing/src/main/java/com/palantir/remoting1/tracing/Traces.java:67-70 | absent iff the stack is empty, otherwise the head; nothing changes |
| `Tracing.Traces.SetTrace` | tracing/src/main/java/com/palantir/remoting1/tracing/Traces.java:72-75 | the stack becomes exactly [state], whatever it held |
| `Tracing.Traces.StartSpan` | tracing/src/main/java/com/palantir/remoting1/tracing/Traces.java:80-94 | pushes exactly one new state with the given operation and returns it; under a previous top it has that top's trace id and that top's span id as parent, and otherwise it has the fresh trace id and no parent |
| `Tracing.Traces.CompleteSpan` | tracing/src/main/java/com/palantir/remoting1/tracing/Traces.java:100-122 | on an empty stack: absent, nothing changes, nobody is notified; otherwise pops exactly the head, returns its span (same trace id, span id, parent, operation) and notifies each subscriber exactly once |
| `Tracing.StartAndComplete` | tracing/src/main/java/com/palantir/remoting1/tracing/Traces.java:80-122 | starting then completing a span restores the stack (LIFO) and returns the started state's span |
| `Tracing.Traces.Subscribe` | tracing/src/main/java/com/palantir/remoting1/tracing/Traces.java:142-144 | adds the subscriber to the set; subscribing again changes nothing |
| `Tracing.Traces.Unsubscribe` | tracing/src/main/java/com/palantir/remoting1/tracing/Traces.java:146-149 | removes that subscriber and leaves every other membership as it was |
| `CoerceNullCollections.ParameterUpperBound` | retrofit2-clients/src/main/java/com/palantir/remoting3/retrofit2/CoerceNullCollectionsCallAdapterFactory.java:56 | the type argument at the index exists iff the index is in range; it is the argument itself, or a wildcard's upper bound |
| `CoerceNullCollections.DefaultFor` | retrofit2-clients/src/main/java/com/palantir/remoting3/retrofit2/CoerceNullCollectionsCallAdapterFactory.java:79-86 | empty list iff the class is a List; empty set iff a Set but not a List; empty map iff a Map but neither; none otherwise |
| `CoerceNullCollections.DelegateOrPassThrough` | retrofit2-clients/src/main/java/com/palantir/remoting3/retrofit2/CoerceNullCollectionsCallAdapterFactory.java:59-77 | the delegate's adapter when there is one; without one, a pass-through for a raw `Call` return type and an error for any other |
| `CoerceNullCollections.Get` | retrofit2-clients/src/main/java/com/palantir/remoting3/retrofit2/CoerceNullCollectionsCallAdapterFactory.java:48-87 | fails for a non-parameterized return type, and for one without a type argument; fails without a delegate adapter iff the raw type is not `Call`; otherwise wraps the base adapter with the default chosen for the first type argument, or returns the base adapter when there is no default |
| `CoerceNullCollections.GetDefaultsExactlyCollections` | retrofit2-clients/src/main/java/com/palantir/remoting3/retrofit2/CoerceNullCollectionsCallAdapterFactory.java:56-106 | `get` wraps the base adapter iff the body type is a List, Set or Map; the adapter reports the base adapter's body type |
| `CoerceNullCollections.AdaptResponse` | retrofit2-clients/src/main/java/com/palantir/remoting3/retrofit2/CoerceNullCollectionsCallAdapterFactory.java:137-143 | a successful response with a null body becomes a success with the default body and the same raw response; every other response is unchanged; afterwards every successful response has a body |
| `CoerceNullCollections.AdaptResponseIdempotent` | retrofit2-clients/src/main/java/com/palantir/remoting3/retrofit2/CoerceNullCollectionsCallAdapterFactory.java:137-143 | adapting twice gives the same response as adapting once |
| `CoerceNullCollections.Adapt` | retrofit2-clients/src/main/java/com/palantir/remoting3/retrofit2/CoerceNullCollectionsCallAdapterFactory.java:108-112 | a delegate's adapter receives the call itself; a defaulting adapter hands its delegate (the delegate factory's adapter or the pass-through) the call wrapped in a defaulting call with its default; the pass-through returns the call itself |
| `CoerceNullCollections.Clone` | retrofit2-clients/src/main/java/com/palantir/remoting3/retrofit2/CoerceNullCollectionsCallAdapterFactory.java:179-181 | cloning a defaulting call clones its delegate and keeps the same default |
| `CoerceNullCollections.Deliver` | retrofit2-clients/src/main/java/com/palantir/remoting3/retrofit2/CoerceNullCollectionsCallAdapterFactory.java:128-157 | failures reach the callback unchanged; responses only after AdaptResponse |
| `CoerceNullCollections.CloneDeliversAlike` | retrofit2-clients/src/main/java/com/palantir/remoting3/retrofit2/CoerceNullCollectionsCallAdapterFactory.java:146-181 | a cloned call delivers the same outcome as the original for every delegate outcome |
| `CoerceNullCollections.DeliveredThroughDefaulting` | retrofit2-clients/src/main/java/com/palantir/remoting3/retrofit2/CoerceNullCollectionsCallAdapterFactory.java:128-157 | through any stack of defaulting calls: failures and unsuccessful responses arrive unchanged; successful responses arrive with a body and the same raw response |
| `UserAgent.Check` | http-clients/src/main/java/com/palantir/remoting3/clients/UserAgent.java:77-87 | passes iff the service name is valid, the instance id (only when present) is valid and the version is valid; the service-name error comes first, then the instance-id error, then the version error |
| `UserAgent.BuildAgent` | http-clients/src/main/java/com/palantir/remoting3/clients/UserAgent.java:77-87 | building succeeds iff the check passes, and then yields the agent unchanged |
| `UserAgent.VersionOrDefault` | http-clients/src/main/java/com/palantir/remoting3/clients/UserAgent.java:42 | the given version if valid, else "0.0.0"; valid either way once "0.0.0" is valid |
| `UserAgent.OfInstance` | http-clients/src/main/java/com/palantir/remoting3/clients/UserAgent.java:38-47 | exactly one agent with that service name and instance id, and the version or "0.0.0"; succeeds iff name and instance id are valid (given that "0.0.0" is valid) |
| `UserAgent.Of` | http-clients/src/main/java/com/palantir/remoting3/clients/UserAgent.java:49-57 | exactly one agent with that service name, no instance id, and the version or "0.0.0"; succeeds iff the name is valid (given that "0.0.0" is valid) |
| `UserAgent.Merge` | http-clients/src/main/java/com/palantir/remoting3/clients/UserAgent.java:63-68 | the merged agents are the left agents followed by the right ones; lengths add |
| `UserAgent.MergeAssociative` | http-clients/src/main/java/com/palantir/remoting3/clients/UserAgent.java:63-68 | merge is associative |
| `UserAgent.MergeKeepsAgentsChecked` | http-clients/src/main/java/com/palantir/remoting3/clients/UserAgent.java:63-87 | merging user agents whose agents all pass their check gives one whose agents all pass |
| `UserAgent.VersionCheckUnreachable` | http-clients/src/main/java/com/palantir/remoting3/clients/UserAgent.java:85-86 | given that "0.0.0" is valid, the version check never fails for agents built by the factories; the two-argument factory can fail only on the service name |
| `UserAgent.VersionCheckReachableWithoutDefault` | http-clients/src/main/java/com/palantir/remoting3/clients/UserAgent.java:85-86 | without that fact the version check is reachable: a validator that rejects every version makes `of` fail with the version error |

## Left out

- The adaptive limiter, the backoff policy, URL failover and the per-call retry state machine are not part of this model. RemotingOkHttpClient only wires them together, and their own source is not among the files modelled.
- `ImmutableSampleWindow.toString`: it is floating-point formatting for logs.
- SampleWindow.SumAndCount: this holds only when no running sum overflows a `long` and the count fits an `int`. `AddSample` itself models the wrap-around.
- SampleWindow.AverageRtt: the contract says nothing about a negative sample count. Such a count arises only after the `int` count wraps around. The function itself still divides as Java does, including the wrap-around of Long.MIN_VALUE / -1.
- SampleWindow.FreshWindowStatistics: like SumAndCount, this holds only when there is no overflow.
- The limiter keeps the window in an atomic reference, and the concurrency of those updates is not modelled.
- Traces: start times, durations and `System.nanoTime` are not modelled. A span carries its trace id, span id, parent and operation.
- Traces: the random ids that `TraceState.builder` draws are parameters of `StartSpan`.
- Traces: subscribers' `consume` callbacks are not modelled. `CompleteSpan` returns the list of subscribers it hands the span to.
- Traces: `ThreadLocal` storage and the concurrent subscriber set are not modelled. One object stands for one thread's view, and it also holds the subscriber set.
- Traces: `getCopyOfState` returns a fresh deque object in the source. The model returns a sequence value, so later changes to the copy or to the stack cannot reach the other.
- Traces: the executor wrappers (`wrap`) and the header-name constants are not modelled.
- CoerceNullCollections: Retrofit's `getRawType` and `getParameterUpperBound` are modelled from their documented behaviour on a small type datatype. `isAssignableFrom` is a class's own name plus its set of supertype names.
- CoerceNullCollections: the delegate factory's adapter is an input, and so is the outcome of the delegate call.
- CoerceNullCollections: `execute` applies the same mapping as the `enqueue` callback (`Deliver`), with a thrown `IOException` as the failure.
- CoerceNullCollections: the source's callback is handed the delegate call alongside each outcome. `Outcome` holds only the response or failure, not the call object.
- CoerceNullCollections: `isExecuted`, `cancel`, `isCanceled` and `request` only forward to the delegate call and are not modelled.
- CoerceNullCollections: `responseType` is the helper `ResponseType`. Its property is stated in `GetDefaultsExactlyCollections`.
- UserAgent: the `UserAgents` format validators are not part of this model. They are parameters (`Validators`). The fact that `"0.0.0"` is a valid version is the predicate `DefaultVersionValid`.
- UserAgent: header formatting is not modelled.

## Findings

| source | as written | input that shows it | evidently intended | confidence | as-written member | corrected member |
|---|---|---|---|---|---|---|
| tracing/src/main/java/com/palantir/remoting1/tracing/Traces.java:62-65 | `STATE.get().remove()` removes only the head of the current deque. `addAll` then appends the forced states, so the result is the old tail followed by the forced states. On an empty deque it throws `NoSuchElementException`. | current stack [a, b] and forced [c] give [b, c]; an empty current stack throws | the thread's stack becomes exactly the forced state, as `STATE.remove()` does in `setTrace` | medium, not executed (the callers are not part of this model) | `Tracing.ForceStateAsWrittenKeepsOldStates` | `Tracing.Traces.ForceStateReplacing` |
