# Publishable signal routing, in Dafny

This project models the signal-routing layer of `Publishable`, the interface of
the reactive-streams-publishable library that gives a Reactor publisher a
second, typed error channel. A `Publishable.Subscriber` receives `onNext`,
a typed `onError(E)` (a *fault*), a generic `onError(Throwable)` (an *error*)
and `onComplete`. The layer consists of:

- four static `subscriber(...)` factories, each returning a stateless adapter:
  over four event consumers, over a `SubscribeSupport.Subscriber`, over a plain
  `org.reactivestreams.Subscriber`, and over a Reactor `CoreSubscriber`;
- the context each adapter answers `currentContext()` with, built from
  key/value pairs by `Collectors.toMap`;
- the `subscribe` overloads that check their consumers for null, fill the
  missing ones with `idle()` and hand the adapter to the publisher's own
  `subscribe(CoreSubscriber)`;
- the default `subscribe(org.reactivestreams.Subscriber)` dispatch;
- the empty publisher `publishable()` and the bridge `publishable(SubscribeSupport)`.

Everything here is pure, so the model is made of datatypes, functions and
lemmas:

- `java.dfy` (module `Java`): nullable references, throwables and how a call
  to foreign code ends (`Outcome`: returns, or throws a throwable). It also
  holds the exceptions the layer raises and `Long.MAX_VALUE`.
- `contexts.dfy` (module `Contexts`): the context as a finite map, and the
  collector that builds it from pairs.
- `publishable.dfy` (module `Publishable`):
  - the signals and the calls an adapter makes;
  - the four adapters, each as a function from a signal to a `Reaction`, which
    holds the calls made in order and how the handling ended;
  - the factories and overloads, as functions into `Result`;
  - a synchronous delivery of signals (`Deliver`), used for the empty
    publisher and for multi-signal properties.

Consumers, delegate subscribers and subscriptions are foreign objects. Each is
modelled by how each of its methods ends, so that "the fault consumer raised
`ClassCastException`" or "the delegate's `onError(E)` threw something else"
are inputs to the model, not assumptions.

How a generic failure is routed (`Publishable.java:351-353`, `272-274`): the
type variable `E` is declared `E extends Exception` (lines 266 and 339), so the
unchecked cast `(E) error` erases to a cast to `Exception`. Java still checks
that cast. A throwable that is no `Exception` (an `Error`, say) therefore
takes the `catch` branch before the fault consumer is called. Every other
throwable is passed to the fault consumer (or the delegate's `onError(E)`).
The error consumer gets the original object exactly when either step raised
`ClassCastException`. Any other exception from the fault consumer propagates.

A consequence of the `idle()` defaults, proved as
`IdleFaultConsumerTakesExceptions` and
`IdleFaultConsumerTakesExceptionsWithComplete`: the overloads that take an
item and an error consumer (with or without a complete consumer) but no fault
consumer install an idle fault consumer. That
consumer accepts every `Exception`. Their error consumer is therefore reached
only by throwables that are no `Exception`.

The adapters do not enforce terminal-once, the context is not a later-wins
merge, and the bridge does not check its support eagerly:

- The adapters keep no state, so they do not stop forwarding after a terminal
  signal (`AdaptersSuppressNothing`, `CallbacksForwardAfterCompletion`).
- The context from pairs is not a later-wins merge: a repeated key makes the
  collector raise `IllegalStateException` (`ToMapOkIffDistinct`), and the map
  keeps no order.
- `publishable(SubscribeSupport)` does not reject a null support when it is
  made. Its documentation promises `NullPointerException`, but the support is
  dereferenced only when a subscriber subscribes (`BridgeSubscribe`).

## Model

| member | source | states |
|---|---|---|
| `Contexts.ToMap` | src/main/java/org/moodminds/reactive/Publishable.java:346 | on success every pair's key is bound to that pair's value and the keys are exactly the pairs' keys; the only failure is `IllegalStateException` |
| `Contexts.ToMapOkIffDistinct` | src/main/java/org/moodminds/reactive/Publishable.java:346 | building the context succeeds if and only if no key repeats, so a duplicate is an error and never overrides an earlier value |
| `Contexts.SizeOfDistinct` | src/main/java/org/moodminds/reactive/Publishable.java:346 | with distinct keys the context has exactly one entry per pair |
| `Publishable.CallbackReact` | src/main/java/org/moodminds/reactive/Publishable.java:347-356 | `onSubscribe` makes exactly one call, `request(Long.MAX_VALUE)` on the given subscription, and calls no consumer. Items, faults and completion reach their own consumer once, unchanged. A generic failure is tried on the fault consumer first, once, when it is an `Exception`, and reaches the error consumer, as the same object, if and only if that attempt raised `ClassCastException`. The handling ends as the consumer that decided it ended, so other exceptions propagate |
| `Publishable.SupportReact` | src/main/java/org/moodminds/reactive/Publishable.java:268-277 | the same routing with the delegate's `onError(E)` tried before its `onError(Throwable)`, each at most once and in that order; every other signal reaches the delegate's matching method once and unchanged |
| `Publishable.PlainReact` | src/main/java/org/moodminds/reactive/Publishable.java:295-302 | erase-to-generic: both a typed fault and a generic failure reach the single `onError` as the identical object; every other signal is forwarded once and unchanged |
| `Publishable.CurrentContext` | src/main/java/org/moodminds/reactive/Publishable.java:316-321 | the pass-through adapter answers with its core subscriber's own context; the others with the context built when they were made |
| `Publishable.CoreAdapterIsTransparent` | src/main/java/org/moodminds/reactive/Publishable.java:314-323 | the pass-through adapter forwards each signal to the same method of the wrapped subscriber (a typed fault to its `onError`) and returns that subscriber's context |
| `Publishable.ContextOf` | src/main/java/org/moodminds/reactive/Publishable.java:346 | a null container raises `NullPointerException`, repeated keys raise `IllegalStateException`, otherwise the context binds each pair's key to its value |
| `Publishable.SubscriberOfSupport` | src/main/java/org/moodminds/reactive/Publishable.java:266-278 | a null delegate raises `NullPointerException`; otherwise a null container raises `NullPointerException` and repeated keys `IllegalStateException`; the adapter exists exactly when the delegate is non-null and the context can be built, and it wraps that delegate with that context |
| `Publishable.SubscriberOfPlain` | src/main/java/org/moodminds/reactive/Publishable.java:293-303 | as for the support subscriber, over a plain subscriber: a null subscriber or a null container raises `NullPointerException`, repeated keys `IllegalStateException` |
| `Publishable.SubscriberOfCore` | src/main/java/org/moodminds/reactive/Publishable.java:314-323 | rejects only a null subscriber; otherwise wraps it and keeps its context |
| `Publishable.SubscriberOfCallbacks` | src/main/java/org/moodminds/reactive/Publishable.java:339-357 | any null consumer raises `NullPointerException`; the subscriber exists exactly when all four consumers are non-null and the context can be built, with each consumer in its own slot |
| `Publishable.SubscribeReactive` | src/main/java/org/moodminds/reactive/Publishable.java:35-39 | a `CoreSubscriber` is handed on unchanged; any other subscriber is wrapped with an empty context; null is rejected with `NullPointerException` |
| `Publishable.SubscribePlain` | src/main/java/org/moodminds/reactive/Publishable.java:49-75 | the plain subscriber is rejected if null; otherwise a null `Association` raises `NullPointerException` and repeated keys `IllegalStateException`, and the subscriber is wrapped with the context built from the pairs |
| `Publishable.SubscribeSupport` | src/main/java/org/moodminds/reactive/Publishable.java:61-87 | the support subscriber is rejected if null; otherwise a null `Association` raises `NullPointerException` and repeated keys `IllegalStateException`, and the subscriber is wrapped with the context built from the pairs |
| `Publishable.SubscribeAll` | src/main/java/org/moodminds/reactive/Publishable.java:213-241 | a null consumer or a null `Association` raises `NullPointerException` before anything is subscribed; repeated keys raise `IllegalStateException`; otherwise the four consumers are subscribed in their own slots with the context built from the pairs |
| `Publishable.SubscribeItem` | src/main/java/org/moodminds/reactive/Publishable.java:96-109 | item only: idle fault, error and complete consumers; a null `Association` raises `NullPointerException`, repeated keys `IllegalStateException`, and the adapter carries the context built from the pairs |
| `Publishable.SubscribeItemError` | src/main/java/org/moodminds/reactive/Publishable.java:119-137 | item and error: idle fault and complete consumers; a null `Association` raises `NullPointerException`, repeated keys `IllegalStateException`, and the adapter carries the context built from the pairs |
| `Publishable.SubscribeItemFaultError` | src/main/java/org/moodminds/reactive/Publishable.java:148-169 | item, fault and error: an idle complete consumer; a null `Association` raises `NullPointerException`, repeated keys `IllegalStateException`, and the adapter carries the context built from the pairs |
| `Publishable.SubscribeItemErrorComplete` | src/main/java/org/moodminds/reactive/Publishable.java:180-201 | item, error and complete: an idle fault consumer; a null `Association` raises `NullPointerException`, repeated keys `IllegalStateException`, and the adapter carries the context built from the pairs |
| `Publishable.IdleFaultConsumerTakesExceptions` | src/main/java/org/moodminds/reactive/Publishable.java:119-137 | with the item-and-error overloads a generic failure reaches the error consumer if and only if it is no `Exception`; every `Exception` is taken by the idle fault consumer |
| `Publishable.IdleFaultConsumerTakesExceptionsWithComplete` | src/main/java/org/moodminds/reactive/Publishable.java:180-201 | the same for the item, error and complete overloads |
| `Publishable.DeliverAppend` | src/main/java/org/moodminds/reactive/Publishable.java:368-373 | delivering two batches of signals in turn makes the first batch's calls followed by the second's, when the first ends normally |
| `Publishable.DeliverReturns` | src/main/java/org/moodminds/reactive/Publishable.java:368-373 | a delivery in which every signal is handled normally ends normally |
| `Publishable.DeliverSplit` | src/main/java/org/moodminds/reactive/Publishable.java:368-373 | for any handler, the calls for the signal at a position come, in full, after those for the earlier signals and before those for the later ones |
| `Publishable.AdaptersSuppressNothing` | src/main/java/org/moodminds/reactive/Publishable.java:268-356 | for every adapter and every signal sequence whose handling returns, each signal is handled in full wherever it falls, after a completion or failure included: the adapters keep no terminal state |
| `Publishable.CallbacksTakeItemsInOrder` | src/main/java/org/moodminds/reactive/Publishable.java:349 | items reach the item consumer one by one, in order and unchanged |
| `Publishable.CallbacksConsumeAll` | src/main/java/org/moodminds/reactive/Publishable.java:347-356 | over items then completion, the single unbounded request comes first, then every item, then the complete consumer; the fault and error consumers are never called |
| `Publishable.CallbacksForwardAfterCompletion` | src/main/java/org/moodminds/reactive/Publishable.java:349-354 | a concrete case for the callback adapter: an item arriving after completion, and a second completion, are still forwarded |
| `Publishable.NoopSubscription` | src/main/java/org/moodminds/reactive/Publishable.java:369-372 | the empty publisher's subscription returns from `request` whatever the demand, and from `cancel` |
| `Publishable.EmptyEmission` | src/main/java/org/moodminds/reactive/Publishable.java:367-374 | the empty publisher signals `onSubscribe` with that subscription and then `onComplete`, and never an item or a failure |
| `Publishable.EmptyCompletesRegardlessOfDemand` | src/main/java/org/moodminds/reactive/Publishable.java:367-374 | any adapter whose `onSubscribe` returns is completed, requested or not; an exception from `onSubscribe` propagates and nothing more is delivered |
| `Publishable.EmptyToCallbacks` | src/main/java/org/moodminds/reactive/Publishable.java:367-374 | a callback subscriber on the empty publisher makes one unbounded request and then calls its complete consumer |
| `Publishable.BridgeSubscribe` | src/main/java/org/moodminds/reactive/Publishable.java:385-387 | the support is subscribed with the pass-through adapter of the subscriber and with that subscriber's own context, unchanged; a null support or subscriber fails only at subscription, with `NullPointerException` |

## Left out

- `FluxPublishable` and `MonoPublishable`: each method delegates in one line to Reactor's `Flux` or `Mono`; they hold no routing logic.
- `WrapContext`: a read-only view that forwards every query to a Reactor `Context`. The bridge hands the subscriber's own context map on unchanged, and the view's delegation is not modelled further.
- Reactor's `Context.of(Map)` and its null checks: keys and values are non-null objects here, so a null key or value in a pair is not modelled. Keys are compared by model equality, which stands for `equals`.
- `ArraySequence.sequence` on a null key-value array: its code is not visible, so the key-value overloads take a non-null pair sequence; only the `Association` overloads can pass a null container.
- `idle()`: its code is not visible; it is taken to return normally and do nothing.
- `SubscribeSupport.subscribe`, the publisher's own `subscribe(CoreSubscriber)`, and what any consumer or delegate does inside: foreign code, modelled only by how each call ends.
- Demand accounting, saturation, cancellation and serial delivery across threads: they belong to Reactor, and this layer keeps no state for them.
- The `long` parameter of `request` is an unbounded integer here; only `Long.MAX_VALUE` is ever passed.
- Consumers, delegates and `currentContext()` are functions of their argument here: a stateful consumer that ends differently on a repeated value is not expressible. The bridge's call to `subscriber.currentContext()` is taken to return (an exception from it is not modelled), and a null `KeyValue` element in a key-value array, which fails with `NullPointerException` at `getKey`, is not modelled.
- Type checks other than the erased cast to `Exception`: any `ClassCastException` from a narrower fault type is raised inside the consumer or delegate and enters the model as that call's outcome.
