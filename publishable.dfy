/** The signal-routing layer of `Publishable`: the four `subscriber(...)`
    factories and the subscribers they return, the `subscribe` overloads that
    build them, the default dispatch of a plain subscriber, the empty
    publisher and the bridge from a `SubscribeSupport`.

    Every adapter is stateless: handling a signal is a function from the
    signal to the calls the adapter makes and to how the handling ends. The
    objects it calls into (consumers, delegate subscribers, subscriptions)
    are foreign code, modelled by how each call ends (`Outcome`). */
module Publishable {
  import opened Java
  import opened Contexts

  /** A subscription handed to `onSubscribe`: its identity and how its
      `request(n)` and `cancel()` calls end. */
  datatype Subscription = Subscription(id: nat, request: int -> Outcome, cancel: Outcome)

  /** The signals a publisher delivers to a `Publishable.Subscriber`.
      `OnFault` is the typed `onError(E)`, `OnError` the generic
      `onError(Throwable)`. */
  datatype Signal<V> =
    | OnSubscribe(subscription: Subscription)
    | OnNext(item: V)
    | OnFault(fault: Throwable)
    | OnError(error: Throwable)
    | OnComplete

  /** An event consumer: `idle()`, which does nothing and returns, or one
      the caller supplied. */
  datatype Consumer<-A> = Idle | Given(exec: A -> Outcome)

  /** Run the consumer on an argument. */
  function Exec<A>(c: Consumer<A>, a: A): Outcome {
    match c
    case Idle => Returned
    case Given(exec) => exec(a)
  }

  /** A call an adapter makes: `request(n)` on a subscription, one of the four
      consumers, or a method of the subscriber it delegates to. */
  datatype Call<V> =
    | Request(subscription: Subscription, n: int)
    | ItemExec(item: V)
    | FaultExec(fault: Throwable)
    | ErrorExec(error: Throwable)
    | CompleteExec
    | DelegateOnSubscribe(subscription: Subscription)
    | DelegateOnNext(item: V)
    | DelegateOnFault(fault: Throwable)
    | DelegateOnError(error: Throwable)
    | DelegateOnComplete

  /** The calls made while handling signals, in order, and how the handling
      ends: normally, or with an exception that propagates to the publisher. */
  datatype Reaction<V> = Reaction(calls: seq<Call<V>>, outcome: Outcome)

  /** An `org.reactivestreams.Subscriber`, by how each of its methods ends. */
  datatype PlainSubscriber<-V> = PlainSubscriber(
    onSubscribe: Subscription -> Outcome,
    onNext: V -> Outcome,
    onError: Throwable -> Outcome,
    onComplete: Outcome)

  /** A `SubscribeSupport.Subscriber`: a plain subscriber with a typed `onError(E)`. */
  datatype SupportSubscriber<-V> = SupportSubscriber(base: PlainSubscriber<V>, onFault: Throwable -> Outcome)

  /** A Reactor `CoreSubscriber`: a plain subscriber with its own context. */
  datatype CoreSubscriber<-V> = CoreSubscriber(base: PlainSubscriber<V>, context: Context)

  /** The `Publishable.Subscriber` objects the four `subscriber(...)` factories
      return, each with what it captured. */
  datatype Adapter<-V> =
    | OverSupport(support: SupportSubscriber<V>, context: Context)
    | OverPlain(plain: PlainSubscriber<V>, context: Context)
    | OverCore(core: CoreSubscriber<V>)
    | OverCallbacks(item: Consumer<V>, fault: Consumer<Throwable>, error: Consumer<Throwable>,
                    complete: Consumer<()>, context: Context)

  /** The `try` block of a generic `onError(Throwable)`. The type variable `E`
      is bounded by `Exception`, so the unchecked cast `(E) error` still checks
      `Exception`: a throwable that is no `Exception` is rejected by the cast
      before anything is called; any other is passed to the fault handler,
      which may itself raise `ClassCastException` on a type it does not take. */
  datatype Attempt = CastRejected | Ran(outcome: Outcome) {

    /** The `catch (ClassCastException e)` clause is taken. */
    predicate FallsBack() { CastRejected? || outcome.ThrewClassCast() }
  }

  function TryAsFault(t: Throwable, onFault: Throwable -> Outcome): Attempt {
    if t.IsException() then Ran(onFault(t)) else CastRejected
  }

  /** The subscriber built from four consumers. `onSubscribe` asks for
      unbounded demand and calls no consumer; items, typed faults and
      completion go unchanged to their own consumer; a generic failure is tried
      on the fault consumer first and reaches the error consumer, as the same
      object, exactly when that attempt raised `ClassCastException`. Any other
      exception propagates. */
  function CallbackReact<V>(item: Consumer<V>, fault: Consumer<Throwable>, error: Consumer<Throwable>,
                            complete: Consumer<()>, s: Signal<V>): (r: Reaction<V>)
    ensures s.OnSubscribe? ==>
              r.calls == [Request(s.subscription, LONG_MAX)] && r.outcome == s.subscription.request(LONG_MAX)
    ensures s.OnNext? ==> r.calls == [ItemExec(s.item)] && r.outcome == Exec(item, s.item)
    ensures s.OnFault? ==> r.calls == [FaultExec(s.fault)] && r.outcome == Exec(fault, s.fault)
    ensures s.OnComplete? ==> r.calls == [CompleteExec] && r.outcome == Exec(complete, ())
    ensures s.OnError? ==>
              (ErrorExec(s.error) in r.calls <==> !s.error.IsException() || Exec(fault, s.error).ThrewClassCast())
    ensures s.OnError? ==> (FaultExec(s.error) in r.calls <==> s.error.IsException())
    ensures s.OnError? ==> forall c :: c in r.calls ==> c == FaultExec(s.error) || c == ErrorExec(s.error)
    ensures s.OnError? ==> 1 <= |r.calls| <= 2
    ensures s.OnError? && |r.calls| == 2 ==> r.calls == [FaultExec(s.error), ErrorExec(s.error)]
    ensures s.OnError? ==>
              r.outcome == if ErrorExec(s.error) in r.calls then Exec(error, s.error) else Exec(fault, s.error)
  {
    match s
    case OnSubscribe(subscription) => Reaction([Request(subscription, LONG_MAX)], subscription.request(LONG_MAX))
    case OnNext(v) => Reaction([ItemExec(v)], Exec(item, v))
    case OnFault(x) => Reaction([FaultExec(x)], Exec(fault, x))
    case OnError(t) =>
      var attempt := TryAsFault(t, x => Exec(fault, x));
      var tried := if attempt.Ran? then [FaultExec(t)] else [];
      if attempt.FallsBack() then Reaction(tried + [ErrorExec(t)], Exec(error, t))
      else Reaction(tried, attempt.outcome)
    case OnComplete => Reaction([CompleteExec], Exec(complete, ()))
  }

  /** The subscriber over a `SubscribeSupport.Subscriber`: every signal goes to
      the delegate's matching method once and unchanged, and a generic failure
      follows the same rule as in `CallbackReact`, with the delegate's typed
      `onError(E)` tried before its `onError(Throwable)`. */
  function SupportReact<V>(d: SupportSubscriber<V>, s: Signal<V>): (r: Reaction<V>)
    ensures s.OnSubscribe? ==>
              r.calls == [DelegateOnSubscribe(s.subscription)] && r.outcome == d.base.onSubscribe(s.subscription)
    ensures s.OnNext? ==> r.calls == [DelegateOnNext(s.item)] && r.outcome == d.base.onNext(s.item)
    ensures s.OnFault? ==> r.calls == [DelegateOnFault(s.fault)] && r.outcome == d.onFault(s.fault)
    ensures s.OnComplete? ==> r.calls == [DelegateOnComplete] && r.outcome == d.base.onComplete
    ensures s.OnError? ==>
              (DelegateOnError(s.error) in r.calls <==> !s.error.IsException() || d.onFault(s.error).ThrewClassCast())
    ensures s.OnError? ==> (DelegateOnFault(s.error) in r.calls <==> s.error.IsException())
    ensures s.OnError? ==>
              forall c :: c in r.calls ==> c == DelegateOnFault(s.error) || c == DelegateOnError(s.error)
    ensures s.OnError? ==> 1 <= |r.calls| <= 2
    ensures s.OnError? && |r.calls| == 2 ==> r.calls == [DelegateOnFault(s.error), DelegateOnError(s.error)]
    ensures s.OnError? ==>
              r.outcome == if DelegateOnError(s.error) in r.calls then d.base.onError(s.error) else d.onFault(s.error)
  {
    match s
    case OnSubscribe(subscription) => Reaction([DelegateOnSubscribe(subscription)], d.base.onSubscribe(subscription))
    case OnNext(v) => Reaction([DelegateOnNext(v)], d.base.onNext(v))
    case OnFault(x) => Reaction([DelegateOnFault(x)], d.onFault(x))
    case OnError(t) =>
      var attempt := TryAsFault(t, d.onFault);
      var tried := if attempt.Ran? then [DelegateOnFault(t)] else [];
      if attempt.FallsBack() then Reaction(tried + [DelegateOnError(t)], d.base.onError(t))
      else Reaction(tried, attempt.outcome)
    case OnComplete => Reaction([DelegateOnComplete], d.base.onComplete)
  }

  /** The subscriber over a plain (or core) subscriber, which has a single
      error channel: typed faults and generic failures both reach its
      `onError` as the identical object, and every other signal is forwarded
      once and unchanged. */
  function PlainReact<V>(p: PlainSubscriber<V>, s: Signal<V>): (r: Reaction<V>)
    ensures s.OnSubscribe? ==>
              r.calls == [DelegateOnSubscribe(s.subscription)] && r.outcome == p.onSubscribe(s.subscription)
    ensures s.OnNext? ==> r.calls == [DelegateOnNext(s.item)] && r.outcome == p.onNext(s.item)
    ensures s.OnFault? ==> r.calls == [DelegateOnError(s.fault)] && r.outcome == p.onError(s.fault)
    ensures s.OnError? ==> r.calls == [DelegateOnError(s.error)] && r.outcome == p.onError(s.error)
    ensures s.OnComplete? ==> r.calls == [DelegateOnComplete] && r.outcome == p.onComplete
  {
    match s
    case OnSubscribe(subscription) => Reaction([DelegateOnSubscribe(subscription)], p.onSubscribe(subscription))
    case OnNext(v) => Reaction([DelegateOnNext(v)], p.onNext(v))
    case OnFault(x) => Reaction([DelegateOnError(x)], p.onError(x))
    case OnError(t) => Reaction([DelegateOnError(t)], p.onError(t))
    case OnComplete => Reaction([DelegateOnComplete], p.onComplete)
  }

  /** How an adapter handles one signal. */
  function React<V>(a: Adapter<V>, s: Signal<V>): Reaction<V> {
    match a
    case OverSupport(d, _) => SupportReact(d, s)
    case OverPlain(p, _) => PlainReact(p, s)
    case OverCore(c) => PlainReact(c.base, s)
    case OverCallbacks(item, fault, error, complete, _) => CallbackReact(item, fault, error, complete, s)
  }

  /** `currentContext()`: the context built when the adapter was made, or,
      over a `CoreSubscriber`, that subscriber's own context. */
  function CurrentContext<V>(a: Adapter<V>): (r: Context)
    ensures a.OverCore? ==> r == a.core.context
    ensures !a.OverCore? ==> r == a.context
  {
    if a.OverCore? then a.core.context else a.context
  }

  /** The pass-through adapter behaves as the core subscriber it wraps: every
      signal reaches the same method of it, and an `onError(E)` its
      `onError(Throwable)`. */
  lemma CoreAdapterIsTransparent<V>(c: CoreSubscriber<V>, s: Signal<V>)
    ensures React(OverCore(c), s) == PlainReact(c.base, s)
    ensures React(OverCore(c), s).calls == [match s
      case OnSubscribe(subscription) => DelegateOnSubscribe(subscription)
      case OnNext(v) => DelegateOnNext(v)
      case OnFault(x) => DelegateOnError(x)
      case OnError(t) => DelegateOnError(t)
      case OnComplete => DelegateOnComplete]
    ensures CurrentContext(OverCore(c)) == c.context
  {
  }

  // ---------------------------------------------------------------------------
  // The factories

  /** `ctx.stream().collect(toMap(...))`: a null container is dereferenced. */
  function ContextOf(ctx: Nullable<seq<Pair>>): (r: Result<Context>)
    ensures r.Ok? <==> ctx.NonNull? && DistinctKeys(ctx.value)
    ensures ctx.Null? ==> r == Err(NullPointer)
    ensures ctx.NonNull? && !DistinctKeys(ctx.value) ==> r == Err(IllegalState)
    ensures r.Ok? ==> r.value.Keys == KeysOf(ctx.value)
    ensures r.Ok? ==> forall i :: 0 <= i < |ctx.value| ==> r.value[ctx.value[i].0] == ctx.value[i].1
  {
    match ctx
    case Null => Err(NullPointer)
    case NonNull(pairs) => ToMapOkIffDistinct(pairs); ToMap(pairs)
  }

  /** `subscriber(SubscribeSupport.Subscriber, Container)`: rejects a null
      subscriber, then builds the context. */
  function SubscriberOfSupport<V>(subscriber: Nullable<SupportSubscriber<V>>, ctx: Nullable<seq<Pair>>)
    : (r: Result<Adapter<V>>)
    ensures subscriber.Null? ==> r == Err(NullPointer)
    ensures subscriber.NonNull? && ctx.Null? ==> r == Err(NullPointer)
    ensures subscriber.NonNull? && ctx.NonNull? && !DistinctKeys(ctx.value) ==> r == Err(IllegalState)
    ensures r.Ok? <==> subscriber.NonNull? && ctx.NonNull? && DistinctKeys(ctx.value)
    ensures r.Ok? ==> r.value.OverSupport? && r.value.support == subscriber.value
    ensures r.Ok? ==> CurrentContext(r.value) == ContextOf(ctx).value
  {
    if subscriber.Null? then Err(NullPointer)
    else
      match ContextOf(ctx)
      case Err(f) => Err(f)
      case Ok(context) => Ok(OverSupport(subscriber.value, context))
  }

  /** `subscriber(org.reactivestreams.Subscriber, Container)`: rejects a null
      subscriber, then builds the context. */
  function SubscriberOfPlain<V>(subscriber: Nullable<PlainSubscriber<V>>, ctx: Nullable<seq<Pair>>)
    : (r: Result<Adapter<V>>)
    ensures subscriber.Null? ==> r == Err(NullPointer)
    ensures subscriber.NonNull? && ctx.Null? ==> r == Err(NullPointer)
    ensures subscriber.NonNull? && ctx.NonNull? && !DistinctKeys(ctx.value) ==> r == Err(IllegalState)
    ensures r.Ok? <==> subscriber.NonNull? && ctx.NonNull? && DistinctKeys(ctx.value)
    ensures r.Ok? ==> r.value.OverPlain? && r.value.plain == subscriber.value
    ensures r.Ok? ==> CurrentContext(r.value) == ContextOf(ctx).value
  {
    if subscriber.Null? then Err(NullPointer)
    else
      match ContextOf(ctx)
      case Err(f) => Err(f)
      case Ok(context) => Ok(OverPlain(subscriber.value, context))
  }

  /** `subscriber(CoreSubscriber)`: rejects null, and otherwise wraps the
      subscriber and keeps its context. */
  function SubscriberOfCore<V>(subscriber: Nullable<CoreSubscriber<V>>): (r: Result<Adapter<V>>)
    ensures r.Ok? <==> subscriber.NonNull?
    ensures r.Err? ==> r.failure == NullPointer
    ensures r.Ok? ==> r.value == OverCore(subscriber.value) && CurrentContext(r.value) == subscriber.value.context
  {
    if subscriber.Null? then Err(NullPointer) else Ok(OverCore(subscriber.value))
  }

  /** `subscriber(item, fault, error, complete, Container)`: rejects any null
      consumer, then builds the context, and places each consumer in its own
      slot. */
  function SubscriberOfCallbacks<V>(item: Nullable<Consumer<V>>, fault: Nullable<Consumer<Throwable>>,
                                    error: Nullable<Consumer<Throwable>>, complete: Nullable<Consumer<()>>,
                                    ctx: Nullable<seq<Pair>>): (r: Result<Adapter<V>>)
    ensures item.Null? || fault.Null? || error.Null? || complete.Null? ==> r == Err(NullPointer)
    ensures item.NonNull? && fault.NonNull? && error.NonNull? && complete.NonNull? && ctx.Null? ==>
              r == Err(NullPointer)
    ensures (item.NonNull? && fault.NonNull? && error.NonNull? && complete.NonNull? && ctx.NonNull? &&
             !DistinctKeys(ctx.value)) ==> r == Err(IllegalState)
    ensures r.Ok? <==>
              item.NonNull? && fault.NonNull? && error.NonNull? && complete.NonNull? &&
              ctx.NonNull? && DistinctKeys(ctx.value)
    ensures r.Ok? ==>
              r.value == OverCallbacks(item.value, fault.value, error.value, complete.value, ContextOf(ctx).value)
  {
    if item.Null? || error.Null? || fault.Null? || complete.Null? then Err(NullPointer)
    else
      match ContextOf(ctx)
      case Err(f) => Err(f)
      case Ok(context) => Ok(OverCallbacks(item.value, fault.value, error.value, complete.value, context))
  }

  // ---------------------------------------------------------------------------
  // The subscribe overloads. Each ends in the abstract `subscribe(CoreSubscriber)`
  // of the concrete publisher; the model stops at what is handed to it.

  /** What the overloads hand to `subscribe(CoreSubscriber)`. */
  datatype Dispatched<-V> = PassedThrough(core: CoreSubscriber<V>) | Wrapped(adapter: Adapter<V>)

  /** A Reactive Streams subscriber at run time: a `CoreSubscriber` or not. */
  datatype Incoming<-V> = AsPlain(plain: PlainSubscriber<V>) | AsCore(core: CoreSubscriber<V>)

  /** `subscribe(org.reactivestreams.Subscriber)`: a core subscriber is passed
      through unchanged, any other is wrapped with an empty context. A null
      subscriber is not a `CoreSubscriber` and is rejected by the wrapping. */
  function SubscribeReactive<V>(subscriber: Nullable<Incoming<V>>): (r: Result<Dispatched<V>>)
    ensures r.Err? <==> subscriber.Null?
    ensures r.Err? ==> r.failure == NullPointer
    ensures subscriber.NonNull? && subscriber.value.AsCore? ==> r == Ok(PassedThrough(subscriber.value.core))
    ensures subscriber.NonNull? && subscriber.value.AsPlain? ==>
              r == Ok(Wrapped(OverPlain(subscriber.value.plain, map[])))
  {
    if subscriber.NonNull? && subscriber.value.AsCore? then Ok(PassedThrough(subscriber.value.core))
    else SubscribePlain(if subscriber.Null? then Null else NonNull(subscriber.value.plain), NonNull([]))
  }

  /** `subscribe(org.reactivestreams.Subscriber, KeyValue...)` and
      `subscribe(org.reactivestreams.Subscriber, Association)`. */
  function SubscribePlain<V>(subscriber: Nullable<PlainSubscriber<V>>, ctx: Nullable<seq<Pair>>)
    : (r: Result<Dispatched<V>>)
    ensures subscriber.Null? ==> r == Err(NullPointer)
    ensures subscriber.NonNull? && ctx.Null? ==> r == Err(NullPointer)
    ensures subscriber.NonNull? && ctx.NonNull? && !DistinctKeys(ctx.value) ==> r == Err(IllegalState)
    ensures r.Ok? <==> subscriber.NonNull? && ctx.NonNull? && DistinctKeys(ctx.value)
    ensures r.Ok? ==> r.value == Wrapped(OverPlain(subscriber.value, ContextOf(ctx).value))
  {
    match SubscriberOfPlain(subscriber, ctx)
    case Err(f) => Err(f)
    case Ok(adapter) => Ok(Wrapped(adapter))
  }

  /** `subscribe(SubscribeSupport.Subscriber, KeyValue...)` and
      `subscribe(SubscribeSupport.Subscriber, Association)`. */
  function SubscribeSupport<V>(subscriber: Nullable<SupportSubscriber<V>>, ctx: Nullable<seq<Pair>>)
    : (r: Result<Dispatched<V>>)
    ensures subscriber.Null? ==> r == Err(NullPointer)
    ensures subscriber.NonNull? && ctx.Null? ==> r == Err(NullPointer)
    ensures subscriber.NonNull? && ctx.NonNull? && !DistinctKeys(ctx.value) ==> r == Err(IllegalState)
    ensures r.Ok? <==> subscriber.NonNull? && ctx.NonNull? && DistinctKeys(ctx.value)
    ensures r.Ok? ==> r.value == Wrapped(OverSupport(subscriber.value, ContextOf(ctx).value))
  {
    match SubscriberOfSupport(subscriber, ctx)
    case Err(f) => Err(f)
    case Ok(adapter) => Ok(Wrapped(adapter))
  }

  /** The four-consumer overloads: every consumer is checked for null before
      anything is built or subscribed. A key-value array context is a
      non-null container; an `Association` context may be null. */
  function SubscribeAll<V>(item: Nullable<Consumer<V>>, fault: Nullable<Consumer<Throwable>>,
                           error: Nullable<Consumer<Throwable>>, complete: Nullable<Consumer<()>>,
                           ctx: Nullable<seq<Pair>>): (r: Result<Dispatched<V>>)
    ensures item.Null? || fault.Null? || error.Null? || complete.Null? ==> r == Err(NullPointer)
    ensures ctx.Null? ==> r == Err(NullPointer)
    ensures (item.NonNull? && fault.NonNull? && error.NonNull? && complete.NonNull? && ctx.NonNull? &&
             !DistinctKeys(ctx.value)) ==> r == Err(IllegalState)
    ensures r.Ok? <==>
              item.NonNull? && fault.NonNull? && error.NonNull? && complete.NonNull? &&
              ctx.NonNull? && DistinctKeys(ctx.value)
    ensures r.Ok? ==>
              r.value == Wrapped(OverCallbacks(item.value, fault.value, error.value, complete.value,
                                               ContextOf(ctx).value))
  {
    if item.Null? || error.Null? || fault.Null? || complete.Null? then Err(NullPointer)
    else
      match SubscriberOfCallbacks(item, fault, error, complete, ctx)
      case Err(f) => Err(f)
      case Ok(adapter) => Ok(Wrapped(adapter))
  }

  /** The item-only overloads: idle fault, error and complete consumers. */
  function SubscribeItem<V>(item: Nullable<Consumer<V>>, ctx: Nullable<seq<Pair>>): (r: Result<Dispatched<V>>)
    ensures item.Null? ==> r == Err(NullPointer)
    ensures r.Ok? <==> item.NonNull? && ctx.NonNull? && DistinctKeys(ctx.value)
    ensures r.Ok? ==> r.value.Wrapped? && r.value.adapter.OverCallbacks? && r.value.adapter.item == item.value
    ensures r.Ok? ==> r.value.adapter.fault.Idle? && r.value.adapter.error.Idle? && r.value.adapter.complete.Idle?
    ensures ctx.Null? ==> r == Err(NullPointer)
    ensures item.NonNull? && ctx.NonNull? && !DistinctKeys(ctx.value) ==> r == Err(IllegalState)
    ensures r.Ok? ==> r.value.adapter.context == ContextOf(ctx).value
  {
    SubscribeAll(item, NonNull(Idle), NonNull(Idle), NonNull(Idle), ctx)
  }

  /** The item and error overloads: an idle fault consumer and an idle
      complete consumer. */
  function SubscribeItemError<V>(item: Nullable<Consumer<V>>, error: Nullable<Consumer<Throwable>>,
                                 ctx: Nullable<seq<Pair>>): (r: Result<Dispatched<V>>)
    ensures item.Null? || error.Null? ==> r == Err(NullPointer)
    ensures r.Ok? <==> item.NonNull? && error.NonNull? && ctx.NonNull? && DistinctKeys(ctx.value)
    ensures r.Ok? ==> r.value.Wrapped? && r.value.adapter.OverCallbacks?
    ensures r.Ok? ==> r.value.adapter.item == item.value && r.value.adapter.error == error.value
    ensures r.Ok? ==> r.value.adapter.fault.Idle? && r.value.adapter.complete.Idle?
    ensures ctx.Null? ==> r == Err(NullPointer)
    ensures item.NonNull? && error.NonNull? && ctx.NonNull? && !DistinctKeys(ctx.value) ==> r == Err(IllegalState)
    ensures r.Ok? ==> r.value.adapter.context == ContextOf(ctx).value
  {
    SubscribeAll(item, NonNull(Idle), error, NonNull(Idle), ctx)
  }

  /** The item, fault and error overloads: an idle complete consumer. */
  function SubscribeItemFaultError<V>(item: Nullable<Consumer<V>>, fault: Nullable<Consumer<Throwable>>,
                                      error: Nullable<Consumer<Throwable>>, ctx: Nullable<seq<Pair>>)
    : (r: Result<Dispatched<V>>)
    ensures item.Null? || fault.Null? || error.Null? ==> r == Err(NullPointer)
    ensures r.Ok? <==> item.NonNull? && fault.NonNull? && error.NonNull? && ctx.NonNull? && DistinctKeys(ctx.value)
    ensures r.Ok? ==> r.value.Wrapped? && r.value.adapter.OverCallbacks?
    ensures r.Ok? ==>
              r.value.adapter.item == item.value && r.value.adapter.fault == fault.value &&
              r.value.adapter.error == error.value
    ensures r.Ok? ==> r.value.adapter.complete.Idle?
    ensures ctx.Null? ==> r == Err(NullPointer)
    ensures item.NonNull? && fault.NonNull? && error.NonNull? && ctx.NonNull? && !DistinctKeys(ctx.value) ==>
              r == Err(IllegalState)
    ensures r.Ok? ==> r.value.adapter.context == ContextOf(ctx).value
  {
    SubscribeAll(item, fault, error, NonNull(Idle), ctx)
  }

  /** The item, error and complete overloads: an idle fault consumer. */
  function SubscribeItemErrorComplete<V>(item: Nullable<Consumer<V>>, error: Nullable<Consumer<Throwable>>,
                                         complete: Nullable<Consumer<()>>, ctx: Nullable<seq<Pair>>)
    : (r: Result<Dispatched<V>>)
    ensures item.Null? || error.Null? || complete.Null? ==> r == Err(NullPointer)
    ensures r.Ok? <==> item.NonNull? && error.NonNull? && complete.NonNull? && ctx.NonNull? && DistinctKeys(ctx.value)
    ensures r.Ok? ==> r.value.Wrapped? && r.value.adapter.OverCallbacks?
    ensures r.Ok? ==>
              r.value.adapter.item == item.value && r.value.adapter.error == error.value &&
              r.value.adapter.complete == complete.value
    ensures r.Ok? ==> r.value.adapter.fault.Idle?
    ensures ctx.Null? ==> r == Err(NullPointer)
    ensures item.NonNull? && error.NonNull? && complete.NonNull? && ctx.NonNull? && !DistinctKeys(ctx.value) ==>
              r == Err(IllegalState)
    ensures r.Ok? ==> r.value.adapter.context == ContextOf(ctx).value
  {
    SubscribeAll(item, NonNull(Idle), error, complete, ctx)
  }

  /** With the idle fault consumer of the overloads that take no fault
      consumer, a generic failure reaches the error consumer exactly when it
      is no `Exception`: every `Exception` is handed to the idle consumer,
      which takes it. */
  lemma IdleFaultConsumerTakesExceptions<V>(item: Nullable<Consumer<V>>, error: Nullable<Consumer<Throwable>>,
                                            ctx: Nullable<seq<Pair>>, t: Throwable)
    requires SubscribeItemError(item, error, ctx).Ok?
    ensures var a := SubscribeItemError(item, error, ctx).value.adapter;
            var r := React(a, OnError(t));
            (ErrorExec(t) in r.calls <==> !t.IsException()) &&
            (t.IsException() ==> r == Reaction([FaultExec(t)], Returned))
  {
  }

  /** The same holds for the overloads that take an item, an error and a
      complete consumer, which also install an idle fault consumer. */
  lemma IdleFaultConsumerTakesExceptionsWithComplete<V>(item: Nullable<Consumer<V>>,
                                                        error: Nullable<Consumer<Throwable>>,
                                                        complete: Nullable<Consumer<()>>,
                                                        ctx: Nullable<seq<Pair>>, t: Throwable)
    requires SubscribeItemErrorComplete(item, error, complete, ctx).Ok?
    ensures var a := SubscribeItemErrorComplete(item, error, complete, ctx).value.adapter;
            var r := React(a, OnError(t));
            (ErrorExec(t) in r.calls <==> !t.IsException()) &&
            (t.IsException() ==> r == Reaction([FaultExec(t)], Returned))
  {
  }

  // ---------------------------------------------------------------------------
  // Delivering signals: the empty publisher and the bridge

  /** An adapter as the handler a publisher calls for each signal. */
  function Handler<V>(a: Adapter<V>): Signal<V> -> Reaction<V> {
    s => React(a, s)
  }

  /** A publisher delivering signals one after another to one handler, on
      the calling thread; an exception out of the handler ends the delivery
      and propagates, as in the empty publisher's body. */
  function Deliver<V>(handle: Signal<V> -> Reaction<V>, signals: seq<Signal<V>>): Reaction<V>
    decreases |signals|
  {
    if signals == [] then Reaction([], Returned)
    else
      var first := handle(signals[0]);
      if first.outcome.Threw? then first
      else
        var rest := Deliver(handle, signals[1..]);
        Reaction(first.calls + rest.calls, rest.outcome)
  }

  /** Delivering one batch of signals and then another makes the calls of the
      first followed by those of the second, when the first ends normally. */
  lemma {:induction false} DeliverAppend<V>(handle: Signal<V> -> Reaction<V>, xs: seq<Signal<V>>, ys: seq<Signal<V>>)
    requires Deliver(handle, xs).outcome == Returned
    ensures Deliver(handle, xs + ys)
         == Reaction(Deliver(handle, xs).calls + Deliver(handle, ys).calls, Deliver(handle, ys).outcome)
    decreases |xs|
  {
    if xs == [] {
      assert xs + ys == ys;
    } else {
      var first, tail := handle(xs[0]), xs[1..];
      assert first.outcome == Returned;
      var zs := xs + ys;
      assert zs != [] && zs[0] == xs[0] && zs[1..] == tail + ys;
      DeliverAppend(handle, tail, ys);
      assert first.calls + (Deliver(handle, tail).calls + Deliver(handle, ys).calls)
          == (first.calls + Deliver(handle, tail).calls) + Deliver(handle, ys).calls;
    }
  }

  /** A delivery in which every signal's handling returns ends normally. */
  lemma {:induction false} DeliverReturns<V>(handle: Signal<V> -> Reaction<V>, signals: seq<Signal<V>>)
    requires forall i :: 0 <= i < |signals| ==> handle(signals[i]).outcome == Returned
    ensures Deliver(handle, signals).outcome == Returned
    decreases |signals|
  {
    if signals != [] {
      assert forall i :: 0 <= i < |signals[1..]| ==> signals[1..][i] == signals[i + 1];
      DeliverReturns(handle, signals[1..]);
    }
  }

  /** The prefix of a delivery in which every signal's handling returns
      ends normally too. */
  lemma PrefixReturns<V>(h: Signal<V> -> Reaction<V>, signals: seq<Signal<V>>, i: nat)
    requires i <= |signals|
    requires forall j :: 0 <= j < |signals| ==> h(signals[j]).outcome == Returned
    ensures Deliver(h, signals[..i]).outcome == Returned
  {
    var before := signals[..i];
    assert forall j :: 0 <= j < |before| ==> before[j] == signals[j];
    DeliverReturns(h, before);
  }

  /** Any handler: when the signals before position `i` and the signal at
      `i` are handled normally, the calls for the signal at `i` sit between
      those for the signals before it and those for the signals after it. */
  lemma DeliverSplit<V>(h: Signal<V> -> Reaction<V>, signals: seq<Signal<V>>, i: nat)
    requires i < |signals|
    requires Deliver(h, signals[..i]).outcome == Returned && h(signals[i]).outcome == Returned
    ensures Deliver(h, signals).calls
         == Deliver(h, signals[..i]).calls + h(signals[i]).calls + Deliver(h, signals[i + 1..]).calls
  {
    var before, rest := signals[..i], signals[i..];
    var here, after := h(signals[i]).calls, Deliver(h, signals[i + 1..]).calls;
    assert Deliver(h, rest).calls == here + after by {
      assert rest[0] == signals[i] && rest[1..] == signals[i + 1..];
    }
    assert Deliver(h, signals).calls == Deliver(h, before).calls + Deliver(h, rest).calls by {
      assert signals == before + rest;
      DeliverAppend(h, before, rest);
    }
  }

  /** No adapter suppresses a signal: when every signal's handling returns,
      the calls for the signal at any position, whatever came before it (a
      completion or a failure included), appear in full between the calls
      for the signals before it and those for the signals after it. */
  lemma AdaptersSuppressNothing<V>(a: Adapter<V>, signals: seq<Signal<V>>, i: nat)
    requires i < |signals|
    requires forall j :: 0 <= j < |signals| ==> React(a, signals[j]).outcome == Returned
    ensures Deliver(Handler(a), signals).outcome == Returned
    ensures Deliver(Handler(a), signals).calls
         == Deliver(Handler(a), signals[..i]).calls + React(a, signals[i]).calls
            + Deliver(Handler(a), signals[i + 1..]).calls
  {
    DeliverReturns(Handler(a), signals);
    PrefixReturns(Handler(a), signals, i);
    DeliverSplit(Handler(a), signals, i);
  }

  /** The item signals for a sequence of values. */
  function Items<V>(vs: seq<V>): seq<Signal<V>>
    decreases |vs|
  {
    if vs == [] then [] else [OnNext(vs[0])] + Items(vs[1..])
  }

  /** The item-consumer calls for a sequence of values. */
  function ItemCalls<V>(vs: seq<V>): seq<Call<V>>
    decreases |vs|
  {
    if vs == [] then [] else [ItemExec(vs[0])] + ItemCalls(vs[1..])
  }

  /** Items reach the item consumer one by one, in order and unchanged. */
  lemma {:induction false} CallbacksTakeItemsInOrder<V>(a: Adapter<V>, vs: seq<V>)
    requires a.OverCallbacks?
    requires forall i :: 0 <= i < |vs| ==> Exec(a.item, vs[i]) == Returned
    ensures Deliver(Handler(a), Items(vs)) == Reaction(ItemCalls(vs), Returned)
    decreases |vs|
  {
    if vs != [] {
      assert Handler(a)(OnNext(vs[0])) == Reaction([ItemExec(vs[0])], Returned);
      assert forall i :: 0 <= i < |vs[1..]| ==> vs[1..][i] == vs[i + 1];
      CallbacksTakeItemsInOrder(a, vs[1..]);
    }
  }

  /** A first signal, a batch, and a last signal, delivered in turn when the
      first two end normally. */
  lemma DeliverAround<V>(h: Signal<V> -> Reaction<V>, first: Signal<V>, middle: seq<Signal<V>>, last: Signal<V>)
    requires h(first).outcome == Returned && Deliver(h, middle).outcome == Returned
    ensures Deliver(h, [first] + middle + [last])
         == Reaction(h(first).calls + Deliver(h, middle).calls + h(last).calls, h(last).outcome)
  {
    assert Deliver(h, [first]) == h(first) by {
      assert [first][1..] == [];
    }
    assert Deliver(h, [last]) == h(last) by {
      assert [last][1..] == [];
    }
    DeliverAppend(h, [first], middle);
    DeliverAppend(h, [first] + middle, [last]);
  }

  /** A callback subscriber over a stream of items followed by completion:
      the single unbounded request comes first, then every item in order, then
      the completion; the fault and error consumers are never called. */
  lemma CallbacksConsumeAll<V>(a: Adapter<V>, subscription: Subscription, vs: seq<V>)
    requires a.OverCallbacks?
    requires subscription.request(LONG_MAX) == Returned
    requires forall i :: 0 <= i < |vs| ==> Exec(a.item, vs[i]) == Returned
    ensures Deliver(Handler(a), [OnSubscribe(subscription)] + Items(vs) + [OnComplete])
         == Reaction([Request(subscription, LONG_MAX)] + ItemCalls(vs) + [CompleteExec], Exec(a.complete, ()))
  {
    var h := Handler(a);
    assert h(OnSubscribe(subscription)) == Reaction([Request(subscription, LONG_MAX)], Returned);
    assert h(OnComplete) == Reaction([CompleteExec], Exec(a.complete, ()));
    CallbacksTakeItemsInOrder(a, vs);
    DeliverAround(h, OnSubscribe(subscription), Items(vs), OnComplete);
  }

  /** The adapters keep no state and suppress nothing: a signal that arrives
      after completion is handled like any other. */
  lemma CallbacksForwardAfterCompletion<V>(a: Adapter<V>, v: V)
    requires a.OverCallbacks? && Exec(a.complete, ()) == Returned && Exec(a.item, v) == Returned
    ensures Deliver(Handler(a), [OnComplete, OnNext(v), OnComplete]).calls == [CompleteExec, ItemExec(v), CompleteExec]
  {
    var h, signals := Handler(a), [OnComplete, OnNext(v), OnComplete];
    assert h(OnComplete) == Reaction([CompleteExec], Returned);
    assert h(OnNext(v)) == Reaction([ItemExec(v)], Returned);
    assert signals[1..] == [OnNext(v), OnComplete] && signals[1..][1..] == [OnComplete];
    assert Deliver(h, [OnComplete]).calls == [CompleteExec];
    assert Deliver(h, [OnNext(v), OnComplete]).calls == [ItemExec(v), CompleteExec];
  }

  /** The subscription of the empty publisher: `request` and `cancel` do
      nothing, whatever the demand. */
  function NoopSubscription(id: nat): (s: Subscription)
    ensures s.id == id
    ensures forall n :: s.request(n) == Returned
    ensures s.cancel == Returned
  {
    Subscription(id, n => Returned, Returned)
  }

  /** What `publishable()` delivers to each subscriber: `onSubscribe` with a
      do-nothing subscription, then `onComplete` without waiting for demand;
      never an item or a failure. */
  function EmptyEmission<V>(id: nat): (e: seq<Signal<V>>)
    ensures |e| == 2 && e[0].OnSubscribe? && e[|e| - 1] == OnComplete
    ensures e[0].subscription.id == id && e[0].subscription.cancel == Returned
    ensures forall n :: e[0].subscription.request(n) == Returned
    ensures forall i :: 0 <= i < |e| ==> !e[i].OnNext? && !e[i].OnFault? && !e[i].OnError?
  {
    [OnSubscribe(NoopSubscription(id)), OnComplete]
  }

  /** The empty publisher completes any adapter whose `onSubscribe` returns,
      whether or not it requested anything; if `onSubscribe` throws, the
      exception propagates and nothing more is delivered. */
  lemma EmptyCompletesRegardlessOfDemand<V>(a: Adapter<V>, id: nat)
    ensures var first := React(a, OnSubscribe(NoopSubscription(id)));
            Deliver(Handler(a), EmptyEmission(id))
            == if first.outcome.Threw? then first
               else Reaction(first.calls + React(a, OnComplete).calls, React(a, OnComplete).outcome)
  {
    var h, e := Handler(a), EmptyEmission<V>(id);
    assert e[0] == OnSubscribe(NoopSubscription(id)) && e[1..] == [OnComplete];
    assert h(e[0]) == React(a, OnSubscribe(NoopSubscription(id)));
    assert Deliver(h, e[1..]) == React(a, OnComplete);
  }

  /** A callback subscriber on the empty publisher: one unbounded request on
      the do-nothing subscription, then the complete consumer. */
  lemma EmptyToCallbacks<V>(a: Adapter<V>, id: nat)
    requires a.OverCallbacks?
    ensures Deliver(Handler(a), EmptyEmission(id))
         == Reaction([Request(NoopSubscription(id), LONG_MAX), CompleteExec], Exec(a.complete, ()))
  {
    EmptyCompletesRegardlessOfDemand(a, id);
  }

  /** A foreign `SubscribeSupport` publisher; what its `subscribe` does is
      not part of this model. */
  datatype SupportPublisher = SupportPublisher(id: nat)

  /** The call the bridge makes: `support.subscribe(subscriber, context)`. */
  datatype SupportCall<-V> = SupportSubscribe(target: SupportPublisher, subscriber: Adapter<V>, context: Context)

  /** `publishable(support)` subscribed with a core subscriber: the support
      receives the pass-through adapter and a view of the subscriber's own
      context. The support is dereferenced only here, at subscription, so a
      null support fails now and not when the publisher was made. */
  function BridgeSubscribe<V>(support: Nullable<SupportPublisher>, subscriber: Nullable<CoreSubscriber<V>>)
    : (r: Result<SupportCall<V>>)
    ensures r.Ok? <==> support.NonNull? && subscriber.NonNull?
    ensures r.Err? ==> r.failure == NullPointer
    ensures r.Ok? ==> r.value.target == support.value && r.value.subscriber == OverCore(subscriber.value)
    ensures r.Ok? ==> r.value.context == subscriber.value.context == CurrentContext(r.value.subscriber)
  {
    match SubscriberOfCore(subscriber)
    case Err(f) => Err(f)
    case Ok(adapter) =>
      if support.Null? then Err(NullPointer)
      else Ok(SupportSubscribe(support.value, adapter, subscriber.value.context))
  }
}
