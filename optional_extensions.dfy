/** The Optional combinators (OptionalExtensions.cs): construction from a
    possibly-null value, mapping, flattening, defaults, filtering, conversion
    to a Result, and the async forms, each modelled on a completed task. */
module OptionalExtensions {
  import opened Optionals
  import opened Tasks
  import Results

  /** `SomeNotNull`: None exactly when the value is null, otherwise Some of it.
      `isNull` stands for the reference-type null test. */
  function SomeNotNull<T>(value: T, isNull: T -> bool): (r: Optional<T>)
    ensures r.HasValue() <==> !isNull(value)
    ensures r.HasValue() ==> r.value == value
  {
    if isNull(value) then None else Some(value)
  }

  /** `Map`: a present value is transformed, absence stays absent and `f` is
      not called on it. */
  function Map<T, U>(o: Optional<T>, f: T --> U): (r: Optional<U>)
    requires o.HasValue() ==> f.requires(o.value)
    ensures r.HasValue() == o.HasValue()
    ensures r.HasValue() ==> r.value == f(o.value)
  {
    if o.HasValue() then Some(f(o.value)) else None
  }

  /** `FlatMap`: a present value is replaced by what `f` returns (not wrapped
      twice); absence stays absent and `f` is not called. */
  function FlatMap<T, U>(o: Optional<T>, f: T --> Optional<U>): (r: Optional<U>)
    requires o.HasValue() ==> f.requires(o.value)
    ensures o.HasValue() ==> r == f(o.value)
    ensures !o.HasValue() ==> !r.HasValue()
  {
    Match(o, f, () => None)
  }

  /** `ValueOr(TValue)`: the held value, or `orValue` when absent. */
  function ValueOr<T>(o: Optional<T>, orValue: T): (r: T)
    ensures o.HasValue() ==> r == o.value
    ensures !o.HasValue() ==> r == orValue
  {
    Match(o, v => v, () => orValue)
  }

  /** `ValueOr(Func<TValue>)`: the held value, or what the factory produces
      when absent; the factory need not be callable when a value is held. */
  function ValueOrLazy<T>(o: Optional<T>, orValue: () --> T): (r: T)
    requires !o.HasValue() ==> orValue.requires()
    ensures o.HasValue() ==> r == o.value
    ensures !o.HasValue() ==> r == orValue()
  {
    Match(o, v => v, orValue)
  }

  /** `NoneWhen`: a Some whose value satisfies `p` becomes None; every other
      Optional is returned as it is, and `p` is not consulted on None. */
  function NoneWhen<T>(o: Optional<T>, p: T --> bool): (r: Optional<T>)
    requires o.HasValue() ==> p.requires(o.value)
    ensures r == o || r == None
    ensures r.HasValue() <==> o.HasValue() && !p(o.value)
  {
    if Match(o, p, () => true) then None else o
  }

  /** `SomeWhen`: a Some is kept exactly when its value satisfies `p`; every
      other Optional becomes None, and `p` is not consulted on None. */
  function SomeWhen<T>(o: Optional<T>, p: T --> bool): (r: Optional<T>)
    requires o.HasValue() ==> p.requires(o.value)
    ensures r == o || r == None
    ensures r.HasValue() <==> o.HasValue() && p(o.value)
  {
    if Match(o, p, () => false) then o else None
  }

  /** `ToResult`: a present value gives a success, absence a failure. */
  function ToResult<T>(o: Optional<T>): (r: Results.Result)
    ensures r.IsSuccess() <==> o.HasValue()
  {
    Match(o, _ => Results.Success, () => Results.Failure)
  }

  // ---------------------------------------------------------------------
  // Async forms. A task is modelled as already completed; each form is
  // proved to resolve to its synchronous counterpart.

  /** `SomeAsync`: Some of the task's value. */
  function SomeAsync<T>(t: Task<T>): (r: Task<Optional<T>>)
    ensures Await(r).HasValue() && Await(r).value == Await(t)
  {
    Done(Some(Await(t)))
  }

  /** `MatchAsync(Optional, ...)`: the branch task that `Match` selects. */
  function MatchAsync<T, R>(o: Optional<T>, some: T --> Task<R>, none: () --> Task<R>): (r: Task<R>)
    requires o.HasValue() ==> some.requires(o.value)
    requires !o.HasValue() ==> none.requires()
    ensures Await(r) == Match(o, (v: T) requires some.requires(v) => Await(some(v)),
                                 () requires none.requires() => Await(none()))
  {
    Match(o, some, none)
  }

  /** `MatchAsync(Task<Optional>, ...)`: awaits the Optional, then matches. */
  function MatchAsyncOnTask<T, R>(t: Task<Optional<T>>, some: T --> Task<R>, none: () --> Task<R>): (r: Task<R>)
    requires Await(t).HasValue() ==> some.requires(Await(t).value)
    requires !Await(t).HasValue() ==> none.requires()
    ensures Await(r) == Await(MatchAsync(Await(t), some, none))
  {
    Done(Await(Match(Await(t), some, none)))
  }

  /** `MapAsync(Optional, ...)`: resolves to `Map` with the awaited transform. */
  function MapAsync<T, U>(o: Optional<T>, f: T --> Task<U>): (r: Task<Optional<U>>)
    requires o.HasValue() ==> f.requires(o.value)
    ensures Await(r) == Map(o, (v: T) requires f.requires(v) => Await(f(v)))
  {
    if o.HasValue() then Done(Some(Await(f(o.value)))) else Done(None)
  }

  /** `MapAsync(Task<Optional>, ...)`, the chaining form: awaits the incoming
      Optional first, then maps it. */
  function MapAsyncOnTask<T, U>(t: Task<Optional<T>>, f: T --> Task<U>): (r: Task<Optional<U>>)
    requires Await(t).HasValue() ==> f.requires(Await(t).value)
    ensures Await(r) == Map(Await(t), (v: T) requires f.requires(v) => Await(f(v)))
  {
    var o := Await(t);
    Done(Await(MapAsync(o, f)))
  }

  /** `FlatMapAsync(Optional, ...)`: maps asynchronously, then flattens the
      nested Optional with `Match`. */
  function FlatMapAsync<T, U>(o: Optional<T>, f: T --> Task<Optional<U>>): (r: Task<Optional<U>>)
    requires o.HasValue() ==> f.requires(o.value)
    ensures Await(r) == FlatMap(o, (v: T) requires f.requires(v) => Await(f(v)))
  {
    var mapped := Await(MapAsync(o, f));
    Done(Match(mapped, (v: Optional<U>) => v, () => None))
  }

  /** `FlatMapAsync(Task<Optional>, ...)`, the chaining form. */
  function FlatMapAsyncOnTask<T, U>(t: Task<Optional<T>>, f: T --> Task<Optional<U>>): (r: Task<Optional<U>>)
    requires Await(t).HasValue() ==> f.requires(Await(t).value)
    ensures Await(r) == FlatMap(Await(t), (v: T) requires f.requires(v) => Await(f(v)))
  {
    Done(Await(FlatMapAsync(Await(t), f)))
  }

  // ---------------------------------------------------------------------
  // Laws.

  /** `SomeNotNull` is `NoneWhen(isNull)` applied to a Some: the only place
      where a payload is inspected on construction. */
  lemma SomeNotNullIsNoneWhenNull<T>(v: T, isNull: T -> bool)
    ensures SomeNotNull(v, isNull) == NoneWhen(Some(v), isNull)
  {
  }

  /** `Some` itself never inspects its payload: Some of a null value holds a
      value, and that value is the null, while `SomeNotNull` gives None. */
  lemma SomeOfNullHoldsNull<T>(v: T, isNull: T -> bool)
    requires isNull(v)
    ensures Some(v).HasValue() && isNull(Some(v).value)
    ensures !SomeNotNull(v, isNull).HasValue()
  {
  }

  /** Functor identity law. */
  lemma MapIdentity<T>(o: Optional<T>)
    ensures Map(o, v => v) == o
  {
  }

  /** Functor composition law. */
  lemma MapComposition<T, U, V>(o: Optional<T>, f: T -> U, g: U -> V)
    ensures Map(Map(o, f), g) == Map(o, v => g(f(v)))
  {
  }

  /** `Map` on None accepts a transform that cannot be called at all. */
  lemma MapNoneNeverCalls<T, U>(f: T --> U)
    ensures Map(None, f) == None
  {
  }

  /** `Map` is `FlatMap` with a transform that wraps its result in Some. */
  lemma MapIsFlatMapOfSome<T, U>(o: Optional<T>, f: T -> U)
    ensures Map(o, f) == FlatMap(o, v => Some(f(v)))
  {
  }

  /** Flatten laws: left identity, right identity and associativity. */
  lemma FlatMapLaws<T, U, V>(o: Optional<T>, v: T, f: T -> Optional<U>, g: U -> Optional<V>)
    ensures FlatMap(Some(v), f) == f(v)
    ensures FlatMap(o, x => Some(x)) == o
    ensures FlatMap(FlatMap(o, f), g) == FlatMap(o, x => FlatMap(f(x), g))
  {
  }

  /** `FlatMap` on None accepts a transform that cannot be called at all. */
  lemma FlatMapNoneNeverCalls<T, U>(f: T --> Optional<U>)
    ensures FlatMap(None, f) == None
  {
  }

  /** `Match` factors through `Map` and `ValueOr`: dispatching is mapping the
      present value and then supplying the absent case. */
  lemma MatchIsMapThenValueOr<T, R>(o: Optional<T>, some: T -> R, none: () -> R)
    ensures Match(o, some, none) == ValueOr(Map(o, some), none())
  {
  }

  /** The lazy `ValueOr` agrees with the literal one, and on Some it accepts a
      factory that cannot be called at all. */
  lemma ValueOrForms<T>(o: Optional<T>, v: T, d: T, factory: () --> T)
    ensures ValueOrLazy(o, () => d) == ValueOr(o, d)
    ensures ValueOrLazy(Some(v), factory) == v
  {
  }

  /** `NoneWhen(p)` is `SomeWhen` of the negated predicate, and neither
      consults its predicate on None. */
  lemma NoneWhenIsSomeWhenNegated<T>(o: Optional<T>, p: T -> bool, q: T --> bool)
    ensures NoneWhen(o, p) == SomeWhen(o, v => !p(v))
    ensures NoneWhen(None, q) == None && SomeWhen(None, q) == None
  {
  }

  /** `SomeWhen` is a `FlatMap` that keeps or drops the value, and both filters
      are idempotent. */
  lemma FiltersAsFlatMap<T>(o: Optional<T>, p: T -> bool)
    ensures SomeWhen(o, p) == FlatMap(o, v => if p(v) then Some(v) else None)
    ensures SomeWhen(SomeWhen(o, p), p) == SomeWhen(o, p)
    ensures NoneWhen(NoneWhen(o, p), p) == NoneWhen(o, p)
  {
  }

  /** `ToResult` only looks at presence: mapping first does not change it. */
  lemma ToResultIgnoresPayload<T, U>(o: Optional<T>, f: T -> U)
    ensures ToResult(Map(o, f)) == ToResult(o)
    ensures ToResult(o) == if o.HasValue() then Results.Success else Results.Failure
  {
  }

  /** Chained async maps resolve like the synchronous composition:
      `o.MapAsync(f).MapAsync(g)` awaits to `o.Map(g . f)`. */
  lemma MapAsyncChained<T, U, V>(o: Optional<T>, f: T -> Task<U>, g: U -> Task<V>)
    ensures Await(MapAsyncOnTask(MapAsync(o, f), g)) == Map(o, v => Await(g(Await(f(v)))))
  {
  }

  // ---------------------------------------------------------------------
  // Chains of any length.

  /** `o.Map(fs[0]).Map(fs[1])...`: a chain of synchronous maps. */
  function MapChain<T>(o: Optional<T>, fs: seq<T -> T>): Optional<T>
    decreases |fs|
  {
    if |fs| == 0 then o else MapChain(Map(o, fs[0]), fs[1..])
  }

  /** The stages of a chain applied one after another, first stage first. */
  function ApplyAll<T>(fs: seq<T -> T>, x: T): T
    decreases |fs|
  {
    if |fs| == 0 then x else ApplyAll(fs[1..], fs[0](x))
  }

  /** `t.MapAsync(fs[0]).MapAsync(fs[1])...`: a chain of async maps built with
      the chaining overload. */
  function MapAsyncChain<T>(t: Task<Optional<T>>, fs: seq<T -> Task<T>>): Task<Optional<T>>
    decreases |fs|
  {
    if |fs| == 0 then t else MapAsyncChain(MapAsyncOnTask(t, fs[0]), fs[1..])
  }

  /** A chain of maps of any length is one map of the composed stages: the
      composition law extended to chains. */
  lemma {:induction false} MapChainComposes<T>(o: Optional<T>, fs: seq<T -> T>)
    ensures MapChain(o, fs) == Map(o, x => ApplyAll(fs, x))
    decreases |fs|
  {
    if |fs| > 0 {
      MapChainComposes(Map(o, fs[0]), fs[1..]);
    }
  }

  /** A chain of async maps of any length resolves to one synchronous map of
      the stages awaited left to right. */
  lemma {:induction false} MapAsyncChainResolves<T>(t: Task<Optional<T>>, fs: seq<T -> Task<T>>)
    ensures Await(MapAsyncChain(t, fs)) == Map(Await(t), x => ResolveAll(fs, x))
    decreases |fs|
  {
    if |fs| > 0 {
      MapAsyncChainResolves(MapAsyncOnTask(t, fs[0]), fs[1..]);
    }
  }

  /** Cases from OptionalExtensionsTests: MapAsync_Chained_TransformationsAreCalled,
      ValueOr_Some_ReturnsValueFromSome, ValueOr_None_ReturnsOrValue,
      ValueOr_SomeLazy_ReturnsValueFromSome (a factory that cannot be called),
      and the six NoneWhen_* and SomeWhen_* cases. */
  lemma Scenarios()
    ensures Await(MapAsyncOnTask(MapAsync(Some("some"), (s: string) => Done(s + "_1")),
                                 (s: string) => Done(s + "_2"))) == Some("some_1_2")
    ensures ValueOr(Some("test"), "fail") == "test"
    ensures var n: Optional<string> := None; ValueOr(n, "test") == "test"
    ensures ValueOrLazy(Some("test"), () requires false => "unreachable") == "test"
    ensures NoneWhen(Some(100), (p: int) => p > 50) == None
    ensures NoneWhen(Some(100), (p: int) => p < 50) == Some(100)
    ensures var n: Optional<int> := None; NoneWhen(n, (p: int) => p > 50) == None
    ensures SomeWhen(Some(100), (p: int) => p > 50) == Some(100)
    ensures SomeWhen(Some(100), (p: int) => p < 50) == None
    ensures var n: Optional<int> := None; SomeWhen(n, (p: int) => p > 50) == None
  {
    assert "some" + "_1" + "_2" == "some_1_2";
  }
}
