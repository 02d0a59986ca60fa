/** The Result combinators (ResultExtensions.cs): the `Failure` extension,
    mapping and flattening of the failure payload, and the async forms, each
    modelled on a completed task. The value-returning `Match` overloads are in
    module Results. */
module ResultExtensions {
  import opened Results
  import opened Tasks

  /** The `Failure` extension on a value: a failure carrying exactly that value. */
  function ToFailure<F>(value: F): (r: ResultOf<F>)
    ensures r.IsFailure() && r.failureValue == value
  {
    FailureOf(value)
  }

  /** `MapFailure(Result, Func<T>)`: a success stays a success (now typed) and
      `f` is not called; a failure gets the payload `f` produces. */
  function MapFailure<T>(r: Result, f: () --> T): (x: ResultOf<T>)
    requires r.IsFailure() ==> f.requires()
    ensures x.IsSuccess() == r.IsSuccess()
    ensures x.IsFailure() ==> x.failureValue == f()
  {
    Match(r, () => SuccessOf, () requires f.requires() => ToFailure(f()))
  }

  /** `MapFailure(Result<TFailure>, Func<TFailure, T>)`: a success stays a
      success and `f` is not called; a failure's payload is transformed. */
  function MapFailureOf<F, T>(r: ResultOf<F>, f: F --> T): (x: ResultOf<T>)
    requires r.IsFailure() ==> f.requires(r.failureValue)
    ensures x.IsSuccess() == r.IsSuccess()
    ensures x.IsFailure() ==> x.failureValue == f(r.failureValue)
  {
    MatchOf(r, () => SuccessOf, (e: F) requires f.requires(e) => ToFailure(f(e)))
  }

  /** `FlatMapFailure(Result, Func<Result<T>>)`: a success stays a success and
      `g` is not called; a failure is replaced by what `g` returns. */
  function FlatMapFailure<T>(r: Result, g: () --> ResultOf<T>): (x: ResultOf<T>)
    requires r.IsFailure() ==> g.requires()
    ensures r.IsSuccess() ==> x.IsSuccess()
    ensures r.IsFailure() ==> x == g()
  {
    Match(r, () => SuccessOf, g)
  }

  /** `FlatMapFailure(Result<TFailure>, Func<TFailure, Result<T>>)`: a success
      stays a success and `g` is not called; a failure is replaced by what `g`
      returns for its payload. */
  function FlatMapFailureOf<F, T>(r: ResultOf<F>, g: F --> ResultOf<T>): (x: ResultOf<T>)
    requires r.IsFailure() ==> g.requires(r.failureValue)
    ensures r.IsSuccess() ==> x.IsSuccess()
    ensures r.IsFailure() ==> x == g(r.failureValue)
  {
    MatchOf(r, () => SuccessOf, g)
  }

  // ---------------------------------------------------------------------
  // Async forms, each proved to resolve to its synchronous counterpart.

  /** `MatchAsync(Result, Func<Task<T>>, Func<Task<T>>)`. */
  function MatchAsync<T>(r: Result, success: () --> Task<T>, failure: () --> Task<T>): (t: Task<T>)
    requires r.IsSuccess() ==> success.requires()
    requires r.IsFailure() ==> failure.requires()
    ensures Await(t) == Match(r, () requires success.requires() => Await(success()),
                                 () requires failure.requires() => Await(failure()))
  {
    Match(r, success, failure)
  }

  /** `MatchAsync(Result<TFailure>, Func<Task<T>>, Func<TFailure, Task<T>>)`. */
  function MatchAsyncOf<F, T>(r: ResultOf<F>, success: () --> Task<T>, failure: F --> Task<T>): (t: Task<T>)
    requires r.IsSuccess() ==> success.requires()
    requires r.IsFailure() ==> failure.requires(r.failureValue)
    ensures Await(t) == MatchOf(r, () requires success.requires() => Await(success()),
                                   (e: F) requires failure.requires(e) => Await(failure(e)))
  {
    MatchOf(r, success, failure)
  }

  /** `MapFailureAsync(Result, Func<Task<T>>)`. */
  function MapFailureAsync<T>(r: Result, f: () --> Task<T>): (t: Task<ResultOf<T>>)
    requires r.IsFailure() ==> f.requires()
    ensures Await(t) == MapFailure(r, () requires f.requires() => Await(f()))
  {
    Done(Await(MatchAsync(r, () => FromResult(SuccessOf),
                             () requires f.requires() => Done(ToFailure(Await(f()))))))
  }

  /** `MapFailureAsync(Result<TFailure>, Func<TFailure, Task<T>>)`. */
  function MapFailureAsyncOf<F, T>(r: ResultOf<F>, f: F --> Task<T>): (t: Task<ResultOf<T>>)
    requires r.IsFailure() ==> f.requires(r.failureValue)
    ensures Await(t) == MapFailureOf(r, (e: F) requires f.requires(e) => Await(f(e)))
  {
    Done(Await(MatchAsyncOf(r, () => FromResult(SuccessOf),
                               (e: F) requires f.requires(e) => Done(ToFailure(Await(f(e)))))))
  }

  /** `MapFailureAsync(Task<Result>, ...)`, the chaining form. */
  function MapFailureAsyncOnTask<T>(t: Task<Result>, f: () --> Task<T>): (x: Task<ResultOf<T>>)
    requires Await(t).IsFailure() ==> f.requires()
    ensures Await(x) == MapFailure(Await(t), () requires f.requires() => Await(f()))
  {
    Done(Await(MapFailureAsync(Await(t), f)))
  }

  /** `MapFailureAsync(Task<Result<TFailure>>, ...)`, the chaining form. */
  function MapFailureAsyncOfOnTask<F, T>(t: Task<ResultOf<F>>, f: F --> Task<T>): (x: Task<ResultOf<T>>)
    requires Await(t).IsFailure() ==> f.requires(Await(t).failureValue)
    ensures Await(x) == MapFailureOf(Await(t), (e: F) requires f.requires(e) => Await(f(e)))
  {
    Done(Await(MapFailureAsyncOf(Await(t), f)))
  }

  /** `FlatMapFailureAsync(Result, Func<Task<Result<T>>>)`. */
  function FlatMapFailureAsync<T>(r: Result, g: () --> Task<ResultOf<T>>): (t: Task<ResultOf<T>>)
    requires r.IsFailure() ==> g.requires()
    ensures Await(t) == FlatMapFailure(r, () requires g.requires() => Await(g()))
  {
    MatchAsync(r, () => FromResult(SuccessOf), g)
  }

  /** `FlatMapFailureAsync(Result<TFailure>, Func<TFailure, Task<Result<T>>>)`. */
  function FlatMapFailureAsyncOf<F, T>(r: ResultOf<F>, g: F --> Task<ResultOf<T>>): (t: Task<ResultOf<T>>)
    requires r.IsFailure() ==> g.requires(r.failureValue)
    ensures Await(t) == FlatMapFailureOf(r, (e: F) requires g.requires(e) => Await(g(e)))
  {
    MatchAsyncOf(r, () => FromResult(SuccessOf), g)
  }

  /** `FlatMapFailureAsync(Task<Result>, ...)`, the chaining form. */
  function FlatMapFailureAsyncOnTask<T>(t: Task<Result>, g: () --> Task<ResultOf<T>>): (x: Task<ResultOf<T>>)
    requires Await(t).IsFailure() ==> g.requires()
    ensures Await(x) == FlatMapFailure(Await(t), () requires g.requires() => Await(g()))
  {
    Done(Await(FlatMapFailureAsync(Await(t), g)))
  }

  /** `FlatMapFailureAsync(Task<Result<TFailure>>, ...)`, the chaining form. */
  function FlatMapFailureAsyncOfOnTask<F, T>(t: Task<ResultOf<F>>, g: F --> Task<ResultOf<T>>): (x: Task<ResultOf<T>>)
    requires Await(t).IsFailure() ==> g.requires(Await(t).failureValue)
    ensures Await(x) == FlatMapFailureOf(Await(t), (e: F) requires g.requires(e) => Await(g(e)))
  {
    Done(Await(FlatMapFailureAsyncOf(Await(t), g)))
  }

  // ---------------------------------------------------------------------
  // Laws.

  /** Functor laws for the failure payload; a success is never touched, even
      by a transform that cannot be called. */
  lemma MapFailureLaws<F, T, U>(r: ResultOf<F>, f: F -> T, g: T -> U, h: F --> T, k: () --> T)
    ensures MapFailureOf(r, (e: F) => e) == r
    ensures MapFailureOf(MapFailureOf(r, f), g) == MapFailureOf(r, (e: F) => g(f(e)))
    ensures MapFailureOf(SuccessOf, h) == SuccessOf
    ensures MapFailure(Success, k) == SuccessOf
  {
  }

  /** Flatten laws for the failure payload: wrapping in a failure is a map,
      `FailureOf` is a right identity, a failure is a left identity, and
      flattening associates. */
  lemma FlatMapFailureLaws<F, T, U>(r: ResultOf<F>, e: F, f: F -> T, g: F -> ResultOf<T>, h: T -> ResultOf<U>)
    ensures FlatMapFailureOf(r, (x: F) => FailureOf(f(x))) == MapFailureOf(r, f)
    ensures FlatMapFailureOf(r, (x: F) => FailureOf(x)) == r
    ensures FlatMapFailureOf(FailureOf(e), g) == g(e)
    ensures FlatMapFailureOf(FlatMapFailureOf(r, g), h) == FlatMapFailureOf(r, (x: F) => FlatMapFailureOf(g(x), h))
  {
  }

  /** A `Result<TFailure>` used as a plain `Result`: the plain forms behave as
      the payload forms that ignore the payload. */
  lemma PlainFormsOnBaseView<F, T>(r: ResultOf<F>, c: T, g: () -> ResultOf<T>)
    ensures MapFailure(r.AsResult(), () => c) == MapFailureOf(r, (_: F) => c)
    ensures FlatMapFailure(r.AsResult(), g) == FlatMapFailureOf(r, (_: F) => g())
  {
  }

  /** `MapFailureAsync(f).MapFailureAsync(g)` on `Failure(e)` resolves to
      `Failure(g(f(e)))`. */
  lemma MapFailureAsyncChained<F, T, U>(e: F, f: F -> Task<T>, g: T -> Task<U>)
    ensures Await(MapFailureAsyncOfOnTask(MapFailureAsyncOf(FailureOf(e), f), g)) == FailureOf(Await(g(Await(f(e)))))
  {
  }

  // ---------------------------------------------------------------------
  // Chains of any length.

  /** `t.MapFailureAsync(fs[0]).MapFailureAsync(fs[1])...` */
  function MapFailureAsyncChain<F>(t: Task<ResultOf<F>>, fs: seq<F -> Task<F>>): Task<ResultOf<F>>
    decreases |fs|
  {
    if |fs| == 0 then t else MapFailureAsyncChain(MapFailureAsyncOfOnTask(t, fs[0]), fs[1..])
  }

  /** `t.FlatMapFailureAsync(gs[0]).FlatMapFailureAsync(gs[1])...` */
  function FlatMapFailureAsyncChain<F>(t: Task<ResultOf<F>>, gs: seq<F -> Task<ResultOf<F>>>): Task<ResultOf<F>>
    decreases |gs|
  {
    if |gs| == 0 then t else FlatMapFailureAsyncChain(FlatMapFailureAsyncOfOnTask(t, gs[0]), gs[1..])
  }

  /** The same stages applied with the synchronous `FlatMapFailure`, one after
      another, each stage's task awaited before the next. */
  function FlatMapFailureAll<F>(gs: seq<F -> Task<ResultOf<F>>>, r: ResultOf<F>): ResultOf<F>
    decreases |gs|
  {
    if |gs| == 0 then r else FlatMapFailureAll(gs[1..], FlatMapFailureOf(r, (e: F) => Await(gs[0](e))))
  }

  /** A chain of `MapFailureAsync` of any length resolves to one
      `MapFailure` of the stages awaited left to right. */
  lemma {:induction false} MapFailureAsyncChainResolves<F>(t: Task<ResultOf<F>>, fs: seq<F -> Task<F>>)
    ensures Await(t).IsSuccess() ==> Await(MapFailureAsyncChain(t, fs)) == SuccessOf
    ensures Await(t).FailureOf? ==> Await(MapFailureAsyncChain(t, fs)) == FailureOf(ResolveAll(fs, Await(t).failureValue))
    decreases |fs|
  {
    if |fs| > 0 {
      MapFailureAsyncChainResolves(MapFailureAsyncOfOnTask(t, fs[0]), fs[1..]);
    }
  }

  /** A chain of `FlatMapFailureAsync` of any length resolves to the same
      chain of synchronous `FlatMapFailure` calls. */
  lemma {:induction false} FlatMapFailureAsyncChainResolves<F>(t: Task<ResultOf<F>>, gs: seq<F -> Task<ResultOf<F>>>)
    ensures Await(FlatMapFailureAsyncChain(t, gs)) == FlatMapFailureAll(gs, Await(t))
    decreases |gs|
  {
    if |gs| > 0 {
      FlatMapFailureAsyncChainResolves(FlatMapFailureAsyncOfOnTask(t, gs[0]), gs[1..]);
    }
  }

  /** Once a chain has succeeded, no later `FlatMapFailure` stage runs. */
  lemma {:induction false} FlatMapFailureAllKeepsSuccess<F>(gs: seq<F -> Task<ResultOf<F>>>)
    ensures FlatMapFailureAll(gs, SuccessOf) == SuccessOf
    decreases |gs|
  {
    if |gs| > 0 {
      FlatMapFailureAllKeepsSuccess(gs[1..]);
    }
  }

  /** Cases from ResultExtensionsTests (MapFailure_FailureWithValue_MapCalled,
      MapFailureAsync_Chained_CallsTransformations,
      MapFailureAsync_ChainedWithType_CallsTransformations,
      FlatMapFailureAsync_ChainedWithType_CallsTransformations) and ResultTests
      (ToString_FailureWithValue_ReturnsFailureWithValue). */
  lemma Scenarios()
    ensures MapFailureOf(FailureOf("test"), (s: string) => s + "_mapped") == FailureOf("test_mapped")
    ensures Await(MapFailureAsyncOfOnTask(MapFailureAsyncOnTask(FromResult(Failure), () => Done("test")),
                                         (s: string) => Done(s + "_mapped"))) == FailureOf("test_mapped")
    ensures ToStringOf(FailureOf("test"), s => s) == "Failure(test)"
    ensures Await(MapFailureAsyncOfOnTask(MapFailureAsyncOf(FailureOf("test"), (s: string) => Done(s + "_mapped")),
                                         (s: string) => Done(s + "_mapped"))) == FailureOf("test_mapped_mapped")
    ensures Await(FlatMapFailureAsyncOfOnTask(
                    FlatMapFailureAsyncOf(FailureOf("test"), (s: string) => Done(ToFailure(s + "_mapped"))),
                    (s: string) => Done(ToFailure(s + "_mapped")))) == FailureOf("test_mapped_mapped")
  {
    assert "test" + "_mapped" == "test_mapped";
    assert "Failure(" + "test" + ")" == "Failure(test)";
    assert ("test" + "_mapped") + "_mapped" == "test_mapped_mapped";
    MapFailureAsyncChained("test", (s: string) => Done(s + "_mapped"), (s: string) => Done(s + "_mapped"));
  }
}
