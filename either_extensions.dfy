/** The Either combinators (EitherExtensions.cs): per-side mapping and
    flattening, per-side defaults, conversions to Optional and Result,
    unification, and the async forms, each modelled on a completed task. */
module EitherExtensions {
  import opened Eithers
  import opened Tasks
  import Optionals
  import Results
  import OptionalExtensions

  /** `MapLeft`: a Left is transformed, a Right passes through untouched and
      `f` is not called on it. */
  function MapLeft<L, R, T>(e: Either<L, R>, f: L --> T): (r: Either<T, R>)
    requires e.IsLeft() ==> f.requires(e.leftValue)
    ensures r.IsLeft() == e.IsLeft()
    ensures r.IsLeft() ==> r.leftValue == f(e.leftValue)
    ensures r.IsRight() ==> r.rightValue == e.rightValue
  {
    Match(e, (lv: L) requires f.requires(lv) => Left(f(lv)), (rv: R) => Right(rv))
  }

  /** `MapRight`: the mirror image of `MapLeft`. */
  function MapRight<L, R, T>(e: Either<L, R>, f: R --> T): (r: Either<L, T>)
    requires e.IsRight() ==> f.requires(e.rightValue)
    ensures r.IsLeft() == e.IsLeft()
    ensures r.IsLeft() ==> r.leftValue == e.leftValue
    ensures r.IsRight() ==> r.rightValue == f(e.rightValue)
  {
    Match(e, (lv: L) => Left(lv), (rv: R) requires f.requires(rv) => Right(f(rv)))
  }

  /** `FlatMapLeft`: a Left is replaced by what `f` returns, which may be a
      Right; a Right passes through and `f` is not called. */
  function FlatMapLeft<L, R, T>(e: Either<L, R>, f: L --> Either<T, R>): (r: Either<T, R>)
    requires e.IsLeft() ==> f.requires(e.leftValue)
    ensures e.IsLeft() ==> r == f(e.leftValue)
    ensures e.IsRight() ==> r.IsRight() && r.rightValue == e.rightValue
  {
    Match(e, f, (rv: R) => Right(rv))
  }

  /** `FlatMapRight`: the mirror image of `FlatMapLeft`. */
  function FlatMapRight<L, R, T>(e: Either<L, R>, f: R --> Either<L, T>): (r: Either<L, T>)
    requires e.IsRight() ==> f.requires(e.rightValue)
    ensures e.IsRight() ==> r == f(e.rightValue)
    ensures e.IsLeft() ==> r.IsLeft() && r.leftValue == e.leftValue
  {
    Match(e, (lv: L) => Left(lv), f)
  }

  /** `ValueLeftOr(TLeft)`: the left payload, or `orValue` on a Right. */
  function ValueLeftOr<L, R>(e: Either<L, R>, orValue: L): (x: L)
    ensures e.IsLeft() ==> x == e.leftValue
    ensures e.IsRight() ==> x == orValue
  {
    Match(e, (left: L) => left, (_: R) => orValue)
  }

  /** `ValueLeftOr(Func<TLeft>)`: the factory is only needed on a Right. */
  function ValueLeftOrLazy<L, R>(e: Either<L, R>, orValue: () --> L): (x: L)
    requires e.IsRight() ==> orValue.requires()
    ensures e.IsLeft() ==> x == e.leftValue
    ensures e.IsRight() ==> x == orValue()
  {
    Match(e, (left: L) => left, (_: R) requires orValue.requires() => orValue())
  }

  /** `ValueRightOr(TRight)`: the right payload, or `orValue` on a Left. */
  function ValueRightOr<L, R>(e: Either<L, R>, orValue: R): (x: R)
    ensures e.IsRight() ==> x == e.rightValue
    ensures e.IsLeft() ==> x == orValue
  {
    Match(e, (_: L) => orValue, (right: R) => right)
  }

  /** `ValueRightOr(Func<TRight>)`: the factory is only needed on a Left. */
  function ValueRightOrLazy<L, R>(e: Either<L, R>, orValue: () --> R): (x: R)
    requires e.IsLeft() ==> orValue.requires()
    ensures e.IsRight() ==> x == e.rightValue
    ensures e.IsLeft() ==> x == orValue()
  {
    Match(e, (_: L) requires orValue.requires() => orValue(), (right: R) => right)
  }

  /** `ToLeftOptional`: Some of the left payload, or None on a Right. */
  function ToLeftOptional<L, R>(e: Either<L, R>): (o: Optionals.Optional<L>)
    ensures o.HasValue() <==> e.IsLeft()
    ensures o.HasValue() ==> o.value == e.leftValue
  {
    Match(e, (left: L) => Optionals.Some(left), (_: R) => Optionals.None)
  }

  /** `ToRightOptional`: Some of the right payload, or None on a Left. */
  function ToRightOptional<L, R>(e: Either<L, R>): (o: Optionals.Optional<R>)
    ensures o.HasValue() <==> e.IsRight()
    ensures o.HasValue() ==> o.value == e.rightValue
  {
    Match(e, (_: L) => Optionals.None, (right: R) => Optionals.Some(right))
  }

  /** `ToLeftResult`: a Left is a success; a Right is a failure carrying the
      right payload. */
  function ToLeftResult<L, R>(e: Either<L, R>): (r: Results.ResultOf<R>)
    ensures r.IsSuccess() <==> e.IsLeft()
    ensures r.IsFailure() ==> r.failureValue == e.rightValue
  {
    Match(e, (_: L) => Results.SuccessOf, (right: R) => Results.FailureOf(right))
  }

  /** `ToRightResult`: a Right is a success; a Left is a failure carrying the
      left payload. */
  function ToRightResult<L, R>(e: Either<L, R>): (r: Results.ResultOf<L>)
    ensures r.IsSuccess() <==> e.IsRight()
    ensures r.IsFailure() ==> r.failureValue == e.leftValue
  {
    Match(e, (left: L) => Results.FailureOf(left), (_: R) => Results.SuccessOf)
  }

  /** `UnifyToValue`: when both sides have one type, whichever payload is present. */
  function UnifyToValue<V>(e: Either<V, V>): (x: V)
    ensures e.IsLeft() ==> x == e.leftValue
    ensures e.IsRight() ==> x == e.rightValue
  {
    Match(e, (l: V) => l, (r: V) => r)
  }

  // ---------------------------------------------------------------------
  // Async forms, each proved to resolve to its synchronous counterpart.

  /** `MatchAsync(Either, ...)`: the branch task that `Match` selects. */
  function MatchAsync<L, R, T>(e: Either<L, R>, left: L --> Task<T>, right: R --> Task<T>): (t: Task<T>)
    requires e.IsLeft() ==> left.requires(e.leftValue)
    requires e.IsRight() ==> right.requires(e.rightValue)
    ensures Await(t) == Match(e, (l: L) requires left.requires(l) => Await(left(l)),
                                 (r: R) requires right.requires(r) => Await(right(r)))
  {
    Match(e, left, right)
  }

  /** `MatchAsync(Task<Either>, ...)`: awaits the Either, then matches. */
  function MatchAsyncOnTask<L, R, T>(t: Task<Either<L, R>>, left: L --> Task<T>, right: R --> Task<T>): (x: Task<T>)
    requires Await(t).IsLeft() ==> left.requires(Await(t).leftValue)
    requires Await(t).IsRight() ==> right.requires(Await(t).rightValue)
    ensures Await(x) == Await(MatchAsync(Await(t), left, right))
  {
    Done(Await(Match(Await(t), left, right)))
  }

  /** `MapLeftAsync(Either, ...)`: resolves to `MapLeft` with the awaited transform. */
  function MapLeftAsync<L, R, T>(e: Either<L, R>, f: L --> Task<T>): (t: Task<Either<T, R>>)
    requires e.IsLeft() ==> f.requires(e.leftValue)
    ensures Await(t) == MapLeft(e, (l: L) requires f.requires(l) => Await(f(l)))
  {
    Done(Await(MatchAsync(e, (lv: L) requires f.requires(lv) => Done(Left(Await(f(lv)))),
                             (rv: R) => FromResult(Right(rv)))))
  }

  /** `MapRightAsync(Either, ...)`: resolves to `MapRight` with the awaited transform. */
  function MapRightAsync<L, R, T>(e: Either<L, R>, f: R --> Task<T>): (t: Task<Either<L, T>>)
    requires e.IsRight() ==> f.requires(e.rightValue)
    ensures Await(t) == MapRight(e, (r: R) requires f.requires(r) => Await(f(r)))
  {
    Done(Await(MatchAsync(e, (lv: L) => FromResult(Left(lv)),
                             (rv: R) requires f.requires(rv) => Done(Right(Await(f(rv)))))))
  }

  /** `MapLeftAsync(Task<Either>, ...)`, the chaining form: awaits the
      incoming Either first, through the chaining `MatchAsync`. */
  function MapLeftAsyncOnTask<L, R, T>(t: Task<Either<L, R>>, f: L --> Task<T>): (x: Task<Either<T, R>>)
    requires Await(t).IsLeft() ==> f.requires(Await(t).leftValue)
    ensures Await(x) == MapLeft(Await(t), (l: L) requires f.requires(l) => Await(f(l)))
  {
    Done(Await(MatchAsyncOnTask(t, (lv: L) requires f.requires(lv) => Done(Left(Await(f(lv)))),
                                   (rv: R) => FromResult(Right(rv)))))
  }

  /** `MapRightAsync(Task<Either>, ...)`, the chaining form. */
  function MapRightAsyncOnTask<L, R, T>(t: Task<Either<L, R>>, f: R --> Task<T>): (x: Task<Either<L, T>>)
    requires Await(t).IsRight() ==> f.requires(Await(t).rightValue)
    ensures Await(x) == MapRight(Await(t), (r: R) requires f.requires(r) => Await(f(r)))
  {
    Done(Await(MatchAsyncOnTask(t, (lv: L) => FromResult(Left(lv)),
                                   (rv: R) requires f.requires(rv) => Done(Right(Await(f(rv)))))))
  }

  /** `FlatMapLeftAsync(Either, ...)`: resolves to `FlatMapLeft`. */
  function FlatMapLeftAsync<L, R, T>(e: Either<L, R>, f: L --> Task<Either<T, R>>): (t: Task<Either<T, R>>)
    requires e.IsLeft() ==> f.requires(e.leftValue)
    ensures Await(t) == FlatMapLeft(e, (l: L) requires f.requires(l) => Await(f(l)))
  {
    Match(e, f, (rv: R) => FromResult(Right(rv)))
  }

  /** `FlatMapRightAsync(Either, ...)`: resolves to `FlatMapRight`. */
  function FlatMapRightAsync<L, R, T>(e: Either<L, R>, f: R --> Task<Either<L, T>>): (t: Task<Either<L, T>>)
    requires e.IsRight() ==> f.requires(e.rightValue)
    ensures Await(t) == FlatMapRight(e, (r: R) requires f.requires(r) => Await(f(r)))
  {
    Match(e, (lv: L) => FromResult(Left(lv)), f)
  }

  /** `FlatMapLeftAsync(Task<Either>, ...)`, the chaining form. */
  function FlatMapLeftAsyncOnTask<L, R, T>(t: Task<Either<L, R>>, f: L --> Task<Either<T, R>>): (x: Task<Either<T, R>>)
    requires Await(t).IsLeft() ==> f.requires(Await(t).leftValue)
    ensures Await(x) == FlatMapLeft(Await(t), (l: L) requires f.requires(l) => Await(f(l)))
  {
    Done(Await(FlatMapLeftAsync(Await(t), f)))
  }

  /** `FlatMapRightAsync(Task<Either>, ...)`, the chaining form. */
  function FlatMapRightAsyncOnTask<L, R, T>(t: Task<Either<L, R>>, f: R --> Task<Either<L, T>>): (x: Task<Either<L, T>>)
    requires Await(t).IsRight() ==> f.requires(Await(t).rightValue)
    ensures Await(x) == FlatMapRight(Await(t), (r: R) requires f.requires(r) => Await(f(r)))
  {
    Done(Await(FlatMapRightAsync(Await(t), f)))
  }

  // ---------------------------------------------------------------------
  // Laws.

  /** Functor laws on each side. */
  lemma MapLaws<L, R, T, U>(e: Either<L, R>, f: L -> T, g: T -> U, h: R -> T, k: T -> U)
    ensures MapLeft(e, (l: L) => l) == e
    ensures MapRight(e, (r: R) => r) == e
    ensures MapLeft(MapLeft(e, f), g) == MapLeft(e, (l: L) => g(f(l)))
    ensures MapRight(MapRight(e, h), k) == MapRight(e, (r: R) => k(h(r)))
  {
  }

  /** Side independence: mapping one side never touches the other, accepts a
      transform that cannot be called at all, and the two maps commute. */
  lemma SideIndependence<L, R, T, U>(l: L, r: R, f: L --> T, g: R --> U, e: Either<L, R>, f': L -> T, g': R -> U)
    ensures MapRight(Left(l), g) == Left(l)
    ensures MapLeft(Right(r), f) == Right(r)
    ensures MapRight(MapLeft(e, f'), g') == MapLeft(MapRight(e, g'), f')
  {
  }

  /** `FlatMapLeft` / `FlatMapRight` laws: wrapping on the same side is a map,
      the constructor is a right identity, and flattening associates. */
  lemma FlatMapLaws<L, R, T, U>(e: Either<L, R>, f: L -> T, g: L -> Either<T, R>, h: T -> Either<U, R>, k: R -> T)
    ensures FlatMapLeft(e, (l: L) => Left(f(l))) == MapLeft(e, f)
    ensures FlatMapRight(e, (r: R) => Right(k(r))) == MapRight(e, k)
    ensures FlatMapLeft(e, (l: L) => Left(l)) == e
    ensures FlatMapRight(e, (r: R) => Right(r)) == e
    ensures FlatMapLeft(FlatMapLeft(e, g), h) == FlatMapLeft(e, (l: L) => FlatMapLeft(g(l), h))
  {
  }

  /** `FlatMapLeft` may switch sides: the function's Right becomes the result. */
  lemma FlatMapSwitchesSides<L, R, T>(l: L, r: R)
    ensures var e: Either<L, R> := Left(l); var s: Either<T, R> := Right(r);
            FlatMapLeft(e, (_: L) => s) == s
    ensures var e: Either<L, R> := Right(r); var s: Either<L, T> := Left(l);
            FlatMapRight(e, (_: R) => s) == s
  {
  }

  /** The per-side defaults are the Optional conversions followed by
      `ValueOr`, and the lazy forms agree with the literal ones. */
  lemma ValueOrViaOptional<L, R>(e: Either<L, R>, dl: L, dr: R, fl: () --> L, fr: () --> R)
    ensures ValueLeftOr(e, dl) == OptionalExtensions.ValueOr(ToLeftOptional(e), dl)
    ensures ValueRightOr(e, dr) == OptionalExtensions.ValueOr(ToRightOptional(e), dr)
    ensures ValueLeftOrLazy(e, () => dl) == ValueLeftOr(e, dl)
    ensures ValueRightOrLazy(e, () => dr) == ValueRightOr(e, dr)
    ensures e.IsLeft() ==> ValueLeftOrLazy(e, fl) == e.leftValue
    ensures e.IsRight() ==> ValueRightOrLazy(e, fr) == e.rightValue
  {
  }

  /** Exactly one of the two Optional projections holds a value, and the two
      Result projections are opposite. */
  lemma ProjectionsAreComplementary<L, R>(e: Either<L, R>)
    ensures ToLeftOptional(e).HasValue() != ToRightOptional(e).HasValue()
    ensures ToLeftResult(e).IsSuccess() != ToRightResult(e).IsSuccess()
  {
  }

  /** The conversions commute: Either to Result, seen as a plain Result, is
      Either to Optional followed by Optional to Result. */
  lemma ConversionsCommute<L, R>(e: Either<L, R>)
    ensures ToLeftResult(e).AsResult() == OptionalExtensions.ToResult(ToLeftOptional(e))
    ensures ToRightResult(e).AsResult() == OptionalExtensions.ToResult(ToRightOptional(e))
  {
  }

  /** Unifying is taking the left payload with the right payload as its
      default; mapping both sides with the same function before unifying is
      the same as unifying first. */
  lemma UnifyIsNatural<V, W>(e: Either<V, V>, d: V, f: V -> W)
    ensures UnifyToValue(e) == ValueLeftOr(e, ValueRightOr(e, d))
    ensures UnifyToValue(MapRight(MapLeft(e, f), f)) == f(UnifyToValue(e))
  {
  }

  /** `MapLeftAsync(f).MapLeftAsync(g)` on a Left resolves to `Left(g(f(v)))`. */
  lemma MapLeftAsyncChained<L, R, T, U>(v: L, f: L -> Task<T>, g: T -> Task<U>)
    ensures var e: Either<L, R> := Left(v);
            Await(MapLeftAsyncOnTask(MapLeftAsync(e, f), g)) == Left(Await(g(Await(f(v)))))
  {
  }

  // ---------------------------------------------------------------------
  // Chains of any length.

  /** `t.MapLeftAsync(fs[0]).MapLeftAsync(fs[1])...` */
  function MapLeftAsyncChain<L, R>(t: Task<Either<L, R>>, fs: seq<L -> Task<L>>): Task<Either<L, R>>
    decreases |fs|
  {
    if |fs| == 0 then t else MapLeftAsyncChain(MapLeftAsyncOnTask(t, fs[0]), fs[1..])
  }

  /** `t.MapRightAsync(fs[0]).MapRightAsync(fs[1])...` */
  function MapRightAsyncChain<L, R>(t: Task<Either<L, R>>, fs: seq<R -> Task<R>>): Task<Either<L, R>>
    decreases |fs|
  {
    if |fs| == 0 then t else MapRightAsyncChain(MapRightAsyncOnTask(t, fs[0]), fs[1..])
  }

  /** A chain of `MapLeftAsync` of any length resolves to one `MapLeft` of the
      stages awaited left to right; the Right side is never touched. */
  lemma {:induction false} MapLeftAsyncChainResolves<L, R>(t: Task<Either<L, R>>, fs: seq<L -> Task<L>>)
    ensures Await(MapLeftAsyncChain(t, fs)) == MapLeft(Await(t), (l: L) => ResolveAll(fs, l))
    decreases |fs|
  {
    if |fs| > 0 {
      MapLeftAsyncChainResolves(MapLeftAsyncOnTask(t, fs[0]), fs[1..]);
    }
  }

  /** The same for `MapRightAsync`. */
  lemma {:induction false} MapRightAsyncChainResolves<L, R>(t: Task<Either<L, R>>, fs: seq<R -> Task<R>>)
    ensures Await(MapRightAsyncChain(t, fs)) == MapRight(Await(t), (r: R) => ResolveAll(fs, r))
    decreases |fs|
  {
    if |fs| > 0 {
      MapRightAsyncChainResolves(MapRightAsyncOnTask(t, fs[0]), fs[1..]);
    }
  }

  /** Cases from EitherExtensionsTests (MapLeft_WithLeft_MapsValue,
      MapLeft_WithRight_DoesNothing, FlatMapRight_RightReturnLeft_MapReturnsLeft,
      ToLeftResult_Right_ReturnsFailure) and EitherTests
      (ToString_Left_ReturnsFormattedString, ToString_Right_ReturnsFormattedString). */
  lemma Scenarios()
    ensures var e: Either<string, string> := Left("test"); MapLeft(e, (s: string) => s + "_mapped") == Left("test_mapped")
    ensures var e: Either<string, string> := Right("test"); MapLeft(e, (s: string) => s + "_mapped") == Right("test")
    ensures var e: Either<int, string> := Right("test"); FlatMapRight(e, (s: string) => var l: Either<int, int> := Left(100); l) == Left(100)
    ensures var e: Either<string, string> := Right("test"); ToLeftResult(e) == Results.FailureOf("test")
    ensures var e: Either<string, string> := Left("test"); ToString(e, s => s, s => s) == "Left(test)"
    ensures var e: Either<string, string> := Right("test"); ToString(e, s => s, s => s) == "Right(test)"
  {
    assert "test" + "_mapped" == "test_mapped";
    assert "Left(" + "test" + ")" == "Left(test)";
    assert "Right(" + "test" + ")" == "Right(test)";
  }
}
