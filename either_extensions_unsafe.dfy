/** The unchecked extractors for Either (Unsafe/EitherExtensionsUnsafe.cs):
    the payload of the expected side, or a fault on the other side. */
module EitherExtensionsUnsafe {
  import opened Eithers
  import EitherExtensions

  /** `LeftValueOrThrow`: the left payload. The source throws on a Right; here
      that call is excluded by the precondition. */
  function LeftValueOrThrow<L, R>(e: Either<L, R>): (v: L)
    requires e.IsLeft()
    ensures Left(v) == e
  {
    e.leftValue
  }

  /** `RightValueOrThrow`: the right payload. The source throws on a Left; here
      that call is excluded by the precondition. */
  function RightValueOrThrow<L, R>(e: Either<L, R>): (v: R)
    requires e.IsRight()
    ensures Right(v) == e
  {
    e.rightValue
  }

  /** The extractors invert the constructors and agree with the safe defaults
      and with `UnifyToValue` on the side that is present. */
  lemma ExtractorsInvertConstructors<L, R>(l: L, r: R, e: Either<L, R>, dl: L, dr: R)
    ensures LeftValueOrThrow(Either<L, R>.Left(l)) == l
    ensures RightValueOrThrow(Either<L, R>.Right(r)) == r
    ensures e.IsLeft() ==> LeftValueOrThrow(e) == EitherExtensions.ValueLeftOr(e, dl)
    ensures e.IsRight() ==> RightValueOrThrow(e) == EitherExtensions.ValueRightOr(e, dr)
  {
  }

  /** On a single-typed Either, unifying is extracting whichever side is present. */
  lemma UnifyIsExtraction<V>(e: Either<V, V>)
    ensures EitherExtensions.UnifyToValue(e) == if e.IsLeft() then LeftValueOrThrow(e) else RightValueOrThrow(e)
  {
  }

  /** `MapLeft` as seen through the extractors: a Left comes out transformed, a
      Right comes out as it went in. */
  lemma ExtractAfterMapLeft<L, R, T>(v: L, r: R, f: L -> T)
    ensures LeftValueOrThrow(EitherExtensions.MapLeft(Either<L, R>.Left(v), f)) == f(v)
    ensures RightValueOrThrow(EitherExtensions.MapLeft(Either<L, R>.Right(r), f)) == r
  {
  }
}
