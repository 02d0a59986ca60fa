/** The unchecked extractor for Result<TFailure>
    (Unsafe/ResultExtensionsUnsafe.cs): the failure payload, or a fault on a
    success. */
module ResultExtensionsUnsafe {
  import opened Results
  import ResultExtensions
  import Eithers
  import EitherExtensions

  /** `FailureValueOrThrow`: the failure payload. The source throws on a
      success; here that call is excluded by the precondition. */
  function FailureValueOrThrow<F>(r: ResultOf<F>): (v: F)
    requires r.IsFailure()
    ensures FailureOf(v) == r
  {
    r.failureValue
  }

  /** The extractor inverts the `Failure` factory and extension. */
  lemma FailureValueOrThrowInvertsFailure<F>(f: F)
    ensures FailureValueOrThrow(FailureOf(f)) == f
    ensures FailureValueOrThrow(ResultExtensions.ToFailure(f)) == f
  {
  }

  /** `MapFailure` as seen through the extractor. */
  lemma ExtractAfterMapFailure<F, T>(e: F, g: F -> T)
    ensures FailureValueOrThrow(ResultExtensions.MapFailureOf(FailureOf(e), g)) == g(e)
  {
  }

  /** Converting an Either to a Result keeps the other side's payload as the
      failure payload. */
  lemma ExtractAfterEitherConversion<L, R>(l: L, r: R)
    ensures FailureValueOrThrow(EitherExtensions.ToLeftResult(Eithers.Either<L, R>.Right(r))) == r
    ensures FailureValueOrThrow(EitherExtensions.ToRightResult(Eithers.Either<L, R>.Left(l))) == l
  {
  }
}
