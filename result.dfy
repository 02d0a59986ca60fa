/** Result and Result<TFailure> (Result.cs): an outcome that is a success or a
    failure, the second form carrying a failure payload. The dispatch
    primitives (the value-returning `Match` overloads) live here beside the
    types, because both renderings are written with them. */
module Results {

  /** `Result`: success or failure, without a payload. */
  datatype Result = Success | Failure
  {
    /** `IsSuccess`: the flag the class stores. */
    predicate IsSuccess()
    {
      Success?
    }

    /** `IsFailure`: derived, the negation of `IsSuccess`. */
    predicate IsFailure()
    {
      !IsSuccess()
    }
  }

  /** `Result<TFailure>`: a failure carries `failureValue`; a success carries
      nothing a caller can read. */
  datatype ResultOf<F> = SuccessOf | FailureOf(failureValue: F)
  {
    predicate IsSuccess()
    {
      SuccessOf?
    }

    predicate IsFailure()
    {
      !IsSuccess()
    }

    /** The base-class view: `Result<TFailure>` derives from `Result`, so it
        can stand wherever only success or failure matters. The view serves
        the statically dispatched extension methods; the virtual `ToString`
        of the derived class is `ToStringOf`, not `ToString` of this view. */
    function AsResult(): (r: Result)
      ensures r.IsSuccess() == IsSuccess()
      ensures r.IsFailure() == IsFailure()
    {
      if IsSuccess() then Success else Failure
    }
  }

  /** Every result, with or without a payload, is exactly one of success and
      failure. */
  lemma FailureIsNotSuccess<F>(r: Result, s: ResultOf<F>)
    ensures r.IsFailure() == !r.IsSuccess()
    ensures s.IsFailure() == !s.IsSuccess()
    ensures r.IsSuccess() <==> r == Success
    ensures s.IsSuccess() <==> s == SuccessOf
  {
  }

  /** `Match(Result, Func<T>, Func<T>)` (ResultExtensions.cs): runs `success`
      on a success and `failure` on a failure; only the branch that fires has
      to be callable. The "unknown result state" branch of the source has no
      counterpart: a Result has exactly two cases. */
  function Match<T>(r: Result, success: () --> T, failure: () --> T): (x: T)
    requires r.IsSuccess() ==> success.requires()
    requires r.IsFailure() ==> failure.requires()
    ensures r.IsSuccess() ==> x == success()
    ensures r.IsFailure() ==> x == failure()
  {
    match r
    case Success => success()
    case Failure => failure()
  }

  /** `Match(Result<TFailure>, Func<T>, Func<TFailure, T>)`: as `Match`, and the
      failure branch receives the stored payload. */
  function MatchOf<F, T>(r: ResultOf<F>, success: () --> T, failure: F --> T): (x: T)
    requires r.IsSuccess() ==> success.requires()
    requires r.IsFailure() ==> failure.requires(r.failureValue)
    ensures r.IsSuccess() ==> x == success()
    ensures r.IsFailure() ==> x == failure(r.failureValue)
  {
    match r
    case SuccessOf => success()
    case FailureOf(f) => failure(f)
  }

  /** `Result.ToString`: "Success" or "Failure". */
  function ToString(r: Result): (s: string)
    ensures s == "Success" <==> r.IsSuccess()
    ensures s == "Failure" <==> r.IsFailure()
  {
    Match(r, () => "Success", () => "Failure")
  }

  /** `Result<TFailure>.ToString`: "Success", or "Failure(<payload>)" with
      `show` standing for the payload's own rendering. */
  function ToStringOf<F>(r: ResultOf<F>, show: F -> string): (s: string)
    ensures s == "Success" <==> r.IsSuccess()
    ensures r.IsFailure() ==> s == "Failure(" + show(r.failureValue) + ")"
  {
    MatchOf(r, () => "Success", error => "Failure(" + show(error) + ")")
  }

  /** A `Result<TFailure>` used as a plain `Result`: the plain `Match` takes the
      same branch as the payload `Match` would, without looking at the payload. */
  lemma MatchOnBaseView<F, T>(r: ResultOf<F>, success: () -> T, failure: () -> T)
    ensures Match(r.AsResult(), success, failure) == MatchOf(r, success, _ => failure())
  {
  }

  /** The two `ToString` bodies compared: they agree on a success and differ
      on every failure, where the payload form adds the payload. (In the
      program a `Result<TFailure>` always renders with its own override, even
      through a `Result` reference; `AsResult` does not carry that override.) */
  lemma PlainAndPayloadRenderings<F>(r: ResultOf<F>, show: F -> string)
    ensures r.IsSuccess() <==> ToStringOf(r, show) == ToString(r.AsResult())
  {
    if r.IsFailure() {
      assert |ToStringOf(r, show)| > |"Failure"|;
    }
  }

  // ---------------------------------------------------------------------
  // The class's storage: the IsSuccess flag and the FailureValue slot.

  /** What a `Result<TFailure>` object holds. */
  datatype ResultCell<F> = ResultCell(isSuccess: bool, failureSlot: F)

  /** The internal constructor `Result(bool, TFailure)`: stores both arguments
      as given (unlike the Optional and Either structs, it does not clear the
      slot of a success). */
  function NewCell<F>(isSuccess: bool, failure: F): (c: ResultCell<F>)
    ensures c.isSuccess == isSuccess
    ensures c.failureSlot == failure
    ensures Read(c) == if isSuccess then SuccessOf else FailureOf(failure)
  {
    ResultCell(isSuccess, failure)
  }

  /** The outcome an object denotes: its slot is read only on failure. */
  function Read<F>(c: ResultCell<F>): ResultOf<F>
  {
    if c.isSuccess then SuccessOf else FailureOf(c.failureSlot)
  }

  /** `Result.Success()` and `Result.Failure()`: the plain factories. */
  lemma PlainFactories()
    ensures Success.IsSuccess() && !Success.IsFailure()
    ensures Failure.IsFailure() && !Failure.IsSuccess()
  {
  }

  /** `Result.Success<TFailure>()`: a success whose slot holds the default, and
      whose base view is a success. */
  lemma SuccessFactory<F>(dflt: F)
    ensures Read(NewCell(true, dflt)) == SuccessOf
    ensures NewCell(true, dflt).failureSlot == dflt
    ensures Read(NewCell(true, dflt)).AsResult() == Success
  {
  }

  /** `Result.Failure<TFailure>(f)`: a failure whose payload is exactly `f`. */
  lemma FailureFactory<F>(f: F)
    ensures Read(NewCell(false, f)) == FailureOf(f)
    ensures Read(NewCell(false, f)).AsResult() == Failure
  {
  }
}
