/** The unchecked extractors for Optional (Unsafe/OptionalExtensionsUnsafe.cs):
    the held value, or a fault when there is none. */
module OptionalExtensionsUnsafe {
  import opened Optionals
  import OptionalExtensions

  /** What an extractor that may throw does: return a value or raise a fault. */
  datatype Outcome<T, E> = Returned(value: T) | Raised(fault: E)

  /** `ValueOrThrow()`: the held value. The source throws on None; here that
      call is excluded by the precondition. */
  function ValueOrThrow<T>(o: Optional<T>): (v: T)
    requires o.HasValue()
    ensures Some(v) == o
  {
    o.value
  }

  /** `ValueOrThrow(TException)`: the held value, or exactly the caller's
      exception when there is none. */
  function ValueOrThrowWith<T, E>(o: Optional<T>, ex: E): (r: Outcome<T, E>)
    ensures r.Returned? <==> o.HasValue()
    ensures r.Returned? ==> Some(r.value) == o
    ensures r.Raised? ==> r.fault == ex
  {
    if o.HasValue() then Returned(o.value) else Raised(ex)
  }

  /** `ValueOrThrow(Func<TException>)`: as above, with the exception made by a
      factory that is only needed when there is no value. */
  function ValueOrThrowLazy<T, E>(o: Optional<T>, ex: () --> E): (r: Outcome<T, E>)
    requires !o.HasValue() ==> ex.requires()
    ensures r.Returned? <==> o.HasValue()
    ensures r.Returned? ==> Some(r.value) == o
    ensures r.Raised? ==> r.fault == ex()
  {
    if o.HasValue() then Returned(o.value) else Raised(ex())
  }

  /** `Some` and `ValueOrThrow` are inverse, and on a Some the extractor agrees
      with `ValueOr` for every default. */
  lemma ValueOrThrowInvertsSome<T>(v: T, o: Optional<T>, d: T)
    ensures ValueOrThrow(Some(v)) == v
    ensures o.HasValue() ==> ValueOrThrow(o) == OptionalExtensions.ValueOr(o, d)
  {
  }

  /** The three overloads agree: the lazy one with a constant factory is the
      literal one, on a Some no factory is needed, and a returned value is the
      plain extractor's. */
  lemma OverloadsAgree<T, E>(o: Optional<T>, v: T, ex: E, factory: () --> E)
    ensures ValueOrThrowLazy(o, () => ex) == ValueOrThrowWith(o, ex)
    ensures ValueOrThrowLazy(Some(v), factory) == Returned(v)
    ensures o.HasValue() ==> ValueOrThrowWith(o, ex) == Returned(ValueOrThrow(o))
  {
  }

  /** Some of a null value holds a value, and extracting it gives the null back. */
  lemma SomeOfNullExtractsNull<T>(v: T, isNull: T -> bool)
    requires isNull(v)
    ensures Some(v).HasValue() && isNull(ValueOrThrow(Some(v)))
  {
  }

  /** Extracting after a map gives the transformed value. */
  lemma ValueOrThrowAfterMap<T, U>(v: T, f: T -> U)
    ensures ValueOrThrow(OptionalExtensions.Map(Some(v), f)) == f(v)
  {
  }
}
