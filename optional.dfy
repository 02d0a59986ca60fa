/** Optional<TValue> (Optional.cs): a value that is present (Some) or absent
    (None), with its dispatch primitive Match and its rendering. */
module Optionals {

  /** The two states of an Optional. The payload exists only in the Some
      state, so nothing can read the unused slot of an absent value. */
  datatype Optional<T> = None | Some(value: T)
  {
    /** `HasValue`: the flag the struct stores. */
    predicate HasValue()
    {
      Some?
    }
  }

  /** `Match` (OptionalExtensions.cs): calls `some` with the payload when a
      value is present, `none` otherwise. Only the branch that fires has to be
      callable, which is how the model states that the other is never run. */
  function Match<T, R>(o: Optional<T>, some: T --> R, none: () --> R): (r: R)
    requires o.HasValue() ==> some.requires(o.value)
    requires !o.HasValue() ==> none.requires()
    ensures o.HasValue() ==> r == some(o.value)
    ensures !o.HasValue() ==> r == none()
  {
    if o.HasValue() then some(o.value) else none()
  }

  /** `ToString`: "Some(<v>)" or "None"; `show` stands for the payload's own
      rendering. Only an absent value renders as "None". */
  function ToString<T>(o: Optional<T>, show: T -> string): (s: string)
    ensures o.HasValue() ==> s == "Some(" + show(o.value) + ")"
    ensures s == "None" <==> !o.HasValue()
  {
    Match(o, v => "Some(" + show(v) + ")", () => "None")
  }

  /** Matching with the two constructors gives back the same Optional: Match
      loses nothing and invents nothing. */
  lemma MatchWithConstructors<T>(o: Optional<T>)
    ensures Match(o, v => Some(v), () => None) == o
  {
  }

  // ---------------------------------------------------------------------
  // The struct's storage: the HasValue flag and the Value slot.

  /** What the struct holds: the flag and the payload slot. */
  datatype OptionalCell<T> = OptionalCell(hasValue: bool, slot: T)

  /** The internal constructor `Optional(bool, TValue)`: the slot keeps the
      caller's value only when `hasValue` is set; otherwise it gets `dflt`,
      the type's `default(TValue)`. */
  function NewCell<T>(hasValue: bool, value: T, dflt: T): (c: OptionalCell<T>)
    ensures c.hasValue == hasValue
    ensures Read(c) == if hasValue then Some(value) else None
    ensures !hasValue ==> c.slot == dflt
  {
    if hasValue then OptionalCell(true, value) else OptionalCell(false, dflt)
  }

  /** The Optional that a struct denotes: its slot is read only under the flag. */
  function Read<T>(c: OptionalCell<T>): Optional<T>
  {
    if c.hasValue then Some(c.slot) else None
  }

  /** A struct built by the internal constructor: an absent value keeps the default. */
  ghost predicate WellFormed<T>(c: OptionalCell<T>, dflt: T)
  {
    !c.hasValue ==> c.slot == dflt
  }

  /** `Optional.Some(v)`: the flag is set and the slot holds exactly `v`,
      whatever `v` is. */
  lemma SomeFactory<T>(v: T, dflt: T)
    ensures NewCell(true, v, dflt).hasValue
    ensures NewCell(true, v, dflt).slot == v
    ensures Read(NewCell(true, v, dflt)) == Some(v)
  {
  }

  /** `Optional.None()`: the flag is clear and the slot holds the default,
      never a caller's payload. */
  lemma NoneFactory<T>(v: T, dflt: T)
    ensures !NewCell(false, v, dflt).hasValue
    ensures NewCell(false, v, dflt).slot == dflt
    ensures Read(NewCell(false, v, dflt)) == None
  {
  }

  /** Every struct the constructor builds is well formed, whatever value is
      passed with a clear flag, and two well-formed
      structs denote the same Optional only if they are the same struct: the
      sum type loses nothing the struct can show. */
  lemma CellsAreSumValues<T>(c: OptionalCell<T>, d: OptionalCell<T>, hasValue: bool, value: T, dflt: T)
    requires WellFormed(c, dflt) && WellFormed(d, dflt)
    ensures WellFormed(NewCell(hasValue, value, dflt), dflt)
    ensures Read(c) == Read(d) ==> c == d
  {
  }
}
