/** Either<TLeft, TRight> (Either.cs): a value that is a left or a right
    alternative, with its dispatch primitive Match and its rendering. */
module Eithers {

  /** The two states of an Either. Each payload exists only in its own state,
      so nothing can read the inactive side. */
  datatype Either<L, R> = Left(leftValue: L) | Right(rightValue: R)
  {
    /** `IsLeft`: the flag the struct stores. */
    predicate IsLeft()
    {
      Left?
    }

    /** `IsRight`: derived, the negation of `IsLeft`. */
    predicate IsRight()
    {
      !IsLeft()
    }
  }

  /** `Match(Either, Func<TLeft, T>, Func<TRight, T>)` (EitherExtensions.cs):
      calls `left` on a Left and `right` on a Right; only the branch that fires
      has to be callable. The source's "unknown state" throw has no
      counterpart: the match below is exhaustive. */
  function Match<L, R, T>(e: Either<L, R>, left: L --> T, right: R --> T): (x: T)
    requires e.IsLeft() ==> left.requires(e.leftValue)
    requires e.IsRight() ==> right.requires(e.rightValue)
    ensures e.IsLeft() ==> x == left(e.leftValue)
    ensures e.IsRight() ==> x == right(e.rightValue)
  {
    match e
    case Left(l) => left(l)
    case Right(r) => right(r)
  }

  /** `ToString`: "Left(<v>)" or "Right(<v>)", with `showLeft` and `showRight`
      standing for the payloads' own renderings. The rendering tells the sides
      apart. */
  function ToString<L, R>(e: Either<L, R>, showLeft: L -> string, showRight: R -> string): (s: string)
    ensures e.IsLeft() ==> s == "Left(" + showLeft(e.leftValue) + ")"
    ensures e.IsRight() ==> s == "Right(" + showRight(e.rightValue) + ")"
    ensures e.IsLeft() <==> s[0] == 'L'
  {
    Match(e, left => "Left(" + showLeft(left) + ")", right => "Right(" + showRight(right) + ")")
  }

  /** Exactly one side holds for every Either. */
  lemma ExactlyOneSide<L, R>(e: Either<L, R>)
    ensures e.IsLeft() != e.IsRight()
    ensures e.IsLeft() <==> e.Left?
    ensures e.IsRight() <==> e.Right?
  {
  }

  /** Matching with the two constructors gives back the same Either. */
  lemma MatchWithConstructors<L, R>(e: Either<L, R>)
    ensures Match(e, l => Left(l), r => Right(r)) == e
  {
  }

  // ---------------------------------------------------------------------
  // The struct's storage: the IsLeft flag and both payload slots.

  /** What the struct holds: the flag and one slot per side. */
  datatype EitherCell<L, R> = EitherCell(isLeft: bool, leftSlot: L, rightSlot: R)

  /** The internal constructor `Either(bool, TLeft, TRight)`: the active side's
      slot keeps the caller's value, the inactive side's slot gets that type's
      default (`dfltLeft`, `dfltRight`). */
  function NewCell<L, R>(isLeft: bool, left: L, right: R, dfltLeft: L, dfltRight: R): (c: EitherCell<L, R>)
    ensures c.isLeft == isLeft
    ensures Read(c) == if isLeft then Left(left) else Right(right)
    ensures isLeft ==> c.rightSlot == dfltRight
    ensures !isLeft ==> c.leftSlot == dfltLeft
  {
    if isLeft then EitherCell(true, left, dfltRight) else EitherCell(false, dfltLeft, right)
  }

  /** The Either a struct denotes: only the active side's slot is read. */
  function Read<L, R>(c: EitherCell<L, R>): Either<L, R>
  {
    if c.isLeft then Left(c.leftSlot) else Right(c.rightSlot)
  }

  /** A struct built by the internal constructor: the inactive slot holds the default. */
  ghost predicate WellFormed<L, R>(c: EitherCell<L, R>, dfltLeft: L, dfltRight: R)
  {
    (c.isLeft ==> c.rightSlot == dfltRight) && (!c.isLeft ==> c.leftSlot == dfltLeft)
  }

  /** `Either.Left(v)`: the flag is set, the left slot holds `v` and the right
      slot the default. */
  lemma LeftFactory<L, R>(v: L, dfltLeft: L, dfltRight: R)
    ensures NewCell(true, v, dfltRight, dfltLeft, dfltRight).isLeft
    ensures NewCell(true, v, dfltRight, dfltLeft, dfltRight).leftSlot == v
    ensures NewCell(true, v, dfltRight, dfltLeft, dfltRight).rightSlot == dfltRight
    ensures Read(NewCell(true, v, dfltRight, dfltLeft, dfltRight)) == Left(v)
  {
  }

  /** `Either.Right(v)`: the flag is clear, the right slot holds `v` and the
      left slot the default. */
  lemma RightFactory<L, R>(v: R, dfltLeft: L, dfltRight: R)
    ensures !NewCell(false, dfltLeft, v, dfltLeft, dfltRight).isLeft
    ensures NewCell(false, dfltLeft, v, dfltLeft, dfltRight).rightSlot == v
    ensures NewCell(false, dfltLeft, v, dfltLeft, dfltRight).leftSlot == dfltLeft
    ensures Read(NewCell(false, dfltLeft, v, dfltLeft, dfltRight)) == Right(v)
  {
  }

  /** Every struct the constructor builds is well formed, whatever is passed
      for the inactive side, and two well-formed structs denote the same
      Either only if they are the same struct. */
  lemma CellsAreSumValues<L, R>(c: EitherCell<L, R>, d: EitherCell<L, R>, left: L, right: R, dfltLeft: L, dfltRight: R)
    requires WellFormed(c, dfltLeft, dfltRight) && WellFormed(d, dfltLeft, dfltRight)
    ensures WellFormed(NewCell(c.isLeft, left, right, dfltLeft, dfltRight), dfltLeft, dfltRight)
    ensures Read(c) == Read(d) ==> c == d
  {
  }
}
