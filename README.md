# Hydrax.Functional containers in Dafny

This project models the container core of Hydrax.Functional, a C# library of algebraic containers:

- `Optional<T>`: a value that is present or absent.
- `Either<L, R>`: a left or a right alternative.
- `Result` / `Result<F>`: success or failure, with or without a failure payload.

It also models the combinator layer over these containers (`Match`, `Map`, `FlatMap`, the `ValueOr` defaults, the
`NoneWhen`/`SomeWhen` filters, the conversions between containers, `ToString`), the async and chaining overloads,
and the unchecked extractors of the `Unsafe` namespace.

Modelling choices:

- **Sum types.** Each container is a two-case datatype, so no third state can exist. The source's defensive
  "unknown state" throws become exhaustive `match` expressions. The C# storage (a flag plus default-filled payload
  slots) is modelled separately by the `*Cell` datatypes. These come with the internal constructor (`NewCell`) and the
  reading of a cell (`Read`), so that what the constructors store in the inactive slot can still be stated.
- **`default(T)`.** This is a parameter (`dflt`, `dfltLeft`, `dfltRight`).
- **Laziness.** "The function is never invoked" is modelled with partial function types (`-->`). A combinator demands
  a function's precondition only on the branch where it calls it. A lemma can then pass a function that cannot be
  called at all (`requires false`) on the other branch.
- **Tasks.** A `Task<X>` is an already-completed task, `Done(result)`. Each async form is proved to resolve to its
  synchronous counterpart. Dafny has no overloading, so each chaining overload (the one that accepts a
  `Task<container>`) is named with the suffix `OnTask`. The payload forms of the Result combinators carry the suffix
  `Of`.
- **Parameters standing in for .NET behaviour.** C#'s `$"{value}"` formatting is a `show` parameter. The null test of
  `SomeNotNull` is an `isNull` parameter.
- **Extractors.** The throwing extractors without an exception argument take a precondition on the expected state.
  The two `ValueOrThrow` overloads that take an exception return an `Outcome`, either `Returned(value)` or
  `Raised(fault)`.
- **Placement of `Match`.** The value-returning `Match` overloads live in the container modules (`Optionals`,
  `Eithers`, `Results`), because the renderings are written with them.

Files: `tasks.dfy`, `optional.dfy`, `either.dfy`, `result.dfy`, `optional_extensions.dfy`,
`either_extensions.dfy`, `result_extensions.dfy`, `optional_extensions_unsafe.dfy`,
`either_extensions_unsafe.dfy`, `result_extensions_unsafe.dfy`.

## Model

| member | source | states |
|---|---|---|
| Optionals.Match | src/Hydrax.Functional/OptionalExtensions.cs:75-88 | calls `some` with the payload iff a value is present, else `none`; only the branch that fires must be callable |
| Optionals.ToString | src/Hydrax.Functional/Optional.cs:38-41 | Some(v) renders as "Some(" + show(v) + ")"; the result is "None" exactly when no value is present |
| Optionals.MatchWithConstructors | src/Hydrax.Functional/OptionalExtensions.cs:75-88 | matching with Some and None rebuilds the same Optional |
| Optionals.NewCell | src/Hydrax.Functional/Optional.cs:24-36 | the internal constructor keeps the flag, denotes Some(value) or None, and fills an absent slot with the default whatever value was passed |
| Optionals.SomeFactory | src/Hydrax.Functional/Optional.cs:7-10 | `Optional.Some(v)` sets HasValue and stores exactly v, with no inspection of v |
| Optionals.NoneFactory | src/Hydrax.Functional/Optional.cs:12-15 | `Optional.None()` clears HasValue and its slot is the default, never a caller's payload |
| Optionals.CellsAreSumValues | src/Hydrax.Functional/Optional.cs:18-36 | a struct built from any flag and value is well formed, and well-formed structs denoting the same Optional are equal |
| Eithers.Match | src/Hydrax.Functional/EitherExtensions.cs:64-80 | calls `left` on a Left and `right` on a Right; only the branch that fires must be callable; no unknown state |
| Eithers.ToString | src/Hydrax.Functional/Either.cs:44-49 | Left(v) renders "Left(" + show(v) + ")", Right(v) renders "Right(" + show(v) + ")"; the first character tells the side |
| Eithers.ExactlyOneSide | src/Hydrax.Functional/Either.cs:20-22 | IsRight is the negation of IsLeft; exactly one side holds |
| Eithers.MatchWithConstructors | src/Hydrax.Functional/EitherExtensions.cs:64-80 | matching with Left and Right rebuilds the same Either |
| Eithers.NewCell | src/Hydrax.Functional/Either.cs:28-42 | the internal constructor denotes Left(left) or Right(right) by the flag and fills the inactive slot with that side's default |
| Eithers.LeftFactory | src/Hydrax.Functional/Either.cs:7-10 | `Either.Left(v)` sets IsLeft, stores v on the left and the default on the right |
| Eithers.RightFactory | src/Hydrax.Functional/Either.cs:12-15 | `Either.Right(v)` clears IsLeft, stores v on the right and the default on the left |
| Eithers.CellsAreSumValues | src/Hydrax.Functional/Either.cs:18-42 | constructed structs are well formed whatever is passed for the inactive side; well-formed structs denoting the same Either are equal |
| Results.FailureIsNotSuccess | src/Hydrax.Functional/Result.cs:15 | IsFailure is the negation of IsSuccess for both result forms |
| Results.ResultOf.AsResult | src/Hydrax.Functional/Result.cs:65 | a `Result<F>` seen as a `Result` keeps IsSuccess and IsFailure (the view used by the statically dispatched extension methods) |
| Results.Match | src/Hydrax.Functional/ResultExtensions.cs:47-61 | runs `success` iff IsSuccess, else `failure`; only the branch that fires must be callable |
| Results.MatchOf | src/Hydrax.Functional/ResultExtensions.cs:95-111 | runs `success` on success; on failure passes the stored payload to `failure` |
| Results.ToString | src/Hydrax.Functional/Result.cs:22-25 | renders "Success" exactly for a success and "Failure" exactly for a failure |
| Results.ToStringOf | src/Hydrax.Functional/Result.cs:74-77 | renders "Success" exactly for a success, "Failure(" + show(f) + ")" for a failure with payload f |
| Results.MatchOnBaseView | src/Hydrax.Functional/Result.cs:65 | the plain Match on a `Result<F>` takes the same branch as the payload Match, ignoring the payload |
| Results.PlainAndPayloadRenderings | src/Hydrax.Functional/Result.cs:74-77 | the payload `ToString` body and the plain one (Result.cs:22-25) agree exactly on success |
| Results.NewCell | src/Hydrax.Functional/Result.cs:69-72 | the internal constructor stores the flag and the payload exactly as passed, and the object denotes SuccessOf or FailureOf(payload) by the flag |
| Results.PlainFactories | src/Hydrax.Functional/Result.cs:31-42 | `Success()` is a success and not a failure; `Failure()` is a failure and not a success |
| Results.SuccessFactory | src/Hydrax.Functional/Result.cs:48-51 | `Success<F>()` is a success with the default in its slot, and its plain view is a success |
| Results.FailureFactory | src/Hydrax.Functional/Result.cs:57-59 | `Failure<F>(f)` is a failure whose payload is exactly f, and its plain view is a failure |
| OptionalExtensions.SomeNotNull | src/Hydrax.Functional/OptionalExtensions.cs:33-41 | has a value iff the argument is not null, and then holds the argument |
| OptionalExtensions.Map | src/Hydrax.Functional/OptionalExtensions.cs:147-157 | presence is preserved and a present value is transformed by f; f need not be callable on None |
| OptionalExtensions.FlatMap | src/Hydrax.Functional/OptionalExtensions.cs:203-212 | Some(v) gives f(v) itself, not wrapped again; None gives None without calling f |
| OptionalExtensions.ValueOr | src/Hydrax.Functional/OptionalExtensions.cs:257-262 | the held value, or the literal default when absent |
| OptionalExtensions.ValueOrLazy | src/Hydrax.Functional/OptionalExtensions.cs:271-276 | the held value, or the factory's result when absent; the factory need not be callable on Some |
| OptionalExtensions.NoneWhen | src/Hydrax.Functional/OptionalExtensions.cs:284-294 | returns the input or None; keeps a value iff present and the predicate is false; no predicate call on None |
| OptionalExtensions.SomeWhen | src/Hydrax.Functional/OptionalExtensions.cs:303-313 | returns the input or None; keeps a value iff present and the predicate is true; no predicate call on None |
| OptionalExtensions.ToResult | src/Hydrax.Functional/OptionalExtensions.cs:321-327 | success iff a value is present |
| OptionalExtensions.SomeAsync | src/Hydrax.Functional/OptionalExtensions.cs:23-26 | resolves to Some of the awaited value |
| OptionalExtensions.MatchAsync | src/Hydrax.Functional/OptionalExtensions.cs:115-121 | resolves to the synchronous Match over the awaited branches |
| OptionalExtensions.MatchAsyncOnTask | src/Hydrax.Functional/OptionalExtensions.cs:132-138 | awaits the Optional first, then resolves as MatchAsync |
| OptionalExtensions.MapAsync | src/Hydrax.Functional/OptionalExtensions.cs:166-176 | resolves to Map with the awaited transform |
| OptionalExtensions.MapAsyncOnTask | src/Hydrax.Functional/OptionalExtensions.cs:187-194 | resolves to Map of the awaited Optional with the awaited transform |
| OptionalExtensions.FlatMapAsync | src/Hydrax.Functional/OptionalExtensions.cs:221-231 | resolves to FlatMap with the awaited transform |
| OptionalExtensions.FlatMapAsyncOnTask | src/Hydrax.Functional/OptionalExtensions.cs:242-248 | resolves to FlatMap of the awaited Optional with the awaited transform |
| OptionalExtensions.SomeNotNullIsNoneWhenNull | src/Hydrax.Functional/OptionalExtensions.cs:33-41 | SomeNotNull(v) equals Some(v) filtered by NoneWhen(isNull) |
| OptionalExtensions.SomeOfNullHoldsNull | src/Hydrax.Functional/OptionalExtensions.cs:13-16 | Some of a null value has a value and that value is null, while SomeNotNull of it is None |
| OptionalExtensions.MapIdentity | src/Hydrax.Functional/OptionalExtensions.cs:147-157 | functor identity law: mapping the identity changes nothing |
| OptionalExtensions.MapComposition | src/Hydrax.Functional/OptionalExtensions.cs:147-157 | functor composition law: Map(f) then Map(g) equals Map(g . f) |
| OptionalExtensions.MapNoneNeverCalls | src/Hydrax.Functional/OptionalExtensions.cs:147-157 | Map on None is None even for a transform that cannot be called |
| OptionalExtensions.MapIsFlatMapOfSome | src/Hydrax.Functional/OptionalExtensions.cs:203-212 | Map(f) equals FlatMap of Some . f |
| OptionalExtensions.FlatMapLaws | src/Hydrax.Functional/OptionalExtensions.cs:203-212 | left identity, right identity and associativity of FlatMap |
| OptionalExtensions.FlatMapNoneNeverCalls | src/Hydrax.Functional/OptionalExtensions.cs:203-212 | FlatMap on None is None even for a transform that cannot be called |
| OptionalExtensions.MatchIsMapThenValueOr | src/Hydrax.Functional/OptionalExtensions.cs:75-88 | Match(some, none) equals Map(some) followed by ValueOr(none()) |
| OptionalExtensions.ValueOrForms | src/Hydrax.Functional/OptionalExtensions.cs:257-276 | the lazy ValueOr with a constant factory equals the literal one; on Some it returns the value with any factory |
| OptionalExtensions.NoneWhenIsSomeWhenNegated | src/Hydrax.Functional/OptionalExtensions.cs:284-313 | NoneWhen(p) equals SomeWhen(not p); both leave None alone for any predicate |
| OptionalExtensions.FiltersAsFlatMap | src/Hydrax.Functional/OptionalExtensions.cs:303-313 | SomeWhen is a keep-or-drop FlatMap; SomeWhen and NoneWhen are idempotent |
| OptionalExtensions.ToResultIgnoresPayload | src/Hydrax.Functional/OptionalExtensions.cs:321-327 | ToResult is Success for Some and Failure for None, unchanged by a prior Map |
| OptionalExtensions.MapAsyncChained | src/Hydrax.Functional/OptionalExtensions.cs:187-194 | MapAsync(f).MapAsync(g) resolves to Map(g . f) |
| OptionalExtensions.MapChainComposes | src/Hydrax.Functional/OptionalExtensions.cs:147-157 | a chain of Maps of any length equals one Map of the stages applied in order |
| OptionalExtensions.MapAsyncChainResolves | src/Hydrax.Functional/OptionalExtensions.cs:187-194 | a chain of MapAsync of any length resolves to one Map of the stages awaited left to right |
| OptionalExtensions.Scenarios | src/Hydrax.Functional.Tests/Run/OptionalExtensionsTests.cs:294-500 | the tests' cases: "some" through "_1" and "_2" gives Some("some_1_2"); ValueOr on Some and None; a lazy default not called on Some; NoneWhen and SomeWhen on Some(100) and None with p > 50 and p < 50 |
| EitherExtensions.MapLeft | src/Hydrax.Functional/EitherExtensions.cs:120-128 | the side is preserved, a Left is transformed, a Right passes through; f need not be callable on a Right |
| EitherExtensions.MapRight | src/Hydrax.Functional/EitherExtensions.cs:136-144 | the side is preserved, a Right is transformed, a Left passes through; f need not be callable on a Left |
| EitherExtensions.FlatMapLeft | src/Hydrax.Functional/EitherExtensions.cs:220-228 | a Left(l) gives f(l), of either side; a Right passes through without calling f |
| EitherExtensions.FlatMapRight | src/Hydrax.Functional/EitherExtensions.cs:236-244 | a Right(r) gives f(r), of either side; a Left passes through without calling f |
| EitherExtensions.ValueLeftOr | src/Hydrax.Functional/EitherExtensions.cs:316-321 | the left payload on a Left, the default on a Right |
| EitherExtensions.ValueLeftOrLazy | src/Hydrax.Functional/EitherExtensions.cs:329-334 | the left payload on a Left, the factory's result on a Right; the factory is needed only on a Right |
| EitherExtensions.ValueRightOr | src/Hydrax.Functional/EitherExtensions.cs:342-347 | the right payload on a Right, the default on a Left |
| EitherExtensions.ValueRightOrLazy | src/Hydrax.Functional/EitherExtensions.cs:355-360 | the right payload on a Right, the factory's result on a Left; the factory is needed only on a Left |
| EitherExtensions.ToLeftOptional | src/Hydrax.Functional/EitherExtensions.cs:368-373 | has a value iff Left, and then holds the left payload |
| EitherExtensions.ToRightOptional | src/Hydrax.Functional/EitherExtensions.cs:381-386 | has a value iff Right, and then holds the right payload |
| EitherExtensions.ToLeftResult | src/Hydrax.Functional/EitherExtensions.cs:394-399 | success iff Left; a failure carries the right payload |
| EitherExtensions.ToRightResult | src/Hydrax.Functional/EitherExtensions.cs:407-412 | success iff Right; a failure carries the left payload |
| EitherExtensions.UnifyToValue | src/Hydrax.Functional/EitherExtensions.cs:420-423 | the payload of whichever side is present |
| EitherExtensions.MatchAsync | src/Hydrax.Functional/EitherExtensions.cs:90-96 | resolves to the synchronous Match over the awaited branches |
| EitherExtensions.MatchAsyncOnTask | src/Hydrax.Functional/EitherExtensions.cs:106-112 | awaits the Either first, then resolves as MatchAsync |
| EitherExtensions.MapLeftAsync | src/Hydrax.Functional/EitherExtensions.cs:152-160 | resolves to MapLeft with the awaited transform |
| EitherExtensions.MapRightAsync | src/Hydrax.Functional/EitherExtensions.cs:168-176 | resolves to MapRight with the awaited transform |
| EitherExtensions.MapLeftAsyncOnTask | src/Hydrax.Functional/EitherExtensions.cs:186-194 | resolves to MapLeft of the awaited Either with the awaited transform |
| EitherExtensions.MapRightAsyncOnTask | src/Hydrax.Functional/EitherExtensions.cs:204-212 | resolves to MapRight of the awaited Either with the awaited transform |
| EitherExtensions.FlatMapLeftAsync | src/Hydrax.Functional/EitherExtensions.cs:252-260 | resolves to FlatMapLeft with the awaited transform |
| EitherExtensions.FlatMapRightAsync | src/Hydrax.Functional/EitherExtensions.cs:268-276 | resolves to FlatMapRight with the awaited transform |
| EitherExtensions.FlatMapLeftAsyncOnTask | src/Hydrax.Functional/EitherExtensions.cs:286-292 | resolves to FlatMapLeft of the awaited Either |
| EitherExtensions.FlatMapRightAsyncOnTask | src/Hydrax.Functional/EitherExtensions.cs:302-308 | resolves to FlatMapRight of the awaited Either |
| EitherExtensions.MapLaws | src/Hydrax.Functional/EitherExtensions.cs:120-144 | identity and composition laws for MapLeft and for MapRight |
| EitherExtensions.SideIndependence | src/Hydrax.Functional/EitherExtensions.cs:120-144 | mapping the absent side changes nothing, even with an uncallable transform; MapLeft and MapRight commute |
| EitherExtensions.FlatMapLaws | src/Hydrax.Functional/EitherExtensions.cs:220-244 | same-side wrapping is a map, the constructor is a right identity, FlatMapLeft associates |
| EitherExtensions.FlatMapSwitchesSides | src/Hydrax.Functional/EitherExtensions.cs:220-244 | a flat-map function returning the other side switches the result's side |
| EitherExtensions.ValueOrViaOptional | src/Hydrax.Functional/EitherExtensions.cs:316-360 | ValueLeftOr/ValueRightOr equal the Optional projection followed by ValueOr; lazy forms agree and need the factory only on the other side |
| EitherExtensions.ProjectionsAreComplementary | src/Hydrax.Functional/EitherExtensions.cs:368-412 | exactly one Optional projection has a value; the two Result projections have opposite outcomes |
| EitherExtensions.ConversionsCommute | src/Hydrax.Functional/EitherExtensions.cs:394-412 | Either to Result, seen as a plain Result, equals Either to Optional followed by ToResult |
| EitherExtensions.UnifyIsNatural | src/Hydrax.Functional/EitherExtensions.cs:420-423 | UnifyToValue is ValueLeftOr with the right payload as default, and commutes with mapping both sides |
| EitherExtensions.MapLeftAsyncChained | src/Hydrax.Functional/EitherExtensions.cs:186-194 | MapLeftAsync(f).MapLeftAsync(g) on Left(v) resolves to Left(g(f(v))) |
| EitherExtensions.MapLeftAsyncChainResolves | src/Hydrax.Functional/EitherExtensions.cs:186-194 | a chain of MapLeftAsync of any length resolves to one MapLeft of the stages awaited left to right |
| EitherExtensions.MapRightAsyncChainResolves | src/Hydrax.Functional/EitherExtensions.cs:204-212 | a chain of MapRightAsync of any length resolves to one MapRight of the stages awaited left to right |
| EitherExtensions.Scenarios | src/Hydrax.Functional.Tests/Run/EitherExtensionsTests.cs:126-492 | the tests' cases: Left("test") mapped gives Left("test_mapped") and Right("test") is untouched; Right("test") flat-mapped to Left(100) is Left(100); ToLeftResult(Right("test")) is Failure("test"); renderings "Left(test)" and "Right(test)" |
| ResultExtensions.ToFailure | src/Hydrax.Functional/ResultExtensions.cs:13-16 | the `Failure` extension gives a failure whose payload is the value |
| ResultExtensions.MapFailure | src/Hydrax.Functional/ResultExtensions.cs:177-184 | outcome preserved; a failure gets payload f(); f need not be callable on success |
| ResultExtensions.MapFailureOf | src/Hydrax.Functional/ResultExtensions.cs:192-199 | outcome preserved; Failure(e) becomes Failure(f(e)); f need not be callable on success |
| ResultExtensions.FlatMapFailure | src/Hydrax.Functional/ResultExtensions.cs:265-270 | success stays success; failure is replaced by g() |
| ResultExtensions.FlatMapFailureOf | src/Hydrax.Functional/ResultExtensions.cs:278-283 | success stays success; Failure(e) is replaced by g(e) |
| ResultExtensions.MatchAsync | src/Hydrax.Functional/ResultExtensions.cs:134-140 | resolves to the synchronous plain Match over the awaited branches |
| ResultExtensions.MatchAsyncOf | src/Hydrax.Functional/ResultExtensions.cs:163-169 | resolves to the synchronous payload Match over the awaited branches |
| ResultExtensions.MapFailureAsync | src/Hydrax.Functional/ResultExtensions.cs:207-214 | resolves to MapFailure with the awaited factory |
| ResultExtensions.MapFailureAsyncOf | src/Hydrax.Functional/ResultExtensions.cs:222-229 | resolves to MapFailure with the awaited transform |
| ResultExtensions.MapFailureAsyncOnTask | src/Hydrax.Functional/ResultExtensions.cs:237-243 | resolves to MapFailure of the awaited Result |
| ResultExtensions.MapFailureAsyncOfOnTask | src/Hydrax.Functional/ResultExtensions.cs:251-257 | resolves to MapFailure of the awaited Result with the awaited transform |
| ResultExtensions.FlatMapFailureAsync | src/Hydrax.Functional/ResultExtensions.cs:291-298 | resolves to FlatMapFailure with the awaited function |
| ResultExtensions.FlatMapFailureAsyncOf | src/Hydrax.Functional/ResultExtensions.cs:306-313 | resolves to FlatMapFailure with the awaited function |
| ResultExtensions.FlatMapFailureAsyncOnTask | src/Hydrax.Functional/ResultExtensions.cs:321-327 | resolves to FlatMapFailure of the awaited Result |
| ResultExtensions.FlatMapFailureAsyncOfOnTask | src/Hydrax.Functional/ResultExtensions.cs:335-341 | resolves to FlatMapFailure of the awaited Result with the awaited function |
| ResultExtensions.MapFailureLaws | src/Hydrax.Functional/ResultExtensions.cs:192-199 | identity and composition laws; a success is untouched even by an uncallable transform, in both forms |
| ResultExtensions.FlatMapFailureLaws | src/Hydrax.Functional/ResultExtensions.cs:278-283 | failure-wrapping is a map, FailureOf is a right identity, a failure is a left identity, flattening associates |
| ResultExtensions.PlainFormsOnBaseView | src/Hydrax.Functional/ResultExtensions.cs:177-184 | on a `Result<F>` seen as a plain Result, the plain MapFailure/FlatMapFailure equal the payload forms that ignore the payload |
| ResultExtensions.MapFailureAsyncChained | src/Hydrax.Functional/ResultExtensions.cs:251-257 | MapFailureAsync(f).MapFailureAsync(g) on Failure(e) resolves to Failure(g(f(e))) |
| ResultExtensions.MapFailureAsyncChainResolves | src/Hydrax.Functional/ResultExtensions.cs:251-257 | a chain of MapFailureAsync of any length leaves a success a success and turns Failure(e) into Failure of e passed through every stage, awaited left to right |
| ResultExtensions.FlatMapFailureAsyncChainResolves | src/Hydrax.Functional/ResultExtensions.cs:335-341 | a chain of FlatMapFailureAsync of any length resolves to the same sequence of synchronous FlatMapFailure calls |
| ResultExtensions.FlatMapFailureAllKeepsSuccess | src/Hydrax.Functional/ResultExtensions.cs:278-283 | once a chain has succeeded no later FlatMapFailure stage changes it |
| ResultExtensions.Scenarios | src/Hydrax.Functional.Tests/Run/ResultExtensionsTests.cs:285-476 | the tests' cases: Failure("test") mapped gives Failure("test_mapped"); a plain failure given "test" and then mapped gives Failure("test_mapped"); chained async map and flat-map of "test" give Failure("test_mapped_mapped"); rendering "Failure(test)" |
| OptionalExtensionsUnsafe.ValueOrThrow | src/Hydrax.Functional/Unsafe/OptionalExtensionsUnsafe.cs:14-19 | on a Some, returns the value v with Some(v) equal to the input; None is excluded by the precondition |
| OptionalExtensionsUnsafe.ValueOrThrowWith | src/Hydrax.Functional/Unsafe/OptionalExtensionsUnsafe.cs:28-33 | returns iff a value is present, and then the value; otherwise raises the caller's exception object (a null one is covered under Left out) |
| OptionalExtensionsUnsafe.ValueOrThrowLazy | src/Hydrax.Functional/Unsafe/OptionalExtensionsUnsafe.cs:42-47 | returns the value iff present; otherwise raises the exception the factory returns (a null one is covered under Left out); the factory is needed only on None |
| OptionalExtensionsUnsafe.ValueOrThrowInvertsSome | src/Hydrax.Functional/Unsafe/OptionalExtensionsUnsafe.cs:14-16 | ValueOrThrow(Some(v)) == v, and on a Some it agrees with ValueOr for every default |
| OptionalExtensionsUnsafe.OverloadsAgree | src/Hydrax.Functional/Unsafe/OptionalExtensionsUnsafe.cs:28-47 | the lazy overload with a constant factory equals the literal one; on Some any factory works; returned values agree with ValueOrThrow |
| OptionalExtensionsUnsafe.SomeOfNullExtractsNull | src/Hydrax.Functional.Tests/Run/OptionalExtensionsTests.cs:32-38 | Some of a null value has a value and extracting it gives null |
| OptionalExtensionsUnsafe.ValueOrThrowAfterMap | src/Hydrax.Functional.Tests/Run/OptionalExtensionsTests.cs:207-213 | extracting Map(Some(v), f) gives f(v) |
| EitherExtensionsUnsafe.LeftValueOrThrow | src/Hydrax.Functional/Unsafe/EitherExtensionsUnsafe.cs:13-18 | on a Left, returns the payload v with Left(v) equal to the input; a Right is excluded by the precondition |
| EitherExtensionsUnsafe.RightValueOrThrow | src/Hydrax.Functional/Unsafe/EitherExtensionsUnsafe.cs:25-30 | on a Right, returns the payload v with Right(v) equal to the input; a Left is excluded by the precondition |
| EitherExtensionsUnsafe.ExtractorsInvertConstructors | src/Hydrax.Functional/Unsafe/EitherExtensionsUnsafe.cs:13-30 | the extractors invert Left and Right and agree with ValueLeftOr/ValueRightOr on the present side |
| EitherExtensionsUnsafe.UnifyIsExtraction | src/Hydrax.Functional/EitherExtensions.cs:420-423 | UnifyToValue extracts whichever side is present |
| EitherExtensionsUnsafe.ExtractAfterMapLeft | src/Hydrax.Functional.Tests/Run/EitherExtensionsTests.cs:126-144 | LeftValueOrThrow(MapLeft(Left(v), f)) == f(v) and RightValueOrThrow(MapLeft(Right(r), f)) == r |
| ResultExtensionsUnsafe.FailureValueOrThrow | src/Hydrax.Functional/Unsafe/ResultExtensionsUnsafe.cs:13-18 | on a failure, returns the payload v with Failure(v) equal to the input; a success is excluded by the precondition |
| ResultExtensionsUnsafe.FailureValueOrThrowInvertsFailure | src/Hydrax.Functional/Unsafe/ResultExtensionsUnsafe.cs:13-15 | FailureValueOrThrow inverts the Failure factory and the Failure extension |
| ResultExtensionsUnsafe.ExtractAfterMapFailure | src/Hydrax.Functional.Tests/Run/ResultExtensionsTests.cs:285-291 | FailureValueOrThrow(MapFailure(Failure(e), g)) == g(e) |
| ResultExtensionsUnsafe.ExtractAfterEitherConversion | src/Hydrax.Functional.Tests/Run/EitherExtensionsTests.cs:482-514 | FailureValueOrThrow(ToLeftResult(Right(r))) == r and FailureValueOrThrow(ToRightResult(Left(l))) == l |

## Left out

- Action overloads of `Match` (OptionalExtensions.cs:51-64, EitherExtensions.cs:36-54, ResultExtensions.cs:24-38 and 69-86) and the `MatchAsync` forms that take `Func<Task>` and return a bare `Task` (OptionalExtensions.cs:98-104, ResultExtensions.cs:119-125 and 148-154). They exist only for caller side effects. The value-returning `Match` overloads carry the same dispatch.
- The extension factories `Some`, `Left` and `Right` (OptionalExtensions.cs:13-16, EitherExtensions.cs:13-26). Each only forwards to the static factory, so both are the datatype constructors here.
- Task scheduling: suspension, interleaving, cancellation and faults that propagate through `await`. A task is an already-completed value. The model therefore captures what each async form resolves to and the left-to-right order of chained stages, but not when each stage runs.
- Exceptions. The model keeps neither the exception types nor their messages. An extractor without an exception argument has a precondition in place of its throw. The overloads with a caller-supplied exception return `Raised(fault)`.
- String formatting of payloads (`$"{value}"`). It is the `show` parameter.
- The reference-type constraint and null test of `SomeNotNull`. They are the `isNull` parameter.
- `default(T)` is a parameter rather than the runtime's default value.
- Results.ResultOf.AsResult: the view drops the virtual `ToString` override. In the program, a `Result<TFailure>` held through a `Result` reference still renders as "Failure(<payload>)" (Result.cs:74-77). The model gives that rendering only through `ToStringOf`, and `ToString` of the view prints "Failure". The view is sound for `Match`, `MapFailure` and `FlatMapFailure`, which are dispatched statically.
- OptionalExtensionsUnsafe.ValueOrThrowWith: when the caller passes a null exception, `throw` raises a `NullReferenceException`. The model returns `Raised(ex)` with the caller's value, because it has no null and no runtime exception types.
- OptionalExtensionsUnsafe.ValueOrThrowLazy: when the factory returns null, the program throws a `NullReferenceException`. The model returns `Raised` with the factory's value.
- ResultExtensionsUnsafe.FailureValueOrThrow and the ResultExtensions combinators: `Result` and `Result<TFailure>` are classes, so a null receiver makes each of them throw a `NullReferenceException`. The datatypes have no null value, so that case is not modelled.
- Currying, partial application and identity helpers (FuncExtensions.Currying.cs, FuncExtensions.Partial.cs, CurryExtensions.cs, HxF.Func.cs, HxF.ToFunc.cs, Functions.cs) are not part of this model. They are single lambdas with no state.
- The `Union` types are not part of this model.
