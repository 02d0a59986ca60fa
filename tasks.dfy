/** The deferred-execution primitive that the async combinators build on,
    reduced to what can be observed once a task has completed: its value.
    Scheduling, suspension and faults are not part of this model. */
module Tasks {

  /** A task that has already run to completion with `result`. */
  datatype Task<X> = Done(result: X)

  /** `Task.FromResult`: a completed task holding an already-known value. */
  function FromResult<X>(x: X): Task<X>
  {
    Done(x)
  }

  /** `await`: the value a completed task yields. */
  function Await<X>(t: Task<X>): X
  {
    t.result
  }

  /** The stages of an async chain awaited one after another, each fully
      resolved before the next starts. */
  function ResolveAll<X>(fs: seq<X -> Task<X>>, x: X): X
    decreases |fs|
  {
    if |fs| == 0 then x else ResolveAll(fs[1..], Await(fs[0](x)))
  }
}
