/** Results shared by the models of fallible and interruptible code. */
module Outcomes {

  datatype Option<+T> = None | Some(value: T)

  datatype Result<+T> = Success(value: T) | Failure {
    predicate IsFailure() {
      Failure?
    }

    function PropagateFailure<U>(): Result<U>
      requires Failure?
    {
      Failure
    }

    function Extract(): T
      requires Success?
    {
      value
    }
  }

  /** What one durable or external action did: it finished, it reported an error, or
      the whole process stopped there. `:-` propagates both bad cases, as `?` and a
      crash do. */
  datatype Outcome<+T> = Done(value: T) | Error | Crashed {
    predicate IsFailure() {
      !Done?
    }

    function PropagateFailure<U>(): Outcome<U>
      requires !Done?
    {
      if Error? then Error else Crashed
    }

    function Extract(): T
      requires Done?
    {
      value
    }
  }
}
