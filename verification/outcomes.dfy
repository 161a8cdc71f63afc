/**
 Optional values and the failure results that stand in for the exceptions the
 cargo subsystem throws. Every member of the model that can fail returns the
 new state inside `Ok`; on `Err` the caller keeps its previous value, which
 is how "nothing changes when an exception is thrown" reads in value
 semantics. Members that cannot fail return the new state bare.
 */
module Outcomes {

  datatype Option<+T> = None | Some(value: T)

  /**
   One constructor per exception class the core throws. The two classes named
   `NotEnoughLoadError` are distinct: the merchandise one comes from `split`
   (and so from a car's `load`), the car one from `unLoad`. The three train
   error classes are declared but never thrown (their checks are TODOs), so
   they have no constructor.
   */
  datatype Error =
    | NotSameMerch    // two loads of different merchandise
    | NotEnoughLoad   // merchandises::NotEnoughLoadError: more split out than a load holds
    | NotEnoughInCar  // cars::NotEnoughLoadError: more unloaded than a car holds
    | DestroyedCar    // capacity query or mutation on a car with health <= 0
    | EmptyCar        // content queried on an empty car (IsEmptyError)
    | CannotLoad      // canLoad said no
    | NotEnoughSpace  // more put in than the car has room for

  datatype Result<+T> = Ok(value: T) | Err(error: Error) {

    predicate IsFailure() {
      Err?
    }

    function PropagateFailure<U>(): Result<U>
      requires Err?
    {
      Err(error)
    }

    function Extract(): T
      requires Ok?
    {
      value
    }
  }
}
