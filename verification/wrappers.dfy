/** Small failure-carrying datatypes shared by the service models. */
module Wrappers {

  /** A Java reference that may be null: `None` stands for null. */
  datatype Option<+T> = None | Some(value: T)

  /** The outcome of a call that either returns a value or throws an exception.
      Remote SDK calls, whose behaviour lies outside this model, are given to the
      model as values of this type. */
  datatype Call<+T> = Returned(value: T) | Threw

  /** A check that passes or fails with an error value. */
  datatype Outcome<+E> = Pass | Fail(error: E)
}
