/** Option and Result as used by the conversion layer. */
module Wrappers {

  datatype Option<+T> = None | Some(value: T)

  /** Why a lift from a foreign code failed.
      RangeCheckFailed: the code lies outside the domain's inclusive bounds; the
        source panics at the `assert!` of `try_from` instead of returning an error.
      NoSuchVariant: the code passed the range check but no variant carries it;
        the source goes on to `transmute` it into an enum value that does not
        exist, which is undefined behaviour rather than a reported error. */
  datatype Failure = RangeCheckFailed | NoSuchVariant

  /** The outcome of a conversion: a value, or a failure with no partial value. */
  datatype Result<+T> = Ok(value: T) | Err(failure: Failure) {

    predicate IsFailure() {
      Err?
    }

    function PropagateFailure<U>(): Result<U>
      requires Err?
    {
      Err(failure)
    }

    function Extract(): T
      requires Ok?
    {
      value
    }
  }
}
