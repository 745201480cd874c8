/// Option, Result and the error kinds the endpoint's Java code can raise.
module Base {

  datatype Option<+T> = None | Some(value: T) {
    function GetOr(default: T): T
    {
      match this
      case Some(v) => v
      case None => default
    }
  }

  /** The exceptions the modelled Java code raises. */
  datatype Error =
    | NullDeref                   // a NullPointerException: a method called on, or an unboxing of, null
    | ClassCast                   // a cast of a JSON value to a type it does not have
    | IllegalArgument(msg: string)
    | ParseFailure                // a java.text.ParseException

  datatype Result<+T> = Ok(value: T) | Err(error: Error) {
    predicate IsFailure() { Err? }

    function PropagateFailure<U>(): Result<U>
      requires Err?
    {
      Err(error)
    }

    function Extract(): T
      requires Ok?
    {
      value
    }
  }
}
