/** Option, Result and the error kinds that the backend raises. */
module Wrappers {

  datatype Option<+T> = None | Some(value: T) {
    /** JavaScript's `x ?? d` for a value that may be null or undefined. */
    function GetOr(default: T): T {
      match this
      case Some(v) => v
      case None => default
    }
  }

  /**
   * The exceptions that reach a service or a handler. The first three are the
   * application's own error classes (Error404, Error400, Error403); the others
   * are raised by Mongoose, MongoDB, bcrypt, node's `assert` or the JavaScript
   * runtime itself.
   */
  datatype Error =
    | NotFound                          // Error404
    | BadRequest(message: string)       // Error400
    | Forbidden                         // Error403
    | CastError                         // a value that is not a valid ObjectId
    | ValidationError                   // a schema validator refused an insert
    | DuplicateKey                      // a unique index refused an insert or update
    | QueryRejected                     // MongoDB refused the query itself
    | TypeError                         // a property read on null or undefined
    | AssertionError(message: string)   // node's assert
    | HashError                         // bcrypt refused its arguments

  datatype Result<+T> = Ok(value: T) | Err(error: Error) {
    predicate IsFailure() { Err? }
    function PropagateFailure<U>(): Result<U>
      requires Err?
    {
      Err(error)
    }
    function Extract(): T
      requires Ok?
    {
      value
    }
  }
}
