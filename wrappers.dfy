/** Option, exceptions and results shared by every module of the model. */
module Wrappers {

  datatype Option<+T> = None | Some(value: T)

  /** The kinds of exception the modelled PHP code raises or catches. */
  datatype ExceptionKind =
    | ModelNotFound      // Illuminate\Database\Eloquent\ModelNotFoundException (firstOrFail on a query)
    | ItemNotFound       // Illuminate\Support\ItemNotFoundException (firstOrFail on a collection)
    | InvalidArgument    // \InvalidArgumentException
    | DivisionByZero     // Brick\Math\Exception\DivisionByZeroException
    | Runtime            // \RuntimeException
    | Http               // Illuminate\Http\Client\RequestException and other transport failures
    | Query              // Illuminate\Database\QueryException: the database refused the statement
    | Generic            // \Exception

  datatype Exception = Exception(kind: ExceptionKind, message: string)

  /** A value, or the exception that was thrown instead of returning it. */
  datatype Result<+T> = Ok(value: T) | Err(error: Exception)
}
