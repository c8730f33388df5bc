/** Option and Result values standing for Java's null and for thrown exceptions. */
module Wrappers {

  datatype Option<+T> = None | Some(value: T) {
    /** Java's `x != null ? x : d` */
    function GetOr(default: T): T {
      match this
      case Some(v) => v
      case None => default
    }
  }

  /** The exceptions the services throw and the REST layer turns into 400/404 responses. */
  datatype Error =
    | BadRequest(message: string)
    | ResourceNotFound(resource: string, id: int)

  datatype Result<+T> = Success(value: T) | Failure(error: Error)
}
