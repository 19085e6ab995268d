/** Option and Result values for the nullable returns and the exceptions of the application. */
module Wrappers {

  /** A Kotlin nullable value: `null` is None. */
  datatype Option<+T> = None | Some(value: T) {
    function GetOr(default: T): T {
      match this
      case Some(v) => v
      case None => default
    }
  }

  /** The exceptions the modelled code can raise. */
  datatype Error =
    | NoSuchConstant(name: string)   // IllegalArgumentException from an enum's valueOf
    | MalformedJson(text: string)    // SerializationException from decoding the team list

  /** The outcome of a call that may throw. */
  datatype Result<+T> = Ok(value: T) | Err(error: Error)
}
