/** Option and Result: Java's null references and thrown exceptions, as values. */
module Wrappers {

  /** `None` stands for a Java `null` reference. */
  datatype Option<+T> = None | Some(value: T)
  {
    function GetOr(default: T): T
    {
      match this
      case Some(v) => v
      case None => default
    }
  }

  /** `Err` carries the message of the exception the Java code throws. */
  datatype Result<+T> = Ok(value: T) | Err(error: string)
}
