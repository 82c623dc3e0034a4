/** Small value wrappers shared by the other modules. */
module Common {

  /** A value that may be absent: stands for a Java field that may hold null. */
  datatype Option<+T> = None | Some(value: T)

  /** Either a value or the exception the Java code would throw. */
  datatype Result<+R, +E> = Success(value: R) | Failure(error: E)
}
