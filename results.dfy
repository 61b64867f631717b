/** The two exception classes the AHP engine can raise, as values. */
module Results {

  /** `ZeroDivisionError` and `IndexError` of the source. */
  datatype Error = DivisionByZero | IndexOutOfRange

  datatype Result<T> = Ok(value: T) | Err(error: Error)
}
