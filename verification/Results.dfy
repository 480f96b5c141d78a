/** Exceptions of the QR Code encoder as values. */
module Results {
  import opened Basics

  datatype Error =
    | DomainError
    | InvalidArgument
    | LengthError
    | DataTooLong
    | LogicError

  type Result<+T> = Outcome<T, Error>
}
