/** The crate's error kinds (`EjdbError`) and its `Result` alias. Engine
    return codes are carried as `u64` and never reinterpreted beyond
    zero / non-zero. */
module Errors {
  import opened Types

  datatype EjdbError =
    | InitError(rc: u64)
    | OpenError(rc: u64, file: seq<byte>)
    | AllocError
    | InvalidJson(rc: u64)
    | Utf8Error
    | Generic(rc: u64)
    | JqlParseError(rc: u64, message: seq<byte>)
    | IoError(io: IoFailure)
    | Panic(payload: string)
    | Other(reason: string)

  /** A `std::io::Error`: either an operating-system failure code or a
      crate error wrapped with kind `Other` (as the `Write` impl of the
      byte buffer does). */
  datatype IoFailure =
    | Os(code: nat)
    | Wrapped(cause: EjdbError)

  datatype Result<T> = Ok(value: T) | Err(error: EjdbError) {
    predicate IsFailure() {
      Err?
    }

    function PropagateFailure<U>(): Result<U>
      requires Err?
    {
      Err(error)
    }

    function Extract(): T
      requires Ok?
    {
      value
    }

    /** `Result::map` */
    function Map<U>(f: T -> U): (r: Result<U>)
      ensures Ok? ==> r == Ok(f(value))
      ensures Err? ==> r == Err(error)
    {
      match this
      case Ok(v) => Ok(f(v))
      case Err(e) => Err(e)
    }

    /** `Result::and(Ok(v))`: keeps an error, otherwise replaces the value. */
    function AndOk<U>(v: U): (r: Result<U>)
      ensures Ok? ==> r == Ok(v)
      ensures Err? ==> r == Err(error)
    {
      match this
      case Ok(_) => Ok(v)
      case Err(e) => Err(e)
    }
  }
}
