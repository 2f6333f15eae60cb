/** Option, error codes and results shared by every layer of the model.
    `Code` names the gRPC status codes the services return. */
module Wrappers {

  datatype Option<+T> = None | Some(value: T)

  /** The gRPC status codes that the modelled services and interceptors produce; a plain Go error
      returned through gRPC unchanged surfaces as Unknown. */
  datatype Code =
    | InvalidArgument
    | NotFound
    | AlreadyExists
    | PermissionDenied
    | Unauthenticated
    | FailedPrecondition
    | Internal
    | Unknown

  /** A value or a status error. */
  datatype Result<+T> = Ok(value: T) | Err(code: Code)

  /** A call that returns only `error` in Go: nil (Pass) or a status error. */
  datatype Outcome = Pass | Fail(code: Code)

  /** Go's int32. */
  type Int32 = x: int | -0x8000_0000 <= x < 0x8000_0000

  /** Two's-complement wrap-around of an int32 arithmetic result. */
  function Wrap32(x: int): (r: Int32)
    ensures -0x8000_0000 <= x < 0x8000_0000 ==> r == x
    ensures (r - x) % 0x1_0000_0000 == 0
    ensures x >= 0 ==> r <= x
  {
    (x + 0x8000_0000) % 0x1_0000_0000 - 0x8000_0000
  }

  /** Go's integer division by a positive divisor, which truncates toward zero
      (Dafny's `/` rounds down for a negative dividend). */
  function GoDiv(a: int, b: int): (q: int)
    requires b > 0
    ensures a >= 0 ==> q == a / b
  {
    if a >= 0 then a / b else -((-a) / b)
  }
}
