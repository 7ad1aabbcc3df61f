/** Shared vocabulary: Go's nil-or-value results, the fixed-width integers the
    wire types are built from, and the error values the proxy reports. */
module Common {

  /** A value or nothing; also stands for Go's `error` (None is nil). Usable with `:-`. */
  datatype Option<+T> = None | Some(value: T) {

    predicate IsFailure() {
      None?
    }

    function PropagateFailure<U>(): (r: Option<U>)
      requires None?
    {
      None
    }

    function Extract(): (r: T)
      requires Some?
    {
      value
    }
  }

  type byte = x: int | 0 <= x < 0x100
  type uint16 = x: int | 0 <= x < 0x1_0000
  type int32 = x: int | -0x8000_0000 <= x < 0x8000_0000
  type int64 = x: int | -0x8000_0000_0000_0000 <= x < 0x8000_0000_0000_0000

  /** A player or sender UUID: exactly 16 bytes, written without a length prefix. */
  type Uuid = s: seq<byte> | |s| == 16
    witness [0, 0, 0, 0, 0, 0, 0, 0, 0, 0, 0, 0, 0, 0, 0, 0]

  const NilUuid: Uuid := [0, 0, 0, 0, 0, 0, 0, 0, 0, 0, 0, 0, 0, 0, 0, 0]

  /** Go's int32 arithmetic: the result of an int32 operation is the true
      result reduced modulo 2^32 into [-2^31, 2^31). */
  function Wrap32(x: int): (r: int32)
    ensures (x - r) % 0x1_0000_0000 == 0
    ensures -0x8000_0000 <= x < 0x8000_0000 ==> r == x
  {
    (x + 0x8000_0000) % 0x1_0000_0000 - 0x8000_0000
  }

  /** The errors the modelled code returns. `Malformed` is whatever error the
      connection's packet decoder reports for a packet it cannot decode. */
  datatype Error =
    | WriteFailed
    | ReadFailed
    | Malformed
    | DecodingLoginSuccess
    | DecodingCompression
    | OnlineModeUnsupported
    | NotImplemented

  /** How a Go call ends: it returns an error value (nil is None), or it panics. */
  datatype Outcome = Returned(err: Option<Error>) | Panicked(message: string)

  function Min(a: int, b: int): (r: int) {
    if a <= b then a else b
  }
}
