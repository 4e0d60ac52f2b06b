/** Go strings are byte strings. A byte is modelled as a character whose code
    is below 256, so that document numbers can be written as string literals;
    non-ASCII text appears as its UTF-8 bytes, one character per byte. */
module Bytes {

  type Byte = c: char | c as int < 256

  type ByteString = seq<Byte>

  /** Go's `b - k` on two values of type byte, converted with `int(...)`:
      uint8 subtraction wraps around, so the result is never negative. */
  function WrapSub(b: Byte, k: Byte): (r: int)
    ensures 0 <= r < 256
    ensures b >= k ==> r == b as int - k as int
    ensures b < k ==> r == b as int - k as int + 256
  {
    (b as int - k as int) % 256
  }

  /** The byte with the given code. */
  function FromCode(n: int): (b: Byte)
    requires 0 <= n < 256
    ensures b as int == n
  {
    n as char
  }
}

/** The error values of the package and a Result type for its
    two-valued `(T, error)` returns. */
module Errors {

  datatype Error =
    | ErrInvalidCPF
    | ErrInvalidCNPJ
    | ErrInvalidCNH
    | ErrInvalidCNS
    | ErrInvalidPlate
    | ErrInvalidUF
    | ErrInvalidCEP
    | ErrInvalidSerializedAddress(reason: SerializedAddressFault)

  /** Why `Address.Deserialize` refused its input, with the detail its
      message carries: the number of parts, or the offending part. */
  datatype SerializedAddressFault =
    | InvalidLength(parts: nat)
    | UnknownUF(uf: seq<char>)
    | InvalidCEPPart(cep: seq<char>)

  datatype Result<+T> = Ok(value: T) | Err(error: Error)

  datatype Option<+T> = None | Some(value: T)
}
