/** The type codes of the tuple encoding, the errors of its two directions, and its output buffer. */
module TupleCodes {
  import opened ByteStrings
  import opened Wrappers

  const NIL: byte := 0x00
  const BYTES: byte := 0x01
  const STRING: byte := 0x02
  const NESTED: byte := 0x05
  const NEGINTSTART: byte := 0x0b
  const INTZERO: byte := 0x14
  const POSINTEND: byte := 0x1d
  const FLOAT: byte := 0x20
  const DOUBLE: byte := 0x21
  const FALSE: byte := 0x26
  const TRUE: byte := 0x27
  const UUID: byte := 0x30
  const VERSIONSTAMP: byte := 0x33
  const ESCAPE: byte := 0xff

  datatype PackError =
    | Message
    | TrailingBytes
    | MissingBytes
    | BadStringFormat
    | BadCode(found: byte, expected: Option<byte>)
    | BadPrefix
    | UnsupportedIntLength

  /** Packing fails only on data too long for its length field. */
  datatype IoError = InvalidData | InvalidInput

  type Parsed<+T> = Result<(bytes, T), PackError>

  /** A byte vector being written to. */
  class Buffer {
    var data: bytes

    constructor (initial: bytes)
      ensures data == initial
    {
      data := initial;
    }

    method WriteAll(b: bytes)
      modifies this
      ensures data == old(data) + b
    {
      data := data + b;
    }
  }

  function ParseBytes(input: bytes, num: nat): Parsed<bytes> {
    if |input| < num then Err(MissingBytes) else Ok((input[num..], input[..num]))
  }

  function ParseByte(input: bytes): Parsed<byte> {
    if input == [] then Err(MissingBytes) else Ok((input[1..], input[0]))
  }

  function ParseCode(input: bytes, expected: byte): Result<bytes, PackError> {
    var (rest, found) :- ParseByte(input);
    if found == expected then Ok(rest) else Err(BadCode(found, Some(expected)))
  }
}
