/** Values shared by every layer of the reader: bytes, the error taxonomy of
    `ReadError` and the `Result` every fallible read returns. */
module Errors {

  newtype byte = x: int | 0 <= x < 256

  datatype Option<+T> = None | Some(value: T)

  /** The failures a read can report. `Utf8Error` carries the bytes that were
      handed to the UTF-8 decoder and rejected by it. */
  datatype ReadError =
    | NotEnoughData(requested: nat, available: nat)
    | TooManyBits(requested: nat, max: nat)
    | IndexOutOfBounds(pos: nat, size: nat)
    | Utf8Error(bytes: seq<byte>)

  /** Either the value read or the error; usable with `:-`. */
  datatype Result<+T> = Ok(value: T) | Err(error: ReadError) {

    predicate IsFailure() {
      Err?
    }

    function PropagateFailure<U>(): Result<U>
      requires Err?
    {
      Err(error)
    }

    function Extract(): T
      requires Ok?
    {
      value
    }
  }
}
