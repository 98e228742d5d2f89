# BitStream cursor model

A Dafny model of the cursor layer of the `bitstream_reader` crate, together
with the typed-dispatch layer on top of it.

`BitStream` is a small state machine over a bit-addressable `BitBuffer`. It
holds:
- the buffer;
- an absolute window origin `start_pos`;
- an absolute cursor `pos`.

Every read delegates to the buffer at `pos` and then moves the cursor by a
rule specific to that read. The rules differ from one read to the next:

| call | how the cursor moves |
|---|---|
| `read_bool` | by 1, on success only |
| `read_float` | by the float's width, on success only |
| `read_bytes` | by `8 * n`, on success only |
| `read_int` | by the requested width, whether or not the read succeeded |
| `read_string` | also moves on a UTF-8 error, by an amount that depends on the mode |
| `skip_bits` | by the requested count, with no bounds check |

`read_bits` and `clone` fork new streams over the same bytes, each with a
window of its own. The dispatch layer maps each primitive type to exactly one
stream call:
- `Read` uses the type's own width;
- `ReadSize` uses a width or byte length that the caller gives.

The model has five modules, one per file:

| module | file | contents |
|---|---|---|
| `Errors` | `errors.dfy` | bytes, `Option`, the `ReadError` variants and the `Result` used with `:-` |
| `Buffer` | `buffer.dfy` | `BitBuffer` as a value (bytes plus a length in bits), its reads and `get_sub_buffer` |
| `Stream` | `stream.dfy` | the class `BitStream` |
| `Read` | `read.dfy` | the dispatch table |
| `DocExamples` | `examples.dfy` | the documented examples, and two scenarios built from the code, written as clients |

More detail on the modules:
- **`Buffer`.** Its reads are pure functions of an absolute bit position. Each states when it fails and which error it returns. They extract bits little-endian:
  - bit `i` is bit `i % 8` of byte `i / 8`;
  - earlier bits are less significant.

  This is the order the documented examples fix.
- **`Stream`.** `BitStream` has the fields `buffer`, `startPos` and `pos`:
  - every cursor-moving method has `modifies this\`pos`, and its postcondition gives the new cursor in terms of the old one;
  - the accessors `Pos`, `BitLen` and `BitsLeft` are functions on the class.
- **`Read`.** Each dispatch method takes a type tag and the stream, and is specified by the stream call it makes.
- **`DocExamples`.** Each method builds a stream over the example bytes, makes the documented calls, and promises the documented values and positions. `CloneExample` and `FailedReadIntExample` have no documented example: they are scenarios built from the code of `clone` (src/stream.rs:590-598) and `read_int` (src/stream.rs:136-138).

Facts about the code that shape the model:
- **The cursor may pass the end.** After `skip_bits` past the end (src/stream.rs:373), or after a `read_int` that fails with `NotEnoughData` because its width runs past the end (src/stream.rs:137), `pos > bit_len`. (A `read_int` that fails with `TooManyBits` also moves the cursor, but not necessarily past the end.) So, of the cursor's bounds, `BitStream.Valid` keeps only `startPos <= pos`, besides the buffer's own `bitLen <= 8 * |bytes|`. `BitsLeft` and `BitLen` require the bound they need, because beyond it the code's subtractions underflow (src/stream.rs:434-436, 484-486).
- **A failed `read_int` still moves the cursor.** `read_bool`, `read_float` and `read_bytes` move the cursor only on success. `read_int` adds `count` whether or not the read succeeded (src/stream.rs:136-138). `DocExamples.FailedReadIntExample` shows this.
- **How far a UTF-8 error moves the cursor.** After a UTF-8 error, a null-terminated read advances by `(as_bytes().len() + 1) * 8` (src/stream.rs:291). The model's `Utf8Error` carries every byte handed to the decoder, that is all bytes before the terminator. So the cursor lands just past the terminator, as it does on success.
- **`skip_bits` never fails.** Its doc comment lists `NotEnoughData` for a skip past the end (src/stream.rs:347-349). The code always returns `Ok` (src/stream.rs:372-375). The model follows the code: `SkipBits` ensures `r == Ok(())`.

## Model

| member | source | states |
|---|---|---|
| Buffer.FromBytes | src/stream.rs:19-24 | a buffer built from bytes covers all their bits: `bitLen` is eight times the number of bytes |
| Buffer.ReadBool | src/stream.rs:66-86 | the bit read succeeds iff `pos < bitLen`, yields the bit at `pos`, and otherwise fails with `NotEnoughData` |
| Buffer.ReadInt | src/stream.rs:102-123 | succeeds iff `count <= capacity` and `pos + count <= bitLen`; the value is below `2^count`; `TooManyBits{count, capacity}` when the width is too large, else `NotEnoughData` |
| Buffer.ReadFloat | src/stream.rs:151-188 | a float read is an integer read of exactly 32 or 64 bits, so it can fail only with `NotEnoughData`; succeeds iff those bits fit |
| Buffer.BytesFrom | src/stream.rs:200-219 | the byte view from `pos` holds one entry per whole byte left, and each entry is an 8-bit read that fits in the buffer |
| Buffer.ReadBytes | src/stream.rs:200-219 | succeeds iff `pos + 8 * count <= bitLen`; returns `count` bytes, byte `k` being the 8-bit integer read at `pos + 8k` (any alignment); otherwise `NotEnoughData` |
| Buffer.TakeUntilNul | src/stream.rs:273-276 | finds the bytes before the first zero byte, which exists after them; reports none exactly when no zero byte occurs |
| Buffer.ScanToNulFindsTerminator | src/stream.rs:273-276 | the null-terminated scan succeeds iff a zero byte lies ahead; it returns the bytes before the first one, whose terminator fits in the buffer; otherwise it fails with `NotEnoughData` |
| Buffer.TrimNul | src/stream.rs:269-272 | the text is a prefix of the bytes read, does not end in a zero byte, only zero bytes were dropped, and nothing is dropped when there is no zero byte |
| Buffer.TrimNulPadding | src/stream.rs:269-272 | trimming removes exactly the zero padding after the last nonzero byte |
| Buffer.ReadString | src/stream.rs:242-283 | a string read fails with `Utf8Error` (carrying the bytes rejected) exactly when the bytes were read but the decoder rejects them; otherwise fails only with `NotEnoughData`; on success returns the bytes without trailing zeros |
| Buffer.GetSubBuffer | src/stream.rs:304-337 | a sub-buffer keeps the bytes and takes the new length, which must not exceed the current one; otherwise `NotEnoughData` |
| Buffer.BitsToNatAppend | src/stream.rs:121-123 | bits read later are more significant: the value of `x + y` is `value(x)` plus `value(y)` shifted up by the length of `x` |
| Buffer.BitsSplit | src/stream.rs:121-123 | a read of `a + c` bits is the `a`-bit read plus the following `c`-bit read shifted up by `a` |
| Buffer.WithinByte | src/stream.rs:121-123 | inside one byte a read takes the byte shifted right by the bit offset, masked to the width (least significant bit first) |
| Buffer.AlignedByte | src/stream.rs:218 | an 8-bit read on a byte boundary returns the stored byte |
| Buffer.BytesFromAligned | src/stream.rs:218 | from a byte boundary the byte view is the stored bytes up to the end of the buffer |
| Buffer.ReadBytesAligned | src/stream.rs:218 | a byte-aligned `read_bytes` returns a slice of the stored bytes |
| Buffer.ScanAligned | src/stream.rs:273-276 | from a byte boundary the null-terminated scan returns the stored bytes up to the first zero byte |
| Buffer.SubBufferReadsAgree | src/stream.rs:322-328 | a sub-buffer reads exactly what its parent reads below its new length, for every width, including the same `TooManyBits` error, and fails beyond it |
| Stream.FixedStringAdvance | src/stream.rs:285-301 | a fixed-length string read reaches the decoder iff its bytes fit, and moves the cursor by `8 * len` then, on success and on a UTF-8 error alike, and by nothing otherwise |
| Stream.NulTerminatedAdvance | src/stream.rs:285-301 | a null-terminated read reaches the decoder iff a zero byte lies ahead, and then moves the cursor to just past the first zero byte, on success and on a UTF-8 error alike; otherwise it does not move |
| Stream.BitStream.constructor | src/stream.rs:58-64 | a new stream starts with window origin and cursor at 0 |
| Stream.BitStream.Fork | src/stream.rs:336-340 | a forked stream's window origin and cursor are both the given absolute position |
| Stream.BitStream.Pos | src/stream.rs:459-461 | the position is the cursor relative to the window origin |
| Stream.BitStream.BitLen | src/stream.rs:434-436 | the length is the buffer length less the window origin |
| Stream.BitStream.BitsLeft | src/stream.rs:484-486 | the bits left reach exactly the end of the buffer, and none are left iff a one-bit read fails |
| Stream.BitStream.ReadBool | src/stream.rs:94-100 | the buffer's bit read at the cursor; the cursor moves by 1 on success only |
| Stream.BitStream.ReadInt | src/stream.rs:132-139 | the buffer's integer read at the cursor with the type's capacity; the cursor moves by `count` whether or not it succeeded |
| Stream.BitStream.ReadFloat | src/stream.rs:178-188 | the buffer's float read at the cursor; the cursor moves by 32 or 64 on success only |
| Stream.BitStream.ReadBytes | src/stream.rs:227-234 | the buffer's byte read at the cursor; the cursor moves by `8 * byteCount` on success only |
| Stream.BitStream.ReadString | src/stream.rs:285-302 | the buffer's string read at the cursor; the cursor moves by `len * 8`, or by the text (or rejected bytes) plus terminator, on success and on a UTF-8 error, and not on any other error |
| Stream.BitStream.ReadBits | src/stream.rs:335-343 | succeeds iff the next `count` bits fit; the fork is fresh, shares the bytes, has window origin and cursor at the old cursor, `Pos() == 0` and `BitLen() == count`, and the parent moves by `count`; on failure the parent is untouched |
| Stream.BitStream.SkipBits | src/stream.rs:372-375 | always succeeds and moves the cursor by `count`, with no bounds check |
| Stream.BitStream.SetPos | src/stream.rs:404-413 | fails with `IndexOutOfBounds{p, bit_len}` iff `p > BitLen()`, leaving the cursor; otherwise `Pos() == p` and `BitsLeft() == BitLen() - p` |
| Stream.BitStream.Clone | src/stream.rs:590-598 | the clone is fresh, shares the buffer, has its window origin at the original's cursor so `Pos() == 0` and its length is the original's bits left; the original is not modified |
| Read.ReadValue | src/read.rs:9-57 | integers read at their type's full width (8 to 128), never failing with `TooManyBits` and always moving by that width; floats by `read_float`, moving 32 or 64 on success only; bool by `read_bool`; strings null-terminated; `read::<T>()` (src/stream.rs:541-543) is this dispatch |
| Read.ReadSizedValue | src/read.rs:65-92 | integers read with the caller's width unchanged, failing with `TooManyBits` iff it exceeds the type's width and always moving by it; strings read as exactly `size` bytes; no sized form for bool or floats; `read_sized::<T>(size)` (src/stream.rs:585-587) is this dispatch |
| Read.SizedIntAgreesWithFixed | src/read.rs:65-85 | a sized integer read of `size` bits (at most the type's width) gives the low `size` bits of the full-width read at the same position: the full-width value is the narrow one plus the next bits shifted up by `size` |
| DocExamples.FirstByteBits | src/stream.rs:121-122 | in a first byte `0b1011_0101`, the 3-bit reads at 0 and 3 give `0b101` and `0b110`, the 7-bit read `0b011_0101`, the 8-bit read the byte |
| DocExamples.HelloFixed | src/stream.rs:266-268 | the buffer's `read_string(Some(11))` on "Hello world" gives the eleven bytes |
| DocExamples.HelloPadded | src/stream.rs:270-272 | the buffer's `read_string(Some(16))` gives "Hello world" without its zero padding |
| DocExamples.HelloTerminated | src/stream.rs:274-276 | the buffer's `read_string(None)` gives "Hello world" |
| DocExamples.ReadBoolExample | src/stream.rs:84-86 | two bit reads give `true`, `false`, and the position is 2 |
| DocExamples.ReadIntExample | src/stream.rs:121-123 | two 3-bit reads give `0b101`, `0b110`, and the position is 6 |
| DocExamples.ReadFloatExample | src/stream.rs:169-170 | an `f32` read succeeds and the position is 32 |
| DocExamples.ReadBytesExample | src/stream.rs:218-219 | `read_bytes(3)` gives the first three bytes and the position is 24 |
| DocExamples.ReadFixedStringExample | src/stream.rs:266-268 | `read_string(Some(11))` gives "Hello world" at position 88 |
| DocExamples.ReadPaddedStringExample | src/stream.rs:270-272 | `read_string(Some(16))` gives "Hello world" at position 128 |
| DocExamples.ReadTerminatedStringExample | src/stream.rs:274-276 | `read_string(None)` gives "Hello world" at position 96, past the terminator |
| DocExamples.ReadBitsExample | src/stream.rs:322-328 | after `read_bits(3)` the parent is at 3, the fork at 0 with length 3; the parent then reads `0b110`, the fork `0b101`, and one more fork bit fails |
| DocExamples.SkipBitsExample | src/stream.rs:363-365 | after `skip_bits(3)` the position is 3 and a 3-bit read gives `0b110` |
| DocExamples.SetPosExample | src/stream.rs:395-397 | after `set_pos(3)` the position is 3 and a 3-bit read gives `0b110` |
| DocExamples.WindowExample | src/stream.rs:477-479 | a fresh stream over eight bytes has length 64, position 0 and 64 bits left; after skipping 5, position 5 and 59 left |
| DocExamples.ReadExample | src/stream.rs:502-505 | `read::<u8>()` gives `0b1011_0101`, then `read::<bool>()` gives `false` |
| DocExamples.ReadSizedExample | src/stream.rs:561-562 | `read_sized::<u8>(7)` gives `0b011_0101` |
| DocExamples.CloneExample | src/stream.rs:590-598 | a clone taken at position 3 reads `0b110` and moves to 3 of its own, while the original stays at 3 and then reads `0b110` itself |
| DocExamples.FailedReadIntExample | src/stream.rs:136-138 | a 3-bit integer read at bit 62 of 64 fails with `NotEnoughData` yet moves the cursor to 65; a 9-bit read into `u8` fails with `TooManyBits{9, 8}` and moves it to 9 |

## Left out

- The source of `BitBuffer` is not part of this model. Its reads are specified by bounds, error and little-endian extraction contracts. Where the hidden code leaves a choice open, the model picks one:
  - the payload of `NotEnoughData`;
  - the width check coming before the bounds check;
  - the error returned when a scan runs off the end without finding a terminator.
  - a fixed-length string drops only its trailing zero bytes, rather than being cut at its first zero byte. The documented example (src/stream.rs:270-272) only covers padding that is all zeros.
- Big-endian extraction is not modelled; the buffer is little-endian throughout.
- Buffer.ReadInt: a signed type yields its raw `count`-bit pattern. Sign extension happens in the hidden buffer code and is not modelled.
- Buffer.ReadFloat: yields the raw 32- or 64-bit pattern. IEEE-754 values are not modelled.
- Buffer.ReadString: UTF-8 validation is the parameter `validUtf8`, the decoder's verdict on a byte sequence. The text is returned as its bytes.
- The padding policy (rounding the bit length up to whole bytes) is not modelled. A buffer's length is given explicitly.
- The unchecked reads `read_int_unchecked`, `read_float_unchecked` and `read_bytes_unchecked` are not modelled. They skip all validation and are undefined behaviour when it would fail.
- The derived record reads and the `Vec<T>` sized reads are not modelled. They rely on generated and library impls outside the core.
- The `From<BitBuffer>` and `From<Vec<u8>>` conversions are not modelled. They are thin wrappers over `new` and `BitBuffer::from`.
- Shared ownership of the bytes and lifetimes are not modelled, because a `BitBuffer` here is an immutable value.
- The dispatch traits are modelled as one table over a single stream type, although the two source files come from different revisions of the stream type.
- `usize` overflow of `pos + count` is not modelled, because positions are unbounded naturals.
- Stream.BitStream.BitsLeft: requires `pos <= bitLen`. The source's subtraction underflows beyond that.
- Stream.BitStream.BitLen: requires `startPos <= bitLen`. The source's subtraction underflows beyond that.
- Stream.BitStream.SetPos: requires `startPos <= bitLen`, for the same reason.
