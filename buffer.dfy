/** The bit-addressable buffer a stream reads from: a byte sequence and a
    declared length in bits. It has no cursor; every read takes an absolute
    bit position and checks it against `bitLen`.

    Bits are numbered least-significant-first within each byte and bytes are
    combined little-endian, so bit `i` of the buffer is bit `i % 8` of byte
    `i / 8` and the first bit read is the lowest bit of the result. */
module Buffer {
  import opened Errors

  /** The integer types a read can target; `Capacity` is `size_of::<T>() * 8`. */
  datatype IntType = U8 | U16 | U32 | U64 | U128 | I8 | I16 | I32 | I64 | I128

  function Capacity(t: IntType): nat {
    match t
    case U8 | I8 => 8
    case U16 | I16 => 16
    case U32 | I32 => 32
    case U64 | I64 => 64
    case U128 | I128 => 128
  }

  datatype FloatType = F32 | F64

  function FloatBits(t: FloatType): nat {
    match t
    case F32 => 32
    case F64 => 64
  }

  datatype BitBuffer = BitBuffer(bytes: seq<byte>, bitLen: nat) {
    predicate Valid() {
      bitLen <= 8 * |bytes|
    }
  }

  /** A buffer over all the bits of `bytes`. */
  function FromBytes(bytes: seq<byte>): (b: BitBuffer)
    ensures b.Valid() && b.bytes == bytes && b.bitLen == 8 * |bytes|
  {
    BitBuffer(bytes, 8 * |bytes|)
  }

  function Pow2(n: nat): (r: nat)
    ensures r >= 1
  {
    if n == 0 then 1 else 2 * Pow2(n - 1)
  }

  /** `x >> j` */
  function ShiftRight(x: nat, j: nat): nat {
    if j == 0 then x else ShiftRight(x, j - 1) / 2
  }

  /** The value of the lowest `w` bits of `x`, assembled lowest bit first. */
  function LowBits(x: nat, w: nat): nat {
    if w == 0 then 0 else x % 2 + 2 * LowBits(x / 2, w - 1)
  }

  /** Bit `i` of the byte sequence. */
  function Bit(bytes: seq<byte>, i: nat): bool
    requires i < 8 * |bytes|
  {
    ShiftRight(bytes[i / 8] as nat, i % 8) % 2 == 1
  }

  /** The value of a sequence of bits, the first one least significant. */
  function BitsToNat(s: seq<bool>): (r: nat)
    ensures r < Pow2(|s|)
  {
    if s == [] then 0 else (if s[0] then 1 else 0) + 2 * BitsToNat(s[1..])
  }

  /** The `width` bits starting at bit `pos`, in the order they are read. */
  function BitSlice(bytes: seq<byte>, pos: nat, width: nat): (s: seq<bool>)
    requires pos + width <= 8 * |bytes|
    ensures |s| == width
  {
    seq(width, k requires 0 <= k < width => Bit(bytes, pos + k))
  }

  /** The integer held by the `width` bits starting at `pos`. */
  function BitsValue(bytes: seq<byte>, pos: nat, width: nat): (r: nat)
    requires pos + width <= 8 * |bytes|
  {
    BitsToNat(BitSlice(bytes, pos, width))
  }

  const BitsPerByte: nat := 8

  /** The byte assembled from the eight bits starting at `pos`. */
  function ByteAt(bytes: seq<byte>, pos: nat): byte
    requires pos + BitsPerByte <= 8 * |bytes|
  {
    BitsValue(bytes, pos, BitsPerByte) as byte
  }

  /** The bits between `pos` and the end, or 0 once `pos` is past the end. */
  function Available(b: BitBuffer, pos: nat): nat {
    if pos <= b.bitLen then b.bitLen - pos else 0
  }

  function ReadBool(b: BitBuffer, pos: nat): (r: Result<bool>)
    requires b.Valid()
    ensures r.Ok? <==> pos < b.bitLen
    ensures r.Ok? ==> r.value == BitSlice(b.bytes, pos, 1)[0]
    ensures r.Err? ==> r.error == NotEnoughData(1, 0)
  {
    if pos < b.bitLen then Ok(Bit(b.bytes, pos)) else Err(NotEnoughData(1, 0))
  }

  /** `count` bits at `pos` into an integer of `capacity` bits; the width is
      checked before the bounds. */
  function ReadInt(b: BitBuffer, pos: nat, count: nat, capacity: nat): (r: Result<nat>)
    requires b.Valid()
    ensures r.Ok? <==> count <= capacity && pos + count <= b.bitLen
    ensures r.Ok? ==> r.value < Pow2(count)
    ensures r.Err? && count > capacity ==> r.error == TooManyBits(count, capacity)
    ensures r.Err? && count <= capacity ==> r.error == NotEnoughData(count, Available(b, pos))
  {
    if count > capacity then Err(TooManyBits(count, capacity))
    else if pos + count > b.bitLen then Err(NotEnoughData(count, Available(b, pos)))
    else Ok(BitsValue(b.bytes, pos, count))
  }

  /** The bit pattern of a float: a read of exactly the float's width. */
  function ReadFloat(b: BitBuffer, pos: nat, t: FloatType): (r: Result<nat>)
    requires b.Valid()
    ensures r == ReadInt(b, pos, FloatBits(t), FloatBits(t))
    ensures r.Ok? <==> pos + FloatBits(t) <= b.bitLen
  {
    var width := FloatBits(t);
    if pos + width > b.bitLen then Err(NotEnoughData(width, Available(b, pos)))
    else Ok(BitsValue(b.bytes, pos, width))
  }

  /** The whole bytes between `pos` and the end of the buffer, each one
      assembled from eight consecutive bits. */
  function BytesFrom(b: BitBuffer, pos: nat): (r: seq<byte>)
    requires b.Valid()
    ensures |r| == Available(b, pos) / 8
    ensures forall k | 0 <= k < |r| :: pos + 8 * k + 8 <= b.bitLen
    ensures forall k | 0 <= k < |r| :: ReadInt(b, pos + 8 * k, 8, 8) == Ok(r[k] as nat)
  {
    assert Pow2(8) == 256;
    var n := Available(b, pos) / 8;
    seq(n, k requires 0 <= k < n => ByteAt(b.bytes, pos + 8 * k))
  }

  /** `count` bytes starting at any bit position, each one an 8-bit read. */
  function ReadBytes(b: BitBuffer, pos: nat, count: nat): (r: Result<seq<byte>>)
    requires b.Valid()
    ensures r.Ok? <==> pos + 8 * count <= b.bitLen
    ensures r.Ok? ==> |r.value| == count
    ensures r.Ok? ==> forall k | 0 <= k < count :: ReadInt(b, pos + 8 * k, 8, 8) == Ok(r.value[k] as nat)
    ensures r.Err? ==> r.error == NotEnoughData(8 * count, Available(b, pos))
  {
    if pos + 8 * count > b.bitLen then Err(NotEnoughData(8 * count, Available(b, pos)))
    else Ok(BytesFrom(b, pos)[..count])
  }

  /** The bytes of `s` before its first zero byte, if it has one. */
  function TakeUntilNul(s: seq<byte>): (r: Option<seq<byte>>)
    ensures r.Some? ==> |r.value| < |s| && r.value == s[..|r.value|] && s[|r.value|] == 0 && 0 !in r.value
    ensures r.None? ==> 0 !in s
  {
    if s == [] then None
    else if s[0] == 0 then Some([])
    else match TakeUntilNul(s[1..])
      case Some(t) => Some([s[0]] + t)
      case None => None
  }

  /** The bytes before the first zero byte at or after `pos`; running off the
      end of the buffer without finding one is `NotEnoughData` from the 8-bit
      read that no longer fits. */
  function ScanToNul(b: BitBuffer, pos: nat): (r: Result<seq<byte>>)
    requires b.Valid()
  {
    match TakeUntilNul(BytesFrom(b, pos))
    case Some(s) => Ok(s)
    case None => Err(NotEnoughData(8, Available(b, pos) % 8))
  }

  /** The scan succeeds exactly when a zero byte lies ahead; it then returns
      the bytes before the first one, and the terminator fits in the buffer. */
  lemma ScanToNulFindsTerminator(b: BitBuffer, pos: nat)
    requires b.Valid()
    ensures ScanToNul(b, pos).Ok? <==> 0 in BytesFrom(b, pos)
    ensures ScanToNul(b, pos).Ok? ==>
      var s := ScanToNul(b, pos).value;
      && s == BytesFrom(b, pos)[..|s|] && BytesFrom(b, pos)[|s|] == 0 && 0 !in s
      && pos + 8 * (|s| + 1) <= b.bitLen
    ensures ScanToNul(b, pos).Err? ==> ScanToNul(b, pos).error.NotEnoughData?
  {
    var view := BytesFrom(b, pos);
    var r := TakeUntilNul(view);
    if r.Some? {
      assert view[|r.value|] == 0;
    }
  }

  /** `s` without its trailing zero bytes. */
  function TrimNul(s: seq<byte>): (r: seq<byte>)
    ensures |r| <= |s| && r == s[..|r|]
    ensures r == [] || r[|r| - 1] != 0
    ensures forall k | |r| <= k < |s| :: s[k] == 0
    ensures 0 !in s ==> r == s
  {
    if s == [] || s[|s| - 1] != 0 then s else TrimNul(s[..|s| - 1])
  }

  /** Trimming removes exactly the zero padding after the last nonzero byte. */
  lemma {:induction false} TrimNulPadding(s: seq<byte>, n: nat)
    requires n <= |s| && (n == 0 || s[n - 1] != 0)
    requires forall k | n <= k < |s| :: s[k] == 0
    ensures TrimNul(s) == s[..n]
    decreases |s|
  {
    if |s| == n {
      assert s[..n] == s;
    } else {
      var front := s[..|s| - 1];
      TrimNulPadding(front, n);
      assert front[..n] == s[..n];
    }
  }

  /** The bytes a string read hands to the UTF-8 decoder: exactly `len` bytes,
      or the bytes up to the zero terminator. */
  function StringBytes(b: BitBuffer, pos: nat, byteLen: Option<nat>): Result<seq<byte>>
    requires b.Valid()
  {
    match byteLen
    case Some(len) => ReadBytes(b, pos, len)
    case None => ScanToNul(b, pos)
  }

  /** A string read; the text is kept as its UTF-8 bytes and `validUtf8` is the
      decoder's verdict on them. Trailing zero bytes are dropped from the text. */
  function ReadString(b: BitBuffer, pos: nat, byteLen: Option<nat>, validUtf8: seq<byte> -> bool): (r: Result<seq<byte>>)
    requires b.Valid()
    ensures (r.Ok? || r.error.Utf8Error?) <==> StringBytes(b, pos, byteLen).Ok?
    ensures r.Ok? ==> validUtf8(StringBytes(b, pos, byteLen).value)
    ensures r.Ok? ==> r.value == TrimNul(StringBytes(b, pos, byteLen).value)
    ensures r.Err? && r.error.Utf8Error? ==>
      StringBytes(b, pos, byteLen) == Ok(r.error.bytes) && !validUtf8(r.error.bytes)
    ensures r.Err? && !r.error.Utf8Error? ==> r.error.NotEnoughData?
  {
    var raw :- StringBytes(b, pos, byteLen);
    if validUtf8(raw) then Ok(TrimNul(raw)) else Err(Utf8Error(raw))
  }

  /** The same bytes with a new bit length, which may not grow. */
  function GetSubBuffer(b: BitBuffer, bitLen: nat): (r: Result<BitBuffer>)
    requires b.Valid()
    ensures r.Ok? <==> bitLen <= b.bitLen
    ensures r.Ok? ==> r.value.Valid() && r.value.bytes == b.bytes && r.value.bitLen == bitLen
    ensures r.Err? ==> r.error == NotEnoughData(bitLen, b.bitLen)
  {
    if bitLen > b.bitLen then Err(NotEnoughData(bitLen, b.bitLen)) else Ok(BitBuffer(b.bytes, bitLen))
  }

  // Properties of the bit assembly

  /** Appending bits appends them above the bits already there. */
  lemma {:induction false} BitsToNatAppend(x: seq<bool>, y: seq<bool>)
    ensures BitsToNat(x + y) == BitsToNat(x) + Pow2(|x|) * BitsToNat(y)
  {
    if x == [] {
      assert x + y == y;
    } else {
      assert (x + y)[1..] == x[1..] + y;
      BitsToNatAppend(x[1..], y);
      ShiftIntoPlace(BitsToNat(x + y), if x[0] then 1 else 0, BitsToNat(x[1..] + y),
        BitsToNat(x[1..]), BitsToNat(y), Pow2(|x| - 1), BitsToNat(x), Pow2(|x|));
    }
  }

  /** The arithmetic step of `BitsToNatAppend`: the first bit stays in place
      and everything after it moves up one position. */
  lemma ShiftIntoPlace(whole: int, first: int, rest: int, low: int, high: int, p: int, lowAll: int, pAll: int)
    requires whole == first + 2 * rest && rest == low + p * high
    requires lowAll == first + 2 * low && pAll == 2 * p
    ensures whole == lowAll + pAll * high
  {
  }

  /** A read of `a + c` bits is the read of the first `a` bits plus the next
      `c` bits shifted up by `a`: later bits are more significant. */
  lemma BitsSplit(bytes: seq<byte>, pos: nat, a: nat, c: nat)
    requires pos + a + c <= 8 * |bytes|
    ensures BitsValue(bytes, pos, a + c) == BitsValue(bytes, pos, a) + Pow2(a) * BitsValue(bytes, pos + a, c)
  {
    assert BitSlice(bytes, pos, a + c) == BitSlice(bytes, pos, a) + BitSlice(bytes, pos + a, c);
    BitsToNatAppend(BitSlice(bytes, pos, a), BitSlice(bytes, pos + a, c));
  }

  /** Inside one byte, a read is a shift of that byte followed by a mask. */
  lemma {:induction false} WithinByte(bytes: seq<byte>, i: nat, j: nat, w: nat)
    requires i < |bytes| && j + w <= 8
    ensures BitsValue(bytes, 8 * i + j, w) == LowBits(ShiftRight(bytes[i] as nat, j), w)
    decreases w
  {
    if w > 0 {
      var slice, y := BitSlice(bytes, 8 * i + j, w), ShiftRight(bytes[i] as nat, j);
      assert (8 * i + j) / 8 == i && (8 * i + j) % 8 == j;
      assert slice[0] == Bit(bytes, 8 * i + j);
      assert Bit(bytes, 8 * i + j) == (y % 2 == 1);
      assert slice[1..] == BitSlice(bytes, 8 * i + j + 1, w - 1);
      assert ShiftRight(bytes[i] as nat, j + 1) == y / 2;
      WithinByte(bytes, i, j + 1, w - 1);
    }
  }

  lemma {:induction false} LowBitsOfSmall(x: nat, w: nat)
    requires x < Pow2(w)
    ensures LowBits(x, w) == x
    decreases w
  {
    if w > 0 {
      LowBitsOfSmall(x / 2, w - 1);
    }
  }

  /** A byte-aligned byte read returns the stored byte. */
  lemma AlignedByte(bytes: seq<byte>, i: nat)
    requires i < |bytes|
    ensures ByteAt(bytes, 8 * i) == bytes[i]
  {
    WithinByte(bytes, i, 0, 8);
    assert Pow2(8) == 256;
    LowBitsOfSmall(bytes[i] as nat, 8);
  }

  /** From a byte boundary, the byte view is a slice of the stored bytes. */
  lemma BytesFromAligned(b: BitBuffer, i: nat)
    requires b.Valid() && 8 * i <= b.bitLen
    ensures BytesFrom(b, 8 * i) == b.bytes[i..b.bitLen / 8]
  {
    var view := BytesFrom(b, 8 * i);
    forall k | 0 <= k < |view|
      ensures view[k] == b.bytes[i + k]
    {
      AlignedByte(b.bytes, i + k);
      assert 8 * i + 8 * k == 8 * (i + k);
    }
  }

  /** A byte-aligned `read_bytes` returns a slice of the stored bytes. */
  lemma ReadBytesAligned(b: BitBuffer, i: nat, n: nat)
    requires b.Valid() && 8 * (i + n) <= b.bitLen
    ensures ReadBytes(b, 8 * i, n) == Ok(b.bytes[i..i + n])
  {
    BytesFromAligned(b, i);
    assert BytesFrom(b, 8 * i)[..n] == b.bytes[i..i + n];
  }

  /** The scan stops at the first zero byte and nowhere else. */
  lemma TakeUntilFirstNul(s: seq<byte>, m: nat)
    requires m < |s| && s[m] == 0 && 0 !in s[..m]
    ensures TakeUntilNul(s) == Some(s[..m])
  {
    assert s[m] in s;
    var t := TakeUntilNul(s).value;
    assert forall k | 0 <= k < |t| && k < m :: t[k] == s[..m][k];
  }

  /** From a byte boundary, the terminator scan returns the stored bytes up to
      the first zero byte. */
  lemma ScanAligned(b: BitBuffer, i: nat, j: nat)
    requires b.Valid() && i <= j && 8 * (j + 1) <= b.bitLen
    requires b.bytes[j] == 0 && 0 !in b.bytes[i..j]
    ensures ScanToNul(b, 8 * i) == Ok(b.bytes[i..j])
  {
    BytesFromAligned(b, i);
    var view := BytesFrom(b, 8 * i);
    assert view[j - i] == 0 && view[..j - i] == b.bytes[i..j];
    TakeUntilFirstNul(view, j - i);
  }

  /** A sub-buffer reads exactly what its parent reads, up to its new length,
      and fails beyond it. */
  lemma SubBufferReadsAgree(b: BitBuffer, n: nat, pos: nat, count: nat, capacity: nat)
    requires b.Valid() && n <= b.bitLen
    ensures pos + count <= n ==> ReadInt(GetSubBuffer(b, n).value, pos, count, capacity) == ReadInt(b, pos, count, capacity)
    ensures pos + count > n ==> ReadInt(GetSubBuffer(b, n).value, pos, count, capacity).Err?
  {
  }
}
