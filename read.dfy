/** The typed-dispatch layer: every primitive type that can be read is tied
    to one stream call. `Read` reads a type at its own width; `ReadSize`
    takes the width (for integers, in bits) or the length (for strings, in
    bytes) from the caller. A type is named by a tag and the value read is
    returned as a `Value` of the matching kind. */
module Read {
  import opened Errors
  import opened Buffer
  import opened Stream

  /** The types with a `Read` impl. */
  datatype ReadType = Int(intType: IntType) | Float(floatType: FloatType) | Bool | String

  /** The types with a `ReadSize` impl: integers and strings; booleans and
      floats have none. */
  datatype SizedType = SizedInt(intType: IntType) | SizedString

  /** A value read from the stream: integers and floats as their bit patterns,
      strings as their UTF-8 bytes. */
  datatype Value = IntValue(bits: nat) | FloatValue(bits: nat) | BoolValue(b: bool) | TextValue(bytes: seq<byte>)

  function IntResult(r: Result<nat>): Result<Value> {
    match r
    case Ok(x) => Ok(IntValue(x))
    case Err(e) => Err(e)
  }

  function FloatResult(r: Result<nat>): Result<Value> {
    match r
    case Ok(x) => Ok(FloatValue(x))
    case Err(e) => Err(e)
  }

  function BoolResult(r: Result<bool>): Result<Value> {
    match r
    case Ok(x) => Ok(BoolValue(x))
    case Err(e) => Err(e)
  }

  function TextResult(r: Result<seq<byte>>): Result<Value> {
    match r
    case Ok(x) => Ok(TextValue(x))
    case Err(e) => Err(e)
  }

  /** `stream.read::<T>()`: an integer is read at the full width of its type,
      so the width check never fails and the cursor always moves by that
      width; a float moves it by 32 or 64 bits and a boolean by 1, both on
      success only; a string is read up to its zero terminator. */
  method ReadValue(s: BitStream, t: ReadType, validUtf8: seq<byte> -> bool) returns (r: Result<Value>)
    requires s.Valid()
    modifies s`pos
    ensures s.Valid()
    ensures t.Int? ==>
      && r == IntResult(Buffer.ReadInt(s.buffer, old(s.pos), Capacity(t.intType), Capacity(t.intType)))
      && (r.Ok? <==> old(s.pos) + Capacity(t.intType) <= s.buffer.bitLen)
      && (r.Ok? ==> r.value.bits < Pow2(Capacity(t.intType)))
      && (r.Err? ==> r.error == NotEnoughData(Capacity(t.intType), Available(s.buffer, old(s.pos))))
      && s.pos == old(s.pos) + Capacity(t.intType)
    ensures t.Float? ==>
      && r == FloatResult(Buffer.ReadFloat(s.buffer, old(s.pos), t.floatType))
      && (r.Ok? <==> old(s.pos) + FloatBits(t.floatType) <= s.buffer.bitLen)
      && s.pos == if r.Ok? then old(s.pos) + FloatBits(t.floatType) else old(s.pos)
    ensures t.Bool? ==>
      && r == BoolResult(Buffer.ReadBool(s.buffer, old(s.pos)))
      && s.pos == if r.Ok? then old(s.pos) + 1 else old(s.pos)
    ensures t.String? ==>
      var text := Buffer.ReadString(s.buffer, old(s.pos), None, validUtf8);
      && r == TextResult(text)
      && s.pos == old(s.pos) + StringAdvance(None, text)
  {
    match t
    case Int(it) =>
      var x := s.ReadInt(it, Capacity(it));
      r := IntResult(x);
    case Float(ft) =>
      var x := s.ReadFloat(ft);
      r := FloatResult(x);
    case Bool =>
      var x := s.ReadBool();
      r := BoolResult(x);
    case String =>
      var x := s.ReadString(None, validUtf8);
      r := TextResult(x);
  }

  /** `stream.read_sized::<T>(size)`: an integer read of `size` bits, which
      fails with `TooManyBits` exactly when `size` exceeds the type's width and
      moves the cursor by `size` either way; or a string of `size` bytes. */
  method ReadSizedValue(s: BitStream, t: SizedType, size: nat, validUtf8: seq<byte> -> bool) returns (r: Result<Value>)
    requires s.Valid()
    modifies s`pos
    ensures s.Valid()
    ensures t.SizedInt? ==>
      && r == IntResult(Buffer.ReadInt(s.buffer, old(s.pos), size, Capacity(t.intType)))
      && (r.Ok? <==> size <= Capacity(t.intType) && old(s.pos) + size <= s.buffer.bitLen)
      && (r.Ok? ==> r.value.bits < Pow2(size))
      && (r.Err? && r.error.TooManyBits? <==> size > Capacity(t.intType))
      && s.pos == old(s.pos) + size
    ensures t.SizedString? ==>
      var text := Buffer.ReadString(s.buffer, old(s.pos), Some(size), validUtf8);
      && r == TextResult(text)
      && ((r.Ok? || r.error.Utf8Error?) <==> old(s.pos) + 8 * size <= s.buffer.bitLen)
      && s.pos == if old(s.pos) + 8 * size <= s.buffer.bitLen then old(s.pos) + 8 * size else old(s.pos)
  {
    match t
    case SizedInt(it) =>
      var x := s.ReadInt(it, size);
      r := IntResult(x);
    case SizedString =>
      FixedStringAdvance(s.buffer, s.pos, size, validUtf8);
      var x := s.ReadString(Some(size), validUtf8);
      r := TextResult(x);
  }

  /** A sized integer read narrower than a type's width is the low part of
      the read at the full width: the full-width value is the narrow value
      plus the following bits shifted above it. */
  lemma SizedIntAgreesWithFixed(b: BitBuffer, pos: nat, size: nat, width: nat)
    requires b.Valid() && size <= width && pos + width <= b.bitLen
    ensures Buffer.ReadInt(b, pos, size, width).Ok?
    ensures Buffer.ReadInt(b, pos, width, width).Ok?
    ensures Buffer.ReadInt(b, pos, width, width).value ==
      Buffer.ReadInt(b, pos, size, width).value + Pow2(size) * BitsValue(b.bytes, pos + size, width - size)
  {
    assert Buffer.ReadInt(b, pos, width, width).value == BitsValue(b.bytes, pos, size + (width - size));
    assert Buffer.ReadInt(b, pos, size, width).value == BitsValue(b.bytes, pos, size);
    BitsSplit(b.bytes, pos, size, width - size);
  }
}
