/** The documented examples of the stream, as clients: each method builds a
    stream over the example bytes, performs the documented calls and promises
    exactly the documented results and positions. `CloneExample` and
    `FailedReadIntExample` have no documented counterpart; they are scenarios
    built from the code of `clone` and `read_int`. */
module DocExamples {
  import opened Errors
  import opened Buffer
  import opened Stream
  import Read

  /** The eight bytes most examples read from. */
  const Sample: seq<byte> := [0xB5, 0x6A, 0xAC, 0x99, 0x99, 0x99, 0x99, 0xE7]

  /** "Hello world" followed by five zero bytes. */
  const Hello: seq<byte> := [0x48, 0x65, 0x6C, 0x6C, 0x6F, 0x20, 0x77, 0x6F, 0x72, 0x6C, 0x64, 0, 0, 0, 0, 0]

  /** Reads inside a first byte `0b1011_0101`. */
  lemma FirstByteBits(bytes: seq<byte>)
    requires |bytes| > 0 && bytes[0] == 0xB5
    ensures BitsValue(bytes, 0, 3) == 0x5
    ensures BitsValue(bytes, 3, 3) == 0x6
    ensures BitsValue(bytes, 0, 7) == 0x35
    ensures BitsValue(bytes, 0, 8) == 0xB5
  {
    LowThree(bytes);
    NextThree(bytes);
    LowSeven(bytes);
    AlignedByte(bytes, 0);
  }

  lemma LowThree(bytes: seq<byte>)
    requires |bytes| > 0 && bytes[0] == 0xB5
    ensures BitsValue(bytes, 0, 3) == 0x5
  {
    WithinByte(bytes, 0, 0, 3);
    assert LowBits(0xB5, 3) == 0x5;
  }

  lemma NextThree(bytes: seq<byte>)
    requires |bytes| > 0 && bytes[0] == 0xB5
    ensures BitsValue(bytes, 3, 3) == 0x6
  {
    WithinByte(bytes, 0, 3, 3);
    assert ShiftRight(0xB5, 3) == 0x16;
    assert LowBits(0x16, 3) == 0x6;
  }

  lemma LowSeven(bytes: seq<byte>)
    requires |bytes| > 0 && bytes[0] == 0xB5
    ensures BitsValue(bytes, 0, 7) == 0x35
  {
    AlignedByte(bytes, 0);
    BitsSplit(bytes, 0, 7, 1);
    WithinByte(bytes, 0, 7, 1);
    assert ShiftRight(0xB5, 7) == 1;
    assert Pow2(7) == 0x80;
  }

  method ReadBoolExample() returns (first: Result<bool>, second: Result<bool>, pos: nat)
    ensures first == Ok(true) && second == Ok(false) && pos == 2
  {
    var s := new BitStream(FromBytes(Sample));
    assert ShiftRight(0xB5, 1) == 0x5A;
    first := s.ReadBool();
    second := s.ReadBool();
    pos := s.Pos();
  }

  method ReadIntExample() returns (first: Result<nat>, second: Result<nat>, pos: nat)
    ensures first == Ok(0x5) && second == Ok(0x6) && pos == 6
  {
    FirstByteBits(Sample);
    var s := new BitStream(FromBytes(Sample));
    first := s.ReadInt(U16, 3);
    second := s.ReadInt(U16, 3);
    pos := s.Pos();
  }

  method ReadFloatExample() returns (result: Result<nat>, pos: nat)
    ensures result.Ok? && pos == 32
  {
    var s := new BitStream(FromBytes(Sample));
    result := s.ReadFloat(F32);
    pos := s.Pos();
  }

  method ReadBytesExample() returns (result: Result<seq<byte>>, pos: nat)
    ensures result == Ok([0xB5, 0x6A, 0xAC]) && pos == 24
  {
    var s := new BitStream(FromBytes(Sample));
    ReadBytesAligned(FromBytes(Sample), 0, 3);
    assert Sample[0..3] == [0xB5, 0x6A, 0xAC];
    result := s.ReadBytes(3);
    pos := s.Pos();
  }

  /** "Hello world" read as exactly its eleven bytes. */
  lemma HelloFixed(validUtf8: seq<byte> -> bool)
    requires validUtf8(Hello[..11])
    ensures Buffer.ReadString(FromBytes(Hello), 0, Some(11), validUtf8) == Ok(Hello[..11])
  {
    ReadBytesAligned(FromBytes(Hello), 0, 11);
    assert Hello[0..11] == Hello[..11];
    TrimNulPadding(Hello[..11], 11);
  }

  /** The sixteen bytes read as text lose their zero padding. */
  lemma HelloPadded(validUtf8: seq<byte> -> bool)
    requires validUtf8(Hello)
    ensures Buffer.ReadString(FromBytes(Hello), 0, Some(16), validUtf8) == Ok(Hello[..11])
  {
    ReadBytesAligned(FromBytes(Hello), 0, 16);
    assert Hello[0..16] == Hello;
    TrimNulPadding(Hello, 11);
  }

  /** The zero-terminated read stops at the first zero byte. */
  lemma HelloTerminated(validUtf8: seq<byte> -> bool)
    requires validUtf8(Hello[..11])
    ensures Buffer.ReadString(FromBytes(Hello), 0, None, validUtf8) == Ok(Hello[..11])
  {
    assert Hello[0..11] == Hello[..11];
    ScanAligned(FromBytes(Hello), 0, 11);
  }

  /** `read_string(Some(11))` from position 0. */
  method ReadFixedStringExample(validUtf8: seq<byte> -> bool) returns (text: Result<seq<byte>>, pos: nat)
    requires validUtf8(Hello[..11])
    ensures text == Ok(Hello[..11]) && pos == 11 * 8
  {
    HelloFixed(validUtf8);
    var s := new BitStream(FromBytes(Hello));
    var _ := s.SetPos(0);
    text := s.ReadString(Some(11), validUtf8);
    pos := s.Pos();
  }

  /** `read_string(Some(16))` from position 0: the zero padding is read but
      is not part of the text. */
  method ReadPaddedStringExample(validUtf8: seq<byte> -> bool) returns (text: Result<seq<byte>>, pos: nat)
    requires validUtf8(Hello)
    ensures text == Ok(Hello[..11]) && pos == 16 * 8
  {
    HelloPadded(validUtf8);
    var s := new BitStream(FromBytes(Hello));
    var _ := s.SetPos(0);
    text := s.ReadString(Some(16), validUtf8);
    pos := s.Pos();
  }

  /** `read_string(None)` from position 0: the cursor moves past the
      terminating zero byte as well. */
  method ReadTerminatedStringExample(validUtf8: seq<byte> -> bool) returns (text: Result<seq<byte>>, pos: nat)
    requires validUtf8(Hello[..11])
    ensures text == Ok(Hello[..11]) && pos == 12 * 8
  {
    HelloTerminated(validUtf8);
    var s := new BitStream(FromBytes(Hello));
    var _ := s.SetPos(0);
    text := s.ReadString(None, validUtf8);
    pos := s.Pos();
  }

  /** The fork sees the first three bits; the parent continues after them. */
  method ReadBitsExample()
    returns (pos: nat, forkPos: nat, forkLen: nat, parentRead: Result<nat>, forkRead: Result<nat>, overRead: Result<nat>)
    ensures pos == 3 && forkPos == 0 && forkLen == 3
    ensures parentRead == Ok(0x6) && forkRead == Ok(0x5) && overRead.Err?
  {
    FirstByteBits(Sample);
    var s := new BitStream(FromBytes(Sample));
    var r := s.ReadBits(3);
    var bits := r.value;
    pos := s.Pos();
    forkPos := bits.Pos();
    forkLen := bits.BitLen();
    parentRead := s.ReadInt(U8, 3);
    forkRead := bits.ReadInt(U8, 3);
    overRead := bits.ReadInt(U8, 1);
  }

  method SkipBitsExample() returns (pos: nat, result: Result<nat>)
    ensures pos == 3 && result == Ok(0x6)
  {
    FirstByteBits(Sample);
    var s := new BitStream(FromBytes(Sample));
    var _ := s.SkipBits(3);
    pos := s.Pos();
    result := s.ReadInt(U8, 3);
  }

  method SetPosExample() returns (pos: nat, result: Result<nat>)
    ensures pos == 3 && result == Ok(0x6)
  {
    var b := FromBytes(Sample);
    FirstByteBits(b.bytes);
    assert b.bitLen == 64;
    var s := new BitStream(b);
    var _ := s.SetPos(3);
    pos := s.Pos();
    result := s.ReadInt(U8, 3);
  }

  method WindowExample() returns (bitLen: nat, before: nat, after: nat, leftBefore: nat, leftAfter: nat)
    ensures bitLen == 64 && before == 0 && after == 5 && leftBefore == 64 && leftAfter == 59
  {
    var s := new BitStream(FromBytes(Sample));
    bitLen := s.BitLen();
    before := s.Pos();
    leftBefore := s.BitsLeft();
    var _ := s.SkipBits(5);
    after := s.Pos();
    leftAfter := s.BitsLeft();
  }

  /** `read::<u8>()` followed by `read::<bool>()`. */
  method ReadExample(validUtf8: seq<byte> -> bool) returns (number: Result<Read.Value>, boolean: Result<Read.Value>)
    ensures number == Ok(Read.IntValue(0xB5)) && boolean == Ok(Read.BoolValue(false))
  {
    FirstByteBits(Sample);
    var s := new BitStream(FromBytes(Sample));
    number := Read.ReadValue(s, Read.Int(U8), validUtf8);
    boolean := Read.ReadValue(s, Read.Bool, validUtf8);
  }

  /** `read_sized::<u8>(7)`. */
  method ReadSizedExample(validUtf8: seq<byte> -> bool) returns (number: Result<Read.Value>)
    ensures number == Ok(Read.IntValue(0x35))
  {
    FirstByteBits(Sample);
    var s := new BitStream(FromBytes(Sample));
    number := Read.ReadSizedValue(s, Read.SizedInt(U8), 7, validUtf8);
  }

  /** A clone reads on its own: the original cursor stays where it was. */
  method CloneExample() returns (cloneRead: Result<nat>, clonePos: nat, originalPos: nat, originalRead: Result<nat>)
    ensures cloneRead == Ok(0x6) && clonePos == 3 && originalPos == 3 && originalRead == Ok(0x6)
  {
    FirstByteBits(Sample);
    var s := new BitStream(FromBytes(Sample));
    var _ := s.SkipBits(3);
    var c := s.Clone();
    cloneRead := c.ReadInt(U8, 3);
    clonePos := c.Pos();
    originalPos := s.Pos();
    originalRead := s.ReadInt(U8, 3);
  }

  /** An integer read that does not fit still moves the cursor, by the width
      asked for, past the end of the buffer; a width above the type's fails
      the same way. */
  method FailedReadIntExample() returns (tooLong: Result<nat>, pos: nat, tooWide: Result<nat>, widePos: nat)
    ensures tooLong == Err(NotEnoughData(3, 2)) && pos == 65
    ensures tooWide == Err(TooManyBits(9, 8)) && widePos == 9
  {
    var s := new BitStream(FromBytes(Sample));
    var _ := s.SetPos(62);
    tooLong := s.ReadInt(U8, 3);
    pos := s.Pos();
    var t := new BitStream(FromBytes(Sample));
    tooWide := t.ReadInt(U8, 9);
    widePos := t.Pos();
  }
}
