/** The cursor over a `BitBuffer`: a window origin `startPos` and an absolute
    position `pos`, both in bits. Reads delegate to the buffer at `pos` and
    move the cursor by a rule of their own; `ReadBits` and `Clone` fork new
    streams over the same bytes with cursors of their own. */
module Stream {
  import opened Errors
  import opened Buffer

  /** How far a string read moves the cursor, in bits, given what the buffer
      returned: the fixed length, or the text and its terminator, both on
      success and on a UTF-8 error; nothing on any other error. */
  function StringAdvance(byteLen: Option<nat>, r: Result<seq<byte>>): nat {
    match r
    case Ok(text) =>
      (match byteLen case Some(len) => len * 8 case None => (|text| + 1) * 8)
    case Err(Utf8Error(bytes)) =>
      (match byteLen case Some(len) => len * 8 case None => (|bytes| + 1) * 8)
    case Err(_) => 0
  }

  /** A fixed-length string read moves the cursor over exactly the bytes it
      asked for, decoded or not, and not at all when they do not fit. */
  lemma FixedStringAdvance(b: BitBuffer, pos: nat, len: nat, validUtf8: seq<byte> -> bool)
    requires b.Valid()
    ensures var r := ReadString(b, pos, Some(len), validUtf8);
      && ((r.Ok? || r.error.Utf8Error?) <==> pos + 8 * len <= b.bitLen)
      && StringAdvance(Some(len), r) == if pos + 8 * len <= b.bitLen then 8 * len else 0
  {
  }

  /** A null-terminated read that reaches the decoder moves the cursor to just
      past the first zero byte ahead, on success and on a UTF-8 error alike;
      such a read fails otherwise only when no zero byte lies ahead, and then
      the cursor stays. */
  lemma NulTerminatedAdvance(b: BitBuffer, pos: nat, validUtf8: seq<byte> -> bool)
    requires b.Valid()
    ensures var r := ReadString(b, pos, None, validUtf8);
      var view := BytesFrom(b, pos);
      var n := StringAdvance(None, r) / 8;
      && ((r.Ok? || r.error.Utf8Error?) <==> 0 in view)
      && ((r.Ok? || r.error.Utf8Error?) ==>
            && StringAdvance(None, r) == 8 * n && 0 < n <= |view|
            && pos + 8 * n <= b.bitLen && view[n - 1] == 0 && 0 !in view[..n - 1])
      && (!(r.Ok? || r.error.Utf8Error?) ==> StringAdvance(None, r) == 0)
  {
    ScanToNulFindsTerminator(b, pos);
    var r := ReadString(b, pos, None, validUtf8);
    var scan := ScanToNul(b, pos);
    if scan.Ok? {
      var raw := scan.value;
      assert StringAdvance(None, r) == 8 * (|raw| + 1);
      assert BytesFrom(b, pos)[..|raw|] == raw;
    }
  }

  class BitStream {
    var buffer: BitBuffer
    var startPos: nat
    var pos: nat

    /** What every operation keeps. The cursor may lie past the end of the
        buffer (after `SkipBits`, or a `ReadInt` that failed), so that it does
        not is not part of the invariant. */
    ghost predicate Valid()
      reads this
    {
      buffer.Valid() && startPos <= pos
    }

    /** A stream at the start of `buffer`. */
    constructor (buffer: BitBuffer)
      requires buffer.Valid()
      ensures Valid() && this.buffer == buffer && startPos == 0 && pos == 0
    {
      this.buffer := buffer;
      startPos := 0;
      pos := 0;
    }

    /** A stream whose window starts at the absolute position `at`. */
    constructor Fork(buffer: BitBuffer, at: nat)
      requires buffer.Valid()
      ensures Valid() && this.buffer == buffer && startPos == at && pos == at
    {
      this.buffer := buffer;
      startPos := at;
      pos := at;
    }

    /** The position relative to the window origin. */
    function Pos(): (p: nat)
      reads this
      requires Valid()
      ensures startPos + p == pos
    {
      pos - startPos
    }

    /** The length of the window. */
    function BitLen(): (n: nat)
      reads this
      requires startPos <= buffer.bitLen
      ensures startPos + n == buffer.bitLen
    {
      buffer.bitLen - startPos
    }

    /** The bits between the cursor and the end; none are left exactly when a
        one-bit read fails. */
    function BitsLeft(): (n: nat)
      reads this
      requires Valid() && pos <= buffer.bitLen
      ensures pos + n == buffer.bitLen
      ensures n == 0 <==> Buffer.ReadBool(buffer, pos).Err?
    {
      BitLen() - Pos()
    }

    /** One bit; the cursor moves by 1 on success only. */
    method ReadBool() returns (r: Result<bool>)
      requires Valid()
      modifies this`pos
      ensures Valid()
      ensures r == Buffer.ReadBool(buffer, old(pos))
      ensures pos == if r.Ok? then old(pos) + 1 else old(pos)
    {
      r := Buffer.ReadBool(buffer, pos);
      if r.Ok? {
        pos := pos + 1;
      }
    }

    /** `count` bits as an integer of type `t`; the cursor moves by `count`
        whether or not the read succeeded. */
    method ReadInt(t: IntType, count: nat) returns (r: Result<nat>)
      requires Valid()
      modifies this`pos
      ensures Valid()
      ensures r == Buffer.ReadInt(buffer, old(pos), count, Capacity(t))
      ensures pos == old(pos) + count
    {
      r := Buffer.ReadInt(buffer, pos, count, Capacity(t));
      pos := pos + count;
    }

    /** The bit pattern of a float; the cursor moves by its width on success only. */
    method ReadFloat(t: FloatType) returns (r: Result<nat>)
      requires Valid()
      modifies this`pos
      ensures Valid()
      ensures r == Buffer.ReadFloat(buffer, old(pos), t)
      ensures pos == if r.Ok? then old(pos) + FloatBits(t) else old(pos)
    {
      var count := FloatBits(t);
      r := Buffer.ReadFloat(buffer, pos, t);
      if r.Ok? {
        pos := pos + count;
      }
    }

    /** `byteCount` bytes; the cursor moves by `8 * byteCount` on success only. */
    method ReadBytes(byteCount: nat) returns (r: Result<seq<byte>>)
      requires Valid()
      modifies this`pos
      ensures Valid()
      ensures r == Buffer.ReadBytes(buffer, old(pos), byteCount)
      ensures pos == if r.Ok? then old(pos) + 8 * byteCount else old(pos)
    {
      var count := byteCount * 8;
      r := Buffer.ReadBytes(buffer, pos, byteCount);
      if r.Ok? {
        pos := pos + count;
      }
    }

    /** A string of `byteLen` bytes, or up to a zero terminator. The cursor
        moves on a UTF-8 error as well, so that reading can resume after the
        malformed text. */
    method ReadString(byteLen: Option<nat>, validUtf8: seq<byte> -> bool) returns (r: Result<seq<byte>>)
      requires Valid()
      modifies this`pos
      ensures Valid()
      ensures r == Buffer.ReadString(buffer, old(pos), byteLen, validUtf8)
      ensures pos == old(pos) + StringAdvance(byteLen, r)
    {
      r := Buffer.ReadString(buffer, pos, byteLen, validUtf8);
      if r.Err? {
        if r.error.Utf8Error? {
          pos := pos + match byteLen
            case Some(len) => len * 8
            case None => (|r.error.bytes| + 1) * 8;
        }
        return;
      }
      var read := match byteLen
        case Some(len) => len * 8
        case None => (|r.value| + 1) * 8;
      pos := pos + read;
    }

    /** Forks the next `count` bits as a stream of their own and moves this
        cursor past them. The fork shares the bytes, starts at position 0 and
        is `count` bits long; when they do not fit, nothing changes. */
    method ReadBits(count: nat) returns (r: Result<BitStream>)
      requires Valid()
      modifies this`pos
      ensures Valid()
      ensures r.Ok? <==> old(pos) + count <= buffer.bitLen
      ensures r.Err? ==> r.error == NotEnoughData(old(pos) + count, buffer.bitLen) && pos == old(pos)
      ensures r.Ok? ==>
        var child := r.value;
        && fresh(child) && child.Valid()
        && child.buffer == BitBuffer(buffer.bytes, old(pos) + count)
        && child.startPos == old(pos) && child.pos == old(pos)
        && child.Pos() == 0 && child.BitLen() == count
        && pos == old(pos) + count
    {
      var sub := GetSubBuffer(buffer, pos + count);
      if sub.Err? {
        return Err(sub.error);
      }
      var child := new BitStream.Fork(sub.value, pos);
      pos := pos + count;
      r := Ok(child);
    }

    /** Moves the cursor by `count` bits without any bounds check. */
    method SkipBits(count: nat) returns (r: Result<()>)
      requires Valid()
      modifies this`pos
      ensures Valid()
      ensures r == Ok(())
      ensures pos == old(pos) + count
    {
      pos := pos + count;
      r := Ok(());
    }

    /** Moves the cursor to position `p` of the window, which may be its end
        but not beyond. */
    method SetPos(p: nat) returns (r: Result<()>)
      requires Valid() && startPos <= buffer.bitLen
      modifies this`pos
      ensures Valid()
      ensures r.Err? <==> p > BitLen()
      ensures r.Err? ==> r.error == IndexOutOfBounds(p, BitLen()) && pos == old(pos)
      ensures r.Ok? ==> pos == startPos + p && Pos() == p && pos <= buffer.bitLen && BitsLeft() == BitLen() - p
    {
      if p > BitLen() {
        return Err(IndexOutOfBounds(p, BitLen()));
      }
      pos := p + startPos;
      r := Ok(());
    }

    /** A new stream over the same buffer whose window starts at this cursor;
        this stream is left as it was. */
    method Clone() returns (c: BitStream)
      requires Valid()
      ensures fresh(c) && c.Valid()
      ensures c.buffer == buffer && c.startPos == pos && c.pos == pos && c.Pos() == 0
      ensures pos <= buffer.bitLen ==> c.BitLen() == BitsLeft()
    {
      c := new BitStream.Fork(buffer, pos);
    }
  }
}
