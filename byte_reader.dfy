/** The read and seek callbacks through which FFmpeg demultiplexes a JPEG held in memory
    (RaspberryStreamer/ByteReader.cs): one cursor over a byte array. */
module ByteBridge {
  import opened Wrappers

  type byte = bv8
  type int32 = x: int | -0x8000_0000 <= x < 0x8000_0000
  type int64 = x: int | -0x8000_0000_0000_0000 <= x < 0x8000_0000_0000_0000

  const INT32_MAX: int := 0x7FFF_FFFF

  /** The whence codes of POSIX lseek and FFmpeg's size query (AVSEEK_SIZE in libavformat/avio.h). */
  const SEEK_SET: int32 := 0
  const SEEK_CUR: int32 := 1
  const SEEK_END: int32 := 2
  const AVSEEK_SIZE: int32 := 0x10000

  function Min(a: int, b: int): int { if a <= b then a else b }

  /** C#'s unchecked narrowing of a long to an int: the low 32 bits in two's complement. */
  function ToInt32(x: int): (r: int32)
    ensures -0x8000_0000 <= x < 0x8000_0000 ==> r == x
    ensures (x - r) % 0x1_0000_0000 == 0
  {
    var m := x % 0x1_0000_0000;
    if m < 0x8000_0000 then m else m - 0x1_0000_0000
  }

  /** C#'s unchecked long arithmetic: a result outside the long range wraps modulo 2^64. */
  function ToInt64(x: int): (r: int64)
    ensures -0x8000_0000_0000_0000 <= x < 0x8000_0000_0000_0000 ==> r == x
    ensures (x - r) % 0x1_0000_0000_0000_0000 == 0
  {
    var m := x % 0x1_0000_0000_0000_0000;
    if m < 0x8000_0000_0000_0000 then m else m - 0x1_0000_0000_0000_0000
  }

  /** The count Read returns for a buffer of `length` bytes, cursor `pos` and request
      `bufSize` when the remaining length, narrowed to an int, does not wrap: the request
      clamped to what remains, which is zero or negative at or past the end. */
  function ReadSize(length: nat, pos: int64, bufSize: int32): (size: int32)
    requires length <= INT32_MAX
    ensures 0 <= pos <= length + 0x8000_0000 ==> size == Min(bufSize, length - pos)
  {
    var remaining := ToInt64(length - pos);
    if remaining < bufSize then ToInt32(remaining) else bufSize
  }

  /** The bytes one Read copies out of `buffer` from cursor `pos` for a request of `bufSize`:
      what remains from the cursor, cut to the request. */
  function Chunk(buffer: seq<byte>, pos: nat, bufSize: int): (c: seq<byte>)
    ensures |c| == if 0 < bufSize && pos < |buffer| then Min(bufSize, |buffer| - pos) else 0
    ensures c == [] || (pos + |c| <= |buffer| && c == buffer[pos..pos + |c|])
  {
    if 0 < bufSize && pos < |buffer| then buffer[pos..Min(|buffer|, pos + bufSize)] else []
  }

  function Sum(sizes: seq<int>): int
  {
    if sizes == [] then 0 else sizes[0] + Sum(sizes[1..])
  }

  /** Read requests as FFmpeg issues them: none negative. */
  predicate NonNegative(sizes: seq<int>)
  {
    forall i :: 0 <= i < |sizes| ==> 0 <= sizes[i]
  }

  lemma {:induction false} SumNonNegative(sizes: seq<int>)
    requires NonNegative(sizes)
    ensures sizes != [] ==> NonNegative(sizes[1..])
    ensures 0 <= Sum(sizes)
    decreases |sizes|
  {
    if sizes != [] {
      assert forall i :: 0 <= i < |sizes| - 1 ==> sizes[1..][i] == sizes[i + 1];
      SumNonNegative(sizes[1..]);
    }
  }

  /** Everything a run of successive reads with the given sizes copies out, from cursor `pos`. */
  function ReadAll(buffer: seq<byte>, pos: nat, sizes: seq<int>): seq<byte>
    requires pos <= |buffer|
    decreases |sizes|
  {
    if sizes == [] then []
    else
      var c := Chunk(buffer, pos, sizes[0]);
      c + ReadAll(buffer, pos + |c|, sizes[1..])
  }

  /** Where the cursor stands after that run of reads: never behind where it started, never
      past the end of the buffer. */
  function PositionAfter(buffer: seq<byte>, pos: nat, sizes: seq<int>): (p: nat)
    requires pos <= |buffer|
    ensures pos <= p <= |buffer|
    decreases |sizes|
  {
    if sizes == [] then pos
    else PositionAfter(buffer, pos + |Chunk(buffer, pos, sizes[0])|, sizes[1..])
  }

  /** Whatever the requests, a run of reads copies out exactly the bytes the cursor passes over:
      in order and without gaps. */
  lemma {:induction false} ReadAllSpansCursor(buffer: seq<byte>, pos: nat, sizes: seq<int>)
    requires pos <= |buffer|
    ensures ReadAll(buffer, pos, sizes) == buffer[pos..PositionAfter(buffer, pos, sizes)]
    decreases |sizes|
  {
    if sizes != [] {
      var c := Chunk(buffer, pos, sizes[0]);
      var next := pos + |c|;
      var end := PositionAfter(buffer, pos, sizes);
      assert end == PositionAfter(buffer, next, sizes[1..]);
      ReadAllSpansCursor(buffer, next, sizes[1..]);
      assert c == buffer[pos..next];
      SlicesJoin(buffer, pos, next, end);
    }
  }

  lemma {:induction false} SlicesJoin(s: seq<byte>, i: int, j: int, k: int)
    requires 0 <= i <= j <= k <= |s|
    ensures s[i..j] + s[j..k] == s[i..k]
  {
  }

  /** After a run of non-negative reads the cursor stands at the total requested or at the end
      of the buffer, whichever comes first. */
  lemma {:induction false} PositionAfterIsClamped(buffer: seq<byte>, pos: nat, sizes: seq<int>)
    requires pos <= |buffer|
    requires NonNegative(sizes)
    ensures 0 <= Sum(sizes)
    ensures PositionAfter(buffer, pos, sizes) == Min(|buffer|, pos + Sum(sizes))
    decreases |sizes|
  {
    SumNonNegative(sizes);
    if sizes != [] {
      var first, rest := sizes[0], sizes[1..];
      var next := pos + |Chunk(buffer, pos, first)|;
      assert next == Min(|buffer|, pos + first);
      PositionAfterIsClamped(buffer, next, rest);
      assert Min(|buffer|, next + Sum(rest)) == Min(|buffer|, pos + Sum(sizes)) by {
        assert Sum(sizes) == first + Sum(rest);
      }
    }
  }

  /** Successive non-negative reads starting at `pos` copy out the buffer from `pos` on, in
      order and without gaps, up to the total requested or the end of the buffer; from the
      start of the buffer they copy out a prefix of it. */
  lemma {:induction false} ReadAllIsPrefix(buffer: seq<byte>, pos: nat, sizes: seq<int>)
    requires pos <= |buffer|
    requires NonNegative(sizes)
    ensures 0 <= Sum(sizes)
    ensures ReadAll(buffer, pos, sizes) == buffer[pos..Min(|buffer|, pos + Sum(sizes))]
    ensures pos == 0 ==> ReadAll(buffer, pos, sizes) <= buffer
  {
    ReadAllSpansCursor(buffer, pos, sizes);
    PositionAfterIsClamped(buffer, pos, sizes);
  }

  /** Far past the end the narrowing at ByteReader.cs:20 wraps: ten bytes, a cursor
      2^32 - 5 bytes beyond them, and a request of 100 give a positive count of 5, so the
      copy at line 25 would read outside the buffer. Read therefore requires its cursor to
      lie at most 2^31 past the end. */
  lemma {:induction false} ReadSizeWrapsFarPastTheEnd()
    ensures ReadSize(10, 10 + 0x1_0000_0000 - 5, 100) == 5
  {
  }

  /** What a callback raises: the NullReferenceException of a callback that dereferences a
      buffer that was never set, or was set to null. */
  datatype CallbackFault = NullBuffer

  /** The ByteReader object: the buffer FFmpeg reads (the Buffer property, null until set)
      and the cursor `_currentPosition`. */
  class ByteReader {
    var buffer: Option<seq<byte>>
    var position: int64

    /** .NET arrays are indexed by int. */
    ghost predicate Valid()
      reads this
    {
      buffer.Some? ==> |buffer.value| <= INT32_MAX
    }

    /** ByteReader.cs:9-12: the cursor starts at 0; the buffer is not yet set. */
    constructor ()
      ensures Valid()
      ensures position == 0 && buffer == None
    {
      position := 0;
      buffer := None;
    }

    /** The Buffer setter: the cursor is left where it is. */
    method SetBuffer(bytes: Option<seq<byte>>)
      requires bytes.Some? ==> |bytes.value| <= INT32_MAX
      modifies this`buffer
      ensures Valid()
      ensures buffer == bytes
    {
      buffer := bytes;
    }

    /** ByteReader.cs:16-32: copies up to `bufSize` bytes from the cursor into `dst`, advances
        the cursor by what it copied and returns the request clamped to what remains. With no
        buffer set the first access to it raises a null reference and nothing changes. */
    method Read(dst: array<byte>, bufSize: int32) returns (r: Result<int32, CallbackFault>)
      requires Valid()
      requires buffer.Some? ==> 0 <= position <= |buffer.value| + 0x8000_0000
      requires bufSize <= dst.Length
      modifies this`position, dst
      ensures Valid()
      ensures r.Failure? <==> buffer.None?
      ensures r.Failure? ==> r.error == NullBuffer && dst[..] == old(dst[..]) && position == old(position)
      ensures r.Success? ==> r.value == Min(bufSize, |buffer.value| - old(position))
      ensures r.Success? && 0 < r.value ==>
                && dst[..r.value] == buffer.value[old(position)..old(position) + r.value]
                && dst[r.value..] == old(dst[r.value..]) && position == old(position) + r.value
      ensures r.Success? && r.value <= 0 ==> dst[..] == old(dst[..]) && position == old(position)
      ensures r.Success? ==> var c := Chunk(buffer.value, old(position), bufSize);
                             dst[..|c|] == c && position == old(position) + |c|
      ensures r.Success? && old(position) <= |buffer.value| ==> position <= |buffer.value|
    {
      if buffer.None? {
        return Failure(NullBuffer);
      }
      var bytes := buffer.value;
      var size := bufSize;
      var remaining := ToInt64(|bytes| - position);
      if remaining < bufSize {
        size := ToInt32(remaining);
      }
      if size > 0 {
        var from := position;
        forall i | 0 <= i < size {
          dst[i] := bytes[from + i];
        }
        position := position + size;
      }
      r := Success(size);
    }

    /** ByteReader.cs:34-52: moves the cursor as `whence` says and returns it; the size query
        returns the buffer length and leaves the cursor alone, and an unknown whence changes
        nothing. The buffer is dereferenced only for SEEK_END and AVSEEK_SIZE: with no buffer
        set those two raise a null reference and leave the cursor where it is. */
    method Seek(offset: int64, whence: int32) returns (r: Result<int64, CallbackFault>)
      requires Valid()
      modifies this`position
      ensures Valid()
      ensures r.Failure? <==> (whence == SEEK_END || whence == AVSEEK_SIZE) && buffer.None?
      ensures r.Failure? ==> r.error == NullBuffer && position == old(position)
      ensures whence == SEEK_SET ==> position == offset && r == Success(offset)
      ensures whence == SEEK_CUR ==> position == ToInt64(old(position) + offset) && r == Success(position)
      ensures whence == SEEK_END && buffer.Some? ==>
                position == ToInt64(|buffer.value| - offset) && r == Success(position)
      ensures whence == AVSEEK_SIZE && buffer.Some? ==> position == old(position) && r == Success(|buffer.value|)
      ensures whence !in {SEEK_SET, SEEK_CUR, SEEK_END, AVSEEK_SIZE} ==>
                position == old(position) && r == Success(position)
    {
      if whence == SEEK_SET {
        position := offset;
      } else if whence == SEEK_CUR {
        position := ToInt64(position + offset);
      } else if whence == SEEK_END {
        if buffer.None? {
          return Failure(NullBuffer);
        }
        position := ToInt64(|buffer.value| - offset);
      } else if whence == AVSEEK_SIZE {
        if buffer.None? {
          return Failure(NullBuffer);
        }
        return Success(|buffer.value|);
      }
      r := Success(position);
    }
  }

  /** SEEK_END counts a positive offset backwards from the end: for 0 <= k <= N the cursor
      lands on N - k, and a read of n bytes then returns the last k bytes at most. */
  lemma {:induction false} SeekEndCountsBackwards(buffer: seq<byte>, k: int64, n: int32)
    requires |buffer| <= INT32_MAX
    requires 0 <= k <= |buffer|
    requires 0 <= n
    ensures ToInt64(|buffer| - k) == |buffer| - k
    ensures Chunk(buffer, |buffer| - k, n) == buffer[|buffer| - k..Min(|buffer|, |buffer| - k + n)]
  {
  }
}
