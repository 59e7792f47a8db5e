/**
 * The bit reader both decoders pull their header fields, extra bits and Huffman code bits from.
 * Its implementation is not part of this model; this class is a stand-in with the same fields
 * and the two properties the decoders rely on: a read of n bits yields a value below 2^n or
 * fails, and it consumes exactly n bits of the stream.  DEFLATE reads bytes least-significant
 * bit first; LZX reads 16-bit little-endian words most-significant bit first.
 */
module BitStreams {
  import opened Types

  datatype StorageType = Bytes | Words16LittleEndian

  class BitStream {
    /** The compressed bytes the reader draws from (the caller's buffer). */
    const byteStream: seq<byte>
    /** The number of bytes of `byteStream` the reader may consume. */
    const byteStreamSize: nat
    /** The next byte to move into the bit buffer. */
    var byteStreamOffset: nat
    /** Bits fetched from the byte stream and not yet handed out. */
    var bitBuffer: nat
    /** How many bits `bitBuffer` holds. */
    var bitBufferSize: nat
    var storageType: StorageType

    /**
     * The offset stays within the readable bytes, the buffer holds exactly `bitBufferSize` bits,
     * and every buffered bit came from a byte before the offset.
     */
    ghost predicate Valid()
      reads this
    {
      byteStreamOffset <= byteStreamSize <= |byteStream| &&
      bitBuffer < Pow2(bitBufferSize) &&
      bitBufferSize <= 8 * byteStreamOffset
    }

    /** The bits still available: those buffered plus those of the unread bytes. */
    ghost function Remaining(): nat
      reads this
      requires Valid()
    {
      8 * (byteStreamSize - byteStreamOffset) + bitBufferSize
    }

    /** A reader over the first `size` bytes of `data`, positioned at its start. */
    constructor (data: seq<byte>, size: nat)
      requires size <= |data|
      ensures Valid()
      ensures byteStream == data && byteStreamSize == size
      ensures byteStreamOffset == 0 && bitBufferSize == 0 && bitBuffer == 0
      ensures storageType == Bytes
    {
      byteStream := data;
      byteStreamSize := size;
      byteStreamOffset := 0;
      bitBuffer := 0;
      bitBufferSize := 0;
      storageType := Bytes;
    }

    /** Reads an n-bit value: it lies below 2^n and exactly n bits are consumed, or the read fails. */
    method GetValue(n: nat) returns (r: Result<nat>)
      requires Valid()
      modifies this
      ensures Valid()
      ensures storageType == old(storageType)
      ensures r.Ok? ==> r.value < Pow2(n) && old(Remaining()) >= n && Remaining() == old(Remaining()) - n
      ensures r.Err? ==> r.error == ReadFailed && Remaining() == old(Remaining())
    {
      while bitBufferSize < n
        invariant Valid()
        invariant storageType == old(storageType)
        invariant Remaining() == old(Remaining())
        decreases byteStreamSize - byteStreamOffset
      {
        var ok := Refill();
        if !ok {
          return Err(ReadFailed);
        }
      }
      var value := Take(n);
      r := Ok(value);
    }

    /** Moves the next byte, or the next 16-bit word, from the byte stream into the bit buffer. */
    method Refill() returns (ok: bool)
      requires Valid()
      modifies this
      ensures Valid()
      ensures storageType == old(storageType)
      ensures Remaining() == old(Remaining())
      ensures ok ==> byteStreamOffset > old(byteStreamOffset)
    {
      if storageType == Bytes {
        if byteStreamOffset >= byteStreamSize {
          return false;
        }
        var next := byteStream[byteStreamOffset] as nat;
        AppendByteBound(bitBuffer, bitBufferSize, next);
        bitBuffer := bitBuffer + next * Pow2(bitBufferSize);
        bitBufferSize := bitBufferSize + 8;
        byteStreamOffset := byteStreamOffset + 1;
      } else {
        if byteStreamSize - byteStreamOffset < 2 {
          return false;
        }
        var word := byteStream[byteStreamOffset] as nat + 256 * byteStream[byteStreamOffset + 1] as nat;
        AppendWordBound(bitBuffer, bitBufferSize, word);
        bitBuffer := bitBuffer * 65536 + word;
        bitBufferSize := bitBufferSize + 16;
        byteStreamOffset := byteStreamOffset + 2;
      }
      ok := true;
    }

    /** Hands out n buffered bits: the low ones for byte storage, the high ones for word storage. */
    method Take(n: nat) returns (value: nat)
      requires Valid()
      requires n <= bitBufferSize
      modifies this
      ensures Valid()
      ensures storageType == old(storageType)
      ensures value < Pow2(n)
      ensures Remaining() == old(Remaining()) - n
    {
      var rest := bitBufferSize - n;
      var parts := Split(bitBuffer, n, rest, storageType == Bytes);
      value := parts.0;
      bitBuffer := parts.1;
      bitBufferSize := rest;
    }
  }

  /**
   * Splits an (n + rest)-bit buffer into an n-bit value and a rest-bit remainder, taking the value
   * from the low end or from the high end.
   */
  function Split(buffer: nat, n: nat, rest: nat, fromLowEnd: bool): (r: (nat, nat))
    requires buffer < Pow2(n + rest)
    ensures r.0 < Pow2(n) && r.1 < Pow2(rest)
  {
    if fromLowEnd then
      SplitBound(buffer, n, rest);
      (buffer % Pow2(n), buffer / Pow2(n))
    else
      SplitBound(buffer, rest, n);
      (buffer / Pow2(rest), buffer % Pow2(rest))
  }

  /** The quotient by 2^low of a (low + high)-bit value has high bits, the remainder low bits. */
  lemma SplitBound(buffer: nat, low: nat, high: nat)
    requires buffer < Pow2(low + high)
    ensures 0 <= buffer / Pow2(low) < Pow2(high) && buffer % Pow2(low) < Pow2(low)
  {
    Pow2Add(low, high);
    DivBound(buffer, Pow2(low), Pow2(high));
  }

  /** A byte added above `size` buffered bits leaves a buffer of `size + 8` bits. */
  lemma AppendByteBound(buffer: nat, size: nat, next: nat)
    requires buffer < Pow2(size)
    requires next < 256
    ensures buffer + next * Pow2(size) < Pow2(size + 8)
  {
    Pow2Add(size, 8);
    Pow2Table();
    MulMonotone(Pow2(size), next, 255);
  }

  /** A 16-bit word shifted in below `size` buffered bits leaves a buffer of `size + 16` bits. */
  lemma AppendWordBound(buffer: nat, size: nat, word: nat)
    requires buffer < Pow2(size)
    requires word < 65536
    ensures buffer * 65536 + word < Pow2(size + 16)
  {
    Pow2Add(size, 16);
    Pow2Table();
    MulMonotone(65536, buffer, Pow2(size) - 1);
  }

  lemma DivBound(x: nat, a: nat, b: nat)
    requires 1 <= a
    requires x < a * b
    ensures 0 <= x / a < b
  {
    if x / a >= b {
      MulMonotone(a, b, x / a);
      assert false;
    }
  }

  lemma MulMonotone(a: nat, b: nat, c: nat)
    requires b <= c
    ensures a * b <= a * c
  {
  }

  lemma {:induction false} Pow2Add(a: nat, b: nat)
    ensures Pow2(a + b) == Pow2(a) * Pow2(b)
    decreases a
  {
    if a > 0 {
      Pow2Add(a - 1, b);
    }
  }
}
