/** Shared vocabulary of both decompressors: bytes, error kinds, results and powers of two. */
module Types {

  /** An unsigned 8-bit value (uint8_t). */
  newtype byte = x: int | 0 <= x < 256

  /** An unsigned 32-bit value (uint32_t); using it proves that no arithmetic on it wraps around. */
  newtype u32 = x: int | 0 <= x < 0x1_0000_0000

  /** The failure kinds the decoders report, one per libcerror code the source sets. */
  datatype Error =
    | TooSmall          // an input or output buffer is too small (ARGUMENT_ERROR_VALUE_TOO_SMALL)
    | OutOfBounds       // a decoded value lies outside its permitted range (VALUE_OUT_OF_BOUNDS)
    | Unsupported       // unsupported compression method, window size or block type
    | ValueMissing      // the end-of-block symbol has no code size
    | SizeMismatch      // a stored block's LEN and NLEN disagree (INPUT_ERROR_VALUE_MISMATCH)
    | ChecksumMismatch  // the stored Adler-32 differs from the computed one
    | ReadFailed        // the bit stream ran out, or no Huffman code matched
    | BuildFailed       // a Huffman tree rejected its code sizes

  datatype Result<T> = Ok(value: T) | Err(error: Error)

  datatype Option<T> = None | Some(value: T)

  /** 2^n, the value of `1 << n`. */
  function Pow2(n: nat): (r: nat)
    ensures 1 <= r
  {
    if n == 0 then 1 else 2 * Pow2(n - 1)
  }

  lemma {:induction false} Pow2Monotone(m: nat, n: nat)
    requires m <= n
    ensures Pow2(m) <= Pow2(n)
    decreases n - m
  {
    if m < n {
      Pow2Monotone(m + 1, n);
    }
  }

  /** The powers of two the decoders' bit counts reach. */
  lemma Pow2Table()
    ensures Pow2(1) == 2 && Pow2(2) == 4 && Pow2(3) == 8 && Pow2(4) == 16 && Pow2(5) == 32
    ensures Pow2(6) == 64 && Pow2(7) == 128 && Pow2(8) == 256 && Pow2(9) == 512
    ensures Pow2(10) == 1024 && Pow2(11) == 2048 && Pow2(12) == 4096 && Pow2(13) == 8192
    ensures Pow2(14) == 16384 && Pow2(15) == 32768 && Pow2(16) == 65536 && Pow2(17) == 131072
  {
    assert Pow2(1) == 2;
    assert Pow2(2) == 4;
    assert Pow2(3) == 8;
    assert Pow2(4) == 16;
    assert Pow2(5) == 32;
    assert Pow2(6) == 64;
    assert Pow2(7) == 128;
    assert Pow2(8) == 256;
    assert Pow2(9) == 512;
    assert Pow2(10) == 1024;
    assert Pow2(11) == 2048;
    assert Pow2(12) == 4096;
    assert Pow2(13) == 8192;
    assert Pow2(14) == 16384;
    assert Pow2(15) == 32768;
    assert Pow2(16) == 65536;
  }

  /** The Euclidean remainder is the only m in [0, d) with x == d * q + m for some q. */
  lemma ModUnique(x: nat, d: nat, q: int, m: int)
    requires 1 <= d
    requires 0 <= m < d
    requires x == d * q + m
    ensures x % d == m
  {
    var q', m' := x / d, x % d;
    assert x == d * q' + m';
    if q > q' {
      MulGap(d, q, q');
      assert false;
    }
    if q < q' {
      MulGap(d, q', q);
      assert false;
    }
  }

  lemma MulGap(d: nat, a: int, b: int)
    requires b < a
    ensures d * a - d * b >= d
  {
    var k := a - b - 1;
    assert d * a == d * b + d * (k + 1);
    assert d * (k + 1) == d * k + d;
    assert d * k >= 0;
  }
}
