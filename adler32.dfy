/**
 * The Adler-32 checksum of section 8.2 of RFC 1950 as the DEFLATE decoder computes it: two running
 * sums of 32 bits each, reduced modulo 65521 only once per 5552 bytes and at the end, by a
 * shift-and-fold that stands in for the `%` operator.
 */
module Adler32 {
  import opened Types

  /** The largest prime below 2^16. */
  const Modulus: nat := 65521

  /** The most bytes the running sums can absorb, starting from 16-bit values, without overflowing 32 bits. */
  const BlockSize: nat := 5552

  /** The first sum before reduction: the seed's lower half plus every byte. */
  function Lower(l0: nat, s: seq<byte>): nat
    decreases |s|
  {
    if |s| == 0 then l0 else Lower(l0, s[..|s| - 1]) + s[|s| - 1] as nat
  }

  /** The second sum before reduction: the seed's upper half plus the first sum after every byte. */
  function Upper(u0: nat, l0: nat, s: seq<byte>): nat
    decreases |s|
  {
    if |s| == 0 then u0 else Upper(u0, l0, s[..|s| - 1]) + Lower(l0, s)
  }

  /**
   * The checksum of `s` continued from `seed`: both sums reduced modulo 65521 and packed as
   * (upper << 16) | lower; an empty buffer leaves the seed unchanged, unreduced.
   */
  function Checksum(s: seq<byte>, seed: u32): (c: u32)
    ensures |s| == 0 ==> c == seed
    ensures |s| > 0 ==> c as nat % 65536 < Modulus && c as nat / 65536 < Modulus
  {
    if |s| == 0 then seed
    else
      var l0 := seed as nat % 65536;
      var u0 := seed as nat / 65536;
      ((Upper(u0, l0, s) % Modulus) * 65536 + Lower(l0, s) % Modulus) as u32
  }

  /**
   * The byte-at-a-time definition of section 9 of RFC 1950: both sums reduced after every byte.
   * Its result is the pair (sum1, sum2).
   */
  function Running(a: nat, b: nat, s: seq<byte>): (nat, nat)
    decreases |s|
  {
    if |s| == 0 then (a, b)
    else
      var (a', b') := Running(a, b, s[..|s| - 1]);
      var a'' := (a' + s[|s| - 1] as nat) % Modulus;
      (a'', (b' + a'') % Modulus)
  }

  /** Reducing after every byte and reducing once at the end give the same sums. */
  lemma {:induction false} RunningIsDeferred(l0: nat, u0: nat, s: seq<byte>)
    requires |s| > 0
    ensures Running(l0, u0, s) == (Lower(l0, s) % Modulus, Upper(u0, l0, s) % Modulus)
    decreases |s|
  {
    var init := s[..|s| - 1];
    var last := s[|s| - 1] as nat;
    if |init| == 0 {
      ModAddLeft(u0, Lower(l0, s), Modulus);
      assert Upper(u0, l0, s) == u0 + Lower(l0, s);
      ModAddLeft(Lower(l0, s), u0, Modulus);
    } else {
      RunningIsDeferred(l0, u0, init);
      ModAddLeft(Lower(l0, init), last, Modulus);
      var a := Lower(l0, s) % Modulus;
      ModAddLeft(Upper(u0, l0, init), a, Modulus);
      ModAddLeft(Lower(l0, s), Upper(u0, l0, init), Modulus);
    }
  }

  /** The checksum of a non-empty buffer is the RFC 1950 byte-at-a-time computation from the seed's halves. */
  lemma ChecksumIsRunning(s: seq<byte>, seed: u32)
    requires |s| > 0
    ensures Checksum(s, seed) as nat == Running(seed as nat % 65536, seed as nat / 65536, s).1 * 65536
                                        + Running(seed as nat % 65536, seed as nat / 65536, s).0
  {
    RunningIsDeferred(seed as nat % 65536, seed as nat / 65536, s);
  }

  lemma ModAddLeft(a: nat, b: nat, m: nat)
    requires 1 <= m
    ensures (a % m + b) % m == (a + b) % m
  {
    var t := a % m + b;
    assert a == m * (a / m) + a % m;
    assert t == m * (t / m) + t % m;
    assert a + b == m * (a / m + t / m) + t % m;
    ModUnique(a + b, m, a / m + t / m, t % m);
  }

  /** 0 + 1 + ... + k. */
  function Tri(k: nat): nat
  {
    if k == 0 then 0 else Tri(k - 1) + k
  }

  lemma {:induction false} TriClosed(k: nat)
    ensures 2 * Tri(k) == k * (k + 1)
  {
    if k > 0 {
      TriClosed(k - 1);
    }
  }

  /** Within one block of 5552 bytes the triangular term stays below its value at 5552. */
  lemma TriBound(k: nat)
    requires k <= BlockSize
    ensures Tri(k) <= 15415128
  {
    TriClosed(k);
    MulLe(k, k + 1, BlockSize, BlockSize + 1);
  }

  lemma MulLe(a: nat, b: nat, c: nat, d: nat)
    requires a <= c && b <= d
    ensures a * b <= c * d
  {
    assert a * b <= c * b;
  }

  /**
   * The running sums track the unreduced sums up to multiples of 65521 (`ql`, `qu`), and after
   * `k` bytes since the last reduction they are bounded so that the next byte cannot overflow.
   */
  ghost predicate Tracks(s: seq<byte>, l0: nat, u0: nat, lower: u32, upper: u32, ql: int, qu: int, k: nat)
  {
    lower as int == Lower(l0, s) - Modulus * ql &&
    upper as int == Upper(u0, l0, s) - Modulus * qu &&
    k <= BlockSize &&
    lower as int <= 65535 + 255 * k &&
    upper as int <= 65535 * (k + 1) + 255 * Tri(k)
  }

  /** One step of the unrolled loops: `lower += byte; upper += lower`, which cannot overflow. */
  method AddByte(buffer: array<byte>, bufferOffset: nat, ghost l0: nat, ghost u0: nat, lower: u32, upper: u32,
                 ghost ql: int, ghost qu: int, ghost k: nat)
    returns (lower': u32, upper': u32)
    requires bufferOffset < buffer.Length
    requires Tracks(buffer[..bufferOffset], l0, u0, lower, upper, ql, qu, k) && k < BlockSize
    ensures Tracks(buffer[..bufferOffset + 1], l0, u0, lower', upper', ql, qu + ql, k + 1)
  {
    ghost var s := buffer[..bufferOffset];
    var b := buffer[bufferOffset];
    assert buffer[..bufferOffset + 1] == s + [b];
    TriBound(k + 1);
    assert (s + [b])[..|s|] == s;
    lower' := lower + b as u32;
    upper' := upper + lower';
  }

  /** The shift-and-fold of the source: `x - 65521 * (x >> 16)`, twice if needed, then one subtraction. */
  method Reduce(x: u32) returns (y: u32)
    ensures y as nat == x as nat % Modulus
  {
    var value := x / 65536;
    y := x % 65536;
    y := y + (value * 16 - value);
    ghost var q := value as int;
    if y > 65521 {
      value := y / 65536;
      y := y % 65536;
      y := y + (value * 16 - value);
      q := q + value as int;
    }
    if y >= 65521 {
      y := y - 65521;
      q := q + 1;
    }
    ModUnique(x as nat, Modulus, q, y as int);
  }

  /** Reduces both sums, keeping what they track and returning the multiples of 65521 taken off. */
  method Fold(ghost s: seq<byte>, ghost l0: nat, ghost u0: nat, lower: u32, upper: u32, ghost ql: int, ghost qu: int, ghost k: nat)
    returns (lower': u32, upper': u32, ghost ql': int, ghost qu': int)
    requires Tracks(s, l0, u0, lower, upper, ql, qu, k)
    ensures Tracks(s, l0, u0, lower', upper', ql', qu', 0)
    ensures lower' as nat < Modulus && upper' as nat < Modulus
  {
    lower' := Reduce(lower);
    upper' := Reduce(upper);
    ql' := ql + lower as int / Modulus;
    qu' := qu + upper as int / Modulus;
  }

  /** Sixteen steps of `lower += byte; upper += lower`, one unrolled iteration of the source's loops. */
  method AddSixteen(buffer: array<byte>, bufferOffset: nat, ghost l0: nat, ghost u0: nat, lower: u32, upper: u32,
                    ghost ql: int, ghost qu: int, ghost k: nat)
    returns (lower': u32, upper': u32, ghost qu': int)
    requires bufferOffset + 16 <= buffer.Length
    requires Tracks(buffer[..bufferOffset], l0, u0, lower, upper, ql, qu, k) && k + 16 <= BlockSize
    ensures Tracks(buffer[..bufferOffset + 16], l0, u0, lower', upper', ql, qu', k + 16)
  {
    lower', upper', qu' := AddSingles(buffer, bufferOffset, 16, l0, u0, lower, upper, ql, qu, k);
  }

  /** The 347 unrolled iterations of 16 bytes that make up one block of 5552 bytes. */
  method AddBlock(buffer: array<byte>, bufferOffset: nat, ghost l0: nat, ghost u0: nat, lower: u32, upper: u32,
                  ghost ql: int, ghost qu: int)
    returns (lower': u32, upper': u32, ghost qu': int)
    requires bufferOffset + BlockSize <= buffer.Length
    requires Tracks(buffer[..bufferOffset], l0, u0, lower, upper, ql, qu, 0)
    ensures Tracks(buffer[..bufferOffset + BlockSize], l0, u0, lower', upper', ql, qu', BlockSize)
  {
    lower', upper', qu' := lower, upper, qu;
    var blockIndex := 0;
    while blockIndex < 347
      invariant blockIndex <= 347
      invariant Tracks(buffer[..bufferOffset + 16 * blockIndex], l0, u0, lower', upper', ql, qu', 16 * blockIndex)
    {
      lower', upper', qu' := AddSixteen(buffer, bufferOffset + 16 * blockIndex, l0, u0, lower', upper', ql, qu', 16 * blockIndex);
      blockIndex := blockIndex + 1;
    }
  }

  /** The bytes after the last full block: sixteen at a time while more than 16 remain, then one at a time. */
  method AddTail(buffer: array<byte>, bufferOffset: nat, size: nat, ghost l0: nat, ghost u0: nat, lower: u32, upper: u32,
                 ghost ql: int, ghost qu: int)
    returns (lower': u32, upper': u32, ghost qu': int)
    requires bufferOffset + size <= buffer.Length && size < BlockSize
    requires Tracks(buffer[..bufferOffset], l0, u0, lower, upper, ql, qu, 0)
    ensures Tracks(buffer[..bufferOffset + size], l0, u0, lower', upper', ql, qu', size)
  {
    lower', upper', qu' := lower, upper, qu;
    var done: nat := 0;
    var remaining: nat := size;
    while remaining > 16
      invariant done + remaining == size
      invariant Tracks(buffer[..bufferOffset + done], l0, u0, lower', upper', ql, qu', done)
    {
      lower', upper', qu' := AddSixteen(buffer, bufferOffset + done, l0, u0, lower', upper', ql, qu', done);
      done := done + 16;
      remaining := remaining - 16;
    }
    lower', upper', qu' := AddSingles(buffer, bufferOffset + done, remaining, l0, u0, lower', upper', ql, qu', done);
    assert bufferOffset + done + remaining == bufferOffset + size;
  }

  /** The last bytes, one step each. */
  method AddSingles(buffer: array<byte>, bufferOffset: nat, count: nat, ghost l0: nat, ghost u0: nat, lower: u32, upper: u32,
                    ghost ql: int, ghost qu: int, ghost k: nat)
    returns (lower': u32, upper': u32, ghost qu': int)
    requires bufferOffset + count <= buffer.Length && k + count <= BlockSize
    requires Tracks(buffer[..bufferOffset], l0, u0, lower, upper, ql, qu, k)
    ensures Tracks(buffer[..bufferOffset + count], l0, u0, lower', upper', ql, qu', k + count)
  {
    lower', upper', qu' := lower, upper, qu;
    var position := bufferOffset;
    ghost var used := k;
    while position < bufferOffset + count
      invariant bufferOffset <= position <= bufferOffset + count
      invariant used == k + (position - bufferOffset)
      invariant Tracks(buffer[..position], l0, u0, lower', upper', ql, qu', used)
    {
      lower', upper' := AddByte(buffer, position, l0, u0, lower', upper', ql, qu', used);
      qu' := qu' + ql;
      position := position + 1;
      used := used + 1;
    }
  }

  /** The seed's lower and upper halves, as the source takes them apart with a mask and a shift. */
  lemma SeedHalves(seed: u32)
    ensures (seed % 65536) as nat == seed as nat % 65536
    ensures ((seed / 65536) % 65536) as nat == seed as nat / 65536
  {
    var x := seed as nat;
    assert x == 65536 * (x / 65536) + x % 65536;
  }

  /** Two reduced sums packed as (upper << 16) | lower fit in 32 bits. */
  lemma PackBelow(upper: nat, lower: nat)
    requires upper < Modulus && lower < Modulus
    ensures upper * 65536 + lower < 0x1_0000_0000
  {
    MulLe(upper, 65536, 65520, 65536);
  }

  /**
   * deflate_calculate_adler32: the checksum of the first `size` bytes of `buffer` continued from
   * `initialValue`.
   */
  method Calculate(buffer: array<byte>, size: nat, initialValue: u32) returns (checksumValue: u32)
    requires size <= buffer.Length
    ensures checksumValue == Checksum(buffer[..size], initialValue)
  {
    var lower: u32 := initialValue % 65536;
    var upper: u32 := (initialValue / 65536) % 65536;
    SeedHalves(initialValue);
    ghost var l0 := lower as nat;
    ghost var u0 := upper as nat;
    ghost var ql: int := 0;
    ghost var qu: int := 0;
    var bufferOffset: nat := 0;
    var remaining: nat := size;
    while remaining >= BlockSize
      invariant bufferOffset + remaining == size
      invariant Tracks(buffer[..bufferOffset], l0, u0, lower, upper, ql, qu, 0)
      invariant bufferOffset > 0 ==> lower as nat < Modulus && upper as nat < Modulus
      invariant bufferOffset == 0 ==> lower as nat == l0 && upper as nat == u0
    {
      lower, upper, qu := AddBlock(buffer, bufferOffset, l0, u0, lower, upper, ql, qu);
      bufferOffset := bufferOffset + BlockSize;
      lower, upper, ql, qu := Fold(buffer[..bufferOffset], l0, u0, lower, upper, ql, qu, BlockSize);
      remaining := remaining - BlockSize;
    }
    if remaining > 0 {
      lower, upper, qu := AddTail(buffer, bufferOffset, remaining, l0, u0, lower, upper, ql, qu);
      bufferOffset := bufferOffset + remaining;
      lower, upper, ql, qu := Fold(buffer[..bufferOffset], l0, u0, lower, upper, ql, qu, remaining);
    }
    assert buffer[..bufferOffset] == buffer[..size];
    if size > 0 {
      ModUnique(Lower(l0, buffer[..size]), Modulus, ql, lower as int);
      ModUnique(Upper(u0, l0, buffer[..size]), Modulus, qu, upper as int);
      assert Lower(l0, buffer[..size]) % Modulus == lower as nat;
      assert Upper(u0, l0, buffer[..size]) % Modulus == upper as nat;
      PackBelow(upper as nat, lower as nat);
      assert upper as nat * 65536 + lower as nat == Checksum(buffer[..size], initialValue) as nat;
    } else {
      assert initialValue as nat == upper as nat * 65536 + lower as nat;
    }
    // lower < 2^16, so (upper << 16) | lower is upper * 2^16 + lower
    checksumValue := upper * 65536 + lower;
  }
}
