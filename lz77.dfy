/**
 * The LZ77 layer shared by the DEFLATE and LZX decoders: a decoded instruction is either a literal
 * byte or a back-reference (length, distance), and the output is the sequential expansion of the
 * instructions over the bytes already written.  Back-references are copied one byte at a time, so a
 * distance smaller than the length repeats the most recent bytes.
 */
module Lz77 {
  import opened Types

  datatype Op = Literal(value: byte) | Match(length: nat, distance: nat)

  /**
   * The bytes `s` followed by `length` bytes copied one at a time from `distance` bytes back, each
   * copy seeing the bytes appended before it.
   */
  function CopyMatch(s: seq<byte>, distance: nat, length: nat): (r: seq<byte>)
    requires 1 <= distance <= |s|
    ensures |r| == |s| + length
    ensures r[..|s|] == s
    decreases length
  {
    if length == 0 then s
    else
      var t := CopyMatch(s, distance, length - 1);
      t + [t[|t| - distance]]
  }

  /** The overlapping-copy equation: every appended byte equals the byte `distance` before it. */
  lemma {:induction false} CopyMatchRepeats(s: seq<byte>, distance: nat, length: nat)
    requires 1 <= distance <= |s|
    ensures forall j :: |s| <= j < |s| + length ==>
      CopyMatch(s, distance, length)[j] == CopyMatch(s, distance, length)[j - distance]
  {
    if length > 0 {
      CopyMatchRepeats(s, distance, length - 1);
      var t := CopyMatch(s, distance, length - 1);
      var r := CopyMatch(s, distance, length);
      assert r == t + [t[|t| - distance]];
      forall j | |s| <= j < |s| + length
        ensures r[j] == r[j - distance]
      {
        if j < |s| + length - 1 {
          assert r[j] == t[j];
          assert r[j - distance] == t[j - distance];
        }
      }
    }
  }

  /** A copy whose distance is smaller than its length repeats the last `distance` bytes periodically. */
  lemma {:induction false} CopyMatchPeriodic(s: seq<byte>, distance: nat, length: nat, i: nat)
    requires 1 <= distance <= |s|
    requires i < length
    ensures CopyMatch(s, distance, length)[|s| + i] == s[|s| - distance + i % distance]
    decreases i
  {
    var r := CopyMatch(s, distance, length);
    CopyMatchRepeats(s, distance, length);
    assert r[|s| + i] == r[|s| + i - distance];
    if i < distance {
      assert i % distance == i;
      assert r[..|s|] == s;
      assert r[|s| + i - distance] == r[..|s|][|s| + i - distance];
    } else {
      CopyMatchPeriodic(s, distance, length, i - distance);
      ModSubtract(i, distance);
    }
  }

  lemma ModSubtract(i: nat, d: nat)
    requires 1 <= d <= i
    ensures (i - d) % d == i % d
  {
    var a := i - d;
    assert a == d * (a / d) + a % d;
    assert i == d * (a / d + 1) + a % d;
    ModUnique(i, d, a / d + 1, a % d);
  }

  /** A copy that does not overlap the bytes it writes is a plain append of a slice of the history. */
  lemma CopyMatchDisjoint(s: seq<byte>, distance: nat, length: nat)
    requires 1 <= distance <= |s|
    requires length <= distance
    ensures CopyMatch(s, distance, length) == s + s[|s| - distance .. |s| - distance + length]
  {
    var r := CopyMatch(s, distance, length);
    var expected := s + s[|s| - distance .. |s| - distance + length];
    forall i | 0 <= i < |r|
      ensures r[i] == expected[i]
    {
      if i >= |s| {
        CopyMatchPeriodic(s, distance, length, i - |s|);
      }
    }
  }

  /** A back-reference may reach only bytes already written, and never zero bytes back. */
  predicate Fits(t: seq<byte>, op: Op)
  {
    op.Match? ==> 1 <= op.distance <= |t|
  }

  /** The bytes `t` followed by the bytes one instruction produces. */
  function Step(t: seq<byte>, op: Op): seq<byte>
    requires Fits(t, op)
  {
    match op
    case Literal(b) => t + [b]
    case Match(length, distance) => CopyMatch(t, distance, length)
  }

  /** The instructions can be expanded in order: every back-reference reaches only bytes already present. */
  ghost predicate Expandable(s: seq<byte>, ops: seq<Op>)
    decreases |ops|, 0
  {
    |ops| == 0 ||
    (Expandable(s, ops[..|ops| - 1]) && Fits(Expand(s, ops[..|ops| - 1]), ops[|ops| - 1]))
  }

  /** The bytes `s` followed by the expansion of the instructions `ops`. */
  ghost function Expand(s: seq<byte>, ops: seq<Op>): seq<byte>
    requires Expandable(s, ops)
    decreases |ops|, 1
  {
    if |ops| == 0 then s
    else
      Step(Expand(s, ops[..|ops| - 1]), ops[|ops| - 1])
  }

  /** The number of bytes an instruction sequence produces. */
  function OutputLength(ops: seq<Op>): nat
    decreases |ops|
  {
    if |ops| == 0 then 0
    else OutputLength(ops[..|ops| - 1]) + (if ops[|ops| - 1].Literal? then 1 else ops[|ops| - 1].length)
  }

  /** Expansion appends exactly OutputLength(ops) bytes and never changes the bytes already there. */
  lemma {:induction false} ExpandExtends(s: seq<byte>, ops: seq<Op>)
    requires Expandable(s, ops)
    ensures |Expand(s, ops)| == |s| + OutputLength(ops)
    ensures Expand(s, ops)[..|s|] == s
    decreases |ops|
  {
    if |ops| > 0 {
      ExpandExtends(s, ops[..|ops| - 1]);
    }
  }

  /** Appending one instruction to a trace appends its bytes to the expansion. */
  lemma ExpandSnoc(s: seq<byte>, ops: seq<Op>, op: Op)
    requires Expandable(s, ops)
    requires Fits(Expand(s, ops), op)
    ensures Expandable(s, ops + [op])
    ensures Expand(s, ops + [op]) == Step(Expand(s, ops), op)
  {
    assert (ops + [op])[..|ops|] == ops;
  }

  /** The literal instructions for a run of bytes copied verbatim (a stored block). */
  function Literals(bytes: seq<byte>): (ops: seq<Op>)
    ensures |ops| == |bytes|
    ensures forall i :: 0 <= i < |bytes| ==> ops[i] == Literal(bytes[i])
  {
    seq(|bytes|, i requires 0 <= i < |bytes| => Literal(bytes[i]))
  }

  /** Expanding the literals of a run of bytes appends exactly those bytes. */
  lemma {:induction false} ExpandLiterals(s: seq<byte>, ops: seq<Op>, bytes: seq<byte>)
    requires Expandable(s, ops)
    ensures Expandable(s, ops + Literals(bytes))
    ensures Expand(s, ops + Literals(bytes)) == Expand(s, ops) + bytes
    decreases |bytes|
  {
    if |bytes| > 0 {
      var init := bytes[..|bytes| - 1];
      var last := bytes[|bytes| - 1];
      var before := ops + Literals(init);
      ExpandLiterals(s, ops, init);
      assert Literals(bytes) == Literals(init) + [Literal(last)];
      assert ops + Literals(bytes) == before + [Literal(last)];
      ExpandSnoc(s, before, Literal(last));
      assert Expand(s, before + [Literal(last)]) == Expand(s, before) + [last];
      assert init + [last] == bytes;
      assert Expand(s, ops) + init + [last] == Expand(s, ops) + bytes;
    } else {
      assert ops + Literals(bytes) == ops;
      assert Expand(s, ops) + bytes == Expand(s, ops);
    }
  }

  /**
   * Expanding two instruction sequences one after the other is expanding their concatenation:
   * blocks decoded in turn produce the expansion of all their instructions.
   */
  lemma {:induction false} ExpandConcat(s: seq<byte>, ops: seq<Op>, more: seq<Op>)
    requires Expandable(s, ops) && Expandable(Expand(s, ops), more)
    ensures Expandable(s, ops + more)
    ensures Expand(s, ops + more) == Expand(Expand(s, ops), more)
    decreases |more|
  {
    if |more| == 0 {
      assert ops + more == ops;
    } else {
      var init := more[..|more| - 1];
      var last := more[|more| - 1];
      ExpandConcat(s, ops, init);
      assert more == init + [last];
      assert ops + more == (ops + init) + [last];
      ExpandSnoc(s, ops + init, last);
    }
  }

  /**
   * Copies `length` bytes, one at a time, from `distance` bytes behind `offset` to `offset`; the
   * bounds checks of both decoders guarantee the preconditions.
   */
  method CopyMatchInPlace(data: array<byte>, offset: nat, distance: nat, length: nat)
    requires 1 <= distance <= offset
    requires offset + length <= data.Length
    modifies data
    ensures data[..offset + length] == CopyMatch(old(data[..offset]), distance, length)
    ensures data[offset + length..] == old(data[offset + length..])
  {
    ghost var history := data[..offset];
    var dataOffset := offset;
    var remaining := length;
    while remaining > 0
      invariant dataOffset + remaining == offset + length
      invariant offset <= dataOffset <= offset + length
      invariant data[..dataOffset] == CopyMatch(history, distance, dataOffset - offset)
      invariant data[offset + length..] == old(data[offset + length..])
    {
      ghost var before := data[..dataOffset];
      data[dataOffset] := data[dataOffset - distance];
      assert data[..dataOffset + 1] == before + [before[|before| - distance]];
      dataOffset := dataOffset + 1;
      remaining := remaining - 1;
    }
  }

  /**
   * The output buffer `data` after the expansion of `ops` from `history` has been written up to
   * `offset`: the bytes before `offset` are that expansion, the bytes from it on still those of
   * `original`.
   */
  ghost predicate Decoded(data: seq<byte>, original: seq<byte>, history: seq<byte>, ops: seq<Op>, offset: nat)
  {
    offset <= |data| == |original| &&
    Expandable(history, ops) && data[..offset] == Expand(history, ops) &&
    data[offset..] == original[offset..]
  }

  /** Writes a literal at `offset`: the output is the expansion of `ops` plus that literal. */
  method WriteLiteral(data: array<byte>, offset: nat, value: byte, ghost original: seq<byte>, ghost history: seq<byte>, ghost ops: seq<Op>)
    returns (ghost ops': seq<Op>)
    requires offset < data.Length
    requires Decoded(data[..], original, history, ops, offset)
    modifies data
    ensures ops' == ops + [Literal(value)]
    ensures Decoded(data[..], original, history, ops', offset + 1)
  {
    ExpandSnoc(history, ops, Literal(value));
    assert data[offset + 1..] == original[offset + 1..] by {
      assert data[offset..][1..] == data[offset + 1..];
    }
    data[offset] := value;
    assert data[..offset + 1] == old(data[..offset]) + [value];
    ops' := ops + [Literal(value)];
  }

  /** Copies a match to `offset`: the output is the expansion of `ops` plus that match. */
  method WriteMatch(data: array<byte>, offset: nat, length: nat, distance: nat,
                    ghost original: seq<byte>, ghost history: seq<byte>, ghost ops: seq<Op>)
    returns (ghost ops': seq<Op>)
    requires 1 <= distance <= offset && offset + length <= data.Length
    requires Decoded(data[..], original, history, ops, offset)
    modifies data
    ensures ops' == ops + [Match(length, distance)]
    ensures Decoded(data[..], original, history, ops', offset + length)
  {
    ExpandSnoc(history, ops, Match(length, distance));
    assert data[offset + length..] == original[offset + length..] by {
      assert data[offset..][length..] == data[offset + length..];
    }
    CopyMatchInPlace(data, offset, distance, length);
    ops' := ops + [Match(length, distance)];
  }
}
