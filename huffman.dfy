/**
 * The Huffman tree both decoders build from code sizes and decode symbols with.  Its
 * implementation is not part of this model; this class is a stand-in that keeps the code sizes it
 * was built from and decodes canonically, one bit at a time.  The decoders rely on two of its
 * properties only: a decoded symbol lies below the tree's symbol count, and decoding consumes at
 * least one bit of the stream.
 */
module Huffman {
  import opened Types
  import opened BitStreams

  /** The number of symbols whose code size is `size`. */
  function CountOfSize(sizes: seq<nat>, size: nat): (count: nat)
    ensures count <= |sizes|
    decreases |sizes|
  {
    if |sizes| == 0 then 0
    else CountOfSize(sizes[..|sizes| - 1], size) + (if sizes[|sizes| - 1] == size then 1 else 0)
  }

  /** The k-th symbol, in symbol order, whose code size is `size`. */
  function NthOfSize(sizes: seq<nat>, size: nat, k: nat): (symbol: nat)
    requires k < CountOfSize(sizes, size)
    ensures symbol < |sizes| && sizes[symbol] == size
    decreases |sizes|
  {
    var init := sizes[..|sizes| - 1];
    if k < CountOfSize(init, size) then
      var s := NthOfSize(init, size, k);
      assert sizes[s] == init[s];
      s
    else |sizes| - 1
  }

  /**
   * The share of the code space the sizes take, in units of one code of `maximum` bits: a code of
   * `size` bits takes 2^(maximum - size) of them, and symbols without a code take none.  The
   * sizes describe a prefix code only while this is at most 2^maximum.
   */
  function CodeSpace(sizes: seq<nat>, maximum: nat): (space: nat)
    ensures |sizes| == 0 ==> space == 0
    decreases |sizes|
  {
    if |sizes| == 0 then 0
    else
      var size := sizes[|sizes| - 1];
      CodeSpace(sizes[..|sizes| - 1], maximum) + (if 1 <= size <= maximum then Pow2(maximum - size) else 0)
  }

  class HuffmanTree {
    /** The size of the symbol alphabet the tree was created for. */
    const numberOfSymbols: nat
    /** The longest code the tree accepts. */
    const maximumCodeSize: nat
    /** The code size of each symbol; 0 means the symbol has no code. */
    var codeSizes: seq<nat>

    ghost predicate Valid()
      reads this
    {
      |codeSizes| <= numberOfSymbols &&
      forall i :: 0 <= i < |codeSizes| ==> codeSizes[i] <= maximumCodeSize
    }

    /** An empty tree for `numberOfSymbols` symbols with codes of at most `maximumCodeSize` bits. */
    constructor (numberOfSymbols: nat, maximumCodeSize: nat)
      ensures Valid()
      ensures this.numberOfSymbols == numberOfSymbols && this.maximumCodeSize == maximumCodeSize
      ensures codeSizes == []
    {
      this.numberOfSymbols := numberOfSymbols;
      this.maximumCodeSize := maximumCodeSize;
      codeSizes := [];
    }

    /**
     * Builds the tree from one code size per symbol; it fails when there are more sizes than
     * symbols, a size exceeds the maximum code size or the sizes over-subscribe the code space.
     */
    method Build(sizes: seq<nat>) returns (ok: bool)
      requires Valid()
      modifies this
      ensures Valid()
      ensures ok ==>
        |sizes| <= numberOfSymbols &&
        (forall i :: 0 <= i < |sizes| ==> sizes[i] <= maximumCodeSize) &&
        CodeSpace(sizes, maximumCodeSize) <= Pow2(maximumCodeSize)
      ensures codeSizes == if ok then sizes else old(codeSizes)
    {
      if |sizes| > numberOfSymbols {
        return false;
      }
      var space := 0;
      var i := 0;
      while i < |sizes|
        invariant i <= |sizes|
        invariant forall j :: 0 <= j < i ==> sizes[j] <= maximumCodeSize
        invariant space == CodeSpace(sizes[..i], maximumCodeSize)
      {
        if sizes[i] > maximumCodeSize {
          return false;
        }
        assert sizes[..i + 1][..i] == sizes[..i];
        if sizes[i] >= 1 {
          space := space + Pow2(maximumCodeSize - sizes[i]);
        }
        i := i + 1;
      }
      assert sizes[..i] == sizes;
      if space > Pow2(maximumCodeSize) {
        return false;
      }
      codeSizes := sizes;
      ok := true;
    }

    /**
     * Decodes one symbol, reading one code bit at a time: the symbol lies below the symbol count
     * and at least one bit is consumed, or the decoding fails.
     */
    method GetSymbol(bitStream: BitStream) returns (r: Result<nat>)
      requires Valid() && bitStream.Valid()
      modifies bitStream
      ensures bitStream.Valid()
      ensures bitStream.storageType == old(bitStream.storageType)
      ensures bitStream.Remaining() <= old(bitStream.Remaining())
      ensures r.Ok? ==> r.value < numberOfSymbols && bitStream.Remaining() < old(bitStream.Remaining())
      ensures r.Err? ==> r.error == ReadFailed
    {
      var code := 0;
      var first := 0;
      var size := 1;
      while size <= maximumCodeSize
        invariant bitStream.Valid()
        invariant bitStream.storageType == old(bitStream.storageType)
        invariant size >= 1
        invariant size > 1 ==> bitStream.Remaining() < old(bitStream.Remaining())
        invariant size == 1 ==> bitStream.Remaining() == old(bitStream.Remaining())
      {
        var bit := bitStream.GetValue(1);
        if bit.Err? {
          return Err(ReadFailed);
        }
        code := code + bit.value;
        var count := CountOfSize(codeSizes, size);
        if first <= code < first + count {
          return Ok(NthOfSize(codeSizes, size, code - first));
        }
        first := (first + count) * 2;
        code := code * 2;
        size := size + 1;
      }
      r := Err(ReadFailed);
    }
  }
}
