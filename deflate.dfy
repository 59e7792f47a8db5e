/**
 * The zlib/DEFLATE decoder of src/deflate.c (RFC 1950 and RFC 1951): a zlib header, then blocks
 * that are stored, compressed with the fixed Huffman codes or compressed with dynamic Huffman
 * codes, expanded into a caller-sized output buffer, then an Adler-32 trailer.
 */
module Deflate {
  import opened Types
  import opened Lz77
  import opened BitStreams
  import opened Huffman
  import opened CodeSizes
  import Adler32

  /* ---------------------------------------------------------------------------------------
   * Tables of section 3.2.5 of RFC 1951
   * --------------------------------------------------------------------------------------- */

  /** The base match length of length symbols 257..285. */
  const LengthBase: seq<nat> := [
    3, 4, 5, 6, 7, 8, 9, 10, 11, 13, 15, 17, 19, 23, 27, 31,
    35, 43, 51, 59, 67, 83, 99, 115, 131, 163, 195, 227, 258]

  /** The number of extra bits that follow length symbols 257..285. */
  const LengthExtraBits: seq<nat> := [
    0, 0, 0, 0, 0, 0, 0, 0, 1, 1, 1, 1, 2, 2, 2, 2,
    3, 3, 3, 3, 4, 4, 4, 4, 5, 5, 5, 5, 0]

  /** The base distance of distance symbols 0..29. */
  const DistanceBase: seq<nat> := [
    1, 2, 3, 4, 5, 7, 9, 13, 17, 25, 33, 49, 65, 97, 129, 193,
    257, 385, 513, 769, 1025, 1537, 2049, 3073, 4097, 6145, 8193,
    12289, 16385, 24577]

  /** The number of extra bits that follow distance symbols 0..29. */
  const DistanceExtraBits: seq<nat> := [
    0, 0, 0, 0, 1, 1, 2, 2, 3, 3, 4, 4, 5, 5, 6, 6,
    7, 7, 8, 8, 9, 9, 10, 10, 11, 11, 12, 12, 13, 13]

  /**
   * The length symbols cover the match lengths 3..258 without gap or overlap: each symbol's
   * range (base plus extra bits) ends where the next one starts, and the last but one ends at 258.
   */
  lemma LengthTableContiguous()
    ensures |LengthBase| == |LengthExtraBits| == 29
    ensures LengthBase[0] == 3 && LengthBase[28] == 258 && LengthExtraBits[28] == 0
    ensures forall i :: 0 <= i < 27 ==> LengthBase[i] + Pow2(LengthExtraBits[i]) == LengthBase[i + 1]
    ensures LengthBase[27] + Pow2(LengthExtraBits[27]) == 259
  {
    Pow2Table();
  }

  /** The distance symbols cover the distances 1..32768 without gap or overlap. */
  lemma DistanceTableContiguous()
    ensures |DistanceBase| == |DistanceExtraBits| == 30
    ensures DistanceBase[0] == 1
    ensures forall i :: 0 <= i < 29 ==> DistanceBase[i] + Pow2(DistanceExtraBits[i]) == DistanceBase[i + 1]
    ensures DistanceBase[29] + Pow2(DistanceExtraBits[29]) == 32769
  {
    Pow2Table();
  }

  /** A decoded instruction of DEFLATE: a literal, or a match of 3..258 bytes reaching 1..32768 bytes back. */
  predicate DeflateOp(op: Op)
  {
    op.Match? ==> 3 <= op.length <= 258 && 1 <= op.distance <= 32768
  }

  /** The length a length symbol and its extra bits stand for lies in 3..258. */
  lemma LengthRange(index: nat, extra: nat)
    requires index < 29 && extra < Pow2(LengthExtraBits[index])
    ensures 3 <= LengthBase[index] + extra <= 258
  {
    Pow2Table();
  }

  /** The distance a distance symbol and its extra bits stand for lies in 1..32768. */
  lemma DistanceRange(index: nat, extra: nat)
    requires index < 30 && extra < Pow2(DistanceExtraBits[index])
    ensures 1 <= DistanceBase[index] + extra <= 32768
  {
    Pow2Table();
  }

  /* ---------------------------------------------------------------------------------------
   * The zlib header (section 2.2 of RFC 1950)
   * --------------------------------------------------------------------------------------- */

  /**
   * What the decoder keeps of the zlib header: the compression method and information nibbles,
   * the preset dictionary identifier when the FDICT flag is set, the offset of the first block
   * and the input size the bit stream is given.
   */
  datatype ZlibHeader = ZlibHeader(
    compressionMethod: nat,
    compressionInformation: nat,
    dictionaryIdentifier: Option<nat>,
    dataOffset: nat,
    streamSize: nat)

  /** A 32-bit big-endian value. */
  function BigEndian32(b: seq<byte>): (v: nat)
    requires |b| == 4
    ensures v < 0x1_0000_0000
  {
    ((b[0] as nat * 256 + b[1] as nat) * 256 + b[2] as nat) * 256 + b[3] as nat
  }

  /**
   * The header checks of deflate_decompress, in the source's order.  As in the source, the header
   * length is both added to the offset and subtracted from the size, so the data must extend
   * beyond twice the header length.
   */
  function ParseZlibHeader(input: seq<byte>): (r: Result<ZlibHeader>)
    ensures r.Ok? <==>
      |input| >= 2 && input[0] as nat % 16 == 8 && input[0] as nat / 16 <= 7 &&
      (if (input[1] as nat / 32) % 2 == 1 then 12 < |input| else 4 < |input|)
    ensures r.Ok? ==>
      r.value.compressionMethod == 8 && r.value.compressionInformation <= 7 &&
      r.value.dataOffset == (if r.value.dictionaryIdentifier.Some? then 6 else 2) &&
      r.value.streamSize == |input| - r.value.dataOffset &&
      r.value.dataOffset < r.value.streamSize
    ensures r.Err? ==> r.error == TooSmall || r.error == Unsupported
  {
    if |input| < 2 then Err(TooSmall)
    else
      var compressionMethod := input[0] as nat % 16;
      var compressionInformation := input[0] as nat / 16;
      var hasDictionary := (input[1] as nat / 32) % 2 == 1;
      if hasDictionary && |input| < 6 then Err(TooSmall)
      else
        var dictionaryIdentifier := if hasDictionary then Some(BigEndian32(input[2..6])) else None;
        var dataOffset := if hasDictionary then 6 else 2;
        var streamSize := |input| - dataOffset;
        if compressionMethod != 8 then Err(Unsupported)
        else if Pow2(compressionInformation + 8) > 32768 then
          WindowSizeLimit(compressionInformation);
          Err(Unsupported)
        else if dataOffset >= streamSize then
          WindowSizeLimit(compressionInformation);
          Err(TooSmall)
        else
          WindowSizeLimit(compressionInformation);
          Ok(ZlibHeader(compressionMethod, compressionInformation, dictionaryIdentifier, dataOffset, streamSize))
  }

  /** The window 1 << (CINFO + 8) is at most 32768 bytes exactly when CINFO is at most 7. */
  lemma WindowSizeLimit(compressionInformation: nat)
    ensures Pow2(compressionInformation + 8) <= 32768 <==> compressionInformation <= 7
  {
    Pow2Table();
    if compressionInformation <= 7 {
      Pow2Monotone(compressionInformation + 8, 15);
    } else {
      Pow2Monotone(16, compressionInformation + 8);
    }
  }

  /* ---------------------------------------------------------------------------------------
   * Dynamic Huffman code sizes (section 3.2.7 of RFC 1951)
   * --------------------------------------------------------------------------------------- */

  /** The three counts of a dynamic block header: HLIT + 257, HDIST + 1 and HCLEN + 4. */
  datatype DynamicHeader = DynamicHeader(literalCodes: nat, distanceCodes: nat, preCodes: nat)

  /**
   * Splits the 14 header bits into 5 bits HLIT, 5 bits HDIST and 4 bits HCLEN; more than 286
   * literal/length codes or more than 30 distance codes is out of bounds.
   */
  function ParseDynamicHeader(value: nat): (r: Result<DynamicHeader>)
    requires value < 16384
    ensures r.Ok? <==> value % 32 <= 29 && (value / 32) % 32 <= 29
    ensures r.Ok? ==>
      257 <= r.value.literalCodes <= 286 && r.value.literalCodes == value % 32 + 257 &&
      1 <= r.value.distanceCodes <= 30 && r.value.distanceCodes == (value / 32) % 32 + 1 &&
      4 <= r.value.preCodes <= 19 && r.value.preCodes == value / 1024 + 4
    ensures r.Err? ==> r.error == OutOfBounds
  {
    var literalCodes := value % 32 + 257;
    if literalCodes > 286 then Err(OutOfBounds)
    else
      var distanceCodes := (value / 32) % 32 + 1;
      if distanceCodes > 30 then Err(OutOfBounds)
      else Ok(DynamicHeader(literalCodes, distanceCodes, value / 1024 + 4))
  }

  /** The order in which the pre-code sizes are stored. */
  const PreCodeOrder: seq<nat> := [16, 17, 18, 0, 8, 7, 9, 6, 10, 5, 11, 4, 12, 3, 13, 2, 14, 1, 15]

  /** The position of each pre-code symbol in PreCodeOrder. */
  const PreCodePosition: seq<nat> := [3, 17, 15, 13, 11, 9, 7, 5, 4, 6, 8, 10, 12, 14, 16, 18, 0, 1, 2]

  /** The pre-code symbol whose size is stored at position `i`. */
  function PreCodeSymbol(i: nat): (symbol: nat)
    requires i < 19
    ensures symbol < 19
  {
    PreCodeOrder[i]
  }

  /** The position at which the size of the pre-code symbol `symbol` is stored. */
  function PreCodeIndex(symbol: nat): (i: nat)
    requires symbol < 19
    ensures i < 19
  {
    PreCodePosition[symbol]
  }

  /** PreCodeOrder is a permutation of the 19 pre-code symbols: every symbol is stored exactly once. */
  lemma PreCodeOrderIsPermutation()
    ensures forall i :: 0 <= i < 19 ==> PreCodeIndex(PreCodeSymbol(i)) == i
    ensures forall j :: 0 <= j < 19 ==> PreCodeSymbol(PreCodeIndex(j)) == j
  {
  }

  /**
   * A run of code sizes that a code-length symbol may produce after the sizes `prefix`:
   * a single size 0..15 (symbols 0..15), the previous size 3..6 times (16), or zero 3..10 times
   * (17) or 11..138 times (18).
   */
  predicate DeflateRunAllowed(prefix: seq<nat>, run: Run)
  {
    (run.times == 1 && run.size < 16) ||
    (|prefix| > 0 && run.size == prefix[|prefix| - 1] && 3 <= run.times <= 6) ||
    (run.size == 0 && 3 <= run.times <= 10) ||
    (run.size == 0 && 11 <= run.times <= 138)
  }

  /** Each run of `runs` is one a code-length symbol may produce after the sizes before it. */
  ghost predicate DeflateRunsAllowed(runs: seq<Run>)
    decreases |runs|
  {
    |runs| == 0 ||
    (DeflateRunsAllowed(runs[..|runs| - 1]) && DeflateRunAllowed(Flatten(runs[..|runs| - 1]), runs[|runs| - 1]))
  }

  lemma DeflateRunsSnoc(runs: seq<Run>, run: Run)
    requires DeflateRunsAllowed(runs) && DeflateRunAllowed(Flatten(runs), run)
    ensures DeflateRunsAllowed(runs + [run])
  {
    assert (runs + [run])[..|runs|] == runs;
  }

  /** Every code size a valid run sequence produces is below 16. */
  lemma {:induction false} DeflateRunsBound(runs: seq<Run>)
    requires DeflateRunsAllowed(runs)
    ensures forall j :: 0 <= j < |Flatten(runs)| ==> Flatten(runs)[j] < 16
    decreases |runs|
  {
    if |runs| > 0 {
      DeflateRunsBound(runs[..|runs| - 1]);
    }
  }

  /**
   * Reads HCLEN 3-bit pre-code sizes into the positions PreCodeOrder names, and sets the sizes of
   * the pre-code symbols not transmitted to 0.
   */
  method ReadPreCodeSizes(bitStream: BitStream, codeSizes: array<nat>, preCodes: nat)
    returns (r: Result<()>, ghost values: seq<nat>)
    requires bitStream.Valid()
    requires 19 <= codeSizes.Length && preCodes <= 19
    modifies bitStream, codeSizes
    ensures bitStream.Valid() && bitStream.Remaining() <= old(bitStream.Remaining())
    ensures bitStream.storageType == old(bitStream.storageType)
    ensures codeSizes[19..] == old(codeSizes[19..])
    ensures r.Ok? ==>
      |values| == preCodes &&
      (forall i :: 0 <= i < 19 ==> codeSizes[PreCodeSymbol(i)] == if i < preCodes then values[i] else 0) &&
      (forall j :: 0 <= j < 19 ==> codeSizes[j] < 8)
    ensures r.Err? ==> r.error == ReadFailed
  {
    values := [];
    var index := 0;
    while index < preCodes
      invariant index <= preCodes && |values| == index
      invariant bitStream.Valid() && bitStream.Remaining() <= old(bitStream.Remaining())
      invariant bitStream.storageType == old(bitStream.storageType)
      invariant codeSizes[19..] == old(codeSizes[19..])
      invariant forall i :: 0 <= i < index ==> codeSizes[PreCodeSymbol(i)] == values[i] < 8
    {
      var codeSize := bitStream.GetValue(3);
      if codeSize.Err? {
        return Err(ReadFailed), values;
      }
      Pow2Table();
      SetPreCodeSize(codeSizes, index, codeSize.value);
      values := values + [codeSize.value];
      index := index + 1;
    }
    while index < 19
      modifies codeSizes
      invariant preCodes <= index <= 19
      invariant codeSizes[19..] == old(codeSizes[19..])
      invariant forall i :: 0 <= i < index ==> codeSizes[PreCodeSymbol(i)] == (if i < preCodes then values[i] else 0) < 8
    {
      SetPreCodeSize(codeSizes, index, 0);
      index := index + 1;
    }
    PreCodeOrderIsPermutation();
    forall j | 0 <= j < 19
      ensures codeSizes[j] < 8
    {
      assert codeSizes[PreCodeSymbol(PreCodeIndex(j))] < 8;
    }
    r := Ok(());
  }

  /**
   * Stores the size of the pre-code symbol at position `index` of PreCodeOrder; the sizes of the
   * symbols at the other positions, and the entries from 19 on, are left alone.
   */
  method SetPreCodeSize(codeSizes: array<nat>, index: nat, value: nat)
    requires 19 <= codeSizes.Length && index < 19
    modifies codeSizes
    ensures codeSizes[PreCodeSymbol(index)] == value
    ensures forall i :: 0 <= i < 19 && i != index ==> codeSizes[PreCodeSymbol(i)] == old(codeSizes[PreCodeSymbol(i)])
    ensures codeSizes[19..] == old(codeSizes[19..])
  {
    PreCodeOrderIsPermutation();
    codeSizes[PreCodeSymbol(index)] := value;
  }

  /**
   * Decodes `count` code sizes with the pre-code tree: each code-length symbol yields a run
   * (ReadRun, which rejects a repeat beyond the `count` entries) that is written out (WriteRun).
   */
  method ReadCodeSizes(bitStream: BitStream, preCodesTree: HuffmanTree, codeSizes: array<nat>, count: nat)
    returns (r: Result<()>, ghost runs: seq<Run>)
    requires bitStream.Valid() && preCodesTree.Valid()
    requires count <= codeSizes.Length
    modifies bitStream, codeSizes
    ensures bitStream.Valid() && bitStream.Remaining() <= old(bitStream.Remaining())
    ensures bitStream.storageType == old(bitStream.storageType)
    ensures codeSizes[count..] == old(codeSizes[count..])
    ensures r.Ok? ==> codeSizes[..count] == Flatten(runs) && DeflateRunsAllowed(runs)
    ensures r.Err? ==> r.error == ReadFailed || r.error == OutOfBounds
  {
    runs := [];
    var index := 0;
    while index < count
      invariant index <= count
      invariant bitStream.Valid() && bitStream.Remaining() <= old(bitStream.Remaining())
      invariant bitStream.storageType == old(bitStream.storageType)
      invariant codeSizes[count..] == old(codeSizes[count..])
      invariant codeSizes[..index] == Flatten(runs) && DeflateRunsAllowed(runs)
    {
      var run, _, _ := ReadRun(bitStream, preCodesTree, codeSizes, index, count);
      if run.Err? {
        return Err(run.error), runs;
      }
      ghost var before := codeSizes[..];
      WriteRun(codeSizes, index, run.value);
      SuffixAfter(codeSizes[..], before, index + run.value.times, count);
      DeflateRunsSnoc(runs, run.value);
      FlattenSnoc(runs, run.value);
      runs := runs + [run.value];
      index := index + run.value.times;
    }
    r := Ok(());
  }

  /** The least repeat count of code-length symbols 16, 17 and 18. */
  function RepeatBase(symbol: nat): (base: nat)
    requires 16 <= symbol <= 18
    ensures 3 <= base <= 11
  {
    if symbol == 18 then 11 else 3
  }

  /** The number of extra bits added to the repeat count of code-length symbols 16, 17 and 18. */
  function RepeatBits(symbol: nat): (bits: nat)
    requires 16 <= symbol <= 18
    ensures 2 <= bits <= 7
  {
    if symbol == 16 then 2 else if symbol == 17 then 3 else 7
  }

  /**
   * Decodes one code-length symbol and its repeat count: symbols 0..15 store that size once, 16
   * repeats the previous size 3 + (2 bits) times and fails at the first position, 17 stores zero
   * 3 + (3 bits) times and 18 stores zero 11 + (7 bits) times; any other symbol is out of bounds,
   * and so is a count beyond the code sizes still to fill.  `symbol` is the code-length symbol
   * decoded and `extra` the extra bits read after it.
   */
  method ReadRun(bitStream: BitStream, preCodesTree: HuffmanTree, codeSizes: array<nat>, index: nat, count: nat)
    returns (r: Result<Run>, ghost symbol: Option<nat>, ghost extra: Option<nat>)
    requires bitStream.Valid() && preCodesTree.Valid()
    requires index < count <= codeSizes.Length
    modifies bitStream
    ensures bitStream.Valid() && bitStream.Remaining() <= old(bitStream.Remaining())
    ensures bitStream.storageType == old(bitStream.storageType)
    ensures r.Ok? ==> DeflateRunAllowed(codeSizes[..index], r.value) && 1 <= r.value.times <= count - index
    ensures r.Err? ==> r.error == ReadFailed || r.error == OutOfBounds
    ensures symbol.None? ==> r == Err(ReadFailed)
    ensures symbol.Some? ==> symbol.value < preCodesTree.numberOfSymbols
    ensures symbol.Some? && symbol.value < 16 ==> r == Ok(Run(symbol.value, 1))
    ensures symbol.Some? && symbol.value > 18 ==> r == Err(OutOfBounds)
    ensures symbol == Some(16) && index == 0 ==> r == Err(OutOfBounds)
    ensures symbol.Some? && 16 <= symbol.value <= 18 && !(symbol.value == 16 && index == 0) && extra.None? ==>
      r == Err(ReadFailed)
    ensures extra.Some? ==>
      symbol.Some? && 16 <= symbol.value <= 18 && (symbol.value == 16 ==> index > 0) &&
      extra.value < Pow2(RepeatBits(symbol.value)) &&
      r == (if RepeatBase(symbol.value) + extra.value > count - index then Err(OutOfBounds)
            else Ok(Run(if symbol.value == 16 then codeSizes[index - 1] else 0, RepeatBase(symbol.value) + extra.value)))
  {
    symbol, extra := None, None;
    var symbolResult := preCodesTree.GetSymbol(bitStream);
    if symbolResult.Err? {
      return Err(ReadFailed), symbol, extra;
    }
    symbol := Some(symbolResult.value);
    if symbolResult.value < 16 {
      return Ok(Run(symbolResult.value, 1)), symbol, extra;
    }
    if symbolResult.value > 18 || (symbolResult.value == 16 && index == 0) {
      return Err(OutOfBounds), symbol, extra;
    }
    var codeSize: nat := if symbolResult.value == 16 then codeSizes[index - 1] else 0;
    var bits := bitStream.GetValue(RepeatBits(symbolResult.value));
    if bits.Err? {
      return Err(ReadFailed), symbol, extra;
    }
    extra := Some(bits.value);
    var timesToRepeat := RepeatBase(symbolResult.value) + bits.value;
    if timesToRepeat > count - index {
      return Err(OutOfBounds), symbol, extra;
    }
    Pow2Table();
    r := Ok(Run(codeSize, timesToRepeat));
  }

  /* ---------------------------------------------------------------------------------------
   * Building the Huffman trees of a block
   * --------------------------------------------------------------------------------------- */

  /**
   * Reads a dynamic block's header, its pre-code sizes and its run-length encoded code sizes,
   * and builds the literal/length tree from the first HLIT + 257 sizes and the distance tree from
   * the HDIST + 1 sizes after them.  The end-of-block symbol 256 must have a code.
   */
  method BuildDynamicTrees(bitStream: BitStream, literals: HuffmanTree, distances: HuffmanTree)
    returns (r: Result<()>, ghost headerBits: nat, ghost header: DynamicHeader, ghost runs: seq<Run>)
    requires bitStream.Valid() && literals.Valid() && distances.Valid() && literals != distances
    requires literals.numberOfSymbols == 288 && literals.maximumCodeSize == 15
    requires distances.numberOfSymbols == 30 && distances.maximumCodeSize == 15
    modifies bitStream, literals, distances
    ensures bitStream.Valid() && bitStream.Remaining() <= old(bitStream.Remaining())
    ensures bitStream.storageType == old(bitStream.storageType)
    ensures literals.Valid() && distances.Valid()
    ensures r.Ok? ==>
      headerBits < 16384 && ParseDynamicHeader(headerBits) == Ok(header) &&
      DeflateRunsAllowed(runs) &&
      |Flatten(runs)| == header.literalCodes + header.distanceCodes &&
      Flatten(runs)[256] != 0 &&
      literals.codeSizes == Flatten(runs)[..header.literalCodes] &&
      distances.codeSizes == Flatten(runs)[header.literalCodes..]
    ensures r.Err? ==> r.error in {ReadFailed, OutOfBounds, ValueMissing, BuildFailed}
  {
    var sizes, bits, counts;
    sizes, bits, counts, runs := ReadDynamicCodeSizes(bitStream);
    headerBits, header := bits, counts;
    if sizes.Err? {
      return Err(sizes.error), headerBits, header, runs;
    }
    var codeSizes := sizes.value;
    if codeSizes[256] == 0 {
      return Err(ValueMissing), headerBits, header, runs;
    }
    var built := literals.Build(codeSizes[..counts.literalCodes]);
    if !built {
      return Err(BuildFailed), headerBits, header, runs;
    }
    built := distances.Build(codeSizes[counts.literalCodes..]);
    if !built {
      return Err(BuildFailed), headerBits, header, runs;
    }
    r := Ok(());
  }

  /**
   * The reading half of BuildDynamicTrees: the 14-bit header, the pre-code sizes, the pre-code
   * tree, and the HLIT + 257 + HDIST + 1 code sizes it decodes, which are returned.
   */
  method ReadDynamicCodeSizes(bitStream: BitStream)
    returns (r: Result<seq<nat>>, headerBits: nat, header: DynamicHeader, ghost runs: seq<Run>)
    requires bitStream.Valid()
    modifies bitStream
    ensures bitStream.Valid() && bitStream.Remaining() <= old(bitStream.Remaining())
    ensures bitStream.storageType == old(bitStream.storageType)
    ensures r.Ok? ==>
      headerBits < 16384 && ParseDynamicHeader(headerBits) == Ok(header) &&
      DeflateRunsAllowed(runs) && r.value == Flatten(runs) &&
      |r.value| == header.literalCodes + header.distanceCodes
    ensures r.Err? ==> r.error in {ReadFailed, OutOfBounds, BuildFailed}
  {
    header := DynamicHeader(0, 0, 0);
    runs := [];
    headerBits := 0;
    var value := bitStream.GetValue(14);
    if value.Err? {
      return Err(ReadFailed), headerBits, header, runs;
    }
    Pow2Table();
    headerBits := value.value;
    var parsed := ParseDynamicHeader(headerBits);
    if parsed.Err? {
      return Err(parsed.error), headerBits, header, runs;
    }
    header := parsed.value;
    var codeSizes := new nat[316](_ => 0);
    var preCodesResult, _ := ReadPreCodeSizes(bitStream, codeSizes, header.preCodes);
    if preCodesResult.Err? {
      return Err(preCodesResult.error), headerBits, header, runs;
    }
    var preCodesTree := new HuffmanTree(19, 15);
    var built := preCodesTree.Build(codeSizes[..19]);
    if !built {
      return Err(BuildFailed), headerBits, header, runs;
    }
    var count := header.literalCodes + header.distanceCodes;
    var sizesResult;
    sizesResult, runs := ReadCodeSizes(bitStream, preCodesTree, codeSizes, count);
    if sizesResult.Err? {
      return Err(sizesResult.error), headerBits, header, runs;
    }
    r := Ok(codeSizes[..count]);
  }

  /**
   * Builds the fixed trees of section 3.2.6 of RFC 1951: literal/length symbols 0..143 have 8-bit
   * codes, 144..255 9-bit codes, 256..279 7-bit codes and 280..287 8-bit codes; the 30 distance
   * symbols have 5-bit codes.
   */
  method BuildFixedTrees(literals: HuffmanTree, distances: HuffmanTree) returns (r: Result<()>)
    requires literals.Valid() && distances.Valid() && literals != distances
    modifies literals, distances
    ensures literals.Valid() && distances.Valid()
    ensures r.Ok? ==>
      |literals.codeSizes| == 288 &&
      (forall i :: 0 <= i < 144 ==> literals.codeSizes[i] == 8) &&
      (forall i :: 144 <= i < 256 ==> literals.codeSizes[i] == 9) &&
      (forall i :: 256 <= i < 280 ==> literals.codeSizes[i] == 7) &&
      (forall i :: 280 <= i < 288 ==> literals.codeSizes[i] == 8) &&
      |distances.codeSizes| == 30 &&
      (forall i :: 0 <= i < 30 ==> distances.codeSizes[i] == 5)
    ensures r.Err? ==> r.error == BuildFailed
  {
    var codeSizes := new nat[318](_ => 0);
    for symbol := 0 to 318
      modifies codeSizes
      invariant forall i :: 0 <= i < symbol ==>
        codeSizes[i] == (if i < 144 then 8 else if i < 256 then 9 else if i < 280 then 7 else if i < 288 then 8 else 5)
    {
      if symbol < 144 {
        codeSizes[symbol] := 8;
      } else if symbol < 256 {
        codeSizes[symbol] := 9;
      } else if symbol < 280 {
        codeSizes[symbol] := 7;
      } else if symbol < 288 {
        codeSizes[symbol] := 8;
      } else {
        codeSizes[symbol] := 5;
      }
    }
    var built := literals.Build(codeSizes[..288]);
    if !built {
      return Err(BuildFailed);
    }
    built := distances.Build(codeSizes[288..]);
    if !built {
      return Err(BuildFailed);
    }
    r := Ok(());
  }

  /* ---------------------------------------------------------------------------------------
   * Decoding the symbols of a compressed block (section 3.2.5 of RFC 1951)
   * --------------------------------------------------------------------------------------- */

  /**
   * Decodes literal/length symbols until the end-of-block symbol 256: a literal is written at the
   * output offset, a length symbol 257..285 with its extra bits and a distance symbol with its
   * extra bits copies a match from earlier output, which may lie in an earlier block.  A match
   * reaching before the start of the output is out of bounds, output that does not fit is too
   * small, and the literal/length symbols 286 and 287 are rejected.  The bytes written are the
   * expansion of the decoded instructions `ops`.
   */
  method DecodeHuffman(bitStream: BitStream, literals: HuffmanTree, distances: HuffmanTree, data: array<byte>, dataOffset: nat)
    returns (r: Result<nat>, ghost ops: seq<Op>)
    requires bitStream.Valid() && literals.Valid() && distances.Valid()
    requires distances.numberOfSymbols <= 30
    requires dataOffset <= data.Length
    modifies bitStream, data
    ensures bitStream.Valid() && bitStream.Remaining() <= old(bitStream.Remaining())
    ensures bitStream.storageType == old(bitStream.storageType)
    ensures r.Ok? ==>
      dataOffset <= r.value <= data.Length &&
      Expandable(old(data[..dataOffset]), ops) &&
      data[..r.value] == Expand(old(data[..dataOffset]), ops) &&
      data[r.value..] == old(data[r.value..]) &&
      forall i :: 0 <= i < |ops| ==> DeflateOp(ops[i])
    ensures r.Err? ==> r.error in {ReadFailed, TooSmall, OutOfBounds}
  {
    ghost var history := data[..dataOffset];
    ops := [];
    var offset := dataOffset;
    while true
      invariant dataOffset <= offset <= data.Length
      invariant bitStream.Valid() && bitStream.Remaining() <= old(bitStream.Remaining())
      invariant bitStream.storageType == old(bitStream.storageType)
      invariant Decoded(data[..], old(data[..]), history, ops, offset)
      invariant forall i :: 0 <= i < |ops| ==> DeflateOp(ops[i])
      decreases bitStream.Remaining()
    {
      var symbolResult := literals.GetSymbol(bitStream);
      if symbolResult.Err? {
        return Err(ReadFailed), ops;
      }
      var symbol := symbolResult.value;
      if symbol < 256 {
        if offset >= data.Length {
          return Err(TooSmall), ops;
        }
        ops := WriteLiteral(data, offset, symbol as byte, old(data[..]), history, ops);
        offset := offset + 1;
      } else if 256 < symbol < 286 {
        var op, lengthExtra, distanceSymbol, distanceExtra := DecodeMatch(bitStream, distances, symbol - 257);
        if op.Err? {
          return Err(op.error), ops;
        }
        var length, distance := op.value.length, op.value.distance;
        if distance > offset {
          return Err(OutOfBounds), ops;
        }
        if offset + length > data.Length {
          return Err(TooSmall), ops;
        }
        ops := WriteMatch(data, offset, length, distance, old(data[..]), history, ops);
        offset := offset + length;
      } else if symbol != 256 {
        return Err(ReadFailed), ops;
      } else {
        // After a match the source's loop variable holds the distance symbol, below 30, so the
        // block ends only on the end-of-block symbol read here.
        ExpandExtends(history, ops);
        return Ok(offset), ops;
      }
    }
  }

  /**
   * Reads the extra bits of the length symbol 257 + `index`, a distance symbol and its extra
   * bits: the length is the symbol's base length plus its extra bits and the distance the
   * distance symbol's base distance plus its extra bits, a match of 3..258 bytes reaching
   * 1..32768 bytes back.
   */
  method DecodeMatch(bitStream: BitStream, distances: HuffmanTree, index: nat)
    returns (r: Result<Op>, ghost lengthExtra: nat, ghost distanceSymbol: nat, ghost distanceExtra: nat)
    requires bitStream.Valid() && distances.Valid()
    requires distances.numberOfSymbols <= 30
    requires index < 29
    modifies bitStream
    ensures bitStream.Valid() && bitStream.Remaining() <= old(bitStream.Remaining())
    ensures bitStream.storageType == old(bitStream.storageType)
    ensures r.Ok? ==>
      lengthExtra < Pow2(LengthExtraBits[index]) && distanceSymbol < 30 &&
      distanceExtra < Pow2(DistanceExtraBits[distanceSymbol]) &&
      r.value == Match(LengthBase[index] + lengthExtra, DistanceBase[distanceSymbol] + distanceExtra)
    ensures r.Ok? ==> DeflateOp(r.value)
    ensures r.Err? ==> r.error == ReadFailed
  {
    lengthExtra, distanceSymbol, distanceExtra := 0, 0, 0;
    var lengthBits := bitStream.GetValue(LengthExtraBits[index]);
    if lengthBits.Err? {
      return Err(ReadFailed), lengthExtra, distanceSymbol, distanceExtra;
    }
    lengthExtra := lengthBits.value;
    LengthRange(index, lengthExtra);
    var length := LengthBase[index] + lengthBits.value;
    var symbol := distances.GetSymbol(bitStream);
    if symbol.Err? {
      return Err(ReadFailed), lengthExtra, distanceSymbol, distanceExtra;
    }
    distanceSymbol := symbol.value;
    var distanceBits := bitStream.GetValue(DistanceExtraBits[symbol.value]);
    if distanceBits.Err? {
      return Err(ReadFailed), lengthExtra, distanceSymbol, distanceExtra;
    }
    distanceExtra := distanceBits.value;
    DistanceRange(distanceSymbol, distanceExtra);
    var distance := DistanceBase[symbol.value] + distanceBits.value;
    r := Ok(Match(length, distance));
  }

  /* ---------------------------------------------------------------------------------------
   * Stored blocks (section 3.2.4 of RFC 1951)
   * --------------------------------------------------------------------------------------- */

  /** The one's complement of a 16-bit value, `x ^ 0xffff`. */
  function Complement16(x: nat): (r: nat)
    requires x < 65536
    ensures r < 65536
  {
    65535 - x
  }

  /** On 16-bit values, the exclusive or with 0xffff is the subtraction Complement16 performs. */
  lemma XorIsComplement(y: bv16)
    ensures y ^ 0xffff == 0xffff - y
  {
  }

  /**
   * The LEN/NLEN check of a stored block as src/deflate.c writes it: the 32-bit header value is
   * masked to its low half LEN first, and the copy is then taken from the high half of the masked
   * value, which is always zero, so the check compares LEN with 0xffff and never looks at NLEN.
   */
  function StoredBlockSizeAsWritten(header: nat): (r: Result<nat>)
    requires header < 0x1_0000_0000
    ensures r.Ok? <==> header % 65536 == 65535
  {
    var blockSize := header % 65536;
    var blockSizeCopy := Complement16(blockSize / 65536);
    if blockSize != blockSizeCopy then Err(SizeMismatch) else Ok(blockSize)
  }

  /**
   * The stored-block check: the low half LEN of the header value is the block size and the high
   * half NLEN must be its one's complement.
   */
  function StoredBlockSize(header: nat): (r: Result<nat>)
    requires header < 0x1_0000_0000
    ensures r.Ok? <==> header / 65536 == Complement16(header % 65536)
    ensures r.Ok? ==> r.value == header % 65536 && r.value + header / 65536 == 65535
    ensures r.Err? ==> r.error == SizeMismatch
  {
    var blockSize := header % 65536;
    var blockSizeCopy := Complement16(header / 65536);
    if blockSize != blockSizeCopy then Err(SizeMismatch) else Ok(blockSize)
  }

  /**
   * A well-formed stored block of 5 bytes (LEN 0x0005, NLEN 0xfffa) passes the intended check
   * and fails the check as written; a header with LEN and NLEN both 0xffff, which the intended
   * check rejects, passes it.
   */
  lemma StoredBlockSizeAsWrittenRejectsValidHeader()
    ensures StoredBlockSize(0xfffa_0005) == Ok(5)
    ensures StoredBlockSizeAsWritten(0xfffa_0005) == Err(SizeMismatch)
    ensures StoredBlockSizeAsWritten(0xffff_ffff) == Ok(65535)
    ensures StoredBlockSize(0xffff_ffff).Err?
  {
  }

  /**
   * Copies a stored block: skips to the next byte boundary, reads LEN and NLEN, and copies LEN
   * bytes straight from the compressed data to the output, after which the bit buffer is empty.
   * LEN 0 ends the block at once; LEN beyond the remaining input or the remaining output is too
   * small.  `header` is the 32-bit LEN/NLEN value read.
   */
  method CopyStoredBlock(bitStream: BitStream, data: array<byte>, dataOffset: nat)
    returns (r: Result<nat>, ghost bytes: seq<byte>, ghost header: nat)
    requires bitStream.Valid()
    requires dataOffset <= data.Length
    modifies bitStream, data
    ensures bitStream.Valid() && bitStream.Remaining() <= old(bitStream.Remaining())
    ensures bitStream.storageType == old(bitStream.storageType)
    ensures r.Ok? ==>
      r.value == dataOffset + |bytes| <= data.Length &&
      data[..r.value] == old(data[..dataOffset]) + bytes &&
      data[r.value..] == old(data[r.value..]) &&
      bitStream.byteStreamOffset >= |bytes| &&
      bytes == bitStream.byteStream[bitStream.byteStreamOffset - |bytes|..bitStream.byteStreamOffset] &&
      (|bytes| > 0 ==> bitStream.bitBufferSize == 0)
    ensures r.Ok? ==> header < 0x1_0000_0000 && StoredBlockSize(header) == Ok(|bytes|)
    ensures r.Err? ==> r.error in {ReadFailed, SizeMismatch, TooSmall}
    ensures r == Err(SizeMismatch) ==> header < 0x1_0000_0000 && StoredBlockSize(header).Err?
    ensures r == Err(TooSmall) ==>
      header < 0x1_0000_0000 && StoredBlockSize(header).Ok? &&
      (StoredBlockSize(header).value > bitStream.byteStreamSize - bitStream.byteStreamOffset ||
       StoredBlockSize(header).value > data.Length - dataOffset)
  {
    bytes := [];
    var blockSize;
    blockSize, header := ReadStoredHeader(bitStream);
    if blockSize.Err? {
      return Err(blockSize.error), bytes, header;
    }
    var size := blockSize.value;
    if size == 0 {
      assert bitStream.byteStream[bitStream.byteStreamOffset..bitStream.byteStreamOffset] == bytes;
      assert data[..dataOffset] == old(data[..dataOffset]) + bytes;
      return Ok(dataOffset), bytes, header;
    }
    if size > bitStream.byteStreamSize - bitStream.byteStreamOffset {
      return Err(TooSmall), bytes, header;
    }
    if size > data.Length - dataOffset {
      return Err(TooSmall), bytes, header;
    }
    bytes := TakeStoredBytes(bitStream, data, dataOffset, size);
    r := Ok(dataOffset + size);
  }

  /**
   * Copies the next `size` bytes of the byte stream to `dataOffset` and moves the reader past
   * them with an empty bit buffer.
   */
  method TakeStoredBytes(bitStream: BitStream, data: array<byte>, dataOffset: nat, size: nat) returns (ghost bytes: seq<byte>)
    requires bitStream.Valid()
    requires size <= bitStream.byteStreamSize - bitStream.byteStreamOffset
    requires dataOffset + size <= data.Length
    modifies bitStream, data
    ensures bitStream.Valid() && bitStream.Remaining() <= old(bitStream.Remaining())
    ensures bitStream.storageType == old(bitStream.storageType)
    ensures |bytes| == size
    ensures data[..dataOffset + size] == old(data[..dataOffset]) + bytes
    ensures data[dataOffset + size..] == old(data[dataOffset + size..])
    ensures bitStream.byteStreamOffset >= size && bitStream.bitBufferSize == 0
    ensures bytes == bitStream.byteStream[bitStream.byteStreamOffset - size..bitStream.byteStreamOffset]
  {
    var source := bitStream.byteStreamOffset;
    bytes := bitStream.byteStream[source..source + size];
    CopyBytes(data, dataOffset, bitStream.byteStream[source..source + size]);
    bitStream.byteStreamOffset := source + size;
    bitStream.bitBuffer := 0;
    bitStream.bitBufferSize := 0;
  }

  /**
   * Skips to the next byte boundary and reads the 32-bit LEN/NLEN header of a stored block; on
   * success returns the block size the stored-block check accepts.
   */
  method ReadStoredHeader(bitStream: BitStream) returns (r: Result<nat>, header: nat)
    requires bitStream.Valid()
    modifies bitStream
    ensures bitStream.Valid() && bitStream.Remaining() <= old(bitStream.Remaining())
    ensures bitStream.storageType == old(bitStream.storageType)
    ensures r.Ok? || r.error == SizeMismatch ==> header < 0x1_0000_0000 && r == StoredBlockSize(header)
    ensures r.Err? ==> r.error == ReadFailed || r.error == SizeMismatch
  {
    header := 0;
    var skipBits := bitStream.bitBufferSize % 8;
    if skipBits > 0 {
      var skipped := bitStream.GetValue(skipBits);
      if skipped.Err? {
        return Err(ReadFailed), header;
      }
    }
    var value := bitStream.GetValue(32);
    if value.Err? {
      return Err(ReadFailed), header;
    }
    Pow2Of32();
    header := value.value;
    r := StoredBlockSize(header);
  }

  /** Copies `bytes` into the output at `dataOffset`, leaving the other entries alone. */
  method CopyBytes(data: array<byte>, dataOffset: nat, bytes: seq<byte>)
    requires dataOffset + |bytes| <= data.Length
    modifies data
    ensures data[..dataOffset + |bytes|] == old(data[..dataOffset]) + bytes
    ensures data[dataOffset + |bytes|..] == old(data[dataOffset + |bytes|..])
  {
    var i := 0;
    while i < |bytes|
      invariant i <= |bytes|
      invariant data[..dataOffset + i] == old(data[..dataOffset]) + bytes[..i]
      invariant data[dataOffset + i..] == old(data[dataOffset + i..])
    {
      data[dataOffset + i] := bytes[i];
      assert bytes[..i + 1] == bytes[..i] + [bytes[i]];
      i := i + 1;
    }
    assert bytes[..i] == bytes;
  }

  lemma Pow2Of32()
    ensures Pow2(32) == 0x1_0000_0000
  {
    Pow2Table();
    Pow2Add(16, 16);
  }

  /* ---------------------------------------------------------------------------------------
   * Decompressing a zlib stream
   * --------------------------------------------------------------------------------------- */

  /**
   * Decompresses a zlib stream into `data` and returns the number of bytes written.  After the
   * header, blocks are decoded while unread input remains and until a block with the last-block
   * flag.  When every block decodes (`decoded`), the bytes written are the expansion of the
   * decoded instructions `ops`, all within DEFLATE's limits, and the rest of the buffer is
   * untouched.  The Adler-32 trailer is then compared only when at least four bytes of the input
   * the bit stream was given are still unread after the reader's final offset `finalOffset`; it
   * is read after stepping back over the `finalBuffered / 8` whole bytes still in the bit buffer,
   * and a mismatch fails.  The bit stream is given the input size less the header length, so for
   * a stream that ends with its trailer this comparison does not take place.
   */
  method Decompress(compressed: seq<byte>, data: array<byte>)
    returns (r: Result<nat>, ghost ops: seq<Op>, ghost decoded: Option<nat>,
             ghost trailerChecked: bool, ghost trailerOffset: nat, ghost finalOffset: nat, ghost finalBuffered: nat)
    modifies data
    ensures ParseZlibHeader(compressed).Err? ==> r == Err(ParseZlibHeader(compressed).error) && decoded.None?
    ensures decoded.Some? ==>
      ParseZlibHeader(compressed).Ok? &&
      decoded.value <= data.Length &&
      Expandable([], ops) && data[..decoded.value] == Expand([], ops) &&
      data[decoded.value..] == old(data[decoded.value..]) &&
      forall i :: 0 <= i < |ops| ==> DeflateOp(ops[i])
    ensures decoded.None? ==> r.Err? && r.error != ChecksumMismatch
    ensures decoded.Some? ==>
      finalOffset <= ParseZlibHeader(compressed).value.streamSize &&
      (trailerChecked <==> finalOffset + 4 <= ParseZlibHeader(compressed).value.streamSize)
    ensures decoded.Some? && trailerChecked ==>
      trailerOffset == finalOffset - finalBuffered / 8 &&
      trailerOffset + 4 <= |compressed| &&
      r == (if BigEndian32(compressed[trailerOffset..trailerOffset + 4]) == Adler32.Checksum(data[..decoded.value], 1) as nat
            then Ok(decoded.value) else Err(ChecksumMismatch))
    ensures decoded.Some? && !trailerChecked ==> r == Ok(decoded.value)
  {
    ops := [];
    decoded := None;
    trailerChecked := false;
    trailerOffset, finalOffset, finalBuffered := 0, 0, 0;
    var parsed := ParseZlibHeader(compressed);
    if parsed.Err? {
      return Err(parsed.error), ops, decoded, trailerChecked, trailerOffset, finalOffset, finalBuffered;
    }
    var header := parsed.value;
    var bitStream := new BitStream(compressed, header.streamSize);
    bitStream.byteStreamOffset := header.dataOffset;
    var fixedLiterals: HuffmanTree? := null;
    var fixedDistances: HuffmanTree? := null;
    var outputOffset: nat := 0;
    while bitStream.byteStreamOffset < bitStream.byteStreamSize
      invariant bitStream.Valid() && bitStream.byteStream == compressed
      invariant bitStream.byteStreamSize == header.streamSize
      invariant outputOffset <= data.Length
      invariant Expandable([], ops) && data[..outputOffset] == Expand([], ops)
      invariant data[outputOffset..] == old(data[outputOffset..])
      invariant forall i :: 0 <= i < |ops| ==> DeflateOp(ops[i])
      invariant (fixedLiterals == null) == (fixedDistances == null)
      invariant fixedLiterals != null ==>
        fixedLiterals.Valid() && fixedDistances.Valid() && fixedDistances.numberOfSymbols == 30
      decreases bitStream.Remaining()
    {
      var value := bitStream.GetValue(3);
      if value.Err? {
        return Err(ReadFailed), ops, decoded, trailerChecked, trailerOffset, finalOffset, finalBuffered;
      }
      var lastBlockFlag := value.value % 2;
      var blockType := value.value / 2;
      var block;
      block, fixedLiterals, fixedDistances, ops :=
        AppendBlock(bitStream, blockType, fixedLiterals, fixedDistances, data, outputOffset, ops);
      if block.Err? {
        return Err(block.error), ops, decoded, trailerChecked, trailerOffset, finalOffset, finalBuffered;
      }
      outputOffset := block.value;
      if lastBlockFlag != 0 {
        break;
      }
    }
    decoded := Some(outputOffset);
    finalOffset, finalBuffered := bitStream.byteStreamOffset, bitStream.bitBufferSize;
    var trailer;
    trailer, trailerChecked, trailerOffset := CheckTrailer(bitStream, data, outputOffset);
    if trailer.Err? {
      return Err(trailer.error), ops, decoded, trailerChecked, trailerOffset, finalOffset, finalBuffered;
    }
    r := Ok(outputOffset);
  }

  /**
   * Decodes one block of type `blockType` after the output already written: 0 is a stored block,
   * 1 uses the fixed trees (built on first use and kept for later blocks), 2 reads its own trees,
   * and 3 is unsupported.
   */
  method AppendBlock(bitStream: BitStream, blockType: nat, fixedLiterals: HuffmanTree?, fixedDistances: HuffmanTree?,
                     data: array<byte>, outputOffset: nat, ghost ops: seq<Op>)
    returns (r: Result<nat>, fixedLiterals': HuffmanTree?, fixedDistances': HuffmanTree?, ghost ops': seq<Op>)
    requires bitStream.Valid()
    requires outputOffset <= data.Length
    requires Expandable([], ops) && data[..outputOffset] == Expand([], ops)
    requires forall i :: 0 <= i < |ops| ==> DeflateOp(ops[i])
    requires (fixedLiterals == null) == (fixedDistances == null)
    requires fixedLiterals != null ==>
      fixedLiterals.Valid() && fixedDistances.Valid() && fixedDistances.numberOfSymbols == 30
    modifies bitStream, data
    ensures bitStream.Valid()
    ensures bitStream.Remaining() <= old(bitStream.Remaining())
    ensures (fixedLiterals' == null) == (fixedDistances' == null)
    ensures fixedLiterals' != null ==>
      fixedLiterals'.Valid() && fixedDistances'.Valid() && fixedDistances'.numberOfSymbols == 30
    ensures r.Ok? ==>
      outputOffset <= r.value <= data.Length &&
      Expandable([], ops') && data[..r.value] == Expand([], ops') &&
      data[r.value..] == old(data[r.value..]) &&
      forall i :: 0 <= i < |ops'| ==> DeflateOp(ops'[i])
    ensures r.Ok? ==> |ops| <= |ops'| && ops'[..|ops|] == ops && data[..outputOffset] == old(data[..outputOffset])
    ensures blockType >= 3 ==> r == Err(Unsupported)
    ensures blockType < 3 && r.Err? ==> r.error in {ReadFailed, SizeMismatch, TooSmall, OutOfBounds, ValueMissing, BuildFailed}
  {
    fixedLiterals', fixedDistances', ops' := fixedLiterals, fixedDistances, ops;
    if blockType == 0 {
      var stored;
      ghost var bytes;
      stored, ops', bytes := AppendStoredBlock(bitStream, data, outputOffset, ops);
      if stored.Err? {
        return Err(stored.error), fixedLiterals', fixedDistances', ops';
      }
      r := Ok(stored.value);
    } else if blockType == 1 {
      var built;
      built, fixedLiterals', fixedDistances' := FixedTrees(fixedLiterals, fixedDistances);
      if built.Err? {
        return Err(built.error), fixedLiterals, fixedDistances, ops';
      }
      var decoded;
      decoded, ops' := AppendHuffmanBlock(bitStream, fixedLiterals', fixedDistances', data, outputOffset, ops);
      if decoded.Err? {
        return Err(decoded.error), fixedLiterals', fixedDistances', ops';
      }
      r := Ok(decoded.value);
    } else if blockType == 2 {
      var decoded;
      decoded, ops' := AppendDynamicBlock(bitStream, data, outputOffset, ops);
      if decoded.Err? {
        return Err(decoded.error), fixedLiterals', fixedDistances', ops';
      }
      r := Ok(decoded.value);
    } else {
      return Err(Unsupported), fixedLiterals', fixedDistances', ops';
    }
  }

  /**
   * Copies a stored block and extends the instruction trace with one literal per byte `bytes`
   * taken from the compressed data.
   */
  method AppendStoredBlock(bitStream: BitStream, data: array<byte>, dataOffset: nat, ghost ops: seq<Op>)
    returns (r: Result<nat>, ghost ops': seq<Op>, ghost bytes: seq<byte>)
    requires bitStream.Valid()
    requires dataOffset <= data.Length
    requires Expandable([], ops) && data[..dataOffset] == Expand([], ops)
    requires forall i :: 0 <= i < |ops| ==> DeflateOp(ops[i])
    modifies bitStream, data
    ensures bitStream.Valid() && bitStream.Remaining() <= old(bitStream.Remaining())
    ensures r.Ok? ==>
      dataOffset <= r.value <= data.Length &&
      Expandable([], ops') && data[..r.value] == Expand([], ops') &&
      data[r.value..] == old(data[r.value..]) &&
      forall i :: 0 <= i < |ops'| ==> DeflateOp(ops'[i])
    ensures r.Ok? ==>
      ops' == ops + Literals(bytes) && data[..r.value] == old(data[..dataOffset]) + bytes &&
      bitStream.byteStreamOffset >= |bytes| &&
      bytes == bitStream.byteStream[bitStream.byteStreamOffset - |bytes|..bitStream.byteStreamOffset]
    ensures r.Err? ==> r.error in {ReadFailed, SizeMismatch, TooSmall}
  {
    ghost var header;
    r, bytes, header := CopyStoredBlock(bitStream, data, dataOffset);
    ExpandLiterals([], ops, bytes);
    ops' := ops + Literals(bytes);
  }

  /**
   * The fixed trees, created and built on the first block that uses them and reused by later
   * ones.
   */
  method FixedTrees(literals: HuffmanTree?, distances: HuffmanTree?)
    returns (r: Result<()>, literals': HuffmanTree?, distances': HuffmanTree?)
    requires (literals == null) == (distances == null)
    requires literals != null ==> literals.Valid() && distances.Valid() && distances.numberOfSymbols == 30
    ensures literals == null ==> fresh(literals') && fresh(distances')
    ensures literals != null ==> literals' == literals && distances' == distances
    ensures r.Ok? ==>
      literals' != null && distances' != null &&
      literals'.Valid() && distances'.Valid() && distances'.numberOfSymbols == 30
    ensures r.Err? ==> r.error == BuildFailed
  {
    literals', distances' := literals, distances;
    if literals == null && distances == null {
      literals' := new HuffmanTree(288, 15);
      distances' := new HuffmanTree(30, 15);
      r := BuildFixedTrees(literals', distances');
    } else {
      r := Ok(());
    }
  }

  /** Reads a dynamic block's code sizes into fresh trees and decodes the block with them. */
  method AppendDynamicBlock(bitStream: BitStream, data: array<byte>, dataOffset: nat, ghost ops: seq<Op>)
    returns (r: Result<nat>, ghost ops': seq<Op>)
    requires bitStream.Valid()
    requires dataOffset <= data.Length
    requires Expandable([], ops) && data[..dataOffset] == Expand([], ops)
    requires forall i :: 0 <= i < |ops| ==> DeflateOp(ops[i])
    modifies bitStream, data
    ensures bitStream.Valid() && bitStream.Remaining() <= old(bitStream.Remaining())
    ensures r.Ok? ==>
      dataOffset <= r.value <= data.Length &&
      Expandable([], ops') && data[..r.value] == Expand([], ops') &&
      data[r.value..] == old(data[r.value..]) &&
      forall i :: 0 <= i < |ops'| ==> DeflateOp(ops'[i])
    ensures r.Ok? ==> |ops| <= |ops'| && ops'[..|ops|] == ops && data[..dataOffset] == old(data[..dataOffset])
    ensures r.Err? ==> r.error in {ReadFailed, OutOfBounds, ValueMissing, BuildFailed, TooSmall}
  {
    ops' := ops;
    var literals := new HuffmanTree(288, 15);
    var distances := new HuffmanTree(30, 15);
    var built, _, _, _ := BuildDynamicTrees(bitStream, literals, distances);
    if built.Err? {
      return Err(built.error), ops';
    }
    r, ops' := AppendHuffmanBlock(bitStream, literals, distances, data, dataOffset, ops);
  }

  /** Decodes a Huffman-compressed block and extends the instruction trace with its instructions. */
  method AppendHuffmanBlock(bitStream: BitStream, literals: HuffmanTree, distances: HuffmanTree,
                            data: array<byte>, dataOffset: nat, ghost ops: seq<Op>)
    returns (r: Result<nat>, ghost ops': seq<Op>)
    requires bitStream.Valid() && literals.Valid() && distances.Valid()
    requires distances.numberOfSymbols <= 30
    requires dataOffset <= data.Length
    requires Expandable([], ops) && data[..dataOffset] == Expand([], ops)
    requires forall i :: 0 <= i < |ops| ==> DeflateOp(ops[i])
    modifies bitStream, data
    ensures bitStream.Valid() && bitStream.Remaining() <= old(bitStream.Remaining())
    ensures r.Ok? ==>
      dataOffset <= r.value <= data.Length &&
      Expandable([], ops') && data[..r.value] == Expand([], ops') &&
      data[r.value..] == old(data[r.value..]) &&
      forall i :: 0 <= i < |ops'| ==> DeflateOp(ops'[i])
    ensures r.Ok? ==> |ops| <= |ops'| && ops'[..|ops|] == ops && data[..dataOffset] == old(data[..dataOffset])
    ensures r.Err? ==> r.error in {ReadFailed, TooSmall, OutOfBounds}
  {
    ghost var blockOps;
    r, blockOps := DecodeHuffman(bitStream, literals, distances, data, dataOffset);
    ops' := ops;
    if r.Ok? {
      ExpandExtends(old(data[..dataOffset]), blockOps);
      assert data[..dataOffset] == data[..r.value][..dataOffset];
      ExpandConcat([], ops, blockOps);
      ops' := ops + blockOps;
      assert ops'[..|ops|] == ops;
    }
  }

  /**
   * Compares the big-endian Adler-32 trailer with the checksum of the output, when at least four
   * bytes the bit stream may read are still unread; a mismatch fails.  The trailer is read after
   * stepping back over the whole bytes still in the bit buffer.
   */
  method CheckTrailer(bitStream: BitStream, data: array<byte>, dataOffset: nat)
    returns (r: Result<()>, ghost checked: bool, ghost trailerOffset: nat)
    requires bitStream.Valid()
    requires dataOffset <= data.Length
    ensures checked <==> bitStream.byteStreamOffset + 4 <= bitStream.byteStreamSize
    ensures checked ==>
      trailerOffset == bitStream.byteStreamOffset - bitStream.bitBufferSize / 8 &&
      trailerOffset + 4 <= |bitStream.byteStream| &&
      r == (if BigEndian32(bitStream.byteStream[trailerOffset..trailerOffset + 4]) == Adler32.Checksum(data[..dataOffset], 1) as nat
            then Ok(()) else Err(ChecksumMismatch))
    ensures !checked ==> r == Ok(())
  {
    checked := false;
    trailerOffset := 0;
    if bitStream.byteStreamSize - bitStream.byteStreamOffset >= 4 {
      checked := true;
      // The source steps the reader itself back; the reader is not used afterwards, so the
      // rewind is done on copies of its offset and buffer size.
      var offset: nat := bitStream.byteStreamOffset;
      var bufferedBits: nat := bitStream.bitBufferSize;
      ghost var steps: nat := 0;
      while bufferedBits >= 8
        invariant bufferedBits <= 8 * offset
        invariant bitStream.bitBufferSize == bufferedBits + 8 * steps
        invariant offset + steps == bitStream.byteStreamOffset
      {
        offset := offset - 1;
        bufferedBits := bufferedBits - 8;
        steps := steps + 1;
      }
      ModUnique(bitStream.bitBufferSize, 8, steps, bufferedBits);
      assert bitStream.bitBufferSize == 8 * (bitStream.bitBufferSize / 8) + bufferedBits;
      trailerOffset := offset;
      var storedChecksum := BigEndian32(bitStream.byteStream[offset..offset + 4]);
      var calculatedChecksum := Adler32.Calculate(data, dataOffset, 1);
      if storedChecksum != calculatedChecksum as nat {
        return Err(ChecksumMismatch), checked, trailerOffset;
      }
    }
    r := Ok(());
  }
}
