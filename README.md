# Verified model of the DEFLATE/zlib and LZX decoders

This project models the two decompressors in `src/deflate.c` and `src/lzx.c` in Dafny and proves
properties of that model. Both decompressors fill a byte buffer whose size the caller chooses.

- **zlib/DEFLATE** (RFC 1950, RFC 1951). The decoder:
  - checks the zlib header;
  - decodes stored blocks, blocks with the fixed Huffman codes and blocks with dynamic Huffman codes, until a block with the last-block flag;
  - compares the big-endian Adler-32 trailer with its own deferred-modulo Adler-32 of the output.
- **LZX**. The decoder:
  - reads one block header;
  - reads the main, lengths and (for aligned blocks) aligned-offset trees with LZX's pre-tree, delta-modulo-17 and run-length scheme;
  - decodes main-tree symbols into literals and matches through a three-entry recent-offset cache that it updates in place.

The shared vocabulary lives in separate modules:

- `Types`: bytes, 32-bit values, error kinds and powers of two.
- `CodeSizes`: runs of code sizes.
- `Lz77`: the instruction trace. A decoded block is a sequence of `Literal`/`Match` instructions, and the pure function `Expand` replays it over the bytes already written. A back-reference copies one byte at a time, so a distance shorter than the length repeats the last bytes (`CopyMatch`).
- `Adler32`: the checksum.

Every decoding method is imperative, as the source is. It writes into an `array<byte>`, and its postcondition says that the bytes written are `Expand` of the instructions it decoded. Every instruction stays within the format's limits, and the rest of the buffer is untouched. The recent-offset cache is an `array<nat>` of three entries, updated in place and specified by the functions `UseRecent` and `PushRecent`.

The bit reader (`bit_stream_*`) and the Huffman tree (`huffman_tree_*`) are called by both decoders, but their source is not part of this model. `BitStreams.BitStream` and `Huffman.HuffmanTree` are stand-ins with the same fields. Their contracts are the only properties the decoders rely on:

- a read of n bits yields a value below 2^n and consumes n bits, or fails;
- a decoded symbol lies below the tree's symbol count and consumes at least one bit, or fails;
- building a tree succeeds only when there are no more sizes than symbols, no size exceeds the maximum code size and the sizes do not over-subscribe the code space, and a successful build keeps those sizes.

Where a natural reading of the formats and the code differ, the model follows the code, with one exception:

- The bit stream is given the input size less the header length, while its offset starts at the header length. `Deflate.Decompress` therefore compares the Adler-32 trailer only when at least four bytes of that shortened range are still unread.
- The exception is the stored-block LEN/NLEN check, which is a finding (described below). The check as written is modelled by `Deflate.StoredBlockSizeAsWritten`. The decoder uses the corrected check `Deflate.StoredBlockSize`, so on a stored block it accepts and rejects different headers from the code as written (see "## Left out").
- LZX code sizes are deltas against an entry that was just cleared, not against the previous tree.
- The aligned refinement symbol is decoded with the main tree.
- The aligned-offset tree is built from 256 sizes.
- Only the first LZX block is decoded.

## Model

| member | source | states |
|---|---|---|
| `CodeSizes.WriteRun` | src/deflate.c:352-365 | `times` copies of the size are written from the current index; the entries before it and after the run are unchanged |
| `Lz77.CopyMatch` | src/deflate.c:743-749 | a copy of `length` bytes from `distance` back appends exactly `length` bytes and never changes the bytes already written |
| `Lz77.CopyMatchRepeats` | src/deflate.c:743-749 | the overlapping-copy equation: every appended byte equals the byte `distance` before it |
| `Lz77.CopyMatchPeriodic` | src/lzx.c:781-790 | a copy whose distance is shorter than its length repeats the last `distance` bytes periodically (`out[p+i] = out[p-d+i mod d]`) |
| `Lz77.CopyMatchDisjoint` | src/deflate.c:743-749 | a copy that does not overlap itself is the plain append of the slice `distance` bytes back |
| `Lz77.ExpandExtends` | src/deflate.c:600-749 | decoding instructions appends exactly as many bytes as they stand for and never changes the bytes before the start offset |
| `Lz77.ExpandSnoc` | src/deflate.c:600-749 | decoding one more instruction appends exactly that instruction's bytes to the output |
| `Lz77.ExpandLiterals` | src/deflate.c:1552-1565 | copying stored bytes verbatim is the same as decoding one literal per byte |
| `Lz77.ExpandConcat` | src/deflate.c:1381-1756 | decoding blocks in turn produces the expansion of all their instructions, since later blocks may refer back into earlier ones |
| `Lz77.CopyMatchInPlace` | src/deflate.c:743-749 | the byte-by-byte in-place copy writes `CopyMatch` of the output so far and leaves the rest of the buffer alone |
| `Lz77.WriteLiteral` | src/deflate.c:600-613 | writing a literal at the output offset extends the decoded output by that literal and nothing else |
| `Lz77.WriteMatch` | src/deflate.c:721-749 | a match whose distance is at most the offset and whose end fits the buffer extends the decoded output by that match |
| `Adler32.Checksum` | src/deflate.c:775-1017 | an empty buffer returns the seed unchanged; otherwise both 16-bit halves are reduced below 65521 |
| `Adler32.RunningIsDeferred` | src/deflate.c:825-1011 | reducing the sums once per block and at the end gives the same sums as RFC 1950's reduction after every byte |
| `Adler32.ChecksumIsRunning` | src/deflate.c:822-1014 | the checksum is `(upper << 16) \| lower` of RFC 1950's byte-at-a-time sums, started from the seed's two halves |
| `Adler32.TriBound` | src/deflate.c:825-829 | within one block of 5552 bytes the growth of the upper sum stays below its value at 5552, which keeps 32-bit sums from overflowing |
| `Adler32.AddByte` | src/deflate.c:834-880 | one `lower += byte; upper += lower` step cannot overflow 32 bits, and both sums keep tracking the exact sums modulo 65521 |
| `Adler32.Reduce` | src/deflate.c:882-898 | the shift-and-fold (`x - 65521 * (x >> 16)`, twice if needed, then one subtraction) computes `x % 65521` |
| `Adler32.Fold` | src/deflate.c:882-915 | reducing both sums brings them below 65521 and keeps what they track |
| `Adler32.AddSixteen` | src/deflate.c:830-881 | one unrolled iteration of 16 bytes adds those bytes to the tracked sums without overflow |
| `Adler32.AddBlock` | src/deflate.c:825-881 | the 347 unrolled iterations absorb exactly one block of 5552 bytes without overflow |
| `Adler32.AddTail` | src/deflate.c:918-978 | the bytes after the last full block, 16 at a time while more than 16 remain and then one at a time, are all absorbed |
| `Adler32.AddSingles` | src/deflate.c:972-978 | the last bytes are absorbed one step each |
| `Adler32.SeedHalves` | src/deflate.c:822-823 | `seed & 0xffff` and `(seed >> 16) & 0xffff` are the seed's low and high halves |
| `Adler32.PackBelow` | src/deflate.c:1014 | two reduced sums packed as `(upper << 16) \| lower` fit in 32 bits |
| `Adler32.Calculate` | src/deflate.c:775-1017 | the unrolled, deferred-modulo computation returns exactly `Checksum` of the buffer from the initial value |
| `BitStreams.BitStream.GetValue` | src/deflate.c:1383-1400 | the contract the callers rely on: an n-bit read yields a value below 2^n and consumes n bits, or fails with nothing consumed |
| `Huffman.HuffmanTree.GetSymbol` | src/deflate.c:578-592 | the contract the callers rely on: a decoded symbol lies below the tree's symbol count and consumes at least one bit, or fails |
| `Huffman.HuffmanTree.Build` | src/deflate.c:391-420 | a successful build had no more sizes than symbols, no size above the maximum code size and sizes that do not over-subscribe the code space (`CodeSpace` at most 2^maximum), and keeps those sizes; a failed build keeps the old ones |
| `Deflate.LengthTableContiguous` | src/deflate.c:516-522 | the length bases and extra bits cover the lengths 3..258 without gap or overlap |
| `Deflate.DistanceTableContiguous` | src/deflate.c:524-531 | the distance bases and extra bits cover the distances 1..32768 without gap or overlap |
| `Deflate.LengthRange` | src/deflate.c:618-649 | a length symbol plus its extra bits stands for a length in 3..258 |
| `Deflate.DistanceRange` | src/deflate.c:651-702 | a distance symbol plus its extra bits stands for a distance in 1..32768 |
| `Deflate.ParseZlibHeader` | src/deflate.c:1200-1351 | the header is accepted exactly when the method is 8, CINFO is at most 7 and the input is longer than twice the header length (2 bytes, or 6 with FDICT). The data offset is 2, or 6 with a dictionary identifier. The errors are too small or unsupported |
| `Deflate.WindowSizeLimit` | src/deflate.c:1323-1342 | the window `1 << (CINFO + 8)` is at most 32768 exactly when CINFO is at most 7 |
| `Deflate.ParseDynamicHeader` | src/deflate.c:59-125 | HLIT + 257, HDIST + 1 and HCLEN + 4 are taken from 5, 5 and 4 bits; more than 286 literal or 30 distance codes is out of bounds, in both directions |
| `Deflate.PreCodeOrderIsPermutation` | src/deflate.c:44-46 | the order 16, 17, 18, 0, 8, ... is a permutation of the 19 pre-code symbols |
| `Deflate.DeflateRunsBound` | src/deflate.c:237-351 | every code size the code-length symbols can produce is below 16 |
| `Deflate.ReadPreCodeSizes` | src/deflate.c:127-172 | the HCLEN 3-bit sizes land at the symbols the order table names, and every other pre-code symbol gets size 0 |
| `Deflate.SetPreCodeSize` | src/deflate.c:146-163 | one pre-code size is stored at the symbol its position names, and no other symbol's size changes |
| `Deflate.ReadCodeSizes` | src/deflate.c:208-366 | on success exactly the requested number of entries hold the concatenation of runs, each run one a code-length symbol allows; the entries after them are untouched |
| `Deflate.ReadRun` | src/deflate.c:212-351 | in terms of the decoded symbol and its extra bits: symbols 0..15 give that size once; 16 fails at index 0 and otherwise repeats the previous size 3 + (2 bits) times; 17 and 18 give zero 3 + (3 bits) and 11 + (7 bits) times; symbols above 18 are out of bounds. A repeat past the remaining entries is out of bounds (rejected, not cut short), and a failed read is a read failure |
| `Deflate.BuildDynamicTrees` | src/deflate.c:36-431 | on success the literal tree holds the first HLIT + 257 decoded sizes and the distance tree the HDIST + 1 after them, and the size of symbol 256 is non-zero; otherwise value missing and the read, bounds and build errors |
| `Deflate.ReadDynamicCodeSizes` | src/deflate.c:59-366 | the header, the pre-code sizes and the run-length code sizes decode to exactly HLIT + 257 + HDIST + 1 sizes made of allowed runs |
| `Deflate.BuildFixedTrees` | src/deflate.c:436-502 | literal/length symbols 0..143, 144..255, 256..279 and 280..287 get 8, 9, 7 and 8 bits, and all 30 distance symbols get 5 bits |
| `Deflate.DecodeHuffman` | src/deflate.c:507-769 | on success the bytes from the start offset are the expansion of the decoded instructions: every match reaches back no further than the output so far, lengths are within 3..258 and distances within 1..32768, and the end offset fits the buffer. On failure the error is a read failure, too small or out of bounds |
| `Deflate.DecodeMatch` | src/deflate.c:615-702 | the match is the length symbol's base plus its extra bits (below 2^extra-bit count) and the distance symbol's base plus its extra bits, the distance symbol below 30; so it lies within DEFLATE's limits |
| `Deflate.XorIsComplement` | src/deflate.c:1490-1513 | on 16-bit values, `x ^ 0xffff` is `0xffff - x` |
| `Deflate.StoredBlockSizeAsWritten` | src/deflate.c:1490-1513 | the check as written accepts exactly the headers whose LEN is 0xffff |
| `Deflate.StoredBlockSize` | src/deflate.c:1490-1513 | a stored block is accepted exactly when NLEN is the one's complement of LEN, and its size is LEN; otherwise the sizes mismatch |
| `Deflate.StoredBlockSizeAsWrittenRejectsValidHeader` | src/deflate.c:1490-1513 | LEN 5 / NLEN 0xfffa is rejected as written and accepted as intended; LEN = NLEN = 0xffff is the reverse |
| `Deflate.ReadStoredHeader` | src/deflate.c:1448-1513 | after the skip to a byte boundary, the 32-bit LEN/NLEN value is read; unless the read fails, the result is the corrected check `StoredBlockSize` of that value |
| `Deflate.CopyStoredBlock` | src/deflate.c:1445-1574 | on success the header passes `StoredBlockSize` with size LEN, and LEN bytes taken straight from the compressed data follow the output so far, with the bit buffer empty. A size mismatch means the header fails that check; too small means LEN exceeds the remaining input or the remaining output |
| `Deflate.TakeStoredBytes` | src/deflate.c:1552-1572 | the next LEN bytes of the byte stream are copied to the output offset, and the reader moves past them with an empty bit buffer |
| `Deflate.CopyBytes` | src/deflate.c:1552-1565 | the bytes are copied to the output offset and the rest of the buffer is untouched |
| `Deflate.Decompress` | src/deflate.c:1104-1892 | a rejected header returns its error. Once every block is decoded, the bytes written are the expansion of every block's instructions, all within DEFLATE's limits, and the rest of the buffer is untouched. The trailer is compared exactly when at least four bytes of the stream remain after the last block; it is read there, stepping back over whole buffered bytes, and the result is the output size when it equals Adler-32 of the output with seed 1 and a checksum mismatch otherwise. Without a trailer the result is the output size. A block error is never a checksum mismatch |
| `Deflate.AppendBlock` | src/deflate.c:1383-1750 | block types 0, 1 and 2 extend the instruction trace (the old trace is a prefix of the new one) and the output, keeping the bytes already written; a type of 3 or more is unsupported, and the other errors are read, size, bounds, missing-value and build failures |
| `Deflate.AppendStoredBlock` | src/deflate.c:1445-1574 | a stored block appends exactly the bytes just read from the compressed data to the output, and the trace becomes the old trace plus one literal per byte |
| `Deflate.FixedTrees` | src/deflate.c:1576-1623 | the fixed trees are created and built on the first block that uses them and reused afterwards |
| `Deflate.AppendDynamicBlock` | src/deflate.c:1645-1735 | a dynamic block decoded with its own trees extends the instruction trace and the output, keeping the bytes already written; the errors are read, bounds, missing-value, build and too-small failures |
| `Deflate.AppendHuffmanBlock` | src/deflate.c:1625-1642 | a Huffman block extends the whole output's instruction trace (the old trace is a prefix) and keeps the bytes already written |
| `Deflate.CheckTrailer` | src/deflate.c:1758-1809 | the trailer is compared exactly when at least four bytes remain; it is read at the stream offset less the whole bytes still buffered, and the result is a checksum mismatch exactly when its big-endian value differs from Adler-32 of the output with seed 1; otherwise nothing is compared |
| `Lzx.OffsetTableContiguous` | src/lzx.c:40-56 | from slot 3 on, the slot bases plus footer bits cover the offsets from 1 upwards without gap or overlap |
| `Lzx.BitOrLowBits` | src/lzx.c:725-726 | or-ing a value below 2^k into a value shifted left by k is adding it |
| `Lzx.MatchOffset` | src/lzx.c:688-736 | an offset slot of 3 or more gives footer bits plus the slot base, or footer bits times 8 plus a refinement below 8 plus the base; the offset is at least 1 |
| `Lzx.MatchOffsetFits` | src/lzx.c:688-736 | every offset a main-tree slot can produce fits in 32 bits |
| `Lzx.UseRecent` | src/lzx.c:682-687 | for slots 0..2, the named entry and entry 0 are swapped, a permutation of the cache; slot 0 leaves it unchanged |
| `Lzx.PushRecent` | src/lzx.c:737-740 | a new offset goes in front and the two newer entries shift back |
| `Lzx.UseRecentTwice` | src/lzx.c:682-687 | naming the same slot twice restores the cache |
| `Lzx.UseRecentInTurn` | src/lzx.c:682-687 | naming slots 0, 1 and 2 in turn reorders the cache most recently used first |
| `Lzx.RecentStaysValid` | src/lzx.c:682-740 | both updates keep every cache entry at least 1 and below 2^32 |
| `Lzx.UseRecentOffset` | src/lzx.c:682-687 | returns the named entry and updates the cache array in place as `UseRecent` says |
| `Lzx.PushRecentOffset` | src/lzx.c:737-740 | updates the cache array in place as `PushRecent` says |
| `Lzx.DeltaSize` | src/lzx.c:193-200 | the stored size is the entry minus the symbol modulo 17, at most 16 |
| `Lzx.DeltaFromZero` | src/lzx.c:152-200 | against a cleared entry, symbol 0 stores 0 and any other symbol s stores 17 - s |
| `Lzx.LzxRunsBound` | src/lzx.c:168-346 | every size of an allowed run is at most 16 |
| `Lzx.ReadCodeSizes` | src/lzx.c:61-376 | on success the `count` entries from `start` hold allowed runs, each storing its delta symbol against a cleared entry (0 for symbol 0, 17 - s otherwise, zero for a run of zeros); entries before `start` and after the pre-tree and fill range are untouched |
| `Lzx.ReadPreTree` | src/lzx.c:87-152 | 20 four-bit sizes are read into the entries from `start` and the 20-symbol pre-tree is built from them |
| `Lzx.ClearCodeSizes` | src/lzx.c:152-166 | exactly `count` entries from `start` are set to 0 |
| `Lzx.FillCodeSizes` | src/lzx.c:166-346 | the cleared range is filled with the concatenation of allowed runs, each storing its delta symbol against a cleared entry, and every entry outside it is unchanged |
| `Lzx.FillRun` | src/lzx.c:170-346 | one pre-tree symbol and its repeat append exactly one run, filling at least one more entry and keeping the filled prefix and every other entry; the run's size is its delta symbol's delta against the cleared entry (`DeltaFromZero`) |
| `Lzx.AppendRun` | src/lzx.c:333-346 | writing a run extends the filled range by that run and changes no other entry |
| `Lzx.ReadRun` | src/lzx.c:170-331 | in terms of the decoded symbol, its extra bits and the second symbol of a 19: symbols 0..16 give `DeltaSize(previous, s)` once; 17 and 18 give zero 4 + (4 bits) and 20 + (5 bits) times; 19 gives the delta of a second symbol 4 + (1 bit) times and is out of bounds when that symbol exceeds 17; symbols above 19 are out of bounds. A repeat past the remaining entries is cut to them, not rejected |
| `Lzx.BuildMainTree` | src/lzx.c:381-436 | the 496-symbol main tree holds the 256 literal sizes followed by the 240 match-header sizes, each an allowed run sequence |
| `Lzx.ReadMainCodeSizes` | src/lzx.c:381-419 | the 256 literal sizes and the 240 match-header sizes after them are each read with their own pre-tree as allowed runs |
| `Lzx.BuildLengthsTree` | src/lzx.c:441-481 | the 249-symbol lengths tree holds 249 sizes made of allowed runs |
| `Lzx.BuildAlignedTree` | src/lzx.c:486-542 | the aligned-offset tree holds 256 three-bit sizes, each in 0..7 |
| `Lzx.DecodeMatch` | src/lzx.c:655-740 | the length is `symbol % 8 + 2`, or for length header 7 the lengths-tree symbol plus 9. Slots 0..2 take their offset from the cache and update it as `UseRecent` says. Other slots compute `MatchOffset` from the footer bits and the main-tree refinement, and push it as `PushRecent` says |
| `Lzx.DecodeHuffman` | src/lzx.c:547-793 | on success the output from the start offset is the expansion of the decoded instructions (every match reaches back no further than the output so far and fits the buffer) and ends at least `blockSize` and at most `blockSize + 256` bytes on. On failure the error is a read failure, too small or out of bounds |
| `Lzx.AppendMatch` | src/lzx.c:655-790 | a decoded match is checked against the output offset and the capacity and copied, extending the decoded output by that one instruction |
| `Lzx.ReadBlockHeader` | src/lzx.c:890-944 | the type is below 8; a set flag bit means size 32768, a clear one a size below 65536 |
| `Lzx.DecodeBlock` | src/lzx.c:1022-1145 | the main and lengths trees are built and the block's output is the expansion of its instructions, between `blockSize` and `blockSize + 256` bytes |
| `Lzx.Decompress` | src/lzx.c:798-1208 | empty input yields 0 bytes, and a header that cannot be read is a read failure. Verbatim and aligned blocks produce the expansion of their instructions, between `blockSize` and `blockSize + 256` bytes; an uncompressed block returns 0 bytes; any other type is unsupported. Only the first block is decoded |

## Left out

- Printing through `libcnotify` and the NULL, `SSIZE_MAX` and argument checks of every function: they are I/O or C-level argument validation with no counterpart in Dafny's types.
- Memory management (creating and freeing trees and the bit stream, the error objects) is left out; errors are returned as an `Error` value instead of a libcerror chain.
- `bit_stream.c` and `huffman_tree.c` are not part of this model: the stand-in classes capture only the contracts named above, not the real canonical-code tables or the bit order of the prefetch.
- `deflate_compress` (src/deflate.c:1022-1096) is a stub that always fails, and the `#ifdef TODO` code at src/deflate.c:1894-1920 is never compiled; neither is modelled.
- The LZX uncompressed block (src/lzx.c:1147-1150) is unimplemented in the source; the model likewise writes nothing for it.
- Only the first LZX block is decoded, because the source's block loop ends after one block (src/lzx.c:1163); later blocks are not modelled.
- Lzx.DecodeHuffman: requires a cache whose entries are at least 1, which holds from the source's initial {1, 1, 1} on, rather than handling arbitrary caller-supplied caches.
- Lzx.ReadRun: the decoded symbols are ghost results tied to the run, not to the bits of the stream, because the pre-tree is a stand-in; the same holds for `Deflate.ReadRun`.
- Deflate.DecodeHuffman: states the instruction ranges, the output and the error kinds, not which Huffman code produced each symbol nor which condition led to which error kind, because the tree is a stand-in.
- Lzx.DecodeHuffman: states the instruction ranges, the output and the error kinds, not which Huffman code produced each symbol nor which condition led to which error kind, because the tree is a stand-in.
- Deflate.ReadStoredHeader: uses the corrected LEN/NLEN check `Deflate.StoredBlockSize`, not the check as written (`Deflate.StoredBlockSizeAsWritten`). On header 0xfffa0005 the code as written fails where the model copies 5 bytes, and on 0xffffffff the reverse. `Deflate.CopyStoredBlock`, `Deflate.AppendStoredBlock`, `Deflate.AppendBlock` and `Deflate.Decompress` inherit this.
- Huffman.HuffmanTree.Build: states only what a successful build implies, since `huffman_tree.c` is not part of this model and may reject further size sets (such as incomplete codes).
- Fixed-width wrap-around is not modelled where it cannot happen: the model proves instead that the Adler-32 sums and LZX offsets stay below 2^32.

## Findings

| source | as written | input that shows it | evidently intended | confidence | as-written member | corrected member |
|---|---|---|---|---|---|---|
| src/deflate.c:1490-1513 | the 32-bit stored-block header is masked to its low 16 bits before the NLEN copy is taken from its high half, so the check compares LEN with 0xffff and ignores NLEN | header 0xfffa0005 (LEN 5, NLEN 0xfffa) is rejected; header 0xffffffff (LEN = NLEN = 0xffff) is accepted | accept exactly when NLEN is the one's complement of LEN (section 3.2.4 of RFC 1951) | not executed | `Deflate.StoredBlockSizeAsWritten` (shown by `Deflate.StoredBlockSizeAsWrittenRejectsValidHeader`) | `Deflate.StoredBlockSize` |
