/**
 * The LZX decoder of src/lzx.c: one block header, the main, lengths and (for aligned blocks)
 * aligned-offset trees read with LZX's pre-tree and delta scheme, and the symbols of the block
 * expanded into a caller-sized output buffer through a three-entry recent-offset cache.
 */
module Lzx {
  import opened Types
  import opened Lz77
  import opened BitStreams
  import opened Huffman
  import opened CodeSizes

  /* ---------------------------------------------------------------------------------------
   * Offset slot tables
   * --------------------------------------------------------------------------------------- */

  /**
   * The value added to the footer bits of each offset slot: the slot's base position minus 2.
   */
  const OffsetBase: seq<int> :=
    [-2, -1, 0, 1, 2, 4, 6, 10, 14, 22, 30, 46, 62, 94, 126, 190] +
    [254, 382, 510, 766, 1022, 1534, 2046, 3070, 4094, 6142, 8190, 12286, 16382, 24574, 32766, 49150] +
    [65534, 98302, 131070, 196606, 262142, 393214, 524286, 655358, 786430, 917502, 1048574, 1179646] +
    [1310718, 1441790, 1572862, 1703934, 1835006, 1966078, 2097150]

  /** The number of footer bits that follow each offset slot. */
  const FooterBits: seq<nat> :=
    [0, 0, 0, 0, 1, 1, 2, 2, 3, 3, 4, 4, 5, 5, 6, 6] +
    [7, 7, 8, 8, 9, 9, 10, 10, 11, 11, 12, 12, 13, 13, 14, 14] +
    [15, 15, 16, 16, 17, 17, 17, 17, 17, 17, 17, 17, 17, 17, 17, 17, 17, 17]

  /**
   * The slots from 3 on cover the offsets from 1 upwards without gap or overlap: each slot's
   * range (base plus footer bits) ends where the next one starts.
   */
  lemma OffsetTableContiguous()
    ensures |OffsetBase| == 51 && |FooterBits| == 50
    ensures OffsetBase[3] == 1
    ensures forall i :: 3 <= i < 49 ==> OffsetBase[i] + Pow2(FooterBits[i]) == OffsetBase[i + 1]
  {
    Pow2Table();
    forall i | 3 <= i < 49
      ensures OffsetBase[i] + Pow2(FooterBits[i]) == OffsetBase[i + 1]
    {
      if i < 11 {
        SlotsContiguous3To10(i);
      } else if i < 19 {
        SlotsContiguous11To18(i);
      } else if i < 27 {
        SlotsContiguous19To26(i);
      } else if i < 35 {
        SlotsContiguous27To34(i);
      } else if i < 42 {
        SlotsContiguous35To41(i);
      } else {
        SlotsContiguous42To48(i);
      }
    }
  }

  /** Slots 3 to 10 are contiguous (the table is checked a few slots at a time to keep each proof small). */
  lemma SlotsContiguous3To10(i: nat)
    requires 3 <= i < 11
    ensures OffsetBase[i] + Pow2(FooterBits[i]) == OffsetBase[i + 1]
  {
    Pow2Table();
    match i
    case 3 =>
    case 4 =>
    case 5 =>
    case 6 =>
    case 7 =>
    case 8 =>
    case 9 =>
    case 10 =>
  }

  /** Slots 11 to 18 are contiguous (the table is checked a few slots at a time to keep each proof small). */
  lemma SlotsContiguous11To18(i: nat)
    requires 11 <= i < 19
    ensures OffsetBase[i] + Pow2(FooterBits[i]) == OffsetBase[i + 1]
  {
    Pow2Table();
    match i
    case 11 =>
    case 12 =>
    case 13 =>
    case 14 =>
    case 15 =>
    case 16 =>
    case 17 =>
    case 18 =>
  }

  /** Slots 19 to 26 are contiguous (the table is checked a few slots at a time to keep each proof small). */
  lemma SlotsContiguous19To26(i: nat)
    requires 19 <= i < 27
    ensures OffsetBase[i] + Pow2(FooterBits[i]) == OffsetBase[i + 1]
  {
    Pow2Table();
    match i
    case 19 =>
    case 20 =>
    case 21 =>
    case 22 =>
    case 23 =>
    case 24 =>
    case 25 =>
    case 26 =>
  }

  /** Slots 27 to 34 are contiguous (the table is checked a few slots at a time to keep each proof small). */
  lemma SlotsContiguous27To34(i: nat)
    requires 27 <= i < 35
    ensures OffsetBase[i] + Pow2(FooterBits[i]) == OffsetBase[i + 1]
  {
    Pow2Table();
    match i
    case 27 =>
    case 28 =>
    case 29 =>
    case 30 =>
    case 31 =>
    case 32 =>
    case 33 =>
    case 34 =>
  }

  /** Slots 35 to 41 are contiguous (the table is checked a few slots at a time to keep each proof small). */
  lemma SlotsContiguous35To41(i: nat)
    requires 35 <= i < 42
    ensures OffsetBase[i] + Pow2(FooterBits[i]) == OffsetBase[i + 1]
  {
    Pow2Table();
    match i
    case 35 =>
    case 36 =>
    case 37 =>
    case 38 =>
    case 39 =>
    case 40 =>
    case 41 =>
  }

  /** Slots 42 to 48 are contiguous (the table is checked a few slots at a time to keep each proof small). */
  lemma SlotsContiguous42To48(i: nat)
    requires 42 <= i < 49
    ensures OffsetBase[i] + Pow2(FooterBits[i]) == OffsetBase[i + 1]
  {
    Pow2Table();
    match i
    case 42 =>
    case 43 =>
    case 44 =>
    case 45 =>
    case 46 =>
    case 47 =>
    case 48 =>
  }

  /** The slots a main-tree symbol can name (0..29) have at most 13 footer bits. */
  lemma FooterBitsOfMainSlots()
    ensures forall i :: 0 <= i < 30 ==> FooterBits[i] <= 13
  {
  }

  /** The slots a main-tree symbol can name (0..29) have bases below 2^16. */
  lemma OffsetBaseOfMainSlots()
    ensures forall i :: 0 <= i < 30 ==> OffsetBase[i] < 65536
  {
  }

  /* ---------------------------------------------------------------------------------------
   * Forming a match offset
   * --------------------------------------------------------------------------------------- */

  /** The bitwise or of two unsigned values. */
  function BitOr(x: nat, y: nat): (r: nat)
    ensures x <= r && y <= r
    decreases x + y
  {
    if x == 0 then y
    else if y == 0 then x
    else 2 * BitOr(x / 2, y / 2) + (if x % 2 == 1 || y % 2 == 1 then 1 else 0)
  }

  /** Or-ing two k-bit values gives a k-bit value. */
  lemma {:induction false} BitOrBound(x: nat, y: nat, k: nat)
    requires x < Pow2(k) && y < Pow2(k)
    ensures BitOr(x, y) < Pow2(k)
    decreases k
  {
    if x != 0 && y != 0 {
      assert k > 0;
      BitOrBound(x / 2, y / 2, k - 1);
    }
  }

  /** Or-ing a value below 2^k into a value shifted left by k bits is adding it. */
  lemma {:induction false} BitOrLowBits(x: nat, y: nat, k: nat)
    requires y < Pow2(k)
    ensures BitOr(x * Pow2(k), y) == x * Pow2(k) + y
    decreases k
  {
    if x != 0 && y != 0 {
      assert k > 0;
      var half := Pow2(k - 1);
      assert x * Pow2(k) == 2 * (x * half);
      BitOrLowBits(x, y / 2, k - 1);
    }
  }

  /**
   * The offset of a match with offset slot 3 or more: the footer bits, shifted left by 3 and or-ed
   * with the refinement symbol when there is one, plus the slot's base.  It is at least 1, and a
   * refinement below 8 supplies the low three bits of the offset.
   */
  function MatchOffset(slot: nat, footer: nat, refinement: Option<nat>): (offset: nat)
    requires 3 <= slot < 50
    ensures offset >= 1
    ensures refinement.None? ==> offset == OffsetBase[slot] + footer
    ensures refinement.Some? && refinement.value < 8 ==> offset == OffsetBase[slot] + 8 * footer + refinement.value
  {
    var shifted := if refinement.Some? then BitOr(footer * 8, refinement.value) else footer;
    OffsetTableContiguous();
    assert refinement.Some? && refinement.value < 8 ==> shifted == footer * 8 + refinement.value by {
      if refinement.Some? && refinement.value < 8 {
        Pow2Table();
        BitOrLowBits(footer, refinement.value, 3);
      }
    }
    shifted + OffsetBase[slot]
  }

  /**
   * Matches with the slots LZX's main tree can name have offsets that fit the source's unsigned
   * 32-bit arithmetic: slot 29 has 13 footer bits and the refinement is a main-tree symbol.
   */
  lemma MatchOffsetFits(slot: nat, footer: nat, refinement: Option<nat>)
    requires 3 <= slot < 30
    requires footer < Pow2(FooterBits[slot])
    requires refinement.Some? ==> refinement.value < 496
    ensures MatchOffset(slot, footer, refinement) < 0x1_0000_0000
  {
    FooterBitsOfMainSlots();
    OffsetBaseOfMainSlots();
    Pow2Monotone(FooterBits[slot], 13);
    Pow2Table();
    assert footer < 8192;
    if refinement.Some? {
      assert footer * 8 < 131072;
      BitOrBound(footer * 8, refinement.value, 17);
    }
  }

  /* ---------------------------------------------------------------------------------------
   * The recent-offset cache
   * --------------------------------------------------------------------------------------- */

  /**
   * The cache after a match names slot 0, 1 or 2: the offset in that slot moves to the front and
   * the front offset takes its place, so slot 0 leaves the cache as it is.
   */
  function UseRecent(recent: seq<nat>, slot: nat): (r: seq<nat>)
    requires |recent| == 3 && slot < 3
    ensures |r| == 3 && r[0] == recent[slot] && r[slot] == recent[0]
    ensures multiset(r) == multiset(recent)
    ensures slot == 0 ==> r == recent
    ensures forall i :: 0 <= i < 3 && i != 0 && i != slot ==> r[i] == recent[i]
  {
    recent[slot := recent[0]][0 := recent[slot]]
  }

  /** The cache after a match with a new offset: the offset goes in front and the oldest drops out. */
  function PushRecent(recent: seq<nat>, offset: nat): (r: seq<nat>)
    requires |recent| == 3
    ensures |r| == 3 && r[0] == offset && r[1..] == recent[..2]
  {
    [offset, recent[0], recent[1]]
  }

  /** Using the same slot twice restores the cache. */
  lemma UseRecentTwice(recent: seq<nat>, slot: nat)
    requires |recent| == 3 && slot < 3
    ensures UseRecent(UseRecent(recent, slot), slot) == recent
  {
  }

  /** Three matches naming slots 0, 1 and 2 in turn reorder the cache most recently used first. */
  lemma UseRecentInTurn(a: nat, b: nat, c: nat)
    ensures UseRecent([a, b, c], 0) == [a, b, c]
    ensures UseRecent(UseRecent([a, b, c], 0), 1) == [b, a, c]
    ensures UseRecent(UseRecent(UseRecent([a, b, c], 0), 1), 2) == [c, a, b]
  {
    var first := UseRecent([a, b, c], 0);
    assert first == [a, b, c];
    var second := UseRecent(first, 1);
    assert second[0] == b && second[1] == a && second[2] == c;
    assert second == [b, a, c];
    var third := UseRecent(second, 2);
    assert third[0] == c && third[1] == a && third[2] == b;
    assert third == [c, a, b];
  }

  /**
   * Every cached offset is at least 1 and fits the source's unsigned 32-bit cache entries; the
   * cache starts as {1, 1, 1}.
   */
  ghost predicate ValidCache(recent: seq<nat>)
  {
    forall i :: 0 <= i < |recent| ==> 1 <= recent[i] < 0x1_0000_0000
  }

  /** Both cache updates keep a valid cache valid when the new offset is in range. */
  lemma RecentStaysValid(recent: seq<nat>, slot: nat, offset: nat)
    requires |recent| == 3 && slot < 3 && 1 <= offset < 0x1_0000_0000
    requires ValidCache(recent)
    ensures ValidCache(UseRecent(recent, slot))
    ensures ValidCache(PushRecent(recent, offset))
  {
    var used := UseRecent(recent, slot);
    forall i | 0 <= i < 3
      ensures 1 <= used[i] < 0x1_0000_0000
    {
      if i == 0 {
        assert used[i] == recent[slot];
      } else if i == slot {
        assert used[i] == recent[0];
      } else {
        assert used[i] == recent[i];
      }
    }
  }

  /** Takes the offset of cache slot 0, 1 or 2 and updates the cache in place. */
  method UseRecentOffset(recent: array<nat>, slot: nat) returns (offset: nat)
    requires recent.Length == 3 && slot < 3
    modifies recent
    ensures offset == old(recent[slot])
    ensures recent[..] == UseRecent(old(recent[..]), slot)
  {
    offset := recent[slot];
    recent[slot] := recent[0];
    recent[0] := offset;
  }

  /** Records a new offset in the cache in place. */
  method PushRecentOffset(recent: array<nat>, offset: nat)
    requires recent.Length == 3
    modifies recent
    ensures recent[..] == PushRecent(old(recent[..]), offset)
  {
    recent[2] := recent[1];
    recent[1] := recent[0];
    recent[0] := offset;
  }

  /* ---------------------------------------------------------------------------------------
   * Code sizes: a pre-tree, deltas and runs
   * --------------------------------------------------------------------------------------- */

  /**
   * The code size a pre-tree symbol 0..17 stores in place of the size `previous`: the previous size
   * minus the symbol, modulo 17.
   */
  function DeltaSize(previous: nat, symbol: nat): (size: nat)
    requires previous <= 16 && symbol <= 17
    ensures size <= 16
    ensures (size + symbol) % 17 == previous
  {
    if previous < symbol then previous + 17 - symbol else previous - symbol
  }

  /** Against a cleared entry, symbol 0 stores 0 and every other symbol s stores 17 - s. */
  lemma DeltaFromZero(symbol: nat)
    requires symbol <= 17
    ensures DeltaSize(0, symbol) == if symbol == 0 then 0 else 17 - symbol
  {
  }

  /**
   * The size of `run` is the one a pre-tree symbol stores against a cleared entry: `delta` is the
   * symbol whose delta it is (a symbol 0..16, or the second symbol of a 19), which stores 0 for
   * symbol 0 and 17 - s for any other symbol s; a run of zeros (17, 18) has none.
   */
  predicate StoredAgainstZero(run: Run, delta: Option<nat>)
  {
    if delta.Some? then delta.value <= 17 && run.size == (if delta.value == 0 then 0 else 17 - delta.value)
    else run.size == 0
  }

  /** Each run of `runs` stores the delta of the matching entry of `deltas` against a cleared entry. */
  ghost predicate AllStoredAgainstZero(runs: seq<Run>, deltas: seq<Option<nat>>)
  {
    |runs| == |deltas| && forall i :: 0 <= i < |runs| ==> StoredAgainstZero(runs[i], deltas[i])
  }

  /**
   * A run of code sizes one pre-tree symbol may produce when `remaining` sizes are still to be
   * filled: a single size (symbols 0..16), zero 4..19 or 20..51 times (17, 18), one size 4 or 5
   * times (19), where a repeat beyond the remaining sizes is cut to the remaining count.  Every
   * size is a delta, so it is at most 16.
   */
  predicate LzxRunAllowed(run: Run, remaining: int)
  {
    1 <= run.times <= remaining && run.size <= 16 &&
    (run.times == 1 ||
     (run.size == 0 && 4 <= run.times <= 51) ||
     4 <= run.times <= 5 ||
     run.times == remaining)
  }

  /** Each run of `runs` is allowed given the sizes of the `count` still unfilled before it. */
  ghost predicate LzxRunsAllowed(runs: seq<Run>, count: nat)
    decreases |runs|
  {
    |runs| == 0 ||
    (LzxRunsAllowed(runs[..|runs| - 1], count) &&
     LzxRunAllowed(runs[|runs| - 1], count - |Flatten(runs[..|runs| - 1])|))
  }

  lemma LzxRunsSnoc(runs: seq<Run>, run: Run, count: nat)
    requires LzxRunsAllowed(runs, count) && LzxRunAllowed(run, count - |Flatten(runs)|)
    ensures LzxRunsAllowed(runs + [run], count)
  {
    assert (runs + [run])[..|runs|] == runs;
  }

  /** The code sizes of allowed runs are at most 16, the longest code the LZX trees accept. */
  lemma {:induction false} LzxRunsBound(runs: seq<Run>, count: nat)
    requires LzxRunsAllowed(runs, count)
    ensures forall i :: 0 <= i < |runs| ==> runs[i].size <= 16
    ensures forall j :: 0 <= j < |Flatten(runs)| ==> Flatten(runs)[j] <= 16
    decreases |runs|
  {
    if |runs| > 0 {
      var init := runs[..|runs| - 1];
      LzxRunsBound(init, count);
      assert forall i :: 0 <= i < |init| ==> runs[i] == init[i];
    }
    FlattenBound(runs, 16);
  }

  /**
   * Reads the 20 four-bit pre-tree code sizes into the first 20 entries from `start` on, builds
   * the pre-tree from them, clears `count` entries from `start` on and fills them with the runs
   * the pre-tree symbols decode to, each size a delta against the cleared entry.  Entries before
   * `start` are left alone, so the match-header sizes read after the literal sizes do not disturb
   * them.
   */
  method ReadCodeSizes(bitStream: BitStream, codeSizes: array<nat>, start: nat, count: nat)
    returns (r: Result<()>, ghost runs: seq<Run>, ghost deltas: seq<Option<nat>>)
    requires bitStream.Valid()
    requires start + 20 <= codeSizes.Length && start + count <= codeSizes.Length
    modifies bitStream, codeSizes
    ensures bitStream.Valid() && bitStream.Remaining() <= old(bitStream.Remaining())
    ensures bitStream.storageType == old(bitStream.storageType)
    ensures codeSizes[..start] == old(codeSizes[..start])
    ensures codeSizes[start + Max(20, count)..] == old(codeSizes[start + Max(20, count)..])
    ensures r.Ok? ==> codeSizes[start..start + count] == Flatten(runs) && LzxRunsAllowed(runs, count)
    ensures r.Ok? ==> AllStoredAgainstZero(runs, deltas)
    ensures r.Err? ==> r.error in {ReadFailed, OutOfBounds, BuildFailed}
  {
    runs, deltas := [], [];
    var end := start + Max(20, count);
    var preCodes := ReadPreTree(bitStream, codeSizes, start);
    if preCodes.Err? {
      return Err(preCodes.error), runs, deltas;
    }
    var preCodesTree := preCodes.value;
    ClearCodeSizes(codeSizes, start, count);
    r, runs, deltas := FillCodeSizes(bitStream, preCodesTree, codeSizes, start, count);
    assert codeSizes[..start] == old(codeSizes[..start]);
    assert forall i :: end <= i < codeSizes.Length ==> codeSizes[i] == old(codeSizes[i]);
    assert codeSizes[end..] == old(codeSizes[end..]);
  }

  /**
   * Fills `count` cleared entries from `start` on with the runs the pre-tree symbols decode to;
   * every other entry is left alone.
   */
  method FillCodeSizes(bitStream: BitStream, preCodesTree: HuffmanTree, codeSizes: array<nat>, start: nat, count: nat)
    returns (r: Result<()>, ghost runs: seq<Run>, ghost deltas: seq<Option<nat>>)
    requires bitStream.Valid() && preCodesTree.Valid()
    requires start + count <= codeSizes.Length
    requires forall i :: start <= i < start + count ==> codeSizes[i] == 0
    modifies bitStream, codeSizes
    ensures bitStream.Valid() && bitStream.Remaining() <= old(bitStream.Remaining())
    ensures bitStream.storageType == old(bitStream.storageType)
    ensures forall i :: 0 <= i < codeSizes.Length && !(start <= i < start + count) ==> codeSizes[i] == old(codeSizes[i])
    ensures r.Ok? ==> codeSizes[start..start + count] == Flatten(runs) && LzxRunsAllowed(runs, count)
    ensures r.Ok? ==> AllStoredAgainstZero(runs, deltas)
    ensures r.Err? ==> r.error == ReadFailed || r.error == OutOfBounds
  {
    runs, deltas := [], [];
    var index := 0;
    while index < count
      invariant index <= count
      invariant bitStream.Valid() && bitStream.Remaining() <= old(bitStream.Remaining())
      invariant bitStream.storageType == old(bitStream.storageType)
      invariant Filling(codeSizes, old(codeSizes[..]), start, index, count, runs)
      invariant AllStoredAgainstZero(runs, deltas)
    {
      var next;
      ghost var delta;
      next, runs, delta := FillRun(bitStream, preCodesTree, codeSizes, start, index, count, old(codeSizes[..]), runs);
      if next.Err? {
        return Err(next.error), runs, deltas;
      }
      deltas := deltas + [delta];
      index := next.value;
    }
    r := Ok(());
  }

  /**
   * One step of FillCodeSizes: reads the next run and writes it after the `index` entries
   * already filled in; on success returns the new number of filled entries.
   */
  method FillRun(bitStream: BitStream, preCodesTree: HuffmanTree, codeSizes: array<nat>, start: nat, index: nat, count: nat,
                 ghost original: seq<nat>, ghost runs: seq<Run>)
    returns (r: Result<nat>, ghost runs': seq<Run>, ghost delta: Option<nat>)
    requires bitStream.Valid() && preCodesTree.Valid()
    requires index < count
    requires Filling(codeSizes, original, start, index, count, runs)
    requires forall i :: start <= i < start + count ==> original[i] == 0
    modifies bitStream, codeSizes
    ensures bitStream.Valid() && bitStream.Remaining() <= old(bitStream.Remaining())
    ensures bitStream.storageType == old(bitStream.storageType)
    ensures r.Ok? ==> index < r.value && Filling(codeSizes, original, start, r.value, count, runs')
    ensures r.Ok? ==> |runs'| == |runs| + 1 && runs'[..|runs|] == runs && StoredAgainstZero(runs'[|runs|], delta)
    ensures r.Err? ==> (r.error == ReadFailed || r.error == OutOfBounds) && runs' == runs
    ensures r.Err? ==> Filling(codeSizes, original, start, index, count, runs')
  {
    assert codeSizes[start + index] == original[start + index] == 0;
    var run, symbol, _, second := ReadRun(bitStream, preCodesTree, codeSizes[start + index], count - index);
    delta := None;
    if run.Err? {
      return Err(run.error), runs, delta;
    }
    if symbol.value < 17 {
      delta := symbol;
    } else if symbol.value == 19 {
      delta := second;
    }
    if delta.Some? {
      DeltaFromZero(delta.value);
    }
    var next := index + run.value.times;
    runs' := AppendRun(codeSizes, start, index, count, run.value, original, runs);
    assert Filling(codeSizes, original, start, next, count, runs');
    r := Ok(next);
  }

  /**
   * The state of FillCodeSizes after `index` of `count` entries from `start` on: those entries hold
   * the allowed runs `runs`, and every other entry still holds its original value.
   */
  ghost predicate Filling(codeSizes: array<nat>, original: seq<nat>, start: nat, index: nat, count: nat, runs: seq<Run>)
    reads codeSizes
  {
    codeSizes.Length == |original| && index <= count && start + count <= codeSizes.Length &&
    (forall i :: 0 <= i < codeSizes.Length && !(start <= i < start + index) ==> codeSizes[i] == original[i]) &&
    codeSizes[start..start + index] == Flatten(runs) && LzxRunsAllowed(runs, count)
  }

  /** Writes an allowed run after the runs already filled in from `start` on. */
  method AppendRun(codeSizes: array<nat>, start: nat, index: nat, count: nat, run: Run, ghost original: seq<nat>, ghost runs: seq<Run>)
    returns (ghost runs': seq<Run>)
    requires Filling(codeSizes, original, start, index, count, runs)
    requires LzxRunAllowed(run, count - index)
    modifies codeSizes
    ensures runs' == runs + [run]
    ensures Filling(codeSizes, original, start, index + run.times, count, runs')
  {
    ghost var before := codeSizes[..];
    ghost var filled := Flatten(runs);
    assert |filled| == index;
    WriteRun(codeSizes, start + index, run);
    ghost var after := codeSizes[..];
    WrittenRun(before, after, start, index, run, filled);
    LzxRunsSnoc(runs, run, count);
    FlattenSnoc(runs, run);
    runs' := runs + [run];
  }

  /**
   * Reads the 20 four-bit pre-tree code sizes into the entries from `start` on and builds the
   * pre-tree, which has 20 symbols and codes of at most 15 bits, from them.
   */
  method ReadPreTree(bitStream: BitStream, codeSizes: array<nat>, start: nat) returns (r: Result<HuffmanTree>)
    requires bitStream.Valid()
    requires start + 20 <= codeSizes.Length
    modifies bitStream, codeSizes
    ensures bitStream.Valid() && bitStream.Remaining() <= old(bitStream.Remaining())
    ensures bitStream.storageType == old(bitStream.storageType)
    ensures codeSizes[..start] == old(codeSizes[..start])
    ensures codeSizes[start + 20..] == old(codeSizes[start + 20..])
    ensures r.Ok? ==>
      fresh(r.value) && r.value.Valid() && r.value.numberOfSymbols == 20 &&
      r.value.codeSizes == codeSizes[start..start + 20] &&
      forall i :: 0 <= i < 20 ==> r.value.codeSizes[i] < 16
    ensures r.Err? ==> r.error == ReadFailed || r.error == BuildFailed
  {
    for preCode := 0 to 20
      invariant bitStream.Valid() && bitStream.Remaining() <= old(bitStream.Remaining())
      invariant bitStream.storageType == old(bitStream.storageType)
      invariant codeSizes[..start] == old(codeSizes[..start])
      invariant codeSizes[start + 20..] == old(codeSizes[start + 20..])
      invariant forall i :: start <= i < start + preCode ==> codeSizes[i] < 16
    {
      var value := bitStream.GetValue(4);
      if value.Err? {
        return Err(ReadFailed);
      }
      Pow2Table();
      codeSizes[start + preCode] := value.value;
    }
    var preCodesTree := new HuffmanTree(20, 15);
    var built := preCodesTree.Build(codeSizes[start..start + 20]);
    if !built {
      return Err(BuildFailed);
    }
    r := Ok(preCodesTree);
  }

  /** Sets `count` entries from `start` on to 0. */
  method ClearCodeSizes(codeSizes: array<nat>, start: nat, count: nat)
    requires start + count <= codeSizes.Length
    modifies codeSizes
    ensures codeSizes[..start] == old(codeSizes[..start])
    ensures codeSizes[start + count..] == old(codeSizes[start + count..])
    ensures forall i :: start <= i < start + count ==> codeSizes[i] == 0
  {
    for cleared := 0 to count
      invariant codeSizes[..start] == old(codeSizes[..start])
      invariant codeSizes[start + count..] == old(codeSizes[start + count..])
      invariant forall i :: start <= i < start + cleared ==> codeSizes[i] == 0
    {
      codeSizes[start + cleared] := 0;
    }
  }

  function Max(a: nat, b: nat): (m: nat)
    ensures a <= m && b <= m && (m == a || m == b)
  {
    if a < b then b else a
  }

  /** The entries ReadCodeSizes keeps track of, after a run is written at `start + index`. */
  lemma WrittenRun(before: seq<nat>, after: seq<nat>, start: nat, index: nat, run: Run, filled: seq<nat>)
    requires |before| == |after| && start + index + run.times <= |before|
    requires before[start..start + index] == filled
    requires after[..start + index + run.times] == before[..start + index] + Repeat(run.size, run.times)
    requires after[start + index + run.times..] == before[start + index + run.times..]
    ensures after[start..start + index + run.times] == filled + Repeat(run.size, run.times)
    ensures forall i :: 0 <= i < |after| && !(start + index <= i < start + index + run.times) ==> after[i] == before[i]
  {
    var k := start + index + run.times;
    assert after[start..k] == after[..k][start..];
    forall i | 0 <= i < |after| && !(start + index <= i < k)
      ensures after[i] == before[i]
    {
      if i < start + index {
        assert after[i] == after[..k][i];
      } else {
        assert after[i] == after[k..][i - k];
      }
    }
  }

  /** The least repeat count of pre-tree symbols 17, 18 and 19. */
  function RepeatBase(symbol: nat): (base: nat)
    requires 17 <= symbol <= 19
    ensures 4 <= base <= 20
  {
    if symbol == 18 then 20 else 4
  }

  /** The number of extra bits added to the repeat count of pre-tree symbols 17, 18 and 19. */
  function RepeatBits(symbol: nat): (bits: nat)
    requires 17 <= symbol <= 19
    ensures 1 <= bits <= 5
  {
    if symbol == 17 then 4 else if symbol == 18 then 5 else 1
  }

  function Min(a: nat, b: nat): (m: nat)
    ensures m <= a && m <= b && (m == a || m == b)
  {
    if a < b then a else b
  }

  /**
   * Decodes one pre-tree symbol and its repeat count into a run: symbols 0..16 store the delta of
   * `previous` once; 17 stores zero 4 + (4 bits) times and 18 zero 20 + (5 bits) times; 19 stores
   * the delta of a second pre-tree symbol, which must be at most 17, 4 + (1 bit) times; any other
   * symbol is out of bounds.  A repeat beyond the `remaining` entries is cut short, not rejected.
   * `symbol` is the pre-tree symbol decoded, `extra` the repeat bits and `second` the second
   * symbol of a 19.
   */
  method ReadRun(bitStream: BitStream, preCodesTree: HuffmanTree, previous: nat, remaining: nat)
    returns (r: Result<Run>, ghost symbol: Option<nat>, ghost extra: Option<nat>, ghost second: Option<nat>)
    requires bitStream.Valid() && preCodesTree.Valid()
    requires previous <= 16 && 1 <= remaining
    modifies bitStream
    ensures bitStream.Valid() && bitStream.Remaining() <= old(bitStream.Remaining())
    ensures bitStream.storageType == old(bitStream.storageType)
    ensures r.Ok? ==> LzxRunAllowed(r.value, remaining)
    ensures r.Err? ==> r.error == ReadFailed || r.error == OutOfBounds
    ensures symbol.None? ==> r == Err(ReadFailed)
    ensures symbol.Some? ==> symbol.value < preCodesTree.numberOfSymbols
    ensures symbol.Some? && symbol.value < 17 ==> r == Ok(Run(DeltaSize(previous, symbol.value), 1))
    ensures symbol.Some? && symbol.value > 19 ==> r == Err(OutOfBounds)
    ensures symbol.Some? && 17 <= symbol.value <= 19 && extra.None? ==> r == Err(ReadFailed)
    ensures extra.Some? ==> symbol.Some? && 17 <= symbol.value <= 19 && extra.value < Pow2(RepeatBits(symbol.value))
    ensures symbol.Some? && extra.Some? && symbol.value < 19 ==>
      r == Ok(Run(0, Min(RepeatBase(symbol.value) + extra.value, remaining)))
    ensures symbol == Some(19) && extra.Some? && second.None? ==> r == Err(ReadFailed)
    ensures second.Some? ==>
      symbol == Some(19) && extra.Some? && second.value < preCodesTree.numberOfSymbols &&
      r == (if second.value > 17 then Err(OutOfBounds)
            else Ok(Run(DeltaSize(previous, second.value), Min(RepeatBase(19) + extra.value, remaining))))
  {
    symbol, extra, second := None, None, None;
    var symbolResult := preCodesTree.GetSymbol(bitStream);
    if symbolResult.Err? {
      return Err(ReadFailed), symbol, extra, second;
    }
    symbol := Some(symbolResult.value);
    if symbolResult.value < 17 {
      return Ok(Run(DeltaSize(previous, symbolResult.value), 1)), symbol, extra, second;
    }
    if symbolResult.value > 19 {
      return Err(OutOfBounds), symbol, extra, second;
    }
    var bits := bitStream.GetValue(RepeatBits(symbolResult.value));
    if bits.Err? {
      return Err(ReadFailed), symbol, extra, second;
    }
    extra := Some(bits.value);
    var timesToRepeat := RepeatBase(symbolResult.value) + bits.value;
    var codeSize: nat := 0;
    if symbolResult.value == 19 {
      var secondResult := preCodesTree.GetSymbol(bitStream);
      if secondResult.Err? {
        return Err(ReadFailed), symbol, extra, second;
      }
      second := Some(secondResult.value);
      if secondResult.value > 17 {
        return Err(OutOfBounds), symbol, extra, second;
      }
      codeSize := DeltaSize(previous, secondResult.value);
    }
    Pow2Table();
    if timesToRepeat > remaining {
      timesToRepeat := remaining;
    }
    r := Ok(Run(codeSize, timesToRepeat));
  }

  /* ---------------------------------------------------------------------------------------
   * Building the trees of a block
   * --------------------------------------------------------------------------------------- */

  /**
   * Reads the 256 literal code sizes and then the 240 match-header code sizes after them, each
   * with its own pre-tree, and builds the 496-symbol main tree from all of them.
   */
  method BuildMainTree(bitStream: BitStream, main: HuffmanTree)
    returns (r: Result<()>, ghost literalRuns: seq<Run>, ghost matchRuns: seq<Run>)
    requires bitStream.Valid() && main.Valid()
    requires main.numberOfSymbols == 496 && main.maximumCodeSize == 16
    modifies bitStream, main
    ensures bitStream.Valid() && bitStream.Remaining() <= old(bitStream.Remaining())
    ensures bitStream.storageType == old(bitStream.storageType)
    ensures main.Valid()
    ensures r.Ok? ==>
      LzxRunsAllowed(literalRuns, 256) && LzxRunsAllowed(matchRuns, 240) &&
      main.codeSizes == Flatten(literalRuns) + Flatten(matchRuns)
    ensures r.Err? ==> r.error in {ReadFailed, OutOfBounds, BuildFailed}
  {
    var sizes, codeSizes;
    sizes, codeSizes, literalRuns, matchRuns := ReadMainCodeSizes(bitStream);
    if sizes.Err? {
      return Err(sizes.error), literalRuns, matchRuns;
    }
    var built := main.Build(codeSizes[..]);
    if !built {
      return Err(BuildFailed), literalRuns, matchRuns;
    }
    r := Ok(());
  }

  /** Reads the 256 literal code sizes and the 240 match-header code sizes of the main tree. */
  method ReadMainCodeSizes(bitStream: BitStream)
    returns (r: Result<()>, codeSizes: array<nat>, ghost literalRuns: seq<Run>, ghost matchRuns: seq<Run>)
    requires bitStream.Valid()
    modifies bitStream
    ensures fresh(codeSizes) && codeSizes.Length == 496
    ensures bitStream.Valid() && bitStream.Remaining() <= old(bitStream.Remaining())
    ensures bitStream.storageType == old(bitStream.storageType)
    ensures r.Ok? ==>
      LzxRunsAllowed(literalRuns, 256) && LzxRunsAllowed(matchRuns, 240) &&
      codeSizes[..] == Flatten(literalRuns) + Flatten(matchRuns)
    ensures r.Err? ==> r.error in {ReadFailed, OutOfBounds, BuildFailed}
  {
    matchRuns := [];
    codeSizes := new nat[256 + 240](_ => 0);
    var literals;
    ghost var deltas;
    literals, literalRuns, deltas := ReadCodeSizes(bitStream, codeSizes, 0, 256);
    if literals.Err? {
      return Err(literals.error), codeSizes, literalRuns, matchRuns;
    }
    var matches;
    matches, matchRuns, deltas := ReadCodeSizes(bitStream, codeSizes, 256, 240);
    if matches.Err? {
      return Err(matches.error), codeSizes, literalRuns, matchRuns;
    }
    assert codeSizes[..] == codeSizes[..256] + codeSizes[256..256 + 240];
    r := Ok(());
  }

  /** Reads the 249 code sizes of the lengths tree with a pre-tree and builds the tree. */
  method BuildLengthsTree(bitStream: BitStream, lengths: HuffmanTree) returns (r: Result<()>, ghost runs: seq<Run>)
    requires bitStream.Valid() && lengths.Valid()
    requires lengths.numberOfSymbols == 249 && lengths.maximumCodeSize == 16
    modifies bitStream, lengths
    ensures bitStream.Valid() && bitStream.Remaining() <= old(bitStream.Remaining())
    ensures bitStream.storageType == old(bitStream.storageType)
    ensures lengths.Valid()
    ensures r.Ok? ==> LzxRunsAllowed(runs, 249) && lengths.codeSizes == Flatten(runs)
    ensures r.Err? ==> r.error in {ReadFailed, OutOfBounds, BuildFailed}
  {
    var codeSizes := new nat[249](_ => 0);
    var sizes;
    ghost var deltas;
    sizes, runs, deltas := ReadCodeSizes(bitStream, codeSizes, 0, 249);
    if sizes.Err? {
      return Err(sizes.error), runs;
    }
    assert codeSizes[..] == codeSizes[0..249];
    var built := lengths.Build(codeSizes[..]);
    if !built {
      return Err(BuildFailed), runs;
    }
    r := Ok(());
  }

  /** Reads 256 three-bit code sizes and builds the aligned-offset tree from them. */
  method BuildAlignedTree(bitStream: BitStream, aligned: HuffmanTree) returns (r: Result<()>)
    requires bitStream.Valid() && aligned.Valid()
    requires aligned.numberOfSymbols == 256 && aligned.maximumCodeSize == 16
    modifies bitStream, aligned
    ensures bitStream.Valid() && bitStream.Remaining() <= old(bitStream.Remaining())
    ensures bitStream.storageType == old(bitStream.storageType)
    ensures aligned.Valid()
    ensures r.Ok? ==> |aligned.codeSizes| == 256 && forall i :: 0 <= i < 256 ==> aligned.codeSizes[i] < 8
    ensures r.Err? ==> r.error == ReadFailed || r.error == BuildFailed
  {
    var codeSizes := new nat[256](_ => 0);
    for index := 0 to 256
      modifies bitStream, codeSizes
      invariant bitStream.Valid() && bitStream.Remaining() <= old(bitStream.Remaining())
      invariant bitStream.storageType == old(bitStream.storageType)
      invariant forall i :: 0 <= i < index ==> codeSizes[i] < 8
    {
      var codeSize := bitStream.GetValue(3);
      if codeSize.Err? {
        return Err(ReadFailed);
      }
      Pow2Table();
      codeSizes[index] := codeSize.value;
    }
    var built := aligned.Build(codeSizes[..]);
    if !built {
      return Err(BuildFailed);
    }
    r := Ok(());
  }

  /* ---------------------------------------------------------------------------------------
   * Decoding the symbols of a block
   * --------------------------------------------------------------------------------------- */

  /** An instruction an LZX block can decode to: a literal, or a match of 2..257 bytes whose offset fits 32 bits. */
  predicate LzxOp(op: Op)
  {
    op.Match? ==> 2 <= op.length <= 257 && 1 <= op.distance < 0x1_0000_0000
  }

  /**
   * Decodes the match that main-tree symbol 256..495 starts.  The low three bits of the symbol give
   * the length less 2, where 7 means 7 plus a lengths-tree symbol; the rest give the offset slot.
   * Slots 0..2 take their offset from the recent-offset cache; the other slots read the slot's
   * footer bits, refined by a further main-tree symbol in aligned blocks for slots 8 and up, and
   * push the new offset onto the cache.  The cache is updated only when the match is complete.
   */
  method DecodeMatch(bitStream: BitStream, symbol: nat, main: HuffmanTree, lengths: HuffmanTree, aligned: HuffmanTree?, recent: array<nat>)
    returns (r: Result<Op>, ghost lengthsSymbol: nat, ghost footer: nat, ghost refinement: Option<nat>)
    requires bitStream.Valid() && main.Valid() && lengths.Valid()
    requires main.numberOfSymbols == 496 && lengths.numberOfSymbols == 249
    requires 256 <= symbol < 496
    requires recent.Length == 3 && ValidCache(recent[..])
    modifies bitStream, recent
    ensures bitStream.Valid() && bitStream.Remaining() <= old(bitStream.Remaining())
    ensures bitStream.storageType == old(bitStream.storageType)
    ensures ValidCache(recent[..])
    ensures r.Ok? ==> r.value.Match? && LzxOp(r.value) && recent[0] == r.value.distance
    ensures r.Ok? && symbol % 8 < 7 ==> r.value.length == symbol % 8 + 2
    ensures r.Ok? && symbol % 8 == 7 ==> lengthsSymbol < 249 && r.value.length == lengthsSymbol + 9
    ensures r.Ok? && (symbol - 256) / 8 < 3 ==>
      r.value.distance == old(recent[(symbol - 256) / 8]) &&
      recent[..] == UseRecent(old(recent[..]), (symbol - 256) / 8)
    ensures r.Ok? && (symbol - 256) / 8 >= 3 ==>
      footer < Pow2(FooterBits[(symbol - 256) / 8]) &&
      (refinement.Some? <==> aligned != null && (symbol - 256) / 8 >= 8) &&
      r.value.distance == MatchOffset((symbol - 256) / 8, footer, refinement) &&
      recent[..] == PushRecent(old(recent[..]), r.value.distance)
    ensures r.Err? ==> r.error == ReadFailed && recent[..] == old(recent[..])
  {
    lengthsSymbol, footer := 0, 0;
    refinement := None;
    var length := symbol % 8;
    var slot := (symbol - 256) / 8;
    if length == 7 {
      var extra := lengths.GetSymbol(bitStream);
      if extra.Err? {
        return Err(ReadFailed), lengthsSymbol, footer, refinement;
      }
      lengthsSymbol := extra.value;
      length := extra.value + 7;
    }
    length := length + 2;
    var offset: nat;
    if slot < 3 {
      RecentStaysValid(recent[..], slot, 1);
      offset := UseRecentOffset(recent, slot);
    } else {
      var bits := bitStream.GetValue(FooterBits[slot]);
      if bits.Err? {
        return Err(ReadFailed), lengthsSymbol, footer, refinement;
      }
      var footerBits := bits.value;
      footer := footerBits;
      var alignedOffset: Option<nat> := None;
      if aligned != null && slot >= 8 {
        var alignedSymbol := main.GetSymbol(bitStream);
        if alignedSymbol.Err? {
          return Err(ReadFailed), lengthsSymbol, footer, refinement;
        }
        alignedOffset := Some(alignedSymbol.value);
      }
      refinement := alignedOffset;
      MatchOffsetFits(slot, footerBits, alignedOffset);
      offset := MatchOffset(slot, footerBits, alignedOffset);
      RecentStaysValid(recent[..], 0, offset);
      PushRecentOffset(recent, offset);
    }
    r := Ok(Match(length, offset));
  }

  /**
   * Decodes main-tree symbols until the output offset reaches `dataOffset + blockSize`: a literal
   * is written at the output offset, and a match is copied from earlier output.  A literal at the
   * end of the buffer and a match that does not fit are too small, a match reaching before the
   * start of the output is out of bounds.  The last match may run up to 256 bytes past the block.
   * The bytes written are the expansion of the decoded instructions `ops`.
   */
  method DecodeHuffman(bitStream: BitStream, blockSize: nat, main: HuffmanTree, lengths: HuffmanTree, aligned: HuffmanTree?,
                       recent: array<nat>, data: array<byte>, dataOffset: nat)
    returns (r: Result<nat>, ghost ops: seq<Op>)
    requires bitStream.Valid() && main.Valid() && lengths.Valid()
    requires main.numberOfSymbols == 496 && lengths.numberOfSymbols == 249
    requires recent.Length == 3 && ValidCache(recent[..])
    requires dataOffset <= data.Length
    modifies bitStream, recent, data
    ensures bitStream.Valid() && bitStream.Remaining() <= old(bitStream.Remaining())
    ensures bitStream.storageType == old(bitStream.storageType)
    ensures ValidCache(recent[..])
    ensures r.Ok? ==>
      dataOffset + blockSize <= r.value <= data.Length &&
      r.value <= dataOffset + blockSize + 256 &&
      Expandable(old(data[..dataOffset]), ops) &&
      data[..r.value] == Expand(old(data[..dataOffset]), ops) &&
      data[r.value..] == old(data[r.value..]) &&
      forall i :: 0 <= i < |ops| ==> LzxOp(ops[i])
    ensures r.Err? ==> r.error in {ReadFailed, TooSmall, OutOfBounds}
  {
    ghost var history := data[..dataOffset];
    ops := [];
    var offset := dataOffset;
    var end := dataOffset + blockSize;
    while offset < end
      invariant dataOffset <= offset <= data.Length && offset <= end + 256
      invariant bitStream.Valid() && bitStream.Remaining() <= old(bitStream.Remaining())
      invariant bitStream.storageType == old(bitStream.storageType)
      invariant ValidCache(recent[..])
      invariant Decoded(data[..], old(data[..]), history, ops, offset)
      invariant forall i :: 0 <= i < |ops| ==> LzxOp(ops[i])
      decreases bitStream.Remaining()
    {
      var symbolResult := main.GetSymbol(bitStream);
      if symbolResult.Err? {
        return Err(ReadFailed), ops;
      }
      var symbol := symbolResult.value;
      if symbol < 256 {
        if offset >= data.Length {
          return Err(TooSmall), ops;
        }
        ops := WriteLiteral(data, offset, symbol as byte, old(data[..]), history, ops);
        offset := offset + 1;
      } else {
        var next;
        next, ops := AppendMatch(bitStream, symbol, main, lengths, aligned, recent, data, offset, old(data[..]), history, ops);
        if next.Err? {
          return Err(next.error), ops;
        }
        offset := next.value;
      }
    }
    r := Ok(offset);
  }

  /**
   * Decodes the match main-tree symbol `symbol` starts and copies it to `offset`; a match reaching
   * before the start of the output is out of bounds and one that does not fit is too small.
   */
  method AppendMatch(bitStream: BitStream, symbol: nat, main: HuffmanTree, lengths: HuffmanTree, aligned: HuffmanTree?,
                     recent: array<nat>, data: array<byte>, offset: nat,
                     ghost original: seq<byte>, ghost history: seq<byte>, ghost ops: seq<Op>)
    returns (r: Result<nat>, ghost ops': seq<Op>)
    requires bitStream.Valid() && main.Valid() && lengths.Valid()
    requires main.numberOfSymbols == 496 && lengths.numberOfSymbols == 249
    requires 256 <= symbol < 496
    requires recent.Length == 3 && ValidCache(recent[..])
    requires Decoded(data[..], original, history, ops, offset)
    modifies bitStream, recent, data
    ensures bitStream.Valid() && bitStream.Remaining() <= old(bitStream.Remaining())
    ensures bitStream.storageType == old(bitStream.storageType)
    ensures ValidCache(recent[..])
    ensures r.Ok? ==>
      offset < r.value <= data.Length && r.value <= offset + 257 &&
      |ops'| == |ops| + 1 && ops'[..|ops|] == ops && LzxOp(ops'[|ops|]) &&
      Decoded(data[..], original, history, ops', r.value)
    ensures r.Err? ==> r.error in {ReadFailed, TooSmall, OutOfBounds}
  {
    ops' := ops;
    var op, _, _, _ := DecodeMatch(bitStream, symbol, main, lengths, aligned, recent);
    if op.Err? {
      return Err(op.error), ops';
    }
    var length, distance := op.value.length, op.value.distance;
    if distance > offset {
      return Err(OutOfBounds), ops';
    }
    if offset + length > data.Length {
      return Err(TooSmall), ops';
    }
    ops' := WriteMatch(data, offset, length, distance, original, history, ops);
    assert ops'[..|ops|] == ops;
    r := Ok(offset + length);
  }

  /* ---------------------------------------------------------------------------------------
   * Decompressing a stream
   * --------------------------------------------------------------------------------------- */

  /** The LZX block types. */
  const Verbatim := 1
  const Aligned := 2
  const Uncompressed := 3

  /** A block header: the 3-bit block type and the number of bytes the block decodes to. */
  datatype BlockHeader = BlockHeader(blockType: nat, blockSize: nat)

  /**
   * Reads a block header: the 3-bit type, then a flag bit; a set flag means the default size of
   * 32768 bytes, otherwise a 16-bit size follows.
   */
  method ReadBlockHeader(bitStream: BitStream) returns (r: Result<BlockHeader>, ghost sizeFlag: nat)
    requires bitStream.Valid()
    modifies bitStream
    ensures bitStream.Valid() && bitStream.Remaining() <= old(bitStream.Remaining())
    ensures bitStream.storageType == old(bitStream.storageType)
    ensures r.Ok? ==> r.value.blockType < 8 && sizeFlag < 2
    ensures r.Ok? && sizeFlag == 1 ==> r.value.blockSize == 32768
    ensures r.Ok? && sizeFlag == 0 ==> r.value.blockSize < 65536
    ensures r.Err? ==> r.error == ReadFailed
  {
    Pow2Table();
    sizeFlag := 0;
    var blockType := bitStream.GetValue(3);
    if blockType.Err? {
      return Err(ReadFailed), sizeFlag;
    }
    var flag := bitStream.GetValue(1);
    if flag.Err? {
      return Err(ReadFailed), sizeFlag;
    }
    sizeFlag := flag.value;
    var blockSize: nat := 32768;
    if flag.value == 0 {
      var explicit := bitStream.GetValue(16);
      if explicit.Err? {
        return Err(ReadFailed), sizeFlag;
      }
      blockSize := explicit.value;
    }
    r := Ok(BlockHeader(blockType.value, blockSize));
  }

  /**
   * Decompresses an LZX stream into `data`, starting with the recent offsets {1, 1, 1} and reading
   * 16-bit little-endian words.  Only the first block is decoded: an aligned block builds its
   * aligned-offset tree and is then decoded like a verbatim block, an uncompressed block writes
   * nothing, and any other type is unsupported.  An empty input decompresses to nothing.  The
   * result is the number of bytes written, which are the expansion of the decoded instructions.
   */
  method Decompress(compressed: seq<byte>, data: array<byte>)
    returns (r: Result<nat>, ghost header: Option<BlockHeader>, ghost ops: seq<Op>)
    modifies data
    ensures |compressed| == 0 ==> r == Ok(0) && header.None?
    ensures header.Some? ==> header.value.blockType < 8 && (header.value.blockSize == 32768 || header.value.blockSize < 65536)
    ensures r.Ok? && |compressed| > 0 ==> header.Some? && header.value.blockType in {Verbatim, Aligned, Uncompressed}
    ensures r.Ok? ==>
      r.value <= data.Length &&
      Expandable([], ops) && data[..r.value] == Expand([], ops) &&
      data[r.value..] == old(data[r.value..]) &&
      forall i :: 0 <= i < |ops| ==> LzxOp(ops[i])
    ensures r.Ok? && header.Some? && header.value.blockType in {Verbatim, Aligned} ==>
      header.value.blockSize <= r.value <= header.value.blockSize + 256
    ensures r.Ok? && (header.None? || header.value.blockType == Uncompressed) ==> r.value == 0
    ensures r.Err? ==> r.error in {ReadFailed, OutOfBounds, TooSmall, BuildFailed, Unsupported}
    ensures |compressed| > 0 && header.None? ==> r == Err(ReadFailed)
    ensures header.Some? && header.value.blockType == Uncompressed ==> r == Ok(0)
    ensures header.Some? && header.value.blockType !in {Verbatim, Aligned, Uncompressed} ==> r == Err(Unsupported)
    ensures header.Some? && header.value.blockType in {Verbatim, Aligned} && r.Err? ==>
      r.error in {ReadFailed, OutOfBounds, TooSmall, BuildFailed}
  {
    header := None;
    ops := [];
    var recent := new nat[3](_ => 1);
    var bitStream := new BitStream(compressed, |compressed|);
    bitStream.storageType := Words16LittleEndian;
    var offset := 0;
    // The source's block loop always stops after its first block.
    if bitStream.byteStreamOffset < bitStream.byteStreamSize {
      var block, _ := ReadBlockHeader(bitStream);
      if block.Err? {
        return Err(block.error), header, ops;
      }
      header := Some(block.value);
      var blockType := block.value.blockType;
      if blockType == Aligned || blockType == Verbatim {
        var aligned: HuffmanTree? := null;
        if blockType == Aligned {
          aligned := new HuffmanTree(256, 16);
          var built := BuildAlignedTree(bitStream, aligned);
          if built.Err? {
            return Err(built.error), header, ops;
          }
        }
        var decoded;
        decoded, ops := DecodeBlock(bitStream, block.value.blockSize, aligned, recent, data);
        if decoded.Err? {
          return Err(decoded.error), header, ops;
        }
        offset := decoded.value;
      } else if blockType != Uncompressed {
        return Err(Unsupported), header, ops;
      }
    }
    r := Ok(offset);
  }

  /**
   * Builds the main and lengths trees of a verbatim or aligned block and decodes its `blockSize`
   * bytes from the start of the output; `aligned` is the aligned-offset tree of an aligned block.
   */
  method DecodeBlock(bitStream: BitStream, blockSize: nat, aligned: HuffmanTree?, recent: array<nat>, data: array<byte>)
    returns (r: Result<nat>, ghost ops: seq<Op>)
    requires bitStream.Valid()
    requires recent.Length == 3 && ValidCache(recent[..])
    modifies bitStream, recent, data
    ensures bitStream.Valid() && bitStream.Remaining() <= old(bitStream.Remaining())
    ensures r.Ok? ==>
      blockSize <= r.value <= data.Length && r.value <= blockSize + 256 &&
      Expandable([], ops) && data[..r.value] == Expand([], ops) &&
      data[r.value..] == old(data[r.value..]) &&
      forall i :: 0 <= i < |ops| ==> LzxOp(ops[i])
    ensures r.Err? ==> r.error in {ReadFailed, OutOfBounds, TooSmall, BuildFailed}
  {
    ops := [];
    var main := new HuffmanTree(256 + 240, 16);
    var mainBuilt, _, _ := BuildMainTree(bitStream, main);
    if mainBuilt.Err? {
      return Err(mainBuilt.error), ops;
    }
    var lengths := new HuffmanTree(249, 16);
    var lengthsBuilt, _ := BuildLengthsTree(bitStream, lengths);
    if lengthsBuilt.Err? {
      return Err(lengthsBuilt.error), ops;
    }
    assert data[..0] == [];
    r, ops := DecodeHuffman(bitStream, blockSize, main, lengths, aligned, recent, data, 0);
  }
}
