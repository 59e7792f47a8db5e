/**
 * Both decoders transmit the code sizes of their Huffman trees run-length encoded: each pre-tree
 * symbol either stores one size or repeats a size a number of times.  A decoded sequence of code
 * sizes is the concatenation of such runs.
 */
module CodeSizes {

  /** `times` copies of the code size `size`. */
  datatype Run = Run(size: nat, times: nat)

  function Repeat(size: nat, times: nat): (r: seq<nat>)
    ensures |r| == times
    ensures forall i :: 0 <= i < times ==> r[i] == size
  {
    seq(times, _ => size)
  }

  /** The code sizes a sequence of runs stands for. */
  function Flatten(runs: seq<Run>): seq<nat>
    decreases |runs|
  {
    if |runs| == 0 then []
    else Flatten(runs[..|runs| - 1]) + Repeat(runs[|runs| - 1].size, runs[|runs| - 1].times)
  }

  lemma FlattenSnoc(runs: seq<Run>, run: Run)
    ensures Flatten(runs + [run]) == Flatten(runs) + Repeat(run.size, run.times)
  {
    assert (runs + [run])[..|runs|] == runs;
  }

  /** Two sequences that agree from position `i` on agree from any later position `j` on. */
  lemma SuffixAfter(a: seq<nat>, b: seq<nat>, i: nat, j: nat)
    requires i <= j <= |a| == |b| && a[i..] == b[i..]
    ensures a[j..] == b[j..]
  {
    assert a[j..] == a[i..][j - i..];
    assert b[j..] == b[i..][j - i..];
  }

  /** Every code size a run sequence stands for is one of its runs' sizes. */
  lemma {:induction false} FlattenBound(runs: seq<Run>, bound: nat)
    requires forall i :: 0 <= i < |runs| ==> runs[i].size <= bound
    ensures forall j :: 0 <= j < |Flatten(runs)| ==> Flatten(runs)[j] <= bound
    decreases |runs|
  {
    if |runs| > 0 {
      FlattenBound(runs[..|runs| - 1], bound);
    }
  }

  /** Stores `run.times` copies of `run.size` from `index` on, leaving the other entries alone. */
  method WriteRun(codeSizes: array<nat>, index: nat, run: Run)
    requires index + run.times <= codeSizes.Length
    modifies codeSizes
    ensures codeSizes[..index + run.times] == old(codeSizes[..index]) + Repeat(run.size, run.times)
    ensures codeSizes[index + run.times..] == old(codeSizes[index + run.times..])
  {
    var written := 0;
    while written < run.times
      invariant written <= run.times
      invariant codeSizes[..index + written] == old(codeSizes[..index]) + Repeat(run.size, written)
      invariant codeSizes[index + written..] == old(codeSizes[index + written..])
    {
      codeSizes[index + written] := run.size;
      assert Repeat(run.size, written + 1) == Repeat(run.size, written) + [run.size];
      written := written + 1;
    }
  }
}
