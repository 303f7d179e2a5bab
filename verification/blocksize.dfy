/**
 * `filelines_with_blocksize`: the scalar reader with a caller-chosen block
 * size, and the reason the block size cannot change the result: the
 * carried line length makes the outcome a function of the concatenated
 * stream alone.
 */
module Blocksize {
  import opened LineScan
  import opened Kernels

  method FileLinesWithBlockSize(openOk: bool, allocOk: bool, blockSize: nat, results: seq<seq<Byte>>,
                                total: nat, lineNum: array<nat>)
    returns (total': nat)
    requires lineNum.Length >= 1
    requires forall k :: 0 <= k < |results| ==> |results[k]| <= blockSize
    modifies lineNum
    ensures !openOk || !allocOk ==> total' == total && lineNum[..] == old(lineNum[..])
    ensures openOk && allocOk ==>
      total' == Scan(Tally(total, old(lineNum[..]), 0), Flatten(ReadsUntilEnd(results))).total &&
      lineNum[..] == Scan(Tally(total, old(lineNum[..]), 0), Flatten(ReadsUntilEnd(results))).hist
  {
    total' := total;
    if !openOk {
      return;
    }
    if !allocOk {
      return;
    }
    var bp := new Byte[blockSize];
    ghost var t0 := Tally(total, lineNum[..], 0);
    var curLen := 0;
    var k := 0;
    while true
      invariant k <= |ReadsUntilEnd(results)|
      invariant total' == Scan(t0, Flatten(results[..k])).total
      invariant lineNum[..] == Scan(t0, Flatten(results[..k])).hist
      invariant curLen == Scan(t0, Flatten(results[..k])).curLen
      decreases |results| - k
    {
      var data := if k < |results| then results[k] else [];
      if |data| == 0 {
        break;
      }
      ReadBlock(bp, data);
      ScanNextBlock(t0, results, k, total', lineNum[..], curLen);
      total', curLen := ScanBytes(bp, 0, |data|, lineNum, total', curLen);
      k := k + 1;
    }
    assert k == |ReadsUntilEnd(results)|;
    assert results[..k] == ReadsUntilEnd(results);
  }

  /** What successive reads of `blockSize` bytes return on a regular file
      holding `data`: full blocks, then the remainder. */
  function Chunks(data: seq<Byte>, blockSize: nat): (cs: seq<seq<Byte>>)
    requires blockSize >= 1
    ensures forall j :: 0 <= j < |cs| ==> 1 <= |cs[j]| <= blockSize
    decreases |data|
  {
    if data == [] then []
    else if |data| <= blockSize then [data]
    else [data[..blockSize]] + Chunks(data[blockSize..], blockSize)
  }

  lemma {:induction false} FlattenChunks(data: seq<Byte>, blockSize: nat)
    requires blockSize >= 1
    ensures Flatten(Chunks(data, blockSize)) == data
    decreases |data|
  {
    if data == [] {
    } else if |data| <= blockSize {
      FlattenCons(data, []);
    } else {
      FlattenChunks(data[blockSize..], blockSize);
      FlattenCons(data[..blockSize], Chunks(data[blockSize..], blockSize));
      assert data[..blockSize] + data[blockSize..] == data;
    }
  }

  /** Block-size independence: for every positive block size the stream the
      reader scans is the file itself, so total and histogram are those of
      one scalar scan of the file. */
  lemma {:induction false} BlockSizeIrrelevant(data: seq<Byte>, blockSize: nat, t: Tally)
    requires blockSize >= 1 && |t.hist| >= 1
    ensures Scan(t, Flatten(ReadsUntilEnd(Chunks(data, blockSize)))) == Scan(t, data)
  {
    var cs := Chunks(data, blockSize);
    ReadsUntilEndAt(cs, |cs|);
    assert cs[..|cs|] == cs;
    FlattenChunks(data, blockSize);
  }
}
