/**
 * `filelines_baseline`: open the file, allocate one buffer of BLOCK_SIZE
 * bytes, and run the scalar rule over every block that `read` delivers,
 * with the carried line length declared once before the read loop.
 *
 * The file is the sequence `results` of what successive `read` calls
 * deliver; the stream ends at the first empty result (end of file or read
 * error, `bytes_read <= 0`). Whether `open` and `malloc` succeed are the
 * inputs `openOk` and `allocOk`.
 */
module Baseline {
  import opened LineScan
  import opened Kernels

  const BLOCK_SIZE: nat := 262144

  method FileLinesBaseline(openOk: bool, allocOk: bool, results: seq<seq<Byte>>, total: nat, lineNum: array<nat>)
    returns (total': nat)
    requires lineNum.Length >= 1
    requires forall k :: 0 <= k < |results| ==> |results[k]| <= BLOCK_SIZE
    modifies lineNum
    ensures !openOk || !allocOk ==> total' == total && lineNum[..] == old(lineNum[..])
    ensures openOk && allocOk ==>
      total' == Scan(Tally(total, old(lineNum[..]), 0), Flatten(ReadsUntilEnd(results))).total &&
      lineNum[..] == Scan(Tally(total, old(lineNum[..]), 0), Flatten(ReadsUntilEnd(results))).hist
  {
    total' := total;
    if !openOk {
      return;
    }
    if !allocOk {
      return;
    }
    var bp := new Byte[BLOCK_SIZE];
    ghost var t0 := Tally(total, lineNum[..], 0);
    var curLen := 0;
    var k := 0;
    while true
      invariant k <= |ReadsUntilEnd(results)|
      invariant total' == Scan(t0, Flatten(results[..k])).total
      invariant lineNum[..] == Scan(t0, Flatten(results[..k])).hist
      invariant curLen == Scan(t0, Flatten(results[..k])).curLen
      decreases |results| - k
    {
      var data := if k < |results| then results[k] else [];
      if |data| == 0 {
        break;
      }
      ReadBlock(bp, data);
      ScanNextBlock(t0, results, k, total', lineNum[..], curLen);
      total', curLen := ScanBytes(bp, 0, |data|, lineNum, total', curLen);
      k := k + 1;
    }
    assert k == |ReadsUntilEnd(results)|;
    assert results[..k] == ReadsUntilEnd(results);
  }
}
