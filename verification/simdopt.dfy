/**
 * `filelines_simd`: the single-threaded reader whose blocks go through the
 * 32-lane bitmask kernel (`process_block_simd_opt` with AVX2 lanes).
 */
module SimdOpt {
  import opened LineScan
  import opened Kernels

  const BLOCK_SIZE: nat := 262144

  /** Bytes per AVX2 lane. */
  const LANES: nat := 32

  method FileLinesSimd(openOk: bool, allocOk: bool, results: seq<seq<Byte>>, total: nat, lineNum: array<nat>)
    returns (total': nat)
    requires lineNum.Length >= 1
    requires forall k :: 0 <= k < |results| ==> |results[k]| <= BLOCK_SIZE
    modifies lineNum
    ensures !openOk || !allocOk ==> total' == total && lineNum[..] == old(lineNum[..])
    ensures openOk && allocOk ==>
      total' == Scan(Tally(total, old(lineNum[..]), 0), Flatten(ReadsUntilEnd(results))).total &&
      lineNum[..] == Scan(Tally(total, old(lineNum[..]), 0), Flatten(ReadsUntilEnd(results))).hist
  {
    total' := total;
    if !openOk {
      return;
    }
    if !allocOk {
      return;
    }
    var bp := new Byte[BLOCK_SIZE];
    ghost var t0 := Tally(total, lineNum[..], 0);
    var curLen := 0;
    var k := 0;
    while true
      invariant k <= |ReadsUntilEnd(results)|
      invariant total' == Scan(t0, Flatten(results[..k])).total
      invariant lineNum[..] == Scan(t0, Flatten(results[..k])).hist
      invariant curLen == Scan(t0, Flatten(results[..k])).curLen
      decreases |results| - k
    {
      var data := if k < |results| then results[k] else [];
      if |data| == 0 {
        break;
      }
      ReadBlock(bp, data);
      ScanNextBlock(t0, results, k, total', lineNum[..], curLen);
      total', curLen := ProcessBlockLanes(LANES, bp, |data|, lineNum, total', curLen);
      k := k + 1;
    }
    assert k == |ReadsUntilEnd(results)|;
    assert results[..k] == ReadsUntilEnd(results);
  }
}
