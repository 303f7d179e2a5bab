/**
 * `find_most_freq_line`: the most frequent line length in the histogram
 * and how many lines have it. The comparison is strict, so among equally
 * frequent lengths the shortest wins, and an all-zero histogram gives
 * length 0 with count 0.
 */
module MostFreq {

  /** `(len, cnt)` is the answer the scan promises for histogram `h`: `cnt`
      bounds every bucket; a positive `cnt` is the count at `len` and no
      shorter length reaches it; a zero `cnt` comes with length 0. */
  ghost predicate IsMostFrequent(h: seq<nat>, len: nat, cnt: nat)
  {
    (forall i :: 0 <= i < |h| ==> h[i] <= cnt) &&
    (cnt > 0 ==> len < |h| && h[len] == cnt && forall i :: 0 <= i < len ==> h[i] < cnt) &&
    (cnt == 0 ==> len == 0)
  }

  /** The answer is determined by the histogram: at most one pair fits. */
  lemma {:induction false} MostFrequentUnique(h: seq<nat>, len1: nat, cnt1: nat, len2: nat, cnt2: nat)
    requires IsMostFrequent(h, len1, cnt1) && IsMostFrequent(h, len2, cnt2)
    ensures len1 == len2 && cnt1 == cnt2
  {
    if cnt1 > 0 {
      assert h[len1] <= cnt2;
    }
    if cnt2 > 0 {
      assert h[len2] <= cnt1;
    }
  }

  /** The scan over `line_num[0..MAX_LEN)`, keeping the first strictly
      larger count; `line_num` is only read. */
  method FindMostFreqLine(lineNum: array<nat>) returns (mostFreqLen: nat, mostFreqCount: nat)
    ensures IsMostFrequent(lineNum[..], mostFreqLen, mostFreqCount)
    ensures lineNum.Length >= 1 ==> mostFreqLen < lineNum.Length
  {
    var tLineNum := 0;
    var tLen := 0;
    for i := 0 to lineNum.Length
      invariant IsMostFrequent(lineNum[..i], tLen, tLineNum)
      invariant tLen == 0 || tLen < i
    {
      if lineNum[i] > tLineNum {
        tLineNum := lineNum[i];
        tLen := i;
      }
    }
    assert lineNum[..lineNum.Length] == lineNum[..];
    mostFreqLen := tLen;
    mostFreqCount := tLineNum;
  }
}
