/**
 * The reference semantics shared by every scanning strategy: the per-byte
 * rule of the scalar loop (a newline commits the current line length to
 * the total and to one clamped histogram bucket and resets the length; any
 * other byte extends the current line), its fold over a byte sequence, and
 * the stream of blocks that successive `read` calls deliver.
 *
 * MAX_LEN, the number of histogram buckets, is the length of the histogram
 * itself (`|hist|`); the code only needs it to be at least 1.
 */
module LineScan {

  newtype Byte = b: int | 0 <= b < 256

  const NEWLINE: Byte := 0x0A

  /** The aggregate a scan updates: the total line count, the length
      histogram (one counter per bucket), and the carried length of the
      line that is not yet terminated. */
  datatype Tally = Tally(total: nat, hist: seq<nat>, curLen: nat)

  /** The bucket a line of length `len` is counted in: the length itself,
      or the last bucket for every length of at least `cap` (= MAX_LEN).
      The last bucket is shared by lines of length exactly `cap - 1`. */
  function Bucket(len: nat, cap: nat): (k: nat)
    requires cap >= 1
    ensures k < cap
    ensures len < cap ==> k == len
    ensures len >= cap ==> k == cap - 1
  {
    if len >= cap then cap - 1 else len
  }

  /** Count one line of length `len`: exactly one bucket rises by one. */
  function Commit(hist: seq<nat>, len: nat): (h: seq<nat>)
    requires |hist| >= 1
    ensures |h| == |hist|
    ensures h[Bucket(len, |hist|)] == hist[Bucket(len, |hist|)] + 1
    ensures forall k :: 0 <= k < |h| && k != Bucket(len, |hist|) ==> h[k] == hist[k]
  {
    var k := Bucket(len, |hist|);
    hist[k := hist[k] + 1]
  }

  /** `bs` holds no newline. */
  predicate NoNewline(bs: seq<Byte>)
  {
    forall i :: 0 <= i < |bs| ==> bs[i] != NEWLINE
  }

  /** The scalar per-byte rule. */
  function Step(t: Tally, b: Byte): (r: Tally)
    requires |t.hist| >= 1
    ensures |r.hist| == |t.hist|
    ensures b == NEWLINE ==>
      r.total == t.total + 1 && r.hist == Commit(t.hist, t.curLen) && r.curLen == 0
    ensures b != NEWLINE ==>
      r.total == t.total && r.hist == t.hist && r.curLen == t.curLen + 1
  {
    if b == NEWLINE then Tally(t.total + 1, Commit(t.hist, t.curLen), 0)
    else t.(curLen := t.curLen + 1)
  }

  /** The scalar loop over `bs`, starting from `t`. */
  function Scan(t: Tally, bs: seq<Byte>): (r: Tally)
    requires |t.hist| >= 1
    ensures |r.hist| == |t.hist|
    decreases |bs|
  {
    if bs == [] then t else Step(Scan(t, bs[..|bs| - 1]), bs[|bs| - 1])
  }

  /** Split invariance: scanning `a` then `b` with the carried state is
      scanning `a + b`. */
  lemma {:induction false} ScanAppend(t: Tally, a: seq<Byte>, b: seq<Byte>)
    requires |t.hist| >= 1
    ensures Scan(t, a + b) == Scan(Scan(t, a), b)
    decreases |b|
  {
    if b == [] {
      assert a + b == a;
    } else {
      var b' := b[..|b| - 1];
      assert (a + b)[..|a + b| - 1] == a + b';
      assert (a + b)[|a + b| - 1] == b[|b| - 1];
      ScanAppend(t, a, b');
    }
  }

  /** Resuming a scan: once the state after `a` is known field by field,
      the scan of `a + b` is the scan of `b` from that state. */
  lemma {:induction false} ScanResume(t: Tally, a: seq<Byte>, b: seq<Byte>, total: nat, hist: seq<nat>, carry: nat)
    requires |t.hist| >= 1
    requires Scan(t, a).total == total && Scan(t, a).hist == hist && Scan(t, a).curLen == carry
    ensures |hist| >= 1
    ensures Scan(t, a + b).total == Scan(Tally(total, hist, carry), b).total
    ensures Scan(t, a + b).hist == Scan(Tally(total, hist, carry), b).hist
    ensures Scan(t, a + b).curLen == Scan(Tally(total, hist, carry), b).curLen
  {
    ScanAppend(t, a, b);
    assert Scan(t, a) == Tally(total, hist, carry);
  }

  /** Scanning a byte sequence one byte longer is one more `Step`. */
  lemma {:induction false} ScanSnoc(t: Tally, bs: seq<Byte>, b: Byte)
    requires |t.hist| >= 1
    ensures Scan(t, bs + [b]) == Step(Scan(t, bs), b)
  {
    assert (bs + [b])[..|bs|] == bs;
  }

  /** The scan of a prefix one byte longer: the byte's effect on the state
      after the shorter prefix, field by field. */
  lemma {:induction false} ScanPrefixStep(t: Tally, bs: seq<Byte>, j: nat, total: nat, hist: seq<nat>, carry: nat)
    requires |t.hist| >= 1 && j < |bs|
    requires Scan(t, bs[..j]).total == total && Scan(t, bs[..j]).hist == hist && Scan(t, bs[..j]).curLen == carry
    ensures |hist| >= 1
    ensures bs[j] == NEWLINE ==>
      Scan(t, bs[..j + 1]).total == total + 1 && Scan(t, bs[..j + 1]).hist == Commit(hist, carry) &&
      Scan(t, bs[..j + 1]).curLen == 0
    ensures bs[j] != NEWLINE ==>
      Scan(t, bs[..j + 1]).total == total && Scan(t, bs[..j + 1]).hist == hist &&
      Scan(t, bs[..j + 1]).curLen == carry + 1
  {
    assert bs[..j + 1][..j] == bs[..j];
  }

  /** A run without newline changes no counter; it only lengthens the
      current line. */
  lemma {:induction false} ScanNoNewline(t: Tally, bs: seq<Byte>)
    requires |t.hist| >= 1
    requires NoNewline(bs)
    ensures Scan(t, bs).total == t.total && Scan(t, bs).hist == t.hist
    ensures Scan(t, bs).curLen == t.curLen + |bs|
    decreases |bs|
  {
    if bs != [] {
      ScanNoNewline(t, bs[..|bs| - 1]);
    }
  }

  // ---------------------------------------------------------------------
  // Independent descriptions of what a scan computes

  function CountNewlines(bs: seq<Byte>): (n: nat)
    ensures n <= |bs|
  {
    if bs == [] then 0
    else CountNewlines(bs[..|bs| - 1]) + (if bs[|bs| - 1] == NEWLINE then 1 else 0)
  }

  lemma {:induction false} CountNewlinesAppend(a: seq<Byte>, b: seq<Byte>)
    ensures CountNewlines(a + b) == CountNewlines(a) + CountNewlines(b)
    decreases |b|
  {
    if b == [] {
      assert a + b == a;
    } else {
      var b' := b[..|b| - 1];
      assert (a + b)[..|a + b| - 1] == a + b';
      assert (a + b)[|a + b| - 1] == b[|b| - 1];
      CountNewlinesAppend(a, b');
    }
  }

  /** Number of bytes after the last newline of `bs` (all of `bs` when it
      holds none). */
  function RunAfterLastNewline(bs: seq<Byte>): (n: nat)
    ensures n <= |bs|
  {
    if bs == [] || bs[|bs| - 1] == NEWLINE then 0
    else RunAfterLastNewline(bs[..|bs| - 1]) + 1
  }

  /** The length of the unterminated line after reading `bs` with `carry`
      bytes of it already seen. */
  function TrailingRun(carry: nat, bs: seq<Byte>): nat
  {
    if NEWLINE in bs then RunAfterLastNewline(bs) else carry + |bs|
  }

  /** The lengths of the lines that `bs` terminates, in order. */
  function Lines(carry: nat, bs: seq<Byte>): seq<nat>
  {
    if bs == [] then []
    else if bs[|bs| - 1] == NEWLINE then
      Lines(carry, bs[..|bs| - 1]) + [TrailingRun(carry, bs[..|bs| - 1])]
    else Lines(carry, bs[..|bs| - 1])
  }

  /** How many of the lengths `lens` fall into bucket `k`. */
  function BucketCount(lens: seq<nat>, k: nat, cap: nat): (n: nat)
    requires cap >= 1
    ensures n <= |lens|
  {
    if lens == [] then 0
    else BucketCount(lens[..|lens| - 1], k, cap)
         + (if Bucket(lens[|lens| - 1], cap) == k then 1 else 0)
  }

  function Sum(h: seq<nat>): nat
  {
    if h == [] then 0 else Sum(h[..|h| - 1]) + h[|h| - 1]
  }

  lemma {:induction false} SumIncrement(h: seq<nat>, k: nat)
    requires k < |h|
    ensures Sum(h[k := h[k] + 1]) == Sum(h) + 1
    decreases |h|
  {
    var h' := h[k := h[k] + 1];
    assert h'[..|h| - 1] == if k < |h| - 1 then h[..|h| - 1][k := h[k] + 1] else h[..|h| - 1];
    if k < |h| - 1 {
      SumIncrement(h[..|h| - 1], k);
    }
  }

  /** The total rises by the number of newlines, and the carried length
      is the number of bytes since the last newline, counting across the
      start of `bs` when `bs` has none. */
  lemma {:induction false} ScanCounts(t: Tally, bs: seq<Byte>)
    requires |t.hist| >= 1
    ensures Scan(t, bs).total == t.total + CountNewlines(bs)
    ensures Scan(t, bs).curLen == TrailingRun(t.curLen, bs)
    decreases |bs|
  {
    if bs != [] {
      var init := bs[..|bs| - 1];
      ScanCounts(t, init);
      assert bs == init + [bs[|bs| - 1]];
      assert NEWLINE in bs <==> NEWLINE in init || bs[|bs| - 1] == NEWLINE;
    }
  }

  /** The bucket sum rises exactly as much as the total. */
  lemma {:induction false} ScanSum(t: Tally, bs: seq<Byte>)
    requires |t.hist| >= 1
    ensures Sum(Scan(t, bs).hist) == Sum(t.hist) + CountNewlines(bs)
    decreases |bs|
  {
    if bs != [] {
      var init := bs[..|bs| - 1];
      ScanSum(t, init);
      var s := Scan(t, init);
      if bs[|bs| - 1] == NEWLINE {
        SumIncrement(s.hist, Bucket(s.curLen, |s.hist|));
      }
    }
  }

  /** Every bucket rises by the number of terminated lines whose clamped
      length is that bucket; one line is committed per newline. */
  lemma {:induction false} ScanHistogram(t: Tally, bs: seq<Byte>)
    requires |t.hist| >= 1
    ensures |Lines(t.curLen, bs)| == CountNewlines(bs)
    ensures forall k :: 0 <= k < |t.hist| ==>
      Scan(t, bs).hist[k] == t.hist[k] + BucketCount(Lines(t.curLen, bs), k, |t.hist|)
    decreases |bs|
  {
    if bs != [] {
      var init := bs[..|bs| - 1];
      ScanHistogram(t, init);
      ScanCounts(t, init);
      var lens := Lines(t.curLen, bs);
      if bs[|bs| - 1] == NEWLINE {
        assert lens[..|lens| - 1] == Lines(t.curLen, init);
      }
    }
  }

  /** The policy on an unterminated final fragment: "abc" commits nothing
      and only leaves a carried length of 3. */
  lemma {:induction false} ExampleUnterminated(t: Tally)
    requires |t.hist| >= 1 && t.curLen == 0
    ensures Scan(t, [0x61, 0x62, 0x63]).total == t.total
    ensures Scan(t, [0x61, 0x62, 0x63]).hist == t.hist
    ensures Scan(t, [0x61, 0x62, 0x63]).curLen == 3
  {
    ScanNoNewline(t, [0x61, 0x62, 0x63]);
  }

  /** ... while "abc\n" commits one line of length 3 (with more than four
      buckets) and resets the carried length. */
  lemma {:induction false} ExampleTerminated(t: Tally)
    requires |t.hist| > 4 && t.curLen == 0
    ensures Scan(t, [0x61, 0x62, 0x63, NEWLINE]).total == t.total + 1
    ensures Scan(t, [0x61, 0x62, 0x63, NEWLINE]).hist == t.hist[3 := t.hist[3] + 1]
    ensures Scan(t, [0x61, 0x62, 0x63, NEWLINE]).curLen == 0
  {
    var abc: seq<Byte> := [0x61, 0x62, 0x63];
    assert abc + [NEWLINE] == [0x61, 0x62, 0x63, NEWLINE];
    ScanOneLine(t, abc);
    assert Bucket(3, |t.hist|) == 3;
    assert Commit(t.hist, 3) == t.hist[3 := t.hist[3] + 1];
  }

  /** A newline closes the line whose carried length is `len`. */
  lemma {:induction false} ScanCloseLine(t: Tally, bs: seq<Byte>, len: nat)
    requires |t.hist| >= 1
    requires Scan(t, bs).total == t.total && Scan(t, bs).hist == t.hist && Scan(t, bs).curLen == len
    ensures Scan(t, bs + [NEWLINE]).total == t.total + 1
    ensures Scan(t, bs + [NEWLINE]).hist == Commit(t.hist, len)
    ensures Scan(t, bs + [NEWLINE]).curLen == 0
  {
    ScanSnoc(t, bs, NEWLINE);
  }

  /** A run without newline closed by a newline commits exactly one line,
      of the carried length plus the run's length. */
  lemma {:induction false} ScanOneLine(t: Tally, bs: seq<Byte>)
    requires |t.hist| >= 1 && NoNewline(bs)
    ensures Scan(t, bs + [NEWLINE]).total == t.total + 1
    ensures Scan(t, bs + [NEWLINE]).hist == Commit(t.hist, t.curLen + |bs|)
    ensures Scan(t, bs + [NEWLINE]).curLen == 0
  {
    ScanNoNewline(t, bs);
    ScanCloseLine(t, bs, t.curLen + |bs|);
  }

  /** A line that spans two blocks, `a` and then `b` closed by a newline,
      is committed once, with its whole length. */
  lemma {:induction false} SpanningLine(t: Tally, a: seq<Byte>, b: seq<Byte>)
    requires |t.hist| >= 1 && NoNewline(a) && NoNewline(b)
    ensures Scan(Scan(t, a), b + [NEWLINE]).total == t.total + 1
    ensures Scan(Scan(t, a), b + [NEWLINE]).hist == Commit(t.hist, t.curLen + |a| + |b|)
    ensures Scan(Scan(t, a), b + [NEWLINE]).curLen == 0
  {
    ScanNoNewline(t, a);
    ScanOneLine(Scan(t, a), b);
  }

  // ---------------------------------------------------------------------
  // Streams of blocks

  /** Concatenation of blocks. */
  function Flatten(blocks: seq<seq<Byte>>): (s: seq<Byte>)
  {
    if blocks == [] then [] else Flatten(blocks[..|blocks| - 1]) + blocks[|blocks| - 1]
  }

  lemma {:induction false} FlattenCons(b: seq<Byte>, rest: seq<seq<Byte>>)
    ensures Flatten([b] + rest) == b + Flatten(rest)
    decreases |rest|
  {
    if rest != [] {
      var r' := rest[..|rest| - 1];
      assert ([b] + rest)[..|rest|] == [b] + r';
      FlattenCons(b, r');
    }
  }

  /** Scanning block after block with the carried state threaded through. */
  function ScanBlocks(t: Tally, blocks: seq<seq<Byte>>): (r: Tally)
    requires |t.hist| >= 1
    ensures |r.hist| == |t.hist|
  {
    if blocks == [] then t
    else Scan(ScanBlocks(t, blocks[..|blocks| - 1]), blocks[|blocks| - 1])
  }

  lemma {:induction false} ScanBlocksSnoc(t: Tally, blocks: seq<seq<Byte>>, b: seq<Byte>)
    requires |t.hist| >= 1
    ensures ScanBlocks(t, blocks + [b]) == Scan(ScanBlocks(t, blocks), b)
  {
    assert (blocks + [b])[..|blocks|] == blocks;
  }

  /** Split invariance for any cut into blocks: threading the carry from
      block to block equals one scan of the concatenation. */
  lemma {:induction false} ScanBlocksFlatten(t: Tally, blocks: seq<seq<Byte>>)
    requires |t.hist| >= 1
    ensures ScanBlocks(t, blocks) == Scan(t, Flatten(blocks))
    decreases |blocks|
  {
    if blocks != [] {
      var init := blocks[..|blocks| - 1];
      ScanBlocksFlatten(t, init);
      ScanAppend(t, Flatten(init), blocks[|blocks| - 1]);
    }
  }

  /** One more block of the stream: the scan of the first `k + 1` blocks
      resumes the scan of the first `k` with block `k`. */
  lemma {:induction false} ScanNextBlock(t: Tally, blocks: seq<seq<Byte>>, k: nat, total: nat, hist: seq<nat>, carry: nat)
    requires |t.hist| >= 1 && k < |blocks|
    requires Scan(t, Flatten(blocks[..k])).total == total
    requires Scan(t, Flatten(blocks[..k])).hist == hist
    requires Scan(t, Flatten(blocks[..k])).curLen == carry
    ensures |hist| >= 1
    ensures Scan(t, Flatten(blocks[..k + 1])).total == Scan(Tally(total, hist, carry), blocks[k]).total
    ensures Scan(t, Flatten(blocks[..k + 1])).hist == Scan(Tally(total, hist, carry), blocks[k]).hist
    ensures Scan(t, Flatten(blocks[..k + 1])).curLen == Scan(Tally(total, hist, carry), blocks[k]).curLen
  {
    assert blocks[..k + 1][..k] == blocks[..k];
    ScanResume(t, Flatten(blocks[..k]), blocks[k], total, hist, carry);
  }

  /** Counters that are the scan, from `t0`, of the first `c` blocks of
      `fed`. */
  ghost predicate Counted(t0: Tally, fed: seq<seq<Byte>>, c: nat, total: nat, hist: seq<nat>, curLen: nat)
  {
    |t0.hist| >= 1 && c <= |fed| &&
    Scan(t0, Flatten(fed[..c])).total == total &&
    Scan(t0, Flatten(fed[..c])).hist == hist &&
    Scan(t0, Flatten(fed[..c])).curLen == curLen
  }

  /** The results of successive `read` calls up to the first one that
      delivers no byte: end of file, a read error and (inside the
      producers' loops) a failed buffer allocation all stop the stream. */
  function ReadsUntilEnd(results: seq<seq<Byte>>): (s: seq<seq<Byte>>)
    ensures |s| <= |results| && s == results[..|s|]
    ensures forall j :: 0 <= j < |s| ==> s[j] != []
    ensures |s| < |results| ==> results[|s|] == []
  {
    if results == [] || results[0] == [] then []
    else [results[0]] + ReadsUntilEnd(results[1..])
  }

  /** The stream ends exactly at the first empty read. */
  lemma {:induction false} ReadsUntilEndAt(results: seq<seq<Byte>>, k: nat)
    requires k <= |results|
    requires forall j :: 0 <= j < k ==> results[j] != []
    requires k == |results| || results[k] == []
    ensures ReadsUntilEnd(results) == results[..k]
  {
  }
}
