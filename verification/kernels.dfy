/**
 * The two loops every scanning strategy is built from, proved against
 * `LineScan.Scan`: the scalar per-byte loop over a range of a buffer, and
 * the walk over the set bits of a lane's newline mask.
 *
 * The counters are the caller's: `lineNum` is the histogram array
 * (`line_num`, of length MAX_LEN), updated in place; the total and the
 * carried line length are passed in and handed back, as the C code passes
 * them by pointer.
 */
module Kernels {
  import opened LineScan
  import opened Bits
  import opened Lanes

  /** A `read` into the buffer `bp` that delivers `data`: the bytes land at
      the start of the buffer. */
  method ReadBlock(bp: array<Byte>, data: seq<Byte>)
    requires |data| <= bp.Length
    modifies bp
    ensures bp[..|data|] == data
  {
    forall i | 0 <= i < |data| {
      bp[i] := data[i];
    }
  }

  /** `++line_num[len]`, or `++line_num[MAX_LEN - 1]` when `len >= MAX_LEN`:
      one line of length `len` committed to the histogram. */
  method CountLine(lineNum: array<nat>, len: nat)
    requires lineNum.Length >= 1
    modifies lineNum
    ensures lineNum[..] == Commit(old(lineNum[..]), len)
  {
    if len >= lineNum.Length {
      lineNum[lineNum.Length - 1] := lineNum[lineNum.Length - 1] + 1;
    } else {
      lineNum[len] := lineNum[len] + 1;
    }
  }

  /** The scalar rule applied to `buf[from..size]`: the tail loop of every
      vector kernel, and the whole per-block loop of the scalar readers. */
  method ScanBytes(buf: array<Byte>, from: nat, size: nat, lineNum: array<nat>, total: nat, curLen: nat)
    returns (total': nat, curLen': nat)
    requires from <= size <= buf.Length
    requires lineNum.Length >= 1
    modifies lineNum
    ensures total' == Scan(Tally(total, old(lineNum[..]), curLen), buf[from..size]).total
    ensures lineNum[..] == Scan(Tally(total, old(lineNum[..]), curLen), buf[from..size]).hist
    ensures curLen' == Scan(Tally(total, old(lineNum[..]), curLen), buf[from..size]).curLen
  {
    ghost var t0 := Tally(total, lineNum[..], curLen);
    ghost var data := buf[from..size];
    total', curLen' := total, curLen;
    var i := from;
    while i < size
      invariant from <= i <= size
      invariant total' == Scan(t0, data[..i - from]).total
      invariant lineNum[..] == Scan(t0, data[..i - from]).hist
      invariant curLen' == Scan(t0, data[..i - from]).curLen
    {
      assert data[i - from] == buf[i];
      ScanPrefixStep(t0, data, i - from, total', lineNum[..], curLen');
      if buf[i] == NEWLINE {
        total' := total' + 1;
        CountLine(lineNum, curLen');
        curLen' := 0;
      } else {
        curLen' := curLen' + 1;
      }
      i := i + 1;
    }
    assert data[..size - from] == data;
  }

  /** A newline at `p` in `bs`, with none in `bs[a..p]`, closes one line:
      the one whose length was `carry` at `a`, plus `p - a`. */
  lemma {:induction false} ScanLineAt(t: Tally, bs: seq<Byte>, a: nat, p: nat, hist: seq<nat>, carry: nat, len: nat)
    requires |t.hist| >= 1 && a <= p < |bs| && bs[p] == NEWLINE
    requires forall j :: a <= j < p ==> bs[j] != NEWLINE
    requires Scan(t, bs[..a]).hist == hist && Scan(t, bs[..a]).curLen == carry
    requires len == carry + (p - a)
    ensures Scan(t, bs[..p + 1]).total == Scan(t, bs[..a]).total + 1
    ensures Scan(t, bs[..p + 1]).hist == Commit(hist, len)
    ensures Scan(t, bs[..p + 1]).curLen == 0
  {
    var run := bs[a..p];
    assert NoNewline(run) by {
      forall i | 0 <= i < |run| ensures run[i] != NEWLINE {
        assert run[i] == bs[a + i];
      }
    }
    assert bs[..p + 1] == bs[..a] + (run + [NEWLINE]);
    ScanAppend(t, bs[..a], run + [NEWLINE]);
    ScanOneLine(Scan(t, bs[..a]), run);
  }

  /** Bytes after `a` without newline only lengthen the carried line. */
  lemma {:induction false} ScanRunFrom(t: Tally, bs: seq<Byte>, a: nat)
    requires |t.hist| >= 1 && a <= |bs|
    requires forall j :: a <= j < |bs| ==> bs[j] != NEWLINE
    ensures Scan(t, bs).total == Scan(t, bs[..a]).total
    ensures Scan(t, bs).hist == Scan(t, bs[..a]).hist
    ensures Scan(t, bs).curLen == Scan(t, bs[..a]).curLen + (|bs| - a)
  {
    var run := bs[a..];
    assert NoNewline(run) by {
      forall i | 0 <= i < |run| ensures run[i] != NEWLINE {
        assert run[i] == bs[a + i];
      }
    }
    assert bs == bs[..a] + run;
    ScanAppend(t, bs[..a], run);
    ScanNoNewline(Scan(t, bs[..a]), run);
  }

  /** The set bits of `mask` are exactly the newlines of `lane` after
      position `lastPos`. */
  ghost predicate MaskFrom(mask: nat, lane: seq<Byte>, lastPos: int)
  {
    forall j: nat :: Bit(mask, j) <==> lastPos < j < |lane| && lane[j] == NEWLINE
  }

  /** One step of the walk: the lowest set bit of a mask holding exactly
      the newlines after `lastPos` is the next newline, no newline lies
      between, and clearing it leaves exactly the newlines after it. */
  lemma {:induction false} VisitLowest(lane: seq<Byte>, mask: nat, lastPos: int)
    requires mask > 0 && -1 <= lastPos && MaskFrom(mask, lane, lastPos)
    ensures lastPos < Ctz(mask) < |lane| && lane[Ctz(mask)] == NEWLINE
    ensures forall j :: lastPos < j < Ctz(mask) ==> lane[j] != NEWLINE
    ensures MaskFrom(And(mask, mask - 1), lane, Ctz(mask))
  {
    var pos := Ctz(mask);
    assert Bit(mask, pos);
    forall j | lastPos < j < pos ensures lane[j] != NEWLINE {
      assert !Bit(mask, j);
    }
    var rest := And(mask, mask - 1);
    ClearLowest(mask);
    forall j: nat ensures Bit(rest, j) <==> pos < j < |lane| && lane[j] == NEWLINE {
      assert Bit(rest, j) == (Bit(mask, j) && j != pos);
      if j < pos {
        assert !Bit(mask, j);
      }
    }
  }

  /** The walk over the set bits of a non-zero lane mask: the total rises
      by the popcount; each set bit, lowest first (`ctz`, then
      `mask &= mask - 1`), commits the line that ends there, the first one
      including the carried length; the new carry is the number of bytes
      after the last newline (`width - 1 - last_pos`). */
  method WalkMask(ghost lane: seq<Byte>, width: nat, mask0: nat, lineNum: array<nat>, total: nat, curLen: nat)
    returns (total': nat, curLen': nat)
    requires |lane| == width && mask0 == Movemask(lane) && mask0 != 0
    requires lineNum.Length >= 1
    modifies lineNum
    ensures total' == Scan(Tally(total, old(lineNum[..]), curLen), lane).total
    ensures lineNum[..] == Scan(Tally(total, old(lineNum[..]), curLen), lane).hist
    ensures curLen' == Scan(Tally(total, old(lineNum[..]), curLen), lane).curLen
  {
    ghost var t0 := Tally(total, lineNum[..], curLen);
    var mask := mask0;
    total' := total + Popcount(mask);
    curLen' := curLen;
    var lastPos: int := -1;
    while mask != 0
      invariant -1 <= lastPos < |lane|
      invariant MaskFrom(mask, lane, lastPos)
      invariant lineNum[..] == Scan(t0, lane[..lastPos + 1]).hist
      invariant curLen' == Scan(t0, lane[..lastPos + 1]).curLen
      invariant lastPos >= 0 ==> curLen' == 0
      invariant lastPos == -1 ==> mask == mask0
      decreases mask
    {
      var pos := Ctz(mask);
      VisitLowest(lane, mask, lastPos);
      var lineLength := curLen' + (pos - lastPos - 1);
      ScanLineAt(t0, lane, lastPos + 1, pos, lineNum[..], curLen', lineLength);
      CountLine(lineNum, lineLength);
      curLen' := 0;
      lastPos := pos;
      mask := And(mask, mask - 1);
    }
    forall j | lastPos < j < |lane| ensures lane[j] != NEWLINE {
      ZeroBits(j);
    }
    curLen' := width - 1 - lastPos;
    ScanRunFrom(t0, lane, lastPos + 1);
    PopcountLane(lane);
    ScanCounts(t0, lane);
  }

  /** The vector kernel with a bitmask walk (`process_block_simd_opt`),
      for lanes of `width` bytes: a lane without newline only adds `width`
      to the carried length, any other lane is walked bit by bit, and the
      bytes after the last whole lane follow the scalar rule. */
  method ProcessBlockLanes(width: nat, buf: array<Byte>, size: nat, lineNum: array<nat>, total: nat, curLen: nat)
    returns (total': nat, curLen': nat)
    requires width >= 1 && size <= buf.Length
    requires lineNum.Length >= 1
    modifies lineNum
    ensures total' == Scan(Tally(total, old(lineNum[..]), curLen), buf[..size]).total
    ensures lineNum[..] == Scan(Tally(total, old(lineNum[..]), curLen), buf[..size]).hist
    ensures curLen' == Scan(Tally(total, old(lineNum[..]), curLen), buf[..size]).curLen
  {
    ghost var t0 := Tally(total, lineNum[..], curLen);
    ghost var data := buf[..size];
    total', curLen' := total, curLen;
    var i := 0;
    while i + width <= size
      invariant i <= size
      invariant total' == Scan(t0, data[..i]).total
      invariant lineNum[..] == Scan(t0, data[..i]).hist
      invariant curLen' == Scan(t0, data[..i]).curLen
    {
      ghost var lane := buf[i..i + width];
      assert data[..i + width] == data[..i] + lane;
      ScanResume(t0, data[..i], lane, total', lineNum[..], curLen');
      var mask := Movemask(buf[i..i + width]);
      i := i + width;
      if mask == 0 {
        ScanNoNewline(Tally(total', lineNum[..], curLen'), lane);
        curLen' := curLen' + width;
      } else {
        total', curLen' := WalkMask(lane, width, mask, lineNum, total', curLen');
      }
    }
    assert data == data[..i] + buf[i..size];
    ScanResume(t0, data[..i], buf[i..size], total', lineNum[..], curLen');
    total', curLen' := ScanBytes(buf, i, size, lineNum, total', curLen');
  }
}
