/**
 * `filelines_producer_consumer`: a reader thread pushes the blocks it reads
 * into a bounded blocking queue; a scanner thread pops them in order and
 * runs the 32-lane kernel with byte-by-byte fallback on each, with its own
 * carried line length.
 *
 * The queue is modelled as a sequential object: each blocking wait becomes
 * the precondition of the operation it guards. The two threads become one
 * loop that runs, step by step, whichever thread a `schedule` prefers among
 * those that are not blocked.
 */
module ProducerConsumer {
  import opened LineScan
  import opened Kernels

  const BLOCK_SIZE: nat := 262144
  const QUEUE_MAX_SIZE: nat := 4

  /** Bytes per AVX2 lane. */
  const LANES: nat := 32

  /** A block handed from reader to scanner: its buffer, the number of
      bytes read into it, and the end-marker flag. */
  datatype DataBlock = DataBlock(data: array?<Byte>, size: nat, isEnd: bool)

  /** The default block: no buffer, no bytes, not an end marker. */
  const NoBlock := DataBlock(null, 0, false)

  /** `BlockQueue`: a FIFO of blocks capped at `maxSize`, plus the flag the
      reader sets when it will push no more. `pushed` and `popped` record
      every block that went in and came out. */
  class BlockQueue {
    var items: seq<DataBlock>
    const maxSize: nat
    var finished: bool
    ghost var pushed: seq<DataBlock>
    ghost var popped: seq<DataBlock>

    /** Never over capacity, and what went in is what came out followed by
        what is still queued: no block is lost, duplicated or reordered. */
    ghost predicate Valid()
      reads this
    {
      |items| <= maxSize && pushed == popped + items
    }

    constructor(maxSize: nat)
      ensures Valid() && this.maxSize == maxSize
      ensures items == [] && !finished && pushed == [] && popped == []
    {
      this.maxSize := maxSize;
      items := [];
      finished := false;
      pushed := [];
      popped := [];
    }

    /** `push`: runs once the queue has room; appends at the back. */
    method Push(block: DataBlock)
      requires Valid() && |items| < maxSize
      modifies this
      ensures Valid()
      ensures items == old(items) + [block] && pushed == old(pushed) + [block]
      ensures popped == old(popped) && finished == old(finished)
    {
      items := items + [block];
      pushed := pushed + [block];
    }

    /** `pop`: runs once the queue is non-empty or finished; fails exactly
        when it is empty (and so finished), otherwise removes and returns
        the front block. */
    method Pop() returns (ok: bool, block: DataBlock)
      requires Valid() && (items != [] || finished)
      modifies this
      ensures Valid()
      ensures ok <==> old(items) != []
      ensures !ok ==> finished && items == old(items) && popped == old(popped) && block == NoBlock
      ensures ok ==> block == old(items)[0] && items == old(items)[1..] && popped == old(popped) + [block]
      ensures pushed == old(pushed) && finished == old(finished)
    {
      if items == [] {
        return false, NoBlock;
      }
      block := items[0];
      items := items[1..];
      popped := popped + [block];
      ok := true;
    }

    /** `set_finished`: raises the flag and touches nothing else; a second
        call changes nothing. */
    method SetFinished()
      requires Valid()
      modifies this
      ensures Valid() && finished
      ensures items == old(items) && pushed == old(pushed) && popped == old(popped)
    {
      finished := true;
    }
  }

  /** `process_block_simd_opt` of this reader: a lane without newline adds
      32 to the carried length; any other lane is rescanned byte by byte
      with the scalar rule, as are the bytes after the last whole lane. */
  method ProcessBlockFallback(buf: array<Byte>, size: nat, lineNum: array<nat>, total: nat, curLen: nat)
    returns (total': nat, curLen': nat)
    requires size <= buf.Length
    requires lineNum.Length >= 1
    modifies lineNum
    ensures total' == Scan(Tally(total, old(lineNum[..]), curLen), buf[..size]).total
    ensures lineNum[..] == Scan(Tally(total, old(lineNum[..]), curLen), buf[..size]).hist
    ensures curLen' == Scan(Tally(total, old(lineNum[..]), curLen), buf[..size]).curLen
  {
    ghost var t0 := Tally(total, lineNum[..], curLen);
    ghost var data := buf[..size];
    total', curLen' := total, curLen;
    var i := 0;
    while i + LANES <= size
      invariant i <= size
      invariant total' == Scan(t0, data[..i]).total
      invariant lineNum[..] == Scan(t0, data[..i]).hist
      invariant curLen' == Scan(t0, data[..i]).curLen
    {
      ghost var lane := buf[i..i + LANES];
      assert data[..i + LANES] == data[..i] + lane;
      ScanResume(t0, data[..i], lane, total', lineNum[..], curLen');
      var mask := Lanes.Movemask(buf[i..i + LANES]);
      if mask == 0 {
        ScanNoNewline(Tally(total', lineNum[..], curLen'), lane);
        curLen' := curLen' + LANES;
        i := i + LANES;
      } else {
        total', curLen' := ScanBytes(buf, i, i + LANES, lineNum, total', curLen');
        i := i + LANES;
      }
    }
    assert data == data[..i] + buf[i..size];
    ScanResume(t0, data[..i], buf[i..size], total', lineNum[..], curLen');
    total', curLen' := ScanBytes(buf, i, size, lineNum, total', curLen');
  }

  /** Every pushed block holds, in the first `size` bytes of its own
      buffer, the corresponding block of the stream, and none is an end
      marker. */
  ghost predicate Holds(blocks: seq<DataBlock>, stream: seq<seq<Byte>>)
    reads set j | 0 <= j < |blocks| && blocks[j].data != null :: blocks[j].data
  {
    |blocks| <= |stream| &&
    forall j :: 0 <= j < |blocks| ==>
      blocks[j].data != null && blocks[j].size <= blocks[j].data.Length &&
      blocks[j].data[..blocks[j].size] == stream[j] && !blocks[j].isEnd
  }

  /** One more block holding the next block of the stream keeps `Holds`. */
  lemma {:induction false} HoldsSnoc(blocks: seq<DataBlock>, block: DataBlock, stream: seq<seq<Byte>>)
    requires Holds(blocks, stream) && |blocks| < |stream|
    requires block.data != null && block.size <= block.data.Length
    requires block.data[..block.size] == stream[|blocks|] && !block.isEnd
    ensures Holds(blocks + [block], stream)
  {
    var bs := blocks + [block];
    forall j | 0 <= j < |bs|
      ensures bs[j].data != null && bs[j].size <= bs[j].data.Length
      ensures bs[j].data[..bs[j].size] == stream[j] && !bs[j].isEnd
    {
      if j < |blocks| {
        assert bs[j] == blocks[j];
      }
    }
  }

  /** The queue the two threads share is sound, and the blocks pushed so
      far are the first blocks of the stream `fed` the reader delivers. */
  ghost predicate QueueHolds(queue: BlockQueue, fed: seq<seq<Byte>>)
    reads queue, set j | 0 <= j < |queue.pushed| && queue.pushed[j].data != null :: queue.pushed[j].data
  {
    queue.Valid() && queue.maxSize >= 1 && Holds(queue.pushed, fed)
  }

  /** One pass of `producer_thread`'s loop with the `k`-th read result: a
      non-empty result goes into a fresh buffer that is pushed; an empty
      one (end of file, read error, failed allocation) ends the loop and
      the reader sets `finished`. */
  method ReaderStep(queue: BlockQueue, results: seq<seq<Byte>>, k: nat, ghost fed: seq<seq<Byte>>)
    returns (k': nat)
    requires QueueHolds(queue, fed)
    requires !queue.finished && fed == ReadsUntilEnd(results) && k == |queue.pushed|
    requires forall j :: 0 <= j < |results| ==> |results[j]| <= BLOCK_SIZE
    requires k == |results| || results[k] == [] || |queue.items| < queue.maxSize
    modifies queue
    ensures QueueHolds(queue, fed)
    ensures k' == |queue.pushed| && queue.popped == old(queue.popped)
    ensures queue.finished ==> k' == |fed| && queue.items == old(queue.items)
    ensures !queue.finished ==> k' == k + 1 && |queue.items| == |old(queue.items)| + 1
  {
    var data := if k < |results| then results[k] else [];
    if |data| == 0 {
      queue.SetFinished();
      k' := k;
    } else {
      ghost var before := queue.pushed;
      var buffer := new Byte[BLOCK_SIZE];
      ReadBlock(buffer, data);
      assert Holds(before, fed);
      var block := DataBlock(buffer, |data|, false);
      HoldsSnoc(before, block, fed);
      queue.Push(block);
      k' := k + 1;
    }
  }

  /** One pass of `consumer_thread`'s loop: pop a block; stop when `pop`
      fails or the block is an end marker; otherwise scan the block with
      the carried length and the shared counters. */
  method ScannerStep(queue: BlockQueue, lineNum: array<nat>, total: nat, curLen: nat,
                     ghost fed: seq<seq<Byte>>, ghost t0: Tally)
    returns (stop: bool, total': nat, curLen': nat)
    requires QueueHolds(queue, fed) && Counted(t0, fed, |queue.popped|, total, lineNum[..], curLen)
    requires queue.items != [] || queue.finished
    modifies queue, lineNum
    ensures QueueHolds(queue, fed) && Counted(t0, fed, |queue.popped|, total', lineNum[..], curLen')
    ensures queue.pushed == old(queue.pushed) && queue.finished == old(queue.finished)
    ensures stop ==> queue.finished && queue.items == []
    ensures !stop ==> |queue.items| == |old(queue.items)| - 1
  {
    ghost var c := |queue.popped|;
    if queue.items != [] {
      assert queue.items[0] == queue.pushed[c];
      ScanNextBlock(t0, fed, c, total, lineNum[..], curLen);
    }
    var ok, block := queue.Pop();
    total', curLen' := total, curLen;
    if !ok {
      stop := true;
    } else if block.isEnd {
      assert false;
    } else {
      stop := false;
      total', curLen' := ProcessBlockFallback(block.data, block.size, lineNum, total, curLen);
    }
  }

  /** The reader, the scanner and the queue between them, run as the
      `schedule` interleaves them (`true` prefers the reader). The reader
      pushes each non-empty read result, then sets `finished` (at once if
      the file does not open); the scanner pops and scans until `pop`
      fails. Whatever the interleaving, the counters end as one scalar scan
      of the stream from a zero carried length. This holds for every queue
      depth of at least one; the repository uses `QUEUE_MAX_SIZE`. */
  method FileLinesProducerConsumer(openOk: bool, results: seq<seq<Byte>>, schedule: seq<bool>,
                                   depth: nat, total: nat, lineNum: array<nat>)
    returns (total': nat)
    requires depth >= 1
    requires lineNum.Length >= 1
    requires forall k :: 0 <= k < |results| ==> |results[k]| <= BLOCK_SIZE
    modifies lineNum
    ensures !openOk ==> total' == total && lineNum[..] == old(lineNum[..])
    ensures openOk ==>
      total' == Scan(Tally(total, old(lineNum[..]), 0), Flatten(ReadsUntilEnd(results))).total &&
      lineNum[..] == Scan(Tally(total, old(lineNum[..]), 0), Flatten(ReadsUntilEnd(results))).hist
  {
    ghost var t0 := Tally(total, lineNum[..], 0);
    ghost var fed: seq<seq<Byte>> := if openOk then ReadsUntilEnd(results) else [];
    var queue := new BlockQueue(depth);
    total' := total;
    var curLen := 0;
    var k := 0;
    var consumerDone := false;
    if !openOk {
      queue.SetFinished();
    }
    assert fed[..0] == [];
    var step := 0;
    while !consumerDone
      invariant QueueHolds(queue, fed) && Counted(t0, fed, |queue.popped|, total', lineNum[..], curLen)
      invariant k == |queue.pushed|
      invariant queue.finished ==> k == |fed|
      invariant !queue.finished ==> fed == ReadsUntilEnd(results)
      invariant consumerDone ==> queue.finished && queue.items == []
      decreases 2 * (|fed| - k) + |queue.items| + (if queue.finished then 0 else 1) + (if consumerDone then 0 else 1)
    {
      var preferReader := step < |schedule| && schedule[step];
      step := step + 1;
      var readerCanRun := !queue.finished && (k == |results| || results[k] == [] || |queue.items| < queue.maxSize);
      var scannerCanRun := queue.items != [] || queue.finished;
      if (preferReader && readerCanRun) || !scannerCanRun {
        k := ReaderStep(queue, results, k, fed);
      } else {
        consumerDone, total', curLen := ScannerStep(queue, lineNum, total', curLen, fed, t0);
      }
    }
    assert fed[..|queue.popped|] == fed;
  }
}
