/**
 * `filelines_mt`: a producer thread reads blocks into a four-slot ring
 * buffer (`SharedData`); a consumer thread takes them out in order and runs
 * the 16-lane bitmask kernel on each, with the counters and the carried
 * line length kept in the shared structure.
 *
 * The mutex and the two condition variables are not modelled: each
 * `pthread_cond_wait` loop becomes the precondition of the step it guards,
 * and the two threads become one loop that runs whichever step a
 * `schedule` prefers among those that are not blocked.
 */
module Mt {
  import opened LineScan
  import opened Kernels

  const BLOCK_SIZE: nat := 262144
  const BUFFER_QUEUE_SIZE: nat := 4

  /** Bytes per SSE lane. */
  const LANES: nat := 16

  /** A ring slot: the buffer, the number of bytes read into it, and
      whether the slot currently holds a block. */
  datatype DataBlock = DataBlock(data: array?<Byte>, size: nat, valid: bool)

  /** A zeroed slot, as `memset` leaves it. */
  const EmptySlot := DataBlock(null, 0, false)

  /** Every block in `blocks` holds, in the first `size` bytes of its own
      buffer, the corresponding block of `stream`. */
  ghost predicate Holds(blocks: seq<DataBlock>, stream: seq<seq<Byte>>)
    reads set j | 0 <= j < |blocks| && blocks[j].data != null :: blocks[j].data
  {
    |blocks| <= |stream| &&
    forall j :: 0 <= j < |blocks| ==>
      blocks[j].data != null && blocks[j].size <= blocks[j].data.Length &&
      blocks[j].data[..blocks[j].size] == stream[j]
  }

  /** One more block holding the next block of the stream keeps `Holds`. */
  lemma {:induction false} HoldsSnoc(blocks: seq<DataBlock>, block: DataBlock, stream: seq<seq<Byte>>)
    requires Holds(blocks, stream) && |blocks| < |stream|
    requires block.data != null && block.size <= block.data.Length
    requires block.data[..block.size] == stream[|blocks|]
    ensures Holds(blocks + [block], stream)
  {
    var bs := blocks + [block];
    forall j | 0 <= j < |bs|
      ensures bs[j].data != null && bs[j].size <= bs[j].data.Length
      ensures bs[j].data[..bs[j].size] == stream[j]
    {
      if j < |blocks| {
        assert bs[j] == blocks[j];
      }
    }
  }

  /** The slot `j` places after `readPos` in the ring. */
  function Slot(readPos: nat, j: nat): (s: nat)
    ensures s < BUFFER_QUEUE_SIZE
    ensures readPos < BUFFER_QUEUE_SIZE && j < BUFFER_QUEUE_SIZE ==>
      s == if readPos + j < BUFFER_QUEUE_SIZE then readPos + j else readPos + j - BUFFER_QUEUE_SIZE
  {
    (readPos + j) % BUFFER_QUEUE_SIZE
  }

  /** `SharedData`: the ring of block slots with its positions and count,
      the producer's done flag, and the statistics the consumer updates.
      `pending` is the queue the ring represents, front first; `pushed` and
      `popped` record every block that went in and came out. */
  class SharedData {
    const queue: array<DataBlock>
    var writePos: nat
    var readPos: nat
    var count: nat
    var producerDone: bool
    var total: nat
    const lineNum: array<nat>
    var curLen: nat
    ghost var pending: seq<DataBlock>
    ghost var pushed: seq<DataBlock>
    ghost var popped: seq<DataBlock>

    /** The ring invariant: `count` of the four slots are in use, starting
        at `readPos`, and `writePos` is the one after them; exactly the
        slots in use are marked valid, and they hold `pending` in order. */
    ghost predicate Valid()
      reads this, queue
    {
      queue.Length == BUFFER_QUEUE_SIZE && lineNum.Length >= 1 &&
      readPos < BUFFER_QUEUE_SIZE && count <= BUFFER_QUEUE_SIZE &&
      writePos == Slot(readPos, count) &&
      |pending| == count && pushed == popped + pending &&
      (forall j :: 0 <= j < BUFFER_QUEUE_SIZE ==> (queue[Slot(readPos, j)].valid <==> j < count)) &&
      (forall j :: 0 <= j < count ==> queue[Slot(readPos, j)] == pending[j])
    }

    /** The zeroed start state of `filelines_mt`: an empty ring, positions
        and count zero, the producer not done, the carried length zero;
        the counters are the caller's. */
    constructor(total: nat, lineNum: array<nat>)
      requires lineNum.Length >= 1
      ensures Valid() && fresh(queue)
      ensures this.total == total && this.lineNum == lineNum && curLen == 0
      ensures count == 0 && !producerDone && pending == [] && pushed == [] && popped == []
      ensures writePos == 0 && readPos == 0
    {
      queue := new DataBlock[BUFFER_QUEUE_SIZE](_ => EmptySlot);
      writePos := 0;
      readPos := 0;
      count := 0;
      producerDone := false;
      this.total := total;
      this.lineNum := lineNum;
      curLen := 0;
      pending := [];
      pushed := [];
      popped := [];
    }

    /** The producer's enqueue, once the ring has room: the block goes
        into the slot at `writePos`, marked valid, which moves on by one
        modulo 4, and the count rises by one. */
    method Enqueue(data: array<Byte>, size: nat)
      requires Valid() && count < BUFFER_QUEUE_SIZE
      modifies this, queue
      ensures Valid()
      ensures pending == old(pending) + [DataBlock(data, size, true)]
      ensures pushed == old(pushed) + [DataBlock(data, size, true)]
      ensures count == old(count) + 1 && readPos == old(readPos)
      ensures popped == old(popped) && producerDone == old(producerDone)
      ensures total == old(total) && curLen == old(curLen)
    {
      queue[writePos] := DataBlock(data, size, true);
      writePos := (writePos + 1) % BUFFER_QUEUE_SIZE;
      count := count + 1;
      pending := pending + [DataBlock(data, size, true)];
      pushed := pushed + [DataBlock(data, size, true)];
    }

    /** The consumer's dequeue, once the ring is non-empty: the block at
        `readPos` is taken and its slot marked invalid, `readPos` moves on
        by one modulo 4, and the count falls by one. The block taken is
        the oldest one pending. */
    method Dequeue() returns (block: DataBlock)
      requires Valid() && count > 0
      modifies this, queue
      ensures Valid()
      ensures block == old(pending)[0]
      ensures pending == old(pending)[1..] && popped == old(popped) + [block]
      ensures count == old(count) - 1 && writePos == old(writePos)
      ensures pushed == old(pushed) && producerDone == old(producerDone)
      ensures total == old(total) && curLen == old(curLen)
    {
      ghost var front := readPos;
      block := queue[readPos];
      queue[readPos] := queue[readPos].(valid := false);
      readPos := (readPos + 1) % BUFFER_QUEUE_SIZE;
      count := count - 1;
      pending := pending[1..];
      popped := popped + [block];
      assert readPos == if front + 1 < BUFFER_QUEUE_SIZE then front + 1 else 0;
      forall j | 0 <= j < BUFFER_QUEUE_SIZE
        ensures queue[Slot(readPos, j)].valid <==> j < count
      {
        if j + 1 < BUFFER_QUEUE_SIZE {
          assert Slot(readPos, j) == Slot(front, j + 1);
        } else {
          assert Slot(readPos, j) == front;
        }
      }
      forall j | 0 <= j < count
        ensures queue[Slot(readPos, j)] == pending[j]
      {
        assert Slot(readPos, j) == Slot(front, j + 1);
      }
    }

    /** The producer marks itself done; nothing else changes. */
    method MarkProducerDone()
      requires Valid()
      modifies this
      ensures Valid() && producerDone
      ensures pending == old(pending) && pushed == old(pushed) && popped == old(popped)
      ensures count == old(count) && total == old(total) && curLen == old(curLen)
      ensures readPos == old(readPos) && writePos == old(writePos)
    {
      producerDone := true;
    }
  }

  /** The ring is sound, and the blocks enqueued so far are the first
      blocks of the stream `fed` the producer delivers. */
  ghost predicate QueueHolds(shared: SharedData, fed: seq<seq<Byte>>)
    reads shared, shared.queue
    reads set j | 0 <= j < |shared.pushed| && shared.pushed[j].data != null :: shared.pushed[j].data
  {
    shared.Valid() && Holds(shared.pushed, fed)
  }

  /** One pass of `producer_thread`'s loop with the `k`-th read result: a
      non-empty result is read into a fresh buffer and enqueued (once the
      ring has room); an empty one (end of file, read error, failed
      allocation) ends the loop and the producer marks itself done. */
  method ProducerStep(shared: SharedData, results: seq<seq<Byte>>, k: nat, ghost fed: seq<seq<Byte>>)
    returns (k': nat)
    requires QueueHolds(shared, fed)
    requires !shared.producerDone && fed == ReadsUntilEnd(results) && k == |shared.pushed|
    requires forall j :: 0 <= j < |results| ==> |results[j]| <= BLOCK_SIZE
    requires k == |results| || results[k] == [] || shared.count < BUFFER_QUEUE_SIZE
    modifies shared, shared.queue
    ensures QueueHolds(shared, fed)
    ensures k' == |shared.pushed| && shared.popped == old(shared.popped)
    ensures shared.total == old(shared.total) && shared.curLen == old(shared.curLen)
    ensures shared.producerDone ==> k' == |fed| && shared.count == old(shared.count)
    ensures !shared.producerDone ==> k' == k + 1 && shared.count == old(shared.count) + 1
  {
    var data := if k < |results| then results[k] else [];
    if |data| == 0 {
      shared.MarkProducerDone();
      k' := k;
    } else {
      ghost var before := shared.pushed;
      var buffer := new Byte[BLOCK_SIZE];
      ReadBlock(buffer, data);
      assert Holds(before, fed);
      HoldsSnoc(before, DataBlock(buffer, |data|, true), fed);
      shared.Enqueue(buffer, |data|);
      k' := k + 1;
    }
  }

  /** One pass of `consumer_thread`'s loop, once the ring is non-empty or
      the producer is done: stop when both the ring is empty and the
      producer done; otherwise dequeue the oldest block and scan it into
      the shared counters with the shared carried length. */
  method ConsumerStep(shared: SharedData, ghost fed: seq<seq<Byte>>, ghost t0: Tally)
    returns (stop: bool)
    requires QueueHolds(shared, fed)
    requires Counted(t0, fed, |shared.popped|, shared.total, shared.lineNum[..], shared.curLen)
    requires shared.count > 0 || shared.producerDone
    modifies shared, shared.queue, shared.lineNum
    ensures QueueHolds(shared, fed)
    ensures Counted(t0, fed, |shared.popped|, shared.total, shared.lineNum[..], shared.curLen)
    ensures shared.pushed == old(shared.pushed) && shared.producerDone == old(shared.producerDone)
    ensures stop <==> old(shared.count) == 0
    ensures stop ==> shared.producerDone && shared.count == 0
    ensures !stop ==> shared.count == old(shared.count) - 1
  {
    if shared.count == 0 && shared.producerDone {
      return true;
    }
    ghost var c := |shared.popped|;
    assert shared.pending[0] == shared.pushed[c];
    ScanNextBlock(t0, fed, c, shared.total, shared.lineNum[..], shared.curLen);
    var block := shared.Dequeue();
    var total, curLen := ProcessBlockLanes(LANES, block.data, block.size, shared.lineNum, shared.total, shared.curLen);
    shared.total, shared.curLen := total, curLen;
    stop := false;
  }

  /** `filelines_mt`: the shared structure starts zeroed; the producer
      enqueues each non-empty read result, then marks itself done (at once
      if the file does not open); the consumer dequeues and scans until
      the ring is empty and the producer done. The `schedule` interleaves
      the two (`true` prefers the producer). Whatever the interleaving, the
      counters end as one scalar scan of the stream from a zero carried
      length. */
  method FileLinesMt(openOk: bool, results: seq<seq<Byte>>, schedule: seq<bool>,
                     total: nat, lineNum: array<nat>)
    returns (total': nat)
    requires lineNum.Length >= 1
    requires forall k :: 0 <= k < |results| ==> |results[k]| <= BLOCK_SIZE
    modifies lineNum
    ensures !openOk ==> total' == total && lineNum[..] == old(lineNum[..])
    ensures openOk ==>
      total' == Scan(Tally(total, old(lineNum[..]), 0), Flatten(ReadsUntilEnd(results))).total &&
      lineNum[..] == Scan(Tally(total, old(lineNum[..]), 0), Flatten(ReadsUntilEnd(results))).hist
  {
    ghost var t0 := Tally(total, lineNum[..], 0);
    ghost var fed: seq<seq<Byte>> := if openOk then ReadsUntilEnd(results) else [];
    var shared := new SharedData(total, lineNum);
    if !openOk {
      shared.MarkProducerDone();
    }
    assert fed[..0] == [];
    var k := 0;
    var consumerDone := false;
    var step := 0;
    while !consumerDone
      invariant QueueHolds(shared, fed) && shared.lineNum == lineNum
      invariant Counted(t0, fed, |shared.popped|, shared.total, lineNum[..], shared.curLen)
      invariant k == |shared.pushed|
      invariant shared.producerDone ==> k == |fed|
      invariant !shared.producerDone ==> fed == ReadsUntilEnd(results)
      invariant consumerDone ==> shared.producerDone && shared.count == 0
      decreases 2 * (|fed| - k) + shared.count + (if shared.producerDone then 0 else 1) + (if consumerDone then 0 else 1)
    {
      var preferProducer := step < |schedule| && schedule[step];
      step := step + 1;
      var producerCanRun := !shared.producerDone &&
        (k == |results| || results[k] == [] || shared.count < BUFFER_QUEUE_SIZE);
      var consumerCanRun := shared.count > 0 || shared.producerDone;
      if (preferProducer && producerCanRun) || !consumerCanRun {
        k := ProducerStep(shared, results, k, fed);
      } else {
        consumerDone := ConsumerStep(shared, fed, t0);
      }
    }
    assert fed[..|shared.popped|] == fed;
    total' := shared.total;
  }
}
