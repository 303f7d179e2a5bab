# Line-length histogram scanners, modelled in Dafny

The system counts the lines of a file and builds a histogram of their
lengths. The delimiter is the byte `'\n'` (0x0A). Each newline adds one to
the total and one to the bucket of the line's length. Lengths of at least
`MAX_LEN` go to bucket `MAX_LEN - 1`. The length of the line still open is
carried from one `read` block to the next. A final fragment without a
newline is never counted.

The repository computes this aggregate in several ways, which must all
agree:

- a scalar byte loop, in two readers: `filelines_baseline` with a fixed
  block size and `filelines_with_blocksize` with a caller's block size;
- a vector kernel that walks the bits of a lane's newline mask, in two
  versions: 32-byte AVX2 lanes (`filelines_simd`) and 16-byte SSE lanes
  (`filelines_mt`);
- a 32-byte vector kernel that rescans any lane holding a newline byte by
  byte (`filelines_producer_consumer`);
- two reader/scanner pipelines with bounded queues between the threads:
  - the four-slot ring buffer `SharedData` of `filelines_mt`;
  - the `BlockQueue` class of `filelines_producer_consumer`.

It also has an argmax over the histogram, `find_most_freq_line`.

Modules:

- **`LineScan`** is the reference semantics.
  - `Scan` folds the scalar per-byte rule `Step` over a byte sequence.
  - `Tally` holds the total, the histogram and the carried length.
  - `Flatten` concatenates blocks, and `ReadsUntilEnd` cuts the results of
    successive `read` calls at the first empty one.
  - It also holds lemmas that characterise the scan independently: counts,
    sums, per-bucket line lengths and split invariance.
- **`Bits`** and **`Lanes`** give portable definitions of `movemask`,
  `ctz`, `popcount` and `mask & (mask - 1)` on unsigned integers.
- **`Kernels`** holds the shared loops, as methods over arrays proved equal
  to `Scan`: the scalar loop, the bitmask walk, and the lane kernel for any
  lane width.
- **`Baseline`**, **`Blocksize`** and **`SimdOpt`** are the single-threaded
  readers, each proved equal to one scan of the whole stream.
- **`ProducerConsumer`** and **`Mt`** are the two pipelines. Each queue is
  a class whose methods update its fields in place. Each blocking wait
  becomes a precondition. The two threads become one loop: at each step it
  runs the thread a `schedule` prefers, unless that thread is blocked. For
  every schedule, the counters end exactly as one scalar scan of the stream.
- **`MostFreq`** is the argmax, proved against a specification predicate
  that is shown to determine its answer uniquely.

`MAX_LEN` comes from a header that is not part of this model. Here it is
the length of the histogram array, which must be at least 1.

## Model

| member | source | states |
|---|---|---|
| LineScan.Bucket | src/basic_benchmark/filelines_baseline.cpp:33-36 | the bucket is the length itself below `MAX_LEN`, else `MAX_LEN - 1`; it is always a valid index |
| LineScan.Commit | src/basic_benchmark/filelines_baseline.cpp:33-36 | committing a line raises exactly one bucket (the clamped length) by exactly one and leaves every other bucket and the histogram size unchanged |
| LineScan.Step | src/basic_benchmark/filelines_baseline.cpp:31-40 | a newline raises the total by one, commits the carried length and resets it; any other byte changes no counter and lengthens the carried line by one |
| LineScan.Scan | src/basic_benchmark/filelines_baseline.cpp:30-41 | the scalar loop over a byte sequence from a given state keeps the histogram size |
| LineScan.ScanAppend | src/basic_benchmark/filelines_baseline.cpp:24-42 | split invariance: scanning `a` then `b` with the carried state equals scanning `a + b` |
| LineScan.ScanNoNewline | src/simd_benchmark/filelines_simd_opt.cpp:29-31 | bytes without newline change neither total nor histogram and add their count to the carried length |
| LineScan.CountNewlines | src/simd_benchmark/filelines_simd_opt.cpp:33-34 | the number of newline bytes is at most the number of bytes |
| LineScan.RunAfterLastNewline | src/simd_benchmark/filelines_simd_opt.cpp:49 | the bytes after the last newline are at most all of them |
| LineScan.ScanCounts | src/basic_benchmark/filelines_baseline.cpp:24-41 | the total rises by the number of newlines, and the carried length is the number of bytes since the last newline, counted across earlier blocks when this one has none |
| LineScan.ScanSum | src/basic_benchmark/filelines_baseline.cpp:32-36 | the sum of the buckets rises by exactly as much as the total |
| LineScan.ScanHistogram | src/basic_benchmark/filelines_baseline.cpp:30-41 | one line is terminated per newline, and each bucket rises by the number of terminated lines whose clamped length is that bucket |
| LineScan.ExampleUnterminated | src/basic_benchmark/filelines_baseline.cpp:27-29 | "abc" with no newline commits nothing and leaves a carried length of 3 |
| LineScan.ExampleTerminated | src/basic_benchmark/filelines_baseline.cpp:31-37 | "abc\n" raises the total by one and bucket 3 by one, and resets the carried length |
| LineScan.ScanOneLine | src/simd_benchmark/filelines_simd_opt.cpp:37-44 | a run without newline closed by a newline commits one line of the carried length plus the run's length |
| LineScan.SpanningLine | src/basic_benchmark/filelines_baseline.cpp:24-41 | a line that spans two blocks is committed once, with its whole length |
| LineScan.ScanBlocks | src/simd_benchmark/filelines_simd_opt.cpp:80-87 | threading the carried state through the blocks in order keeps the histogram size |
| LineScan.ScanBlocksFlatten | src/basic_benchmark/filelines_baseline.cpp:25-42 | threading the carried state from block to block equals one scan of the concatenated stream, for any cut into blocks |
| LineScan.ScanNextBlock | src/basic_benchmark/filelines_baseline.cpp:25-41 | the scan of the first `k + 1` blocks resumes the scan of the first `k` with block `k` |
| LineScan.ReadsUntilEnd | src/basic_benchmark/filelines_baseline.cpp:27-29 | the stream is a prefix of the read results, every block in it is non-empty, and the result after it (if any) is empty |
| LineScan.ReadsUntilEndAt | src/basic_benchmark/filelines_baseline.cpp:27-29 | the stream ends exactly at the first empty read |
| Bits.And | src/simd_benchmark/filelines_simd_opt.cpp:47 | a bitwise AND is at most either operand |
| Bits.AndBit | src/simd_benchmark/filelines_simd_opt.cpp:47 | a bit of `a & b` is set exactly when it is set in both |
| Bits.Ctz | src/simd_benchmark/filelines_simd_opt.cpp:37 | `ctz` of a non-zero mask is a set bit with no set bit below it |
| Bits.Popcount | src/simd_benchmark/filelines_simd_opt.cpp:33 | `popcount` of a mask is at most the mask and is zero exactly for the zero mask; that it counts a lane's newlines is `Lanes.PopcountLane` |
| Bits.PredBit | src/simd_benchmark/filelines_simd_opt.cpp:47 | `m - 1` has the bits below the lowest set bit of `m` set, that bit clear, and the bits of `m` above it |
| Bits.ClearLowest | src/simd_benchmark/filelines_simd_opt.cpp:47 | `mask & (mask - 1)` clears exactly the lowest set bit and keeps every other bit |
| Lanes.Movemask | src/simd_benchmark/filelines_simd_opt.cpp:24-26 | mask bit `j` is set exactly when byte `j` of the lane is a newline; the mask is zero exactly when the lane has no newline |
| Lanes.PopcountLane | src/simd_benchmark/filelines_simd_opt.cpp:33-34 | the popcount of a lane's mask is the number of newlines in the lane |
| Kernels.ReadBlock | src/basic_benchmark/filelines_baseline.cpp:27 | a read delivering `data` leaves it at the start of the buffer |
| Kernels.CountLine | src/basic_benchmark/filelines_baseline.cpp:33-36 | the histogram array afterwards is the old one with the line committed |
| Kernels.ScanBytes | src/simd_benchmark/filelines_simd_opt.cpp:53-65 | the scalar loop over a buffer range leaves total, histogram array and carried length equal to `Scan` of those bytes from the incoming state |
| Kernels.ScanLineAt | src/simd_benchmark/filelines_simd_opt.cpp:37-44 | a newline at `p` with none since `a` commits one line of the carried length plus `p - a` and resets the carry |
| Kernels.ScanRunFrom | src/simd_benchmark/filelines_simd_opt.cpp:49 | after the last newline, the carried length grows by the remaining bytes of the lane |
| Kernels.VisitLowest | src/simd_benchmark/filelines_simd_opt.cpp:36-47 | the lowest set bit of the remaining mask is the next newline, none lies between, and clearing it leaves exactly the newlines after it |
| Kernels.WalkMask | src/simd_benchmark/filelines_simd_opt.cpp:33-49 | walking a non-zero mask (popcount to the total, `ctz`, first length `cur_len + pos`, then `pos - last_pos - 1`, carry `width - 1 - last_pos`) equals `Scan` of the lane |
| Kernels.ProcessBlockLanes | src/simd_benchmark/filelines_simd_opt.cpp:17-66 | for any lane width, the lane kernel plus its scalar tail equals `Scan` of the block from the incoming total, histogram and carry; used with width 32 here and with width 16 for the identical SSE kernel of `filelines_mt.cpp` (lines 47-94, carry `15 - last_pos`) |
| Baseline.FileLinesBaseline | src/basic_benchmark/filelines_baseline.cpp:15-45 | an open or allocation failure leaves the counters unchanged; otherwise they end as one scan of the stream from a zero carried length |
| Blocksize.FileLinesWithBlockSize | src/blocksize_benchmark/filelines_blocksize.cpp:11-45 | the same with a caller's block size: counters unchanged on failure, else one scan of the stream |
| Blocksize.Chunks | src/blocksize_benchmark/filelines_blocksize.cpp:24-27 | reads of a file with a positive block size return blocks of 1 to `block_size` bytes |
| Blocksize.FlattenChunks | src/blocksize_benchmark/filelines_blocksize.cpp:24-27 | those blocks concatenate back to the file |
| Blocksize.BlockSizeIrrelevant | src/blocksize_benchmark/filelines_blocksize.cpp:23-41 | for every positive block size, the scanned stream gives the same aggregate as one scan of the file |
| SimdOpt.FileLinesSimd | src/simd_benchmark/filelines_simd_opt.cpp:68-91 | the vector reader leaves the counters unchanged on failure and otherwise equal to one scalar scan of the stream |
| MostFreq.MostFrequentUnique | src/find_most_freq.cpp:2-13 | the argmax answer (count bounding every bucket, lowest index on ties, `(0, 0)` for an all-zero histogram) is unique |
| MostFreq.FindMostFreqLine | src/find_most_freq.cpp:2-13 | the count bounds every bucket; a positive count is the count at the returned length and no shorter length reaches it; an all-zero histogram gives `(0, 0)`; the length is below `MAX_LEN`; `line_num` is only read |
| ProducerConsumer.BlockQueue.constructor | src/simd_benchmark/filelines_producer_consumer.cpp:44 | a new queue is empty, not finished, with the given capacity |
| ProducerConsumer.BlockQueue.Push | src/simd_benchmark/filelines_producer_consumer.cpp:47-53 | once below capacity, appends the block at the back; the size never exceeds the capacity |
| ProducerConsumer.BlockQueue.Pop | src/simd_benchmark/filelines_producer_consumer.cpp:56-69 | once non-empty or finished, fails exactly when empty (and then finished), otherwise removes and returns the front block; what was popped is a prefix of what was pushed |
| ProducerConsumer.BlockQueue.SetFinished | src/simd_benchmark/filelines_producer_consumer.cpp:72-76 | sets `finished` and changes nothing else, so a second call changes nothing |
| ProducerConsumer.ProcessBlockFallback | src/simd_benchmark/filelines_producer_consumer.cpp:80-127 | a lane without newline adds 32 to the carry, any other lane is rescanned byte by byte, then the tail: the result equals `Scan` of the block |
| ProducerConsumer.HoldsSnoc | src/simd_benchmark/filelines_producer_consumer.cpp:151-152 | pushing a fresh block holding the next stream block keeps every pushed block's contents, and none is an end marker |
| ProducerConsumer.ReaderStep | src/simd_benchmark/filelines_producer_consumer.cpp:137-156 | a non-empty read is pushed in a fresh buffer; an empty one sets `finished`, after exactly the whole stream has been pushed |
| ProducerConsumer.ScannerStep | src/simd_benchmark/filelines_producer_consumer.cpp:160-179 | a popped block is the next stream block and is scanned into the counters; the loop stops only when the queue is finished and drained |
| ProducerConsumer.FileLinesProducerConsumer | src/simd_benchmark/filelines_producer_consumer.cpp:182-193 | for every queue depth of at least one (the repository uses 4) and under every interleaving, an open failure leaves the counters unchanged, otherwise they end as one scalar scan of the stream |
| Mt.HoldsSnoc | src/simd_benchmark/filelines_mt.cpp:130-132 | enqueueing a fresh buffer holding the next stream block keeps every enqueued block's contents |
| Mt.SharedData.constructor | src/simd_benchmark/filelines_mt.cpp:188-200 | the zeroed state (empty ring, positions and count zero, producer not done, carry zero) satisfies the ring invariant |
| Mt.SharedData.Enqueue | src/simd_benchmark/filelines_mt.cpp:124-135 | once `count < 4`, stores the block valid at `write_pos`, advances it modulo 4 and raises `count`; the ring invariant is kept and the block joins the back of the queue |
| Mt.SharedData.Dequeue | src/simd_benchmark/filelines_mt.cpp:159-173 | once `count > 0`, takes the oldest block at `read_pos`, marks the slot invalid, advances `read_pos` modulo 4 and lowers `count`; the ring invariant is kept |
| Mt.SharedData.MarkProducerDone | src/simd_benchmark/filelines_mt.cpp:141-145 | sets `producer_done` and changes nothing else |
| Mt.ProducerStep | src/simd_benchmark/filelines_mt.cpp:97-149 | a non-empty read is enqueued in a fresh buffer; an empty one marks the producer done after exactly the whole stream was enqueued |
| Mt.ConsumerStep | src/simd_benchmark/filelines_mt.cpp:152-186 | stops exactly when the ring is empty and the producer done; otherwise the dequeued block is the next stream block and is scanned with the shared carry |
| Mt.FileLinesMt | src/simd_benchmark/filelines_mt.cpp:188-220 | a failed open marks the producer done at once; under every interleaving, an open failure leaves the counters unchanged, otherwise they end as one scalar scan of the stream |

## Left out

- Threads, the mutex and the condition variables are not modelled as such.
  - A blocking wait is the precondition of the step it guards: room in the
    queue for a push or enqueue, a non-empty or finished queue for a pop or
    dequeue.
  - The interleaving is an explicit `schedule`, and each step of it runs
    whole. In the code only the queue operations run under the lock
    (`push`, `pop` and `set_finished`; enqueue, dequeue and marking the
    producer done).
  - The `read` and the scan of a block run outside the lock. Each touches
    only data private to its thread (a fresh buffer; the consumer's
    counters and carried length), so it commutes with the other thread's
    steps. The model does not check this.
- In the producers, reading happens before waiting for room. The model
  applies the wait to the whole step.
- `open`, `read` and the allocators are inputs.
  - The file is the sequence of what successive `read` calls return.
  - A zero or negative result (end of file, read error) is an empty entry.
    The stream ends at the first empty entry.
  - An allocation failure inside a producer loop ends the stream the same
    way.
  - A failed `open`, or a failed allocation before the loop, is a boolean
    input.
- `free` and `close` are not modelled. They affect neither counter.
- The SIMD intrinsics are not modelled bit for bit. They are functions on
  unsigned integers: `Movemask` on a byte sequence, `Ctz`, `Popcount` and
  `And`.
- Fixed-width overflow is not modelled: counters and lengths are unbounded
  `nat`. The repository assumes `uint32_t` counters never wrap and `int`
  line lengths never pass 2^31. The members below state their results
  without that wrap-around:
- Kernels.ScanBytes: no `uint32_t` wrap of the counters, no `int` overflow of `cur_len`.
- Kernels.WalkMask: no `uint32_t` wrap of the counters, no `int` overflow of `cur_len`.
- Kernels.ProcessBlockLanes: no `uint32_t` wrap of the counters, no `int` overflow of `cur_len`.
- ProducerConsumer.ProcessBlockFallback: no `uint32_t` wrap of the counters, no `int` overflow of `cur_len`.
- There is no separate overflow counter: every length `>= MAX_LEN` goes to
  bucket `MAX_LEN - 1`, so that bucket also counts lines of length exactly
  `MAX_LEN - 1`.
- The buffers handed through the queues are separate arrays. They are
  filled once and only read afterwards. Releasing them to the allocator is
  not modelled.
- The benchmarks, timing harnesses, file generator and matrix code are not
  part of this model.
