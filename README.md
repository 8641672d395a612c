# Distributed digit sum: balancer and workers

The system sums the decimal digits of a file. One machine, the balancer,
reads the file in fixed-size chunks. It hands each chunk to a worker machine
over RPC and adds the partial results into one answer.

- A worker sums the digits of one chunk, byte by byte. Each byte goes through
  `strconv.Atoi`, and a byte that is not a numeral counts as 0.
- Workers join the balancer's roster with `Register`.
- `DoAddJob` first pings every roster entry. The entries that answer go into
  a ready queue.
- The dispatch loop then repeats three moves. It takes a ready worker. It
  reads the next chunk into a fresh zero-filled buffer with
  `io.ReadAtLeast`. It gives the buffer to that worker on a goroutine of its
  own.
- An adder goroutine adds up the results. `handleQueueing` puts each worker
  back in the ready queue once its result has been posted.
- The first read that finds no byte left closes the file and sends the done
  signal.

The model has five modules.

- `Common` (common.dfy): the byte type, the zero-filled buffer, and the
  argument and reply records of the three calls.
- `Digits` (digits.dfy): the byte-by-byte digit value (`Atoi` on one
  rune with its error ignored) and the digit sum `DigitSum`, with its
  bounds, its additivity and the worker's examples.
- `Workers` (worker.dfy): class `Worker`. `DoAddWork` is a loop proved to
  compute `DigitSum`. `PingWorker` always answers that the worker is ready.
- `Chunking` (chunking.dfy): `io.ReadAtLeast` on a file held in memory and
  read through a cursor. `ChunksFrom` is the sequence of buffers the job
  dispatches. The lemmas cover the chunk count, coverage of the input, and
  independence of the answer from the chunk size.
- `Balancers` (balancer.dfy):
  - class `Balancer` holds the roster, with `Register` and `DoAddJob`.
  - class `Job` holds the changing state of one job: the read cursor,
    whether the file is closed, whether the dispatch loop still runs, the
    ping replies still on their way, the ready queue, the buffers in flight,
    the released workers and the adder's sum.

The goroutines and channels become explicit events on a `Job`:

- a ping reply arrives;
- the dispatch loop receives a ready worker;
- the dispatch loop receives the done signal;
- a call on an in-flight buffer returns and its result is added;
- `handleQueueing` requeues a worker.

Each event is a method whose new state is a function (`PingStep`,
`DispatchStep`, `DoneStep`, `CompleteStep`, `RequeueStep`) of the old state.
`DoAddJob` takes a `schedule` that picks the events, and every event that
can happen can be picked (`PickCovers`): ping replies in any order, results
in any order, and a ready worker chosen before the pending done signal.
Released workers are requeued in the order their calls returned.

The job invariant `Inv` says three things:

- The sum plus the digit sums of the buffers in flight is the digit sum of
  everything read so far.
- While the file is open, the buffers sent, followed by those still to
  come, are the whole chunking of the input. Once it is closed, the buffers
  sent are that chunking followed only by all-zero buffers.
- Every worker token is in exactly one place.

Every event keeps `Inv`. So `DoAddJob` answers the digit sum of the whole
input, whatever the schedule and the chunk size, and waits forever exactly
when no ping got through.

After the end of the input the file is closed. A ready worker that the
dispatch loop takes before the done signal still gets a read. That read is
on the closed file, so it reports `os.ErrClosed`, not `io.EOF`. Its buffer,
all zeros, is still sent to the worker (`ZeroBufferAfterClose`). So a job
can make more than ceil(L / C) calls, and the extra ones carry no input
byte. They add 0 to the sum, and the done signal is sent only once.

Inputs that stand for the outside world:

- `pingOk`: for each roster entry, whether the ping call gets through.
- `schedule`: the interleaving of the goroutines.
- `input`: the contents of the file.

## Model

| member | source | states |
|---|---|---|
| Common.Zeros | system/balancer.go:108 | `make([]byte, k)` holds exactly `k` bytes, all zero |
| Digits.Atoi | system/worker.go:23 | on one rune, `strconv.Atoi` succeeds exactly on a numeral, and a failed parse yields 0 |
| Digits.RuneString | system/worker.go:23 | `string(k)` of a byte is a one-rune string |
| Digits.DigitValue | system/worker.go:23-24 | one byte adds at most 9 to a chunk's sum |
| Digits.AtoiOfByte | system/worker.go:23 | `n, _ := strconv.Atoi(string(k))` is the byte's digit value: '0'..'9' give 0..9; every other byte (zero padding, signs, letters, non-ASCII) fails to parse and gives 0 |
| Digits.DigitSum | system/worker.go:21-25 | a chunk's digit sum lies between 0 and 9 times its length |
| Digits.DigitSumPrefixStep | system/worker.go:22-24 | one more turn of the worker's loop adds exactly the digit value of the next byte |
| Digits.DigitSumAppend | system/worker.go:22-25 | the digit sum of `a + b` is the digit sum of `a` plus that of `b` |
| Digits.DigitSumZeros | system/worker.go:22-25 | a run of zero bytes sums to 0 |
| Digits.DigitSumPadded | system/worker.go:22-25 | appending zero bytes leaves a chunk's digit sum unchanged |
| Digits.DigitSumZeroIffNoNonZeroDigit | system/worker.go:22-25 | a chunk sums to 0 exactly when none of its bytes is a numeral '1'..'9' |
| Digits.ChunkScenarioSums | system/worker.go:19-26 | the chunks "123", "456" and "789" give 6, 15 and 24 |
| Digits.NineDigitsSum | system/worker.go:19-26 | "123456789" sums to 45 |
| Workers.Worker.DoAddWork | system/worker.go:20-29 | the loop's `Result` is the left-to-right digit sum of `args.Bytes`, and `Success` is true |
| Workers.Worker.PingWorker | system/worker.go:33-36 | the worker always answers `Success` true and changes nothing |
| Chunking.ReadAtLeast | system/balancer.go:108-109 | the buffer has exactly `chunksize` bytes; the bytes read are the next ones of the input, and the rest of the buffer stays zero; the read fills the buffer unless the input ends; the error is nil exactly when the buffer is full, and `io.EOF` exactly when no byte is left |
| Chunking.ReadClosed | system/balancer.go:109-112 | a read after `file.Close()` reads nothing, leaves the buffer zero and reports an error other than `io.EOF` |
| Chunking.ChunksFrom | system/balancer.go:102-115 | every dispatched buffer has exactly `chunksize` bytes, and no buffer is dispatched exactly when the read offset is at the end of the input |
| Chunking.ChunkCountBounds | system/balancer.go:102-115 | from any offset, the number of buffers `k` is the least with `k * C` at least the bytes left |
| Chunking.ChunkCount | system/balancer.go:102-115 | over `L` bytes with chunk size `C`, the reads before `io.EOF` produce exactly ceil(L / C) buffers; the all-zero buffers read from the closed file come on top (`PaddedChunks`, `FinishedInv`) |
| Chunking.PaddedChunks | system/balancer.go:105-116 | the whole chunking followed by `k` all-zero buffers has ceil(L / C) + k buffers, whose partial results still add up to the digit sum of the input |
| Chunking.ZeroBuffersSum | system/balancer.go:108-109 | all-zero buffers add nothing to the sum of partial results |
| Chunking.SumOfDigitSumsAppend | system/balancer.go:89 | the sum of partial results of two runs of buffers is the sum of the two |
| Chunking.ChunksCover | system/balancer.go:105-115 | laid end to end, the buffers are the input in order followed by fewer than `C` zero bytes: each byte is sent exactly once |
| Chunking.SumOfDigitSumsIsDigitSumOfFlatten | system/balancer.go:89 | adding up the partial results gives the digit sum of the buffers laid end to end |
| Chunking.ChunksDigitSum | system/balancer.go:108-109 | the partial results of the buffers add up to the digit sum of the rest of the input; the padding adds nothing |
| Chunking.AggregateIndependentOfChunkSize | system/balancer.go:108-109 | the sum of the partial results is the same for every chunk size |
| Chunking.ChunksFromFull | system/balancer.go:108-109 | a full read dispatches the next `C` input bytes as they are |
| Chunking.ChunksFromLast | system/balancer.go:108-115 | a short final read dispatches the last bytes with a zero-filled tail, and nothing follows it |
| Chunking.NineInThrees | system/balancer.go:108-109 | nine bytes in chunks of 3 are three full chunks |
| Chunking.NineInFours | system/balancer.go:108-109 | nine bytes in chunks of 4 are two full chunks and the last byte with three zero bytes |
| Chunking.NineDigitsInThrees | system/balancer.go:108-109 | "123456789" with chunk size 3 is "123", "456", "789", and the results add up to 45 |
| Chunking.NineDigitsInFours | system/balancer.go:108-109 | with chunk size 4 the chunks are "1234", "5678" and "9" with three zero bytes, and the results still add up to 45 |
| Balancers.InFlightSumRemove | system/balancer.go:88-89 | posting the result of any one in-flight buffer moves exactly its digit sum from in flight into the sum |
| Balancers.Responsive | system/balancer.go:62-71 | the workers whose ping succeeded are at most the roster's length |
| Balancers.ResponsiveSubset | system/balancer.go:62-71 | every worker that answered is on the roster, as a sub-multiset |
| Balancers.ResponsiveComplete | system/balancer.go:62-71 | every roster entry whose ping reply has `Success` is among the ready workers |
| Balancers.ResponsiveSound | system/balancer.go:62-71 | every ready worker is a roster entry whose ping reply has `Success` |
| Balancers.ResponsiveEmpty | system/balancer.go:62-71 | no worker becomes ready exactly when no ping succeeds |
| Balancers.ResponsiveAppend | system/balancer.go:62-71 | probing two parts of the roster queues the workers of the first, then those of the second, one token per successful entry |
| Balancers.ResponsiveOne | system/balancer.go:67-69 | one roster entry is queued once exactly when its ping reply has `Success`; a name listed twice with two successful pings is queued twice |
| Balancers.DistinctRosterTokens | system/balancer.go:62-71 | with no name twice on the roster, no worker has two tokens in a job |
| Balancers.PickCovers | system/balancer.go:102-105 | every event that can happen is picked by some pick, so a schedule can produce every interleaving of the job's events |
| Balancers.ZeroBufferAfterClose | system/balancer.go:105-116 | after the read that reports `io.EOF`, the done signal and a ready worker can both be pending, and taking the worker sends it an all-zero buffer: two calls for a one-byte input |
| Balancers.ExclusiveAssignment | system/balancer.go:124-130 | with a roster that has no name twice, no worker holds two buffers at once, and a worker holding a buffer is neither ready nor waiting to be requeued; `DistinctRosterTokens` gives its premise |
| Balancers.Pick | system/balancer.go:102-105 | the event picked can happen, nothing is picked exactly when nothing can happen, and the default pick takes a pending done signal first |
| Balancers.RequeueInOrder | system/balancer.go:162-171 | `handleQueueing` passes released workers on unchanged and in the order they were released |
| Balancers.InitialInv | system/balancer.go:53 | a fresh job, with sum 0 and nothing read, satisfies the job invariant |
| Balancers.ProbeInv | system/balancer.go:62-71 | the workers whose ping succeeded become worker tokens of the job without breaking the invariant |
| Balancers.PingInv | system/balancer.go:67-68 | any one ping reply reaching the ready queue keeps the invariant |
| Balancers.ReadDigitSum | system/balancer.go:108-109 | a buffer's digit sum is that of the bytes read into it |
| Balancers.DispatchEofInv | system/balancer.go:110-113 | the read that reports `io.EOF` closes the file and drops its worker, keeping the invariant |
| Balancers.DispatchReadInv | system/balancer.go:114-132 | a read that finds bytes puts the next chunk in flight with the worker popped, keeping the sum and chunk accounting |
| Balancers.PaddingPush | system/balancer.go:109-116 | after the close, one more all-zero buffer sent keeps the buffers sent equal to the chunking followed only by zero buffers |
| Balancers.DispatchClosedInv | system/balancer.go:105-116 | a read on the closed file sends an all-zero buffer that adds nothing, keeping the invariant |
| Balancers.DispatchInv | system/balancer.go:105-133 | receiving a ready worker keeps the invariant and, unless the file is closed, leaves fewer reads to come |
| Balancers.CompleteInv | system/balancer.go:124-130 | the return of any one in-flight call, in any order, keeps the invariant and brings the job closer to its end |
| Balancers.RequeueInv | system/balancer.go:166-167 | a turn of `handleQueueing` keeps the invariant and brings the job closer to its end |
| Balancers.EventInv | system/balancer.go:100-138 | every event that can happen keeps the invariant and the job's workers; all but a read on the closed file bring the job closer to its end |
| Balancers.ChoiceInv | system/balancer.go:102-138 | whatever is picked, a job not yet over either goes on by an event that keeps the invariant, or has no worker at all |
| Balancers.BlockedInv | system/balancer.go:102-105 | if the dispatch loop waits with the file open and no worker is anywhere, no ping succeeded |
| Balancers.FinishedInv | system/balancer.go:140-148 | once the dispatch loop has stopped and nothing is in flight, the sum is the digit sum of the whole input and the sum of the partial results of every buffer sent; the buffers sent are its whole chunking followed only by all-zero buffers read from the closed file, ceil(L / C) plus their number; and at least one worker took part |
| Balancers.EarlyWaitLosesChunk | system/balancer.go:116-118 | a reachable state in which the wait as written returns with a buffer still in flight, and the answer 0 differs from the digit sum 1 |
| Balancers.Job.constructor | system/balancer.go:44-56 | a job starts with nothing read, the file open, the loop running, no worker ready and a sum of 0 |
| Balancers.Job.Probe | system/balancer.go:61-71 | one ping per roster entry; exactly the entries whose reply has `Success` are on their way to the ready queue |
| Balancers.Job.ReceivePing | system/balancer.go:67-68 | any one pending ping reply joins the back of the ready queue |
| Balancers.Job.Dispatch | system/balancer.go:105-133 | pop the first ready worker and read a fresh buffer; on `io.EOF` close the file and drop the worker, otherwise put the buffer in flight with that worker |
| Balancers.Job.CloseFile | system/balancer.go:110-113 | on `io.EOF` the file is closed, the done signal is pending, and the popped worker is dropped |
| Balancers.Job.StartCall | system/balancer.go:116-132 | the buffer is in flight with its worker and recorded among the buffers sent, as padding if the file is already closed |
| Balancers.Job.ReceiveDone | system/balancer.go:135-136 | the done signal stops the dispatch loop |
| Balancers.Job.Complete | system/balancer.go:120-130 | the worker computes the digit sum of its buffer, the adder adds it, and the worker is released |
| Balancers.Job.HandleQueueing | system/balancer.go:166-167 | the longest-waiting released worker joins the back of the ready queue |
| Balancers.Job.Choose | system/balancer.go:102-105 | the event picked can happen in the current state; nothing is picked exactly when the loop cannot take a ready worker or the done signal and no ping reply, call or requeue is pending; the default pick takes a pending done signal first |
| Balancers.Job.Perform | system/balancer.go:102-138 | the picked event changes the job's state as its step function says |
| Balancers.Job.Run | system/balancer.go:100-140 | the goroutines run until the loop has stopped and nothing is in flight, keeping the invariant; if nothing can happen any more, no worker took part |
| Balancers.Balancer.constructor | system/balancer.go:152-156 | a new balancer keeps its address and starts with an empty roster |
| Balancers.Balancer.Register | system/balancer.go:27-33 | the worker is appended at the end of the roster, nothing is deduplicated, and the reply has `Success` |
| Balancers.Balancer.DoAddJob | system/balancer.go:44-149 | the answer is the digit sum of the whole input, whatever the schedule and the chunk size, and is the sum of the partial results of every buffer sent: the ceil(L / C) chunks of the input followed only by all-zero buffers; the job waits forever exactly when no ping succeeds |

## Left out

- RPC transport is not part of this model: `StartRPCServerUnix`, `EndRPCServerUnix`, the listeners and the `call` wrapper. Calls are direct method calls.
- `MakeWorker` and the registration it sends are not part of this model. `Register` is modelled on its own.
- main.go, the benchmarking driver, is not part of this model.
- Opening the file and the `log.Fatalf` on failure are left out. The file's contents are the `input` parameter.
- The mutex around the roster is left out. Calls run one at a time in the model.
- A chunk call that fails in transport is left out. It would post the zero `Result` and still requeue the worker. In the model every chunk call returns the worker's reply.
- A ping call that fails is the `pingOk` parameter. Its outcome is not computed.
- Balancers.Balancer.DoAddJob requires a positive chunk size. With 0 the read never reports `io.EOF` and the job never ends; a negative size makes `make` panic.
- Balancers.Balancer.DoAddJob returns `Blocked` where the program would block forever, that is, when no ping succeeds.
- Balancers.Balancer.DoAddJob: `select` may in principle keep preferring a ready worker over the pending done signal, forever. The model stops that: after the schedule runs out, the default pick takes the done signal first.
- Balancers.Balancer.DoAddJob waits for every dispatched buffer before answering, as `wg.Wait()` is evidently meant to; see Findings for the code as written.
- Balancers.Job.Run merges `handleQueueing`'s receive on `chanWorkers` and its send on `readyWorkers` into one event. The ready queue never fills up, so the send never blocks.
- Balancers.Job.HandleQueueing requeues released workers in the order their calls returned. In Go, a later goroutine can reach `blr.chanWorkers` first. Those interleavings only reorder the ready queue, and the answer does not depend on that order.
- The stop signals to the adder and to `handleQueueing` (`quitAdding`, `quitQueueing`) are left out. So is the hand-over of the answer on `chanAnswer`. The model reads the adder's sum directly.
- Balancers.ExclusiveAssignment holds only for a roster with no name twice. `Register` does not deduplicate, and a name registered twice can hold two buffers.
- Digits.Atoi is modelled only for strings of fewer than 19 runes, where Go counts bytes. The program only parses one-rune strings, and a byte from 0x80 up (two UTF-8 bytes) fails to parse in both.
- Integer overflow of the sum is not modelled. The sum is at most 9 times the input length.

## Findings

| source | as written | input that shows it | evidently intended | confidence | as-written member | corrected member |
|---|---|---|---|---|---|---|
| system/balancer.go:116-118 | `wg.Add(1)` runs inside the goroutine that handles a buffer, so `wg.Wait()` at line 140 can return before that goroutine has started | input "1", chunk size 1, two workers that both answer the ping: the first worker gets the only chunk, the second reads `io.EOF`, and the done signal is received before the first worker's goroutine runs; the wait returns, the answer is 0, and the digit sum is 1 | `wg.Add(1)` before the `go` statement, so that the wait covers every dispatched buffer and the answer is the digit sum of the input | not executed | Balancers.EarlyWaitLosesChunk | Balancers.Balancer.DoAddJob |
