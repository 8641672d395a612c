/** The balancer: its roster of workers, and one digit-summing job run as a
    sequence of explicit steps in place of its goroutines and channels. */
module Balancers {
  import opened Common
  import opened Digits
  import opened Chunking
  import opened Workers

  /** A buffer handed to a worker whose result has not been posted yet. */
  datatype Assignment = Assignment(worker: string, buffer: seq<byte>)

  /** How a job ends: with the answer, or waiting forever for a ready worker
      because no worker answered the readiness probe. */
  datatype JobOutcome = Answer(value: int) | Blocked

  /** The workers holding the in-flight buffers. */
  function Holders(inflight: seq<Assignment>): (ws: seq<string>)
    ensures |ws| == |inflight|
    ensures forall i :: 0 <= i < |inflight| ==> ws[i] == inflight[i].worker
  {
    if inflight == [] then [] else Holders(inflight[..|inflight| - 1]) + [inflight[|inflight| - 1].worker]
  }

  lemma {:induction false} HoldersAppend(a: seq<Assignment>, b: seq<Assignment>)
    ensures Holders(a + b) == Holders(a) + Holders(b)
  {
    if b == [] {
      assert a + b == a;
    } else {
      var b' := b[..|b| - 1];
      assert (a + b)[..|a + b| - 1] == a + b';
      assert (a + b)[|a + b| - 1] == b[|b| - 1];
      HoldersAppend(a, b');
    }
  }

  /** The partial results still to be posted. */
  function InFlightSum(inflight: seq<Assignment>): nat {
    if inflight == [] then 0
    else InFlightSum(inflight[..|inflight| - 1]) + DigitSum(inflight[|inflight| - 1].buffer)
  }

  lemma {:induction false} InFlightSumAppend(a: seq<Assignment>, b: seq<Assignment>)
    ensures InFlightSum(a + b) == InFlightSum(a) + InFlightSum(b)
  {
    if b == [] {
      assert a + b == a;
    } else {
      var b' := b[..|b| - 1];
      assert (a + b)[..|a + b| - 1] == a + b';
      assert (a + b)[|a + b| - 1] == b[|b| - 1];
      InFlightSumAppend(a, b');
    }
  }

  lemma InFlightSumSingle(a: Assignment)
    ensures InFlightSum([a]) == DigitSum(a.buffer)
  {
    assert [a][..0] == [];
  }

  /** The in-flight total splits around any one entry. */
  lemma InFlightSumSplit(left: seq<Assignment>, a: Assignment, right: seq<Assignment>)
    ensures InFlightSum(left + [a] + right) == InFlightSum(left) + DigitSum(a.buffer) + InFlightSum(right)
  {
    InFlightSumAppend(left + [a], right);
    InFlightSumAppend(left, [a]);
    InFlightSumSingle(a);
  }

  /** Posting the result of any one in-flight buffer moves exactly its digit
      sum out of the in-flight total. */
  lemma InFlightSumRemove(inflight: seq<Assignment>, i: nat)
    requires i < |inflight|
    ensures InFlightSum(inflight[..i] + inflight[i + 1..]) + DigitSum(inflight[i].buffer) == InFlightSum(inflight)
  {
    var left, a, right := inflight[..i], inflight[i], inflight[i + 1..];
    assert InFlightSum(inflight) == InFlightSum(left) + DigitSum(a.buffer) + InFlightSum(right) by {
      assert inflight == left + [a] + right;
      InFlightSumSplit(left, a, right);
    }
    InFlightSumAppend(left, right);
  }

  /** The roster entries whose readiness probe came back with `Success`, in
      roster order. */
  function Responsive(workers: seq<string>, pingOk: seq<bool>): (ready: seq<string>)
    requires |pingOk| == |workers|
    ensures |ready| <= |workers|
  {
    if workers == [] then []
    else
      var n := |workers| - 1;
      var earlier := Responsive(workers[..n], pingOk[..n]);
      if pingOk[n] then earlier + [workers[n]] else earlier
  }

  /** Every queued worker is a roster entry: the queue is a sub-multiset of
      the roster. */
  lemma {:induction false} ResponsiveSubset(workers: seq<string>, pingOk: seq<bool>)
    requires |pingOk| == |workers|
    ensures multiset(Responsive(workers, pingOk)) <= multiset(workers)
  {
    if workers != [] {
      var n := |workers| - 1;
      ResponsiveSubset(workers[..n], pingOk[..n]);
      assert workers == workers[..n] + [workers[n]];
    }
  }

  /** Every roster entry whose probe succeeded is queued. */
  lemma {:induction false} ResponsiveComplete(workers: seq<string>, pingOk: seq<bool>, i: nat)
    requires |pingOk| == |workers| && i < |workers| && pingOk[i]
    ensures workers[i] in Responsive(workers, pingOk)
  {
    var n := |workers| - 1;
    if i < n {
      ResponsiveComplete(workers[..n], pingOk[..n], i);
    }
  }

  /** Every queued worker is a roster entry whose probe succeeded. */
  lemma {:induction false} ResponsiveSound(workers: seq<string>, pingOk: seq<bool>, w: string)
    requires |pingOk| == |workers| && w in Responsive(workers, pingOk)
    ensures exists i :: 0 <= i < |workers| && pingOk[i] && workers[i] == w
  {
    var n := |workers| - 1;
    if w in Responsive(workers[..n], pingOk[..n]) {
      ResponsiveSound(workers[..n], pingOk[..n], w);
      var i :| 0 <= i < n && pingOk[..n][i] && workers[..n][i] == w;
      assert pingOk[i] && workers[i] == w;
    } else {
      assert pingOk[n] && workers[n] == w;
    }
  }

  /** The queue is empty exactly when no probe succeeded. */
  lemma ResponsiveEmpty(workers: seq<string>, pingOk: seq<bool>)
    requires |pingOk| == |workers|
    ensures Responsive(workers, pingOk) == [] <==> forall i :: 0 <= i < |workers| ==> !pingOk[i]
  {
    var ready := Responsive(workers, pingOk);
    if ready != [] {
      ResponsiveSound(workers, pingOk, ready[0]);
    }
    forall i | 0 <= i < |workers| && pingOk[i]
      ensures ready != []
    {
      ResponsiveComplete(workers, pingOk, i);
    }
  }

  /** Probing two parts of the roster one after the other queues the
      workers of the first part, then those of the second. */
  lemma {:induction false} ResponsiveAppend(a: seq<string>, p: seq<bool>, b: seq<string>, q: seq<bool>)
    requires |p| == |a| && |q| == |b|
    ensures Responsive(a + b, p + q) == Responsive(a, p) + Responsive(b, q)
    decreases |b|
  {
    if b == [] {
      assert a + b == a && p + q == p;
    } else {
      var n := |b| - 1;
      assert (a + b)[..|a| + n] == a + b[..n];
      assert (p + q)[..|p| + n] == p + q[..n];
      ResponsiveAppend(a, p, b[..n], q[..n]);
    }
  }

  /** One roster entry is queued once exactly when its ping succeeds, so a
      name on the roster twice, with both pings successful, is queued
      twice. */
  lemma ResponsiveOne(w: string, ok: bool)
    ensures Responsive([w], [ok]) == if ok then [w] else []
  {
    assert [w][..0] == [] && [ok][..0] == [];
  }

  /** A sequence with no name twice holds each name at most once. */
  lemma {:induction false} DistinctCounts(s: seq<string>)
    requires forall i, j :: 0 <= i < j < |s| ==> s[i] != s[j]
    ensures forall w :: multiset(s)[w] <= 1
  {
    if s != [] {
      var n := |s| - 1;
      DistinctCounts(s[..n]);
      assert s == s[..n] + [s[n]];
      assert s[n] !in s[..n];
    }
  }

  /** With no name twice on the roster, no worker has two tokens in a job:
      the premise of `ExclusiveAssignment` in terms of the roster. */
  lemma DistinctRosterTokens(workers: seq<string>, pingOk: seq<bool>)
    requires |pingOk| == |workers|
    requires forall i, j :: 0 <= i < j < |workers| ==> workers[i] != workers[j]
    ensures forall w :: multiset(Responsive(workers, pingOk))[w] <= 1
  {
    ResponsiveSubset(workers, pingOk);
    DistinctCounts(workers);
  }

  /** Every worker token from the readiness probe is in exactly one place:
      its ping reply on the way to the ready queue, queued as ready, holding
      a buffer, released and waiting to be requeued, or dropped by the read
      that hit the end of the input. */
  ghost predicate Conserved(probing: seq<string>, inflight: seq<Assignment>, ready: seq<string>,
                            released: seq<string>, retired: multiset<string>, pool: multiset<string>)
  {
    multiset(probing) + multiset(Holders(inflight)) + multiset(ready) + multiset(released) + retired == pool
  }

  /** A name that occurs at most once in `s` does not occur at two positions. */
  lemma DistinctPositions(s: seq<string>, i: nat, j: nat)
    requires i < j < |s| && multiset(s)[s[j]] <= 1
    ensures s[i] != s[j]
  {
    assert s == s[..j] + [s[j]] + s[j + 1..];
    assert s[..j][i] == s[i];
    assert multiset(s)[s[j]] == multiset(s[..j])[s[j]] + 1 + multiset(s[j + 1..])[s[j]];
  }

  /** When no worker answered the probe twice (no name registered twice), no
      worker holds two buffers at once, and a worker holding a buffer is
      neither queued as ready nor waiting to be requeued. */
  lemma ExclusiveAssignment(probing: seq<string>, inflight: seq<Assignment>, ready: seq<string>,
                            released: seq<string>, retired: multiset<string>, pool: multiset<string>)
    requires Conserved(probing, inflight, ready, released, retired, pool)
    requires forall w :: pool[w] <= 1
    ensures forall i, j :: 0 <= i < j < |inflight| ==> inflight[i].worker != inflight[j].worker
    ensures forall i :: 0 <= i < |inflight| ==> inflight[i].worker !in ready && inflight[i].worker !in released
  {
    var hs := Holders(inflight);
    forall w
      ensures multiset(hs)[w] + multiset(ready)[w] + multiset(released)[w] <= 1
    {
      assert pool[w] == multiset(probing)[w] + multiset(hs)[w] + multiset(ready)[w] + multiset(released)[w] + retired[w];
    }
    forall i, j | 0 <= i < j < |inflight|
      ensures inflight[i].worker != inflight[j].worker
    {
      DistinctPositions(hs, i, j);
    }
    forall i | 0 <= i < |inflight|
      ensures inflight[i].worker !in ready && inflight[i].worker !in released
    {
      assert hs[i] in multiset(hs);
      assert multiset(ready)[hs[i]] == 0 && multiset(released)[hs[i]] == 0;
    }
  }

  /** The adder's sum plus the results still in flight is the digit sum of
      everything read so far. */
  ghost predicate SumAccounted(input: seq<byte>, cursor: nat, sum: int, inflight: seq<Assignment>) {
    cursor <= |input| && sum + InFlightSum(inflight) == DigitSum(input[..cursor])
  }

  /** While the file is open: the buffers sent so far, followed by those the
      remaining reads will produce, are the whole chunking of the input. */
  ghost predicate ChunksAccounted(input: seq<byte>, chunksize: nat, cursor: nat, dispatched: seq<seq<byte>>) {
    0 < chunksize && cursor <= |input| &&
    dispatched + ChunksFrom(input, chunksize, cursor) == ChunksFrom(input, chunksize, 0)
  }

  /** Once the file is closed: the buffers sent are the whole chunking of the
      input followed by `padding` all-zero buffers, one for each read on the
      closed file. */
  ghost predicate PaddingAccounted(input: seq<byte>, chunksize: nat, dispatched: seq<seq<byte>>, padding: nat) {
    0 < chunksize &&
    dispatched == ChunksFrom(input, chunksize, 0) + ZeroBuffers(chunksize, padding)
  }

  /** A snapshot of a job's changing state: the read offset, whether the
      file is closed (and the done signal sent), whether the dispatch loop
      still runs, the successful ping replies not yet queued, the ready
      queue, the buffers in flight, the workers waiting to be requeued, and
      the adder's sum. `pool`, `retired`, `dispatched` (every buffer sent to
      a worker, in order) and `padding` (how many of them were read from the
      closed file) are bookkeeping that the program itself does not keep. */
  datatype JobState = JobState(
    cursor: nat,
    closed: bool,
    continueWorking: bool,
    probing: seq<string>,
    ready: seq<string>,
    inflight: seq<Assignment>,
    released: seq<string>,
    sum: int,
    pool: multiset<string>,
    retired: multiset<string>,
    dispatched: seq<seq<byte>>,
    padding: nat)

  /** The state of a job before anything has happened. */
  function Start(): JobState {
    JobState(0, false, true, [], [], [], [], 0, multiset{}, multiset{}, [], 0)
  }

  /** The job invariant: everything read is accounted for, once, either in
      the sum or in flight; every worker token is in one place; the file is
      closed only once the whole input has been read, and the dispatch loop
      stops only after that. */
  ghost predicate Inv(input: seq<byte>, chunksize: nat, st: JobState) {
    && SumAccounted(input, st.cursor, st.sum, st.inflight)
    && (!st.closed ==> ChunksAccounted(input, chunksize, st.cursor, st.dispatched))
    && (st.closed ==> PaddingAccounted(input, chunksize, st.dispatched, st.padding))
    && Conserved(st.probing, st.inflight, st.ready, st.released, st.retired, st.pool)
    && (!st.closed ==> st.retired == multiset{} && st.padding == 0)
    && (st.closed ==> st.cursor == |input| && |st.retired| == 1)
    && (!st.continueWorking ==> st.closed)
  }

  /** What can happen next in a running job: a ping reply reaches the ready
      queue, the dispatch loop receives a ready worker or the done signal, a
      call on an in-flight buffer returns, `handleQueueing` requeues a
      worker; or nothing can. */
  datatype Event = PingReply(k: nat) | ReadyWorker | DoneJob | WorkReply(i: nat) | Requeue | Stuck

  /** Whether the event can happen in state `st`. */
  ghost predicate Enabled(st: JobState, e: Event) {
    match e
    case PingReply(k) => k < |st.probing|
    case ReadyWorker => st.continueWorking && st.ready != []
    case DoneJob => st.continueWorking && st.closed
    case WorkReply(i) => i < |st.inflight|
    case Requeue => st.released != []
    case Stuck => true
  }

  /** The pick used once a schedule has run out: it favours the done signal. */
  const DefaultPick: nat := 1

  /** The event the scheduler's pick `c` selects: `c % 5` names a kind of
      event and `c / 5` which ping reply or which call; when that event
      cannot happen, the first that can in a fixed order that favours
      finishing the job. */
  function Pick(canDispatch: bool, canFinish: bool, pings: nat, calls: nat, released: nat, c: nat): (e: Event)
    ensures e.PingReply? ==> e.k < pings
    ensures e.WorkReply? ==> e.i < calls
    ensures e == ReadyWorker ==> canDispatch
    ensures e == DoneJob ==> canFinish
    ensures e == Requeue ==> 0 < released
    ensures e == Stuck <==> !canDispatch && !canFinish && pings == 0 && calls == 0 && released == 0
    ensures c == DefaultPick && canFinish ==> e == DoneJob
  {
    var (kind, which) := (c % 5, c / 5);
    if kind == 0 && canDispatch then ReadyWorker
    else if kind == 1 && canFinish then DoneJob
    else if kind == 2 && 0 < released then Requeue
    else if kind == 3 && 0 < calls then WorkReply(which % calls)
    else if kind == 4 && 0 < pings then PingReply(which % pings)
    else if canFinish then DoneJob
    else if canDispatch then ReadyWorker
    else if 0 < calls then WorkReply(0)
    else if 0 < released then Requeue
    else if 0 < pings then PingReply(0)
    else Stuck
  }

  /** Every event that can happen is picked by some `c`, so a schedule can
      produce every interleaving of the job's events. */
  lemma PickCovers(canDispatch: bool, canFinish: bool, pings: nat, calls: nat, released: nat, i: nat, k: nat)
    ensures canDispatch ==> Pick(canDispatch, canFinish, pings, calls, released, 0) == ReadyWorker
    ensures canFinish ==> Pick(canDispatch, canFinish, pings, calls, released, 1) == DoneJob
    ensures 0 < released ==> Pick(canDispatch, canFinish, pings, calls, released, 2) == Requeue
    ensures i < calls ==> Pick(canDispatch, canFinish, pings, calls, released, 3 + 5 * i) == WorkReply(i)
    ensures k < pings ==> Pick(canDispatch, canFinish, pings, calls, released, 4 + 5 * k) == PingReply(k)
  {
    if i < calls {
      var c := 3 + 5 * i;
      DivUnique(c, 5, i);
      assert c % 5 == 3;
      DivUnique(i, calls, 0);
      assert i % calls == i;
    }
    if k < pings {
      var c := 4 + 5 * k;
      DivUnique(c, 5, k);
      assert c % 5 == 4;
      DivUnique(k, pings, 0);
      assert k % pings == k;
    }
  }

  /** A successful ping reply, any one of those still on their way, joins
      the back of the ready queue. */
  ghost function PingStep(st: JobState, k: nat): JobState
    requires k < |st.probing|
  {
    st.(probing := st.probing[..k] + st.probing[k + 1..], ready := st.ready + [st.probing[k]])
  }

  /** The dispatch loop receives the first ready worker and reads the next
      chunk into a fresh zero-filled buffer. A read that reports the end of
      the input closes the file, sends the done signal and drops the worker;
      any other read, including one on the closed file, sends the buffer to
      the worker. */
  ghost function DispatchStep(input: seq<byte>, chunksize: nat, st: JobState): JobState
    requires st.cursor <= |input| && st.ready != []
  {
    var r := if st.closed then ReadClosed(chunksize) else ReadAtLeast(input, st.cursor, chunksize);
    var popped := st.(cursor := st.cursor + r.n, ready := st.ready[1..]);
    if r.err == EOF then CloseStep(popped, st.ready[0]) else SendStep(popped, st.ready[0], r.buffer)
  }

  /** The read reported `io.EOF`: the file is closed, the done signal sent,
      and the worker `dropped` is not used again. */
  ghost function CloseStep(st: JobState, dropped: string): JobState {
    st.(closed := true, retired := st.retired + multiset{dropped})
  }

  /** A goroutine takes `buffer` to `target`; a buffer read from the closed
      file counts as padding. */
  ghost function SendStep(st: JobState, target: string, buffer: seq<byte>): JobState {
    st.(inflight := st.inflight + [Assignment(target, buffer)],
        dispatched := st.dispatched + [buffer],
        padding := if st.closed then st.padding + 1 else st.padding)
  }

  /** The dispatch loop receives the done signal and stops. */
  ghost function DoneStep(st: JobState): JobState {
    st.(continueWorking := false)
  }

  /** The call on the `i`-th in-flight buffer returns: its result is added to
      the sum and its worker is released. */
  ghost function CompleteStep(st: JobState, i: nat): JobState
    requires i < |st.inflight|
  {
    st.(sum := st.sum + DigitSum(st.inflight[i].buffer),
        inflight := st.inflight[..i] + st.inflight[i + 1..],
        released := st.released + [st.inflight[i].worker])
  }

  /** `handleQueueing` moves the longest-waiting released worker to the back
      of the ready queue. */
  ghost function RequeueStep(st: JobState): JobState
    requires st.released != []
  {
    st.(ready := st.ready + [st.released[0]], released := st.released[1..])
  }

  /** `k` turns of `handleQueueing` in a row. */
  ghost function RequeueTimes(st: JobState, k: nat): JobState
    requires k <= |st.released|
    decreases k
  {
    if k == 0 then st else RequeueTimes(RequeueStep(st), k - 1)
  }

  /** `handleQueueing` passes the released workers on unchanged and in the
      order they were released, behind the workers already ready. */
  lemma {:induction false} RequeueInOrder(st: JobState, k: nat)
    requires k <= |st.released|
    ensures RequeueTimes(st, k).ready == st.ready + st.released[..k]
    ensures RequeueTimes(st, k).released == st.released[k..]
    decreases k
  {
    if k > 0 {
      RequeueInOrder(RequeueStep(st), k - 1);
      assert st.released[1..][..k - 1] == st.released[1..k];
      assert st.released[1..][k - 1..] == st.released[k..];
      assert st.ready + [st.released[0]] + st.released[1..k] == st.ready + st.released[..k] by {
        assert st.released[..k] == [st.released[0]] + st.released[1..k];
      }
    }
  }

  /** The state after an event that can happen. */
  ghost function Apply(input: seq<byte>, chunksize: nat, st: JobState, e: Event): JobState
    requires st.cursor <= |input| && Enabled(st, e)
  {
    match e
    case PingReply(k) => PingStep(st, k)
    case ReadyWorker => DispatchStep(input, chunksize, st)
    case DoneJob => DoneStep(st)
    case WorkReply(i) => CompleteStep(st, i)
    case Requeue => RequeueStep(st)
    case Stuck => st
  }

  /** Reads still to come (the unread bytes, and the read that reports the
      end of the input) and the done signal still to be received. */
  ghost function Remaining(input: seq<byte>, st: JobState): nat {
    (if st.cursor <= |input| then |input| - st.cursor else 0) +
    (if st.closed then 0 else 1) + (if st.continueWorking then 1 else 0)
  }

  /** Ping replies still to queue, calls still to return and workers still to
      requeue: each in-flight buffer needs both of the last two. */
  ghost function Backlog(st: JobState): nat {
    |st.probing| + 2 * |st.inflight| + |st.released|
  }

  /** `st'` is closer to the end of the job than `st`. */
  ghost predicate Progress(input: seq<byte>, st: JobState, st': JobState) {
    Remaining(input, st') < Remaining(input, st) ||
    (Remaining(input, st') == Remaining(input, st) && Backlog(st') < Backlog(st))
  }

  /** A fresh job satisfies the invariant. */
  lemma InitialInv(input: seq<byte>, chunksize: nat)
    requires 0 < chunksize
    ensures Inv(input, chunksize, Start())
  {
    assert input[..0] == [];
  }

  /** Adding the workers whose probe succeeded keeps the invariant when they
      join the job's pool of tokens. */
  lemma ProbeInv(input: seq<byte>, chunksize: nat, st: JobState, queue: seq<string>)
    requires Inv(input, chunksize, st)
    ensures Inv(input, chunksize, st.(probing := st.probing + queue, pool := st.pool + multiset(queue)))
  {
  }

  /** Moving one worker from the middle of one sequence to the end of another
      changes no count. */
  lemma MoveToken(left: seq<string>, w: string, right: seq<string>, queue: seq<string>)
    ensures multiset(left + right) + multiset(queue + [w]) == multiset(left + [w] + right) + multiset(queue)
  {
  }

  /** A ping reply reaching the ready queue keeps the invariant. */
  lemma PingInv(input: seq<byte>, chunksize: nat, st: JobState, k: nat)
    requires Inv(input, chunksize, st) && k < |st.probing|
    ensures Inv(input, chunksize, PingStep(st, k))
    ensures Progress(input, st, PingStep(st, k))
  {
    PingConserved(st.probing, st.inflight, st.ready, st.released, st.retired, st.pool, k);
  }

  /** The `k`-th ping reply's token moves to the ready queue. */
  lemma PingConserved(probing: seq<string>, inflight: seq<Assignment>, ready: seq<string>,
                      released: seq<string>, retired: multiset<string>, pool: multiset<string>, k: nat)
    requires Conserved(probing, inflight, ready, released, retired, pool) && k < |probing|
    ensures Conserved(probing[..k] + probing[k + 1..], inflight, ready + [probing[k]], released, retired, pool)
  {
    var left, w, right := probing[..k], probing[k], probing[k + 1..];
    assert probing == left + [w] + right;
    MoveToken(left, w, right, ready);
  }

  /** A buffer's digit sum is that of the bytes read into it: the zero
      padding adds nothing. */
  lemma ReadDigitSum(input: seq<byte>, cursor: nat, size: nat)
    requires cursor <= |input|
    ensures var r := ReadAtLeast(input, cursor, size);
      DigitSum(r.buffer) == DigitSum(input[cursor..cursor + r.n])
  {
    var r := ReadAtLeast(input, cursor, size);
    assert r.buffer == input[cursor..cursor + r.n] + Zeros(size - r.n) by {
      assert r.buffer == r.buffer[..r.n] + r.buffer[r.n..];
      assert r.buffer[r.n..] == Zeros(size - r.n);
    }
    DigitSumPadded(input[cursor..cursor + r.n], size - r.n);
  }

  /** A buffer of digit sum `d` put in flight raises the in-flight total by
      `d`. */
  lemma InFlightSumPush(inflight: seq<Assignment>, a: Assignment)
    ensures InFlightSum(inflight + [a]) == InFlightSum(inflight) + DigitSum(a.buffer)
  {
    var inflight' := inflight + [a];
    assert inflight'[..|inflight'| - 1] == inflight;
  }

  /** A read that finds bytes puts them in flight, accounted for once. */
  lemma DispatchSumAccounted(input: seq<byte>, chunksize: nat, cursor: nat, sum: int,
                             inflight: seq<Assignment>, w: string)
    requires SumAccounted(input, cursor, sum, inflight)
    ensures var r := ReadAtLeast(input, cursor, chunksize);
      SumAccounted(input, cursor + r.n, sum, inflight + [Assignment(w, r.buffer)])
  {
    var r := ReadAtLeast(input, cursor, chunksize);
    ReadDigitSum(input, cursor, chunksize);
    assert input[..cursor + r.n] == input[..cursor] + input[cursor..cursor + r.n];
    DigitSumAppend(input[..cursor], input[cursor..cursor + r.n]);
    InFlightSumPush(inflight, Assignment(w, r.buffer));
  }

  /** The buffer a read produces is the next one in the chunking of the
      input. */
  lemma DispatchChunksAccounted(input: seq<byte>, chunksize: nat, cursor: nat, dispatched: seq<seq<byte>>)
    requires ChunksAccounted(input, chunksize, cursor, dispatched) && cursor < |input|
    ensures var r := ReadAtLeast(input, cursor, chunksize);
      ChunksAccounted(input, chunksize, cursor + r.n, dispatched + [r.buffer])
  {
    var r := ReadAtLeast(input, cursor, chunksize);
    assert ChunksFrom(input, chunksize, cursor) == [r.buffer] + ChunksFrom(input, chunksize, cursor + r.n);
    assert dispatched + [r.buffer] + ChunksFrom(input, chunksize, cursor + r.n)
        == dispatched + ChunksFrom(input, chunksize, cursor);
  }

  /** The popped worker now holds the dispatched buffer. */
  lemma DispatchConserved(probing: seq<string>, inflight: seq<Assignment>, ready: seq<string>,
                          released: seq<string>, retired: multiset<string>, pool: multiset<string>,
                          buffer: seq<byte>)
    requires Conserved(probing, inflight, ready, released, retired, pool) && ready != []
    ensures Conserved(probing, inflight + [Assignment(ready[0], buffer)], ready[1..], released, retired, pool)
  {
    assert ready == [ready[0]] + ready[1..];
    HoldersAppend(inflight, [Assignment(ready[0], buffer)]);
    assert Holders([Assignment(ready[0], buffer)]) == [ready[0]] by {
      assert [Assignment(ready[0], buffer)][..0] == [];
    }
  }

  /** The worker popped at the end of the input is dropped for good. */
  lemma RetireConserved(probing: seq<string>, inflight: seq<Assignment>, ready: seq<string>,
                        released: seq<string>, retired: multiset<string>, pool: multiset<string>)
    requires Conserved(probing, inflight, ready, released, retired, pool) && ready != []
    ensures Conserved(probing, inflight, ready[1..], released, retired + multiset{ready[0]}, pool)
  {
    assert ready == [ready[0]] + ready[1..];
  }

  /** The read that reports the end of the input keeps the invariant. */
  lemma DispatchEofInv(input: seq<byte>, chunksize: nat, st: JobState)
    requires Inv(input, chunksize, st) && st.continueWorking && st.ready != []
    requires !st.closed && st.cursor == |input|
    ensures Inv(input, chunksize, DispatchStep(input, chunksize, st))
  {
    RetireConserved(st.probing, st.inflight, st.ready, st.released, st.retired, st.pool);
    assert st.dispatched == ChunksFrom(input, chunksize, 0) + ZeroBuffers(chunksize, st.padding) by {
      assert ChunksFrom(input, chunksize, st.cursor) == [];
      assert st.dispatched + [] == st.dispatched;
      assert ZeroBuffers(chunksize, st.padding) == [];
    }
  }

  /** A read that finds bytes keeps the invariant. */
  lemma DispatchReadInv(input: seq<byte>, chunksize: nat, st: JobState)
    requires Inv(input, chunksize, st) && st.continueWorking && st.ready != []
    requires !st.closed && st.cursor < |input|
    ensures Inv(input, chunksize, DispatchStep(input, chunksize, st))
  {
    var r := ReadAtLeast(input, st.cursor, chunksize);
    DispatchConserved(st.probing, st.inflight, st.ready, st.released, st.retired, st.pool, r.buffer);
    DispatchSumAccounted(input, chunksize, st.cursor, st.sum, st.inflight, st.ready[0]);
    DispatchChunksAccounted(input, chunksize, st.cursor, st.dispatched);
  }

  /** A read on the closed file sends an all-zero buffer, which adds nothing
      to the sum: the invariant is kept. */
  lemma DispatchClosedInv(input: seq<byte>, chunksize: nat, st: JobState)
    requires Inv(input, chunksize, st) && st.continueWorking && st.ready != [] && st.closed
    ensures Inv(input, chunksize, DispatchStep(input, chunksize, st))
  {
    DispatchConserved(st.probing, st.inflight, st.ready, st.released, st.retired, st.pool, Zeros(chunksize));
    InFlightSumPush(st.inflight, Assignment(st.ready[0], Zeros(chunksize)));
    DigitSumZeros(chunksize);
    PaddingPush(input, chunksize, st.dispatched, st.padding);
  }

  /** One more all-zero buffer keeps the buffers sent accounted for. */
  lemma PaddingPush(input: seq<byte>, chunksize: nat, dispatched: seq<seq<byte>>, padding: nat)
    requires PaddingAccounted(input, chunksize, dispatched, padding)
    ensures PaddingAccounted(input, chunksize, dispatched + [Zeros(chunksize)], padding + 1)
  {
    ZeroBuffersPush(chunksize, padding);
    var cs := ChunksFrom(input, chunksize, 0);
    assert cs + ZeroBuffers(chunksize, padding) + [Zeros(chunksize)] == cs + (ZeroBuffers(chunksize, padding) + [Zeros(chunksize)]);
  }

  /** Dispatching keeps the invariant; unless the file is already closed, it
      leaves fewer reads to come. */
  lemma DispatchInv(input: seq<byte>, chunksize: nat, st: JobState)
    requires Inv(input, chunksize, st) && st.continueWorking && st.ready != []
    ensures Inv(input, chunksize, DispatchStep(input, chunksize, st))
    ensures !st.closed ==> Remaining(input, DispatchStep(input, chunksize, st)) < Remaining(input, st)
  {
    if st.closed {
      DispatchClosedInv(input, chunksize, st);
    } else if st.cursor == |input| {
      DispatchEofInv(input, chunksize, st);
    } else {
      DispatchReadInv(input, chunksize, st);
    }
  }

  lemma HoldersSplit(left: seq<Assignment>, a: Assignment, right: seq<Assignment>)
    ensures Holders(left + [a] + right) == Holders(left) + [a.worker] + Holders(right)
  {
    HoldersAppend(left + [a], right);
    HoldersAppend(left, [a]);
    assert Holders([a]) == [a.worker] by {
      assert [a][..0] == [];
    }
  }

  /** Removing the completed buffer and releasing its worker moves one token
      from in flight to released. */
  lemma CompleteConserved(probing: seq<string>, inflight: seq<Assignment>, ready: seq<string>,
                          released: seq<string>, retired: multiset<string>, pool: multiset<string>, i: nat)
    requires Conserved(probing, inflight, ready, released, retired, pool) && i < |inflight|
    ensures Conserved(probing, inflight[..i] + inflight[i + 1..], ready, released + [inflight[i].worker], retired, pool)
  {
    var left, a, right := inflight[..i], inflight[i], inflight[i + 1..];
    assert inflight == left + [a] + right;
    HoldersSplit(left, a, right);
    HoldersAppend(left, right);
    MoveToken(Holders(left), a.worker, Holders(right), released);
  }

  /** The return of any in-flight call keeps the invariant, whichever it is. */
  lemma CompleteInv(input: seq<byte>, chunksize: nat, st: JobState, i: nat)
    requires Inv(input, chunksize, st) && i < |st.inflight|
    ensures Inv(input, chunksize, CompleteStep(st, i))
    ensures Progress(input, st, CompleteStep(st, i))
  {
    InFlightSumRemove(st.inflight, i);
    CompleteConserved(st.probing, st.inflight, st.ready, st.released, st.retired, st.pool, i);
  }

  /** Requeueing keeps the invariant. */
  lemma RequeueInv(input: seq<byte>, chunksize: nat, st: JobState)
    requires Inv(input, chunksize, st) && st.released != []
    ensures Inv(input, chunksize, RequeueStep(st))
    ensures Progress(input, st, RequeueStep(st))
  {
    assert st.released == [st.released[0]] + st.released[1..];
  }

  /** Every event that can happen keeps the invariant and the pool of tokens;
      all but a read on the closed file bring the job closer to its end. */
  lemma EventInv(input: seq<byte>, chunksize: nat, st: JobState, e: Event)
    requires Inv(input, chunksize, st) && Enabled(st, e) && e != Stuck
    ensures Inv(input, chunksize, Apply(input, chunksize, st, e))
    ensures Apply(input, chunksize, st, e).pool == st.pool
    ensures !(e == ReadyWorker && st.closed) ==> Progress(input, st, Apply(input, chunksize, st, e))
  {
    match e
    case PingReply(k) => PingInv(input, chunksize, st, k);
    case ReadyWorker => DispatchInv(input, chunksize, st);
    case DoneJob =>
    case WorkReply(i) => CompleteInv(input, chunksize, st, i);
    case Requeue => RequeueInv(input, chunksize, st);
  }

  /** Whatever event the select picks, a job that is not over either goes on
      by an event that keeps the invariant and the pool, or has no worker at
      all; a pick that takes a pending done signal first always brings the
      job closer to its end. */
  lemma ChoiceInv(input: seq<byte>, chunksize: nat, st: JobState, e: Event, favourDone: bool)
    requires Inv(input, chunksize, st)
    requires st.continueWorking || st.inflight != [] || st.released != []
    requires e != Stuck ==> Enabled(st, e)
    requires e == Stuck ==> !(st.continueWorking && (st.ready != [] || st.closed)) &&
                            st.probing == [] && st.inflight == [] && st.released == []
    requires favourDone && st.continueWorking && st.closed ==> e == DoneJob
    ensures e == Stuck ==> st.pool == multiset{}
    ensures e != Stuck ==>
      && Inv(input, chunksize, Apply(input, chunksize, st, e))
      && Apply(input, chunksize, st, e).pool == st.pool
      && (favourDone ==> Progress(input, st, Apply(input, chunksize, st, e)))
  {
    if e == Stuck {
      BlockedInv(input, chunksize, st);
    } else {
      EventInv(input, chunksize, st, e);
    }
  }

  /** If the dispatch loop still runs, the file is open, and no ping reply,
      ready worker, in-flight buffer or released worker is left, then no
      worker answered the probe. */
  lemma BlockedInv(input: seq<byte>, chunksize: nat, st: JobState)
    requires Inv(input, chunksize, st) && !st.closed
    requires st.probing == [] && st.ready == [] && st.inflight == [] && st.released == []
    ensures st.pool == multiset{}
  {
    assert Holders([]) == [];
  }

  /** Once the dispatch loop has stopped and nothing is in flight, the sum is
      the digit sum of the whole input, and the buffers sent are its whole
      chunking followed only by all-zero buffers read from the closed file. */
  lemma FinishedInv(input: seq<byte>, chunksize: nat, st: JobState)
    requires Inv(input, chunksize, st) && !st.continueWorking && st.inflight == []
    ensures st.sum == DigitSum(input)
    ensures st.dispatched == ChunksFrom(input, chunksize, 0) + ZeroBuffers(chunksize, st.padding)
    ensures |st.dispatched| == (|input| + chunksize - 1) / chunksize + st.padding
    ensures st.sum == SumOfDigitSums(st.dispatched)
    ensures st.pool != multiset{}
  {
    assert input[..|input|] == input;
    assert st.retired <= st.pool;
    PaddedChunks(input, chunksize, st.padding);
  }

  /** `wg.Wait()` as written: each in-flight buffer's goroutine runs
      `wg.Add(1)` only once it has started, so the wait returns as soon as no
      released worker is left and no in-flight goroutine has started.
      `started[j]` says whether the goroutine of the `j`-th in-flight buffer
      has run its `wg.Add(1)`. */
  predicate WaitReturnsAsWritten(st: JobState, started: seq<bool>)
    requires |started| == |st.inflight|
  {
    st.released == [] && forall j :: 0 <= j < |started| ==> !started[j]
  }

  /** The job on "1" in chunks of one byte, with workers "a" and "b" both
      answering the probe: both ping replies arrive, "a" receives the only
      chunk, "b" reads the end of the input, and the done signal is received.
      If the goroutine of "a" has not yet run `wg.Add(1)`, the wait as written
      returns with that chunk still in flight, and the answer is 0 where the
      digit sum of the input is 1. */
  lemma EarlyWaitLosesChunk()
    ensures var input: seq<byte> := [49];
      var st0 := Start().(probing := ["a", "b"], pool := multiset{"a", "b"});
      var st1 := PingStep(st0, 0);
      var st2 := PingStep(st1, 0);
      var st3 := DispatchStep(input, 1, st2);
      var st4 := DispatchStep(input, 1, st3);
      var st5 := DoneStep(st4);
      && Responsive(["a", "b"], [true, true]) == st0.probing
      && st4.continueWorking && st4.closed
      && |st5.inflight| == 1 && WaitReturnsAsWritten(st5, [false])
      && st5.sum == 0 && DigitSum(input) == 1
  {
    var input: seq<byte> := [49];
    var st0 := Start().(probing := ["a", "b"], pool := multiset{"a", "b"});
    assert Responsive(["a", "b"], [true, true]) == ["a", "b"] by {
      assert ["a", "b"][..1] == ["a"];
      assert [true, true][..1] == [true];
      assert ["a"][..0] == [] && [true][..0] == [];
    }
    var st2 := PingStep(PingStep(st0, 0), 0);
    assert st2.ready == ["a", "b"] && st2.probing == [];
    var r := ReadAtLeast(input, 0, 1);
    assert r.n == 1 && r.err == Nil;
    var st3 := DispatchStep(input, 1, st2);
    assert st3.cursor == 1 && st3.ready == ["b"] && |st3.inflight| == 1;
    assert DigitSum(input) == 1 by {
      assert input[..0] == [];
    }
  }

  /** The job on "1" in chunks of one byte with three ready workers: "a"
      receives the only chunk and "b" reads the end of the input. The done
      signal is now pending, and so is the ready worker "c"; if the select
      takes "c", it reads the closed file and is sent an all-zero buffer,
      a second call for a one-byte input. */
  lemma ZeroBufferAfterClose()
    ensures var input: seq<byte> := [49];
      var st0 := Start().(ready := ["a", "b", "c"], pool := multiset{"a", "b", "c"});
      var st2 := DispatchStep(input, 1, DispatchStep(input, 1, st0));
      var st3 := DispatchStep(input, 1, st2);
      && Enabled(st2, DoneJob) && Enabled(st2, ReadyWorker)
      && st3.inflight == [Assignment("a", [49]), Assignment("c", [0])]
      && st3.dispatched == ChunksFrom(input, 1, 0) + ZeroBuffers(1, 1)
  {
    var input: seq<byte> := [49];
    assert ReadAtLeast(input, 0, 1).buffer == [49];
    assert Zeros(1) == [0];
    assert ChunksFrom(input, 1, 0) == [[49]] by {
      assert ChunksFrom(input, 1, 1) == [];
    }
  }

  /** The transient state of one `DoAddJob` call. */
  class Job {
    const balancer: string
    const input: seq<byte>
    const chunksize: nat
    var cursor: nat
    var closed: bool
    var continueWorking: bool
    var probing: seq<string>
    var ready: seq<string>
    var inflight: seq<Assignment>
    var released: seq<string>
    var sum: int
    ghost var pool: multiset<string>
    ghost var retired: multiset<string>
    ghost var dispatched: seq<seq<byte>>
    ghost var padding: nat

    ghost function State(): JobState
      reads this
    {
      JobState(cursor, closed, continueWorking, probing, ready, inflight, released, sum, pool, retired, dispatched, padding)
    }

    /** The job invariant holds of the current state. */
    ghost predicate Valid()
      reads this
    {
      Inv(input, chunksize, State())
    }

    constructor (balancer: string, input: seq<byte>, chunksize: nat)
      ensures this.balancer == balancer && this.input == input && this.chunksize == chunksize
      ensures State() == Start()
    {
      this.balancer := balancer;
      this.input := input;
      this.chunksize := chunksize;
      cursor := 0;
      closed := false;
      continueWorking := true;
      probing := [];
      ready := [];
      inflight := [];
      released := [];
      sum := 0;
      pool := multiset{};
      retired := multiset{};
      dispatched := [];
      padding := 0;
    }

    /** The readiness probe: one ping per roster entry; `pingOk[i]` says
        whether the call on the `i`-th entry gets through. The entries whose
        reply comes back with `Success` are on their way to the ready queue,
        and these are all the worker tokens of the job. */
    method Probe(workers: seq<string>, pingOk: seq<bool>)
      requires |pingOk| == |workers|
      modifies this
      ensures State() == old(State()).(probing := old(probing) + Responsive(workers, pingOk),
                                       pool := old(pool) + multiset(Responsive(workers, pingOk)))
    {
      var answered := [];
      for i := 0 to |workers|
        invariant answered == Responsive(workers[..i], pingOk[..i])
        invariant unchanged(this)
      {
        assert workers[..i + 1][..i] == workers[..i] && pingOk[..i + 1][..i] == pingOk[..i];
        var reply := PingWorkerReply(false);
        if pingOk[i] {
          var target := new Worker(workers[i]);
          reply := target.PingWorker(PingWorkerArgs(balancer));
        }
        if reply.success {
          answered := answered + [workers[i]];
        }
      }
      assert workers[..|workers|] == workers && pingOk[..|pingOk|] == pingOk;
      probing, pool := probing + answered, pool + multiset(answered);
    }

    /** The `k`-th ping reply still on its way joins the ready queue. */
    method ReceivePing(k: nat)
      requires k < |probing|
      modifies this
      ensures State() == PingStep(old(State()), k)
    {
      ready, probing := ready + [probing[k]], probing[..k] + probing[k + 1..];
    }

    /** The dispatch loop receives a ready worker: pop it, read the next
        chunk into a fresh zero-filled buffer, and on `io.EOF` close the file,
        send the done signal and drop the worker; otherwise hand the buffer to
        the worker. */
    method Dispatch()
      requires cursor <= |input| && ready != []
      modifies this
      ensures State() == DispatchStep(input, chunksize, old(State()))
    {
      ghost var st := State();
      var target := ready[0];
      var r := if closed then ReadClosed(chunksize) else ReadAtLeast(input, cursor, chunksize);
      cursor, ready := cursor + r.n, ready[1..];
      assert State() == st.(cursor := st.cursor + r.n, ready := st.ready[1..]);
      if r.err == EOF {
        CloseFile(target);
      } else {
        StartCall(target, r.buffer);
      }
    }

    /** `file.Close()` and the done signal; the worker `dropped` is not
        requeued. */
    method CloseFile(dropped: string)
      modifies this
      ensures State() == CloseStep(old(State()), dropped)
    {
      closed, retired := true, retired + multiset{dropped};
    }

    /** `go func(...)`: the buffer is on its way to `target`. */
    method StartCall(target: string, buffer: seq<byte>)
      modifies this
      ensures State() == SendStep(old(State()), target, buffer)
    {
      inflight := inflight + [Assignment(target, buffer)];
      dispatched := dispatched + [buffer];
      if closed {
        padding := padding + 1;
      }
    }

    /** The dispatch loop receives the done signal and stops. */
    method ReceiveDone()
      modifies this
      ensures State() == DoneStep(old(State()))
    {
      continueWorking := false;
    }

    /** The call on the `i`-th in-flight buffer returns: the worker computes
        the buffer's digit sum, the adder adds it, and the worker is released.
        Any in-flight call may be the next to return. */
    method Complete(i: nat)
      requires i < |inflight|
      modifies this
      ensures State() == CompleteStep(old(State()), i)
    {
      var a := inflight[i];
      var target := new Worker(a.worker);
      var reply := target.DoAddWork(DoAddWorkArgs(balancer, a.buffer));
      sum, inflight, released := sum + reply.result, inflight[..i] + inflight[i + 1..], released + [a.worker];
    }

    /** One turn of `handleQueueing`: the longest-waiting released worker is
        passed on to the ready queue. */
    method HandleQueueing()
      requires released != []
      modifies this
      ensures State() == RequeueStep(old(State()))
    {
      var worker := released[0];
      released := released[1..];
      ready := ready + [worker];
    }

    /** The select of the dispatch loop, the adder and `handleQueueing`
        taken together: the event that the pick `c` selects now. */
    method Choose(c: nat) returns (e: Event)
      ensures e != Stuck ==> Enabled(State(), e)
      ensures e == Stuck <==> !(continueWorking && (ready != [] || closed)) &&
                              probing == [] && inflight == [] && released == []
      ensures c == DefaultPick && continueWorking && closed ==> e == DoneJob
    {
      e := Pick(continueWorking && ready != [], continueWorking && closed,
                |probing|, |inflight|, |released|, c);
    }

    /** The event `e` happens. */
    method Perform(e: Event)
      requires cursor <= |input| && Enabled(State(), e)
      modifies this
      ensures State() == Apply(input, chunksize, old(State()), e)
    {
      match e
      case PingReply(k) => ReceivePing(k);
      case ReadyWorker => Dispatch();
      case DoneJob => ReceiveDone();
      case WorkReply(i) => Complete(i);
      case Requeue => HandleQueueing();
      case Stuck =>
    }

    /** The job's goroutines run until the dispatch loop has stopped and
        every call has returned and every worker has been requeued, the
        events picked by `schedule` and then by the default pick; `stuck`
        reports that nothing could happen any more. */
    method Run(schedule: seq<nat>) returns (stuck: bool)
      requires Valid()
      modifies this
      ensures Valid() && pool == old(pool)
      ensures stuck ==> pool == multiset{}
      ensures !stuck ==> !continueWorking && inflight == []
    {
      var step := 0;
      while continueWorking || inflight != [] || released != []
        invariant Valid() && pool == old(pool)
        decreases if step < |schedule| then |schedule| - step else 0,
                  Remaining(input, State()), Backlog(State())
      {
        var c := if step < |schedule| then schedule[step] else DefaultPick;
        var e := Choose(c);
        ChoiceInv(input, chunksize, State(), e, c == DefaultPick);
        if e == Stuck {
          return true;
        }
        Perform(e);
        step := step + 1;
      }
      return false;
    }
  }

  /** The coordinator: its endpoint name and its roster. */
  class Balancer {
    const address: string
    var workers: seq<string>

    /** A balancer starts with an empty roster. */
    constructor (address: string)
      ensures this.address == address && workers == []
    {
      this.address := address;
      workers := [];
    }

    /** A worker joins at the end of the roster; nothing is deduplicated. */
    method Register(args: RegisterArgs) returns (reply: RegisterReply)
      modifies this`workers
      ensures workers == old(workers) + [args.worker]
      ensures reply.success
    {
      workers := workers + [args.worker];
      reply := RegisterReply(true);
    }

    /** Sums the digits of `input` with chunks of `chunksize` bytes. `pingOk`
        says, per roster entry, whether its readiness probe gets through;
        `schedule` picks, event by event, what happens next, standing for the
        goroutines' interleaving. Whatever the schedule and the chunk size,
        the answer is the digit sum of the whole input, and the job waits
        forever exactly when no probe got through. */
    method DoAddJob(input: seq<byte>, chunksize: nat, pingOk: seq<bool>, schedule: seq<nat>)
      returns (outcome: JobOutcome, ghost chunks: seq<seq<byte>>, ghost extra: nat)
      requires 0 < chunksize && |pingOk| == |workers|
      ensures outcome == if exists i :: 0 <= i < |pingOk| && pingOk[i] then Answer(DigitSum(input)) else Blocked
      ensures outcome.Answer? ==> chunks == ChunksFrom(input, chunksize, 0) + ZeroBuffers(chunksize, extra)
      ensures outcome.Answer? ==> |chunks| == (|input| + chunksize - 1) / chunksize + extra
      ensures outcome.Answer? ==> outcome.value == SumOfDigitSums(chunks)
    {
      var job := new Job(address, input, chunksize);
      InitialInv(input, chunksize);
      ProbeInv(input, chunksize, job.State(), Responsive(workers, pingOk));
      job.Probe(workers, pingOk);
      ResponsiveEmpty(workers, pingOk);
      var stuck := job.Run(schedule);
      if stuck {
        // Nothing can happen: the dispatch loop waits forever for a ready worker.
        return Blocked, [], 0;
      }
      FinishedInv(input, chunksize, job.State());
      outcome, chunks, extra := Answer(job.sum), job.dispatched, job.padding;
    }
  }
}
