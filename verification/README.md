# Verification of Reactor-NetworkLibrary

A Dafny 4.11 model of the stateful cores of the library, with proofs of the
properties those cores rely on. `dafny verify dfyconfig.toml` checks all of it.
Nothing here runs the library: the models are read off its source files, which
are cited below by path and line.

| files | models |
|---|---|
| `Framing.dfy`, `Bytes.dfy` | the length-prefixed message format and the echo server's incremental parser |
| `Buffer.dfy` | the growable, compacting byte buffer, on a real array |
| `Kernel.dfy` | a socket and an edge-triggered epoll with arbitrary choices |
| `Connection.dfy` | reading, echoing, partial writes, write interest, event dispatch |
| `LogSpec.dfy`, `LogTheorems.dfy`, `LogProgress.dfy` | the double-buffered logger as a protocol on values, and what it guarantees |
| `AsyncLogging.dfy` | the same logger as objects that change hands |
| `TableSpec.dfy`, `LruList.dfy`, `EventLoop.dfy` | the LRU list with its index, the delayed deletions and the time-out sweep |
| `ServerSpec.dfy`, `ServerTheorems.dfy` | all loops and the accepting thread sharing the owner map, over whole runs |
| `ServerRuns.dfy`, `ServerGuards.dfy` | runs in which descriptors clash or sweeps are not exact, and what keeps them from happening |
| `HandOff.dfy`, `TaskLoop.dfy` | send tasks from other threads, woken through an eventfd |
| `ThreadPool.dfy` | the worker pool |
| `WorkerEcho.dfy` | the echo server with worker threads: the pool and the hand-off run together |
| `StressClient.dfy` | the load generator's own in-place decoder |

## How it is put together

Concurrent cores are state machines whose steps are the lock regions (and the
unlocked tests between them); a run is any sequence of steps, so it covers every
interleaving. Each core that updates objects in place is also a class, and its
methods are proved to take the abstract state exactly where the machine, or a
function on sequences, says. Kernel and scheduler choices are nondeterministic.

The main results:

- **Byte path.** However a stream is cut into reads and writes, the bytes sent and
  the output buffer together are the replies to the messages parsed from all bytes
  received, in order (`Echo`), and an open connection with unsent bytes is watched
  for writability with an edge pending or still to come (`Alert`). Both are kept by
  every method and over any number of event-loop rounds (`Serve`), and so is that the
  connection is watched for reading, edge-triggered, and closed only for a reason
  (`Reason`). A client that parses the replies finds "reply: " and its message. The parser's
  verdicts are independent of the cut exactly for the headers `StableHeader` names,
  and parsing is then invariant under chunking. Its loop is left exactly when the
  stream is not whole frames followed by an incomplete one of 64 MiB or more.
- **Logger.** A run is free of null dereferences, of `back()` on an empty vector and
  of overruns exactly when every record fits a buffer. Nothing is lost exactly when
  no batch ever exceeded 25 buffers; otherwise precisely the third and later buffers
  of such batches are, and each is counted in a notice; a burst of 26 large records
  is enough (`LongBatchLoses`), and a burst of more than 52 million bytes between two
  batches is needed (`LossNeedsABurst`). Before `stop` the back end never returns, and
  everything appended is written within seven of its steps; after it, it returns within
  eight steps and one further batch.
- **Connection tables.** A clash is the erasure of a descriptor that is listed, or that
  createconnection is still working on. Index and list are in bijection, every listed
  connection is owned, every owned one is listed or on its way in or out, and the list
  is in LRU order, in every state of exactly the runs without a clash; ownership alone
  characterises the same runs. Without a clash the branch for a dead weak pointer is
  never taken and a reused descriptor finds nothing stale; a sweep misses nothing idle
  for the interval plus d, where d is how long a stamp and its list move can be apart;
  its early break is exact, in every reachable state, if and only if d is 0 (or the
  interval is not positive); an active connection outlives every sweep within the
  interval; and a closed one is gone at the end of its round.
  Clashes do happen, for any number of loops and any interval: a failed send closes a
  connection without refreshing its time stamp, a sweep in the same round takes it, and
  its descriptor is accepted again before the late deletion. The same can destroy, without
  a clash, a connection that was neither closed nor late. Neither happens if accept
  returns no descriptor that its loop has yet to erase; and it never does if no sweep
  takes a connection whose deletion is delayed.
- **Hand-off.** No wake-up is lost exactly when the loop is not the main loop and the
  eventfd write is positive; tasks run once, in queue order, and in each sender's order.
  The bytes that enter a connection's output buffer, from any number of threads,
  interleaved with wake-ups, partial sends and acknowledgements, are whole messages:
  an interleaving of what each thread sent, in its own order (`Session`).
- **Thread pool.** From any reachable state, stop and the workers' own steps lead to where
  all have returned, however they are scheduled. Once all workers have returned, exactly the tasks added after the
  last of them did are left unrun; every other one has run once, in order. With worker
  threads, every delivered message is answered at most once, on its own connection, and
  exactly once when the pool has settled and the queue is drained.

Where the code and its comments differ, the code is followed:

- src/EventLoop.cpp:187 says that no connection is expired once the last one is not.
  That holds only for d = 0 (`ServerRuns.SweepIsExactOnlyIfPrompt`); for every
  other d, `OvertakenWhileStamped` is a run in which it fails.
- src/Connection.cpp:210 speaks of the read event; the code drops the write event.
- src/AsyncLogging.cpp:68 speaks of three front-end buffers; there can be any number.

## Model

| member | source | states |
|---|---|---|
| Bytes.Read32Big32 | src/Buffer.cpp:53-58 | reading four bytes in network order undoes writing them |
| Bytes.NetworkOrder | src/Buffer.cpp:53-58 | the first byte counts most and each next one 256 times less |
| Bytes.NumbersCompareAsBytes | src/Buffer.cpp:53-58 | numbers are ordered as their bytes are, the first difference deciding |
| Framing.ExamineComplete | example/EchoServer.cpp:44-50 | a turn of the parser delivers what the two retrievals of the source return, for negative lengths too |
| Framing.StableLasts | example/EchoServer.cpp:44-72 | with a stable header, a verdict on the bytes at hand is not changed by later bytes |
| Framing.StableHeadersExactly | example/EchoServer.cpp:44-72 | the headers below -4, in [0, 64 MiB) and from 2^31 - 4 on, where the sum wraps, are exactly those on which no verdict depends on how the stream was cut |
| Framing.Chunking | example/EchoServer.cpp:44-72 | parsing a, then its leftover with b, gives the messages and leftover of parsing a + b |
| Framing.FeedIsParse | example/EchoServer.cpp:44-72 | feeding a stream in any number of chunks of any size delivers what parsing it at once delivers, and leaves the same or stops at the same frame |
| Framing.SpinsExactly | example/EchoServer.cpp:64-67 | the oversized branch is entered if and only if the stream is whole frames and then an incomplete one of 64 MiB or more |
| Framing.LoopLeavesExactly | example/EchoServer.cpp:44-72 | the parser's loop is left if and only if the stream is not of that form, and then with the unparsed suffix |
| Framing.OversizedNeverLeaves | example/EchoServer.cpp:64-67 | on the length prefix of 64 MiB and one more byte the loop is never left |
| Framing.RoundTrip | example/EchoServer.cpp:44-50 | decoding the encodings of any messages below 64 MiB gives the messages; a final empty one is held back |
| Framing.RepliesRead | example/EchoServer.cpp:107-120 | each reply is the text "reply: " followed by exactly its message |
| Framing.RepliesDecode | example/EchoServer.cpp:107-120 | the reply stream decodes to one reply for each message: seven more bytes, the text "reply: ", and the message |
| Buffers.Buffer.constructor | src/Buffer.cpp:7-13 | an empty buffer of the initial size plus the prefix |
| Buffers.Buffer.ReadableBytes | src/Buffer.cpp:17-20 | the length of the byte queue |
| Buffers.Buffer.PeekInt32 | src/Buffer.cpp:53-58 | the queue's first four bytes as a signed number in network order |
| Buffers.Buffer.Retrieve | src/Buffer.cpp:62-79 | drops the given number of bytes off the front, or all; an empty buffer has both indices at 8 |
| Buffers.Buffer.RetrieveAsString | src/Buffer.cpp:82-96 | splits the queue: what is returned followed by what stays is what was there |
| Buffers.Buffer.MakeSpace | src/Buffer.cpp:139-152 | at least len bytes become writable, the queue is unchanged, the storage stays within twice the bytes that will be readable plus 7 |
| Buffers.Buffer.Compact | src/Buffer.cpp:147-150 | the upward copy onto an overlapping region keeps the queue |
| Buffers.Buffer.EnsureWritableBytes | src/Buffer.cpp:118-124 | as MakeSpace, when it is needed |
| Buffers.Buffer.Append | src/Buffer.cpp:104-109 | the queue grows by the data; the storage stays within the bound given by the peak number of readable bytes |
| Buffers.Buffer.Scatter | src/Buffer.cpp:176-184 | the bytes of a scatter read join the queue in order across the two regions |
| Buffers.Buffer.ReadFd | src/Buffer.cpp:155-187 | the socket is offered the writable bytes, and 64 KiB more if they are fewer; exactly the bytes it handed over join the queue |
| Connections.Channel.Update | src/Epoll.cpp:21-48 | the kernel watches what the mask says, and reports writability that already holds |
| Connections.Channel.EnableReading | src/Channel.cpp:80-84 | sets the read bit only, and registers the mask |
| Connections.Channel.EnableWriting | src/Channel.cpp:94-98 | sets the write bit only, and registers the mask |
| Connections.Channel.DisableWriting | src/Channel.cpp:101-105 | clears the write bit only, and registers the mask |
| Connections.Connection.constructor | src/Connection.cpp:7-27 | a fresh, edge-triggered connection has echoed nothing, is open and is not watched yet |
| Connections.Connection.AddToEpoll | src/Connection.cpp:220-223 | the kernel watches for reads, edge-triggered, which establishes the write-interest invariant |
| Connections.Connection.WriteTo | src/Connection.cpp:226-230 | the message joins the output buffer whole, writability is watched, and an edge is pending or the send buffer is full |
| Connections.Connection.OnMessage | example/EchoServer.cpp:107-120 | queues one frame: its length, the text "reply: " and the message |
| Connections.Connection.HandleOnMessage | example/EchoServer.cpp:42-80 | consumes what Parse consumes, queues the replies to what Parse delivers, closes exactly when Parse spins |
| Connections.Connection.ReadAll | src/Connection.cpp:84-128 | reads until neither bytes nor an interruption come; closes exactly on end of stream with nothing buffered or on an error other than EAGAIN |
| Connections.Connection.OnReadable | src/Connection.cpp:77-131 | keeps the echo refinement and the write-interest invariant, refreshes the time stamp, and closes only for a reason |
| Connections.Connection.SendAll | src/Connection.cpp:180-208 | bytes move from the buffer to the kernel in order; it stops when all are sent, the send buffer is full, or the connection fails |
| Connections.Connection.SendTo | src/Connection.cpp:176-217 | nothing sent is lost or reordered; write interest is dropped exactly when the buffer is empty; afterwards no output is stranded; it closes exactly if a send fails for good |
| Connections.Connection.HandleEvents | src/Channel.cpp:122-146 | one dispatch keeps both invariants, and replies to what was just read are sent in the same dispatch as far as there is room |
| Connections.Connection.Round | src/EventLoop.cpp:34-71 | one round, with any kernel and peer behaviour, keeps both invariants |
| Connections.Connection.Serve | src/EventLoop.cpp:34-71 | after any number of rounds with any kernel and peer behaviour: both invariants, still watched for reading, and closed only if the peer closed, the kernel failed or an oversized frame came |
| Connections.EchoedHandles | example/EchoServer.cpp:42-80 | handling the buffered bytes turns an echo of what was handled into an echo of everything received |
| Connections.EchoRoundTrip | example/EchoServer.cpp:42-120 | a client that sends encodings, in any pieces, decodes from what it gets back, for each message, "reply: " and that message |
| LogSpec.PutIsDefined | src/AsyncLogging.cpp:48-76 | an append is free of undefined behaviour exactly when the record fits a buffer |
| LogSpec.PutIsSound | src/AsyncLogging.cpp:48-76 | an append keeps ownership, conservation and order |
| LogSpec.TakeIsSound | src/AsyncLogging.cpp:90-114 | taking a batch is safe, and keeps ownership, conservation and order |
| LogSpec.RecycleRestores | src/AsyncLogging.cpp:141-162 | both unchecked back() calls are safe, and both spares end up empty |
| LogSpec.BackStepIsSound | src/AsyncLogging.cpp:87-163 | every back-end step is safe and keeps the invariant |
| LogSpec.RunIsSound | src/AsyncLogging.cpp:48-163 | under every interleaving a run is defined exactly when every record fits, and keeps the invariant |
| LogTheorems.BuffersAtLoopHead | src/AsyncLogging.cpp:59-71 | at the loop head there are 4 + max(0, queued - 1) buffers, and both spares are there and empty |
| LogTheorems.UpToNulIsAll | src/AsyncLogging.cpp:136 | writing as a C string loses nothing exactly when there is no NUL |
| LogTheorems.OutputIsSurvivors | src/AsyncLogging.cpp:117-138 | the output is the surviving buffers byte for byte and in order, and the notices count all others |
| LogTheorems.NothingLostExactly | src/AsyncLogging.cpp:117-138 | output and pending bytes are everything appended if and only if no batch exceeded 25 buffers |
| LogTheorems.LongBatchLoses | src/AsyncLogging.cpp:117-138 | of any more than 25 large records appended before the back end takes the lock, only the first two are written |
| LogTheorems.StoppedStep | src/AsyncLogging.cpp:87-163 | once stopped, every back-end step gets nearer to the exit, and at most one takes a batch |
| LogTheorems.StopDrains | src/AsyncLogging.cpp:41-46 | after stop the back end returns, takes at most one more batch and leaves nothing pending |
| LogTheorems.ShutdownIsComplete | src/AsyncLogging.cpp:41-163 | after any run and a stop, unless the back end had returned before something was appended, every record is on the output or in a buffer counted by a notice |
| LogProgress.RunAppends | src/AsyncLogging.cpp:41-76 | a run appends all its records in order, and the flag is cleared exactly by stop |
| LogProgress.RunningNeverExits | src/AsyncLogging.cpp:87 | ThreadFunc does not return before stop |
| LogProgress.BackStepTakes | src/AsyncLogging.cpp:90-103 | the back end takes a batch exactly when full buffers are queued, or it has waited and something is pending; it waits exactly when nothing is queued |
| LogProgress.RunningDrains | src/AsyncLogging.cpp:87-163 | while running, everything pending is written within seven back-end steps and at most one more batch |
| LogProgress.NothingStaysPending | src/AsyncLogging.cpp:48-163 | after any run without stop and seven more back-end steps, every record is on the output or in a buffer counted by a notice |
| LogProgress.FirstStopIsComplete | src/AsyncLogging.cpp:41-163 | the same after the first stop, with no condition on where the back end was |
| LogProgress.PutQueuesExactly | src/AsyncLogging.cpp:53-71 | an append queues the current buffer exactly when the record does not fit it |
| LogProgress.RunIsPacked | src/AsyncLogging.cpp:53-71 | in every run, each buffer queued or taken was too full for the first record of the one after it |
| LogProgress.LossNeedsABurst | src/AsyncLogging.cpp:117-128 | a batch that is cut holds more than 52 million bytes |
| LogProgress.SmallRunsQueueNothing | src/AsyncLogging.cpp:53-56 | a run of no more bytes than one buffer queues nothing and loses nothing |
| AsyncLogger.LogBuffer.Reset | src/include/AsyncLogging.h:21-25 | no records, and zero throughout |
| AsyncLogger.LogBuffer.Append | src/include/AsyncLogging.h:29-34 | the record joins the buffer's records; the tail stays zero |
| AsyncLogger.LogBuffer.CString | src/AsyncLogging.cpp:136 | streaming the data gives the records since the last reset, up to a NUL among them |
| AsyncLogger.AsyncLogging.constructor | src/AsyncLogging.cpp:7-19 | two distinct empty buffers |
| AsyncLogger.AsyncLogging.Launch | src/AsyncLogging.cpp:81-85 | with the two spares, the start state of the protocol |
| AsyncLogger.AsyncLogging.Append | src/AsyncLogging.cpp:48-76 | takes the abstract state where Put says, moving buffers without sharing any; LogProgress.PutQueuesExactly says when it rotates |
| AsyncLogger.AsyncLogging.RotateBuffers | src/AsyncLogging.cpp:59-69 | the current buffer is queued, and the spare or a new one takes its place |
| AsyncLogger.AsyncLogging.Stop | src/AsyncLogging.cpp:41-46 | clears the running flag only |
| AsyncLogger.AsyncLogging.Replay | src/AsyncLogging.cpp:48-163 | any interleaving of appends, stop and back-end steps takes the objects where the protocol run goes, without sharing a buffer |
| AsyncLogger.AsyncLogging.BackEnd | src/AsyncLogging.cpp:87-163 | takes the abstract state where BackStep says |
| AsyncLogger.AsyncLogging.TestLoop | src/AsyncLogging.cpp:87 | the loop test, as the protocol has it; LogProgress.RunningNeverExits and LogTheorems.StopDrains say what it decides |
| AsyncLogger.AsyncLogging.LockAndTake | src/AsyncLogging.cpp:90-96 | waits when nothing is queued, else takes |
| AsyncLogger.AsyncLogging.TakeBatch | src/AsyncLogging.cpp:98-113 | the moves of the lock region give the batch, the new current buffer and the refilled spare |
| AsyncLogger.AsyncLogging.WriteBatch | src/AsyncLogging.cpp:117-138 | the output grows by the items of the batch, which is cut if too long |
| AsyncLogger.AsyncLogging.RecycleBuffers | src/AsyncLogging.cpp:141-162 | the spares are refilled from the batch and cleared; the batch ends empty |
| TableSpec.SweepStops | src/EventLoop.cpp:176-196 | what the sweep takes was idle for the interval at its own test, and the first one kept was not |
| TableSpec.SweepIsSound | src/EventLoop.cpp:168-197 | by the time the sweep is done, what it took has been idle for the interval and nothing it left for the interval plus d |
| LruLists.LruList.PushFront | src/EventLoop.cpp:150-153 | a new node at the head, all others where they were |
| LruLists.LruList.MoveToFront | src/EventLoop.cpp:163 | the same node moves to the head and the others keep their order |
| LruLists.LruList.Unlink | src/EventLoop.cpp:233 | exactly that node leaves |
| EventLoops.EventLoop.NewConnection | src/EventLoop.cpp:145-154 | listed first and indexed; the bijection is kept |
| EventLoops.EventLoop.UpdateConnection | src/EventLoop.cpp:157-165 | a listed descriptor moves to the front, an unlisted one changes nothing; what is listed stays owned |
| EventLoops.EventLoop.DeleteConnection | src/EventLoop.cpp:224-246 | exactly the delayed descriptors leave list, index and server, in whatever order the set is visited; what is listed stays owned |
| EventLoops.EventLoop.EndRound | src/EventLoop.cpp:60-69 | after a round, exactly the connections it closed, and those delayed before, leave list, index and server |
| EventLoops.EventLoop.Sweep | src/EventLoop.cpp:168-197 | takes SweepCount connections off the back, never meeting a dead weak pointer |
| EventLoops.EventLoop.RemoveTimeOutConnection | src/EventLoop.cpp:168-203 | the same connections leave the server, and those left are still owned |
| EventLoops.CreateConnection | src/TcpServer.cpp:60-83 | owned, listed by loop fd mod n, and only then watched: for reading, edge-triggered |
| ServerSpec.StepSoundExactly | src/EventLoop.cpp:145-246 | a step of any thread keeps the invariant, and ownership, if and only if it does not erase a descriptor that is listed or being accepted |
| ServerSpec.RunSoundExactly | src/TcpServer.cpp:60-96 | bijection, ownership, no leak and LRU order hold in every state of exactly the runs without such a step, and so does ownership alone |
| ServerTheorems.ReachableSound | src/EventLoop.cpp:145-246 | they hold in every state that runs without a clash reach |
| ServerRuns.ClashesHappen | src/TcpServer.cpp:70-92 | for any number of loops and any interval, a run that leads to each kind of clash: under createconnection, and under the list |
| ServerRuns.FreshIsDestroyed | src/EventLoop.cpp:224-246 | likewise a run without a clash that destroys a connection neither closed nor late |
| ServerGuards.NoReuseIsClashFree | src/TcpServer.cpp:60-92 | if accept returns no descriptor that its loop has yet to erase, nothing clashes |
| ServerGuards.CondemnedIsClosedOrLate | src/EventLoop.cpp:168-221 | a connection is condemned only by being closed, or by a sweep that found it idle for the interval |
| ServerGuards.OnlyCondemnedAreDestroyed | src/TcpServer.cpp:86-92 | under the same condition only condemned connections are destroyed, in every run |
| ServerGuards.CarefulIsNoReuse | src/EventLoop.cpp:168-246 | if no sweep takes a connection whose deletion is delayed, accept has no such descriptor to return |
| ServerGuards.CarefulRunsAreSound | src/EventLoop.cpp:145-246 | so in such runs the invariant always holds and only condemned connections are destroyed |
| ServerTheorems.ReuseFindsNothing | src/TcpServer.cpp:60-76 | a descriptor that is not open is in no loop's list or index |
| ServerTheorems.QuietTablesAgree | src/TcpServer.cpp:60-96 | when no thread is in the middle of anything, exactly the owned connections are listed, by their own loops |
| ServerTheorems.EverySweepIsSound | src/EventLoop.cpp:168-197 | in every state where the invariant holds, a sweep takes only what is idle for the interval and leaves nothing idle for the interval plus d, even if it empties the list |
| ServerRuns.SweepIsExactOnlyIfPrompt | src/EventLoop.cpp:187-190 | every sweep in every state that runs without a clash reach takes exactly what is idle for the interval, if and only if d is 0 or the interval is not positive |
| ServerRuns.OvertakenWhileStamped | src/Connection.cpp:77-81 | the run for every other d: a connection accepted between another's stamp and its move keeps that one listed, though it is late |
| ServerTheorems.ActivityDefersTheSweep | src/EventLoop.cpp:156-203 | a connection that was active and is not closed is still listed, and still the same one, in every run without a clash until the interval is over |
| ServerTheorems.ClosedIsGone | src/EventLoop.cpp:217-246 | whatever runs after a close, without a clash, once a deletion of its loop has begun and ended the server no longer owns the connection and no loop lists it |
| HandOff.RunKeepsOrder | src/EventLoop.cpp:105-131 | tasks run once and in queue order, and each thread's in the order it sent them |
| HandOff.RunSends | src/Connection.cpp:158-173 | every send of a run is queued or made, none left out |
| HandOff.NoLostWakeUpExactly | src/EventLoop.cpp:105-131 | a queued task always has a wake-up coming, exactly for loops that drain and positive eventfd writes |
| HandOff.SleepingLoopWakes | src/EventLoop.cpp:116-131 | a loop asleep with tasks queued is woken and runs them all |
| TaskLoops.TaskLoop.DrainTasks | src/EventLoop.cpp:123-129 | all tasks run in order; a connection's output buffer grows by its messages, whole and in order |
| TaskLoops.TaskLoop.FinishWakeUp | src/EventLoop.cpp:120-131 | the drain step of the protocol, with its effect on a connection's output buffer; the main loop drains nothing |
| TaskLoops.TaskLoop.Send | src/Connection.cpp:158-173 | nothing on a closed connection; from the loop's thread the message joins the output buffer; from another it becomes a queued task |
| TaskLoops.TaskLoop.Replay | src/EventLoop.cpp:105-131 | any interleaving of senders, wake-ups, write events and the peer takes the objects where the protocol goes, and a connection's stream grows by the messages of the tasks run, whole and in order; no output is stranded |
| TaskLoops.TaskLoop.Session | src/Connection.cpp:158-230 | from the start, the bytes sent and still to send on a connection are an interleaving of the whole messages sent on it that keeps each sender's order |
| TaskLoops.OutputIsInterleaving | src/Connection.cpp:158-173 | a stream of the messages run is an interleaving of the first messages of each sender in its order, and of all of them when none is queued |
| ThreadPools.StepIsOrderly | src/ThreadPool.cpp:17-52 | front() is never called on an empty queue, although stop is set without the lock |
| ThreadPools.RunIsSound | src/ThreadPool.cpp:17-52 | in every run tasks start in order, at most once, and none is lost |
| ThreadPools.OneWorkerDrains | src/ThreadPool.cpp:17-52 | one waiting worker left to itself runs the whole queue in order, stopped or not, and then returns if the pool is stopped |
| ThreadPools.EveryTaskRunsExactly | src/ThreadPool.cpp:63-73 | when all workers have returned, exactly the tasks added after the last of them did are left unrun, and the others have run once and in order |
| ThreadPools.RunAdds | src/include/ThreadPool.h:24-30 | every task added in a run is queued, in order, and the pool is stopped exactly by stop |
| ThreadPools.StoppedStep | src/ThreadPool.cpp:22-52 | once stopped, every step of a worker gets nearer to the end |
| ThreadPools.StoppedRunsEnd | src/ThreadPool.cpp:63-73 | however the workers of a stopped pool are scheduled, they take a bounded number of steps |
| ThreadPools.StopEndsThePool | src/ThreadPool.cpp:63-73 | from any reachable state, stop and the workers' steps lead to where all have returned, and what was added in time has run once |
| ThreadPools.EveryLoopHasAThread | src/TcpServer.cpp:16-31 | before stop there is a free thread for every loop still queued, so each loop gets its own |
| ThreadPools.ThreadPool.NextTask | src/ThreadPool.cpp:28-43 | a worker with the lock takes the front of the queue, waits again or returns, as the machine says |
| ThreadPools.ThreadPool.Replay | src/ThreadPool.cpp:17-73 | any interleaving of workers, stop and those who add tasks takes the fields where the machine goes |
| WorkerEchoes.EveryMessageIsAnsweredOnce | example/EchoServer.cpp:50-56 | with any number of workers, each delivered message is answered at most once, on its own connection, and exactly once when pool and queue are empty |
| WorkerEchoes.ReturnedIsSettled | src/ThreadPool.cpp:63-73 | once all workers have returned, the pool has settled exactly if no task came too late |
| WorkerEchoes.RunDelivers | example/EchoServer.cpp:50-56 | every message delivered in a run is given to the pool |
| WorkerEchoes.RepliesOnceDecode | example/EchoServer.cpp:107-120 | a client decodes, for each of those messages in some order, "reply: " and the message |
| StressClient.DecodeChunks | StressTest/test.cpp:95-171 | decoding a, then its leftover with b, is decoding a + b |
| StressClient.AgreesWithServer | StressTest/test.cpp:130-166 | on every sane stream the client finds the server's messages, plus a final empty one the server holds back |
| StressClient.RoomAfterDecoding | StressTest/test.cpp:101 | after decoding there is room to receive unless the frame in front is longer than the buffer |
| StressClient.Conn.DecodeBuffered | StressTest/test.cpp:129-170 | the in-place loop finds the bodies that Decode finds, leaves exactly its rest at the front, and counts each body |
| StressClient.Conn.MoveDown | StressTest/test.cpp:170 | the overlapping move keeps the undecoded bytes |
| StressClient.Conn.Receive | StressTest/test.cpp:101-170 | one receive and its decoding keep buffer and counter in step with everything received |
| StressClient.Conn.HandleRecv | StressTest/test.cpp:95-176 | at every return the buffer is the undecoded suffix, and in flight is requests minus answers and at most 500 |
| StressClient.Conn.TryFillPipe | StressTest/test.cpp:79-93 | refills to 500 or until a write is refused, counting each request |

## Left out

- Connections.Connection.HandleOnMessage: handles the messages itself, as with zero worker threads; the branch that gives them to the pool is in WorkerEchoes. The oversized branch closes the connection and then repeats for ever; the method reports it and returns, and Framing.SpinsExactly says when it is reached. The int sum 4 + msgLen is taken to wrap where C++ leaves the overflow undefined.
- Connections.Connection.Echo: the refinement is claimed for streams whose headers are stable; for other headers no meaning independent of the cut exists. What worker threads send is covered by TaskLoops.TaskLoop.Replay instead.
- Connections.Connection.HandleEvents: requires an open connection, because a closed one is deleted at the end of its round. The loop sees the disconnect flag where the source calls delayDelete from inside the connection.
- Connections.Connection.OnReadable: sets the time stamp; the list move that follows it in the source is EventLoop.UpdateConnection.
- AsyncLogger.LogBuffer.CString: a completely full buffer has no terminator; the model stops at the end of the array.
- AsyncLogger.AsyncLogging.TestLoop: the loop test reads the current buffer without the lock; it is taken as one atomic step.
- AsyncLogger.AsyncLogging.WriteBatch: the copy of the notice on stderr and the choice of output stream are not modelled.
- AsyncLogger.AsyncLogging.Launch: the race between starting the thread and setting the running flag is not modelled; runs begin with the flag set.
- EventLoops.EventLoop.NewConnection: requires the descriptor not to be indexed already, which ServerTheorems.ReuseFindsNothing shows of every reachable state.
- EventLoops.EventLoop.Sweep: requires that the server owns the listed connections; a dead weak pointer, which the source pops but leaves in the index, is not modelled. Every table method keeps ownership for one loop, and ServerSpec.RunSoundExactly says when it holds under all interleavings of several; the objects use ServerSpec's functions on the list, but are not themselves run through its steps.
- ServerSpec.RunSoundExactly: what the source does after a clash is not modelled, only when there is one. Events still queued for a connection that a sweep has destroyed are not modelled, nor are worker threads holding a connection alive.
- WorkerEchoes.EveryMessageIsAnsweredOnce: connections stay open, since a closed one is not answered; a worker is taken to finish with the push of its reply, and its eventfd write may come later.
- TaskLoops.TaskLoop.DrainTasks: shows the effect on one arbitrary connection, which is assumed to outlive its queued tasks.
- TaskLoops.TaskLoop.Replay: ends when the connection fails, since nothing more is sent on it then, and its deletion is part of the tables.
- StressClient.Conn.HandleRecv: assumes frames below 64 MiB, since the unsigned sum 4 + body_len wraps for the largest headers; request texts and the global counters are not modelled, and a request is written whole or not at all.
- Memory exhaustion and size_t overflow in the buffers.
- The clock is monotone, and accept returns only descriptors that are not open.
- Accepting, timers, signals, log formatting, the EPOLLRDHUP branch, priority data, and the blocking client example.
