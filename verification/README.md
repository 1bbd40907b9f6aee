# A verified model of the muduo_plus server core

This project models, in Dafny, the parts of muduo_plus whose correctness depends on more than one
function at a time, and proves what they promise over whole runs:

- the lock-free log queue, the log sink that consumes it, and the mutex-based queues and client pool;
- the event loop's hand-off of functors between threads and the life of a connection across two loops;
- the byte buffer and the incremental HTTP/1.1 request parser;
- the output side of a TCP connection;
- the order server: stock reservation with compensation, cached orders and their text format.

**How runs are modelled.** A component with several threads is a state and a total function
`Step(state, action)`; an action that is not enabled leaves the state as it is, so every finite
sequence of actions is a run (`Runs.Exec`), and a theorem about a run holds for every interleaving.
Atomic operations are sequentially consistent. What the operating system, Redis or the database
answered is part of the action. Fields named as history (`accepted`, `dequeued`, `held`, ...) are
read by no step.

**How objects are modelled.** A class with mutable fields in the source is a class here, next to its
machine where there is one, the larger ones in a module of their own (`...Object`). Its methods follow
the source statement by statement, with the source's loops, and are proved to compute steps of the
machine or a function on values.

**Results about the code that a reader may not expect.** Each is a lemma.

- A `quit` counts exactly if it comes after loop() was last entered; one issued before is forgotten and
  that loop() does not return for it (`EventLoop.QuitExactly`, `EventLoop.QuitBeforeLoopIsLost`).
- A request with a body is read back only if it is POST or PUT and spells `Content-Length` exactly so;
  the body of a DELETE is left for the next request line (`HttpRoundTrip.ReadsBackExactly`,
  `HttpRoundTrip.DeleteBodyIsMisread`).
- SHUT_WR is issued before the last accepted byte if and only if the loop runs a queued
  shutdownInLoop after a close that left bytes unwritten (`TcpConnection.ShutEarlyExactly`). Every
  `shutdown` that another thread began before such a close gets there, whether the close fell between
  its test and its store or between its store and its functor
  (`TcpConnection.ShutdownAcrossCloseIsEarly`); on the loop thread it cannot happen
  (`TcpConnection.GracefulHalfClose`).
- `handleClose` has no guard. A connection passes each stage at most once if and only if it is never
  called after the channel lost its interest (`TcpServer.AtMostOnceExactly`, `TcpServer.ClosedTwice`).
  A test of `state_` alone would not do, because `shutdown` on another thread can store kDisconnecting
  over kDisconnected (`TcpServer.StateGuardIsNotEnough`); without such a late store it would
  (`TcpServer.StateGuardSuffices`).
- `CancelOrder` restores stock whatever the order's state was. A release that succeeds keeps the stock
  bound if and only if a creation reserved the order and no cancellation released it since
  (`StockConservation.CancelExactly`); where creations reserve and cancellations release, the status of
  the row tells (`StockConservation.CancelByStatus`). An insert that throws skips the compensation
  (`StockConservation.InsertExceptionLeaks`), and the create handler never deletes the reservation
  entry it cached (`StockConservation.HandlerRollbackLeavesReservation`).
- Cache and database can part. One operation on storable inputs keeps them in agreement if and only if
  an update of a cached order refreshes the cache or changes nothing, and a creation without stock that
  inserted nothing is not cached over anything else (`OrderCache.StepAgreesExactly`). The code ignores
  the answer of that insert, so a reused id and a refused insert both break the agreement
  (`OrderCache.ReusedIdDisagrees`, `OrderCache.RefusedInsertDisagrees`).
- The SQL text keeps six significant digits of an amount, the cached text keeps cents. A new order is
  read with one amount from the cache and another from the database if and only if its amount has more
  than six digits, as 12345.67 has (`OrderCache.CreatedAmountExactly`, `OrderCache.RoundedAmountParts`),
  and a payment of such an amount is read back rounded (`OrderCache.PaymentReadsBackExactly`).

**Where code and comments differ** the model follows the code: `Buffer::retrieve` also accepts more
than the readable bytes, although its comment says the second branch means equality.

## Model

| member | source | states |
|---|---|---|
| `MpscQueue.Fifo` | logger/MPSCQueue.h:70-83 | In every interleaving of any number of producers with one consumer, the dequeued values are a prefix of the arguments of enqueue in tail-exchange order, and the values still to come sit in that order in the live nodes. |
| `MpscQueue.EmptyExactly` | logger/MPSCQueue.h:76-78 | dequeue answers false exactly when every value was taken or the producer of the next one is between its exchange and its link. |
| `MpscQueue.DequeueProgress` | logger/MPSCQueue.h:76-83 | A dequeue that found a node goes on to hand out the next value in order, whatever the producers do in between. |
| `MpscQueue.NoUseAfterFree` | logger/MPSCQueue.h:73-81 | No step touches a deleted node; the node about to be deleted is neither the tail nor a predecessor that a stalled producer will still write. |
| `MpscQueue.TouchingFreedFaults` | logger/MPSCQueue.h:70-83 | What counts as touching: any step that reads or writes an address that is not allocated. |
| `MpscQueue.NoLeakAtRest` | logger/MPSCQueue.h:70-83 | With no call in progress the heap holds exactly the stub and one node per value not yet taken, so every other node was deleted once. |
| `MpscQueue.StepKeeps` | logger/MPSCQueue.h:50-83 | Every step of enqueue (allocate, exchange, link) and dequeue (load, move, delete, advance) keeps the chain, ownership, link and value invariants, with addresses reused freely. |
| `MpscQueueObject.MpscAtomicQueue.constructor` | logger/MPSCQueue.h:60-64 | A new queue is valid and empty. |
| `MpscQueueObject.MpscAtomicQueue.Enqueue` | logger/MPSCQueue.h:70-75 | Undisturbed, appends its value to the contents. |
| `MpscQueueObject.MpscAtomicQueue.Dequeue` | logger/MPSCQueue.h:76-83 | Undisturbed, removes and returns the oldest value, or nothing from an empty queue. |
| `MpscQueueObject.MpscAtomicQueue.Drain` | logger/MPSCQueue.h:84-89 | Hands over exactly the oldest min(max, size) values in order. |
| `MpscQueueObject.MpscAtomicQueue.Destroy` | logger/MPSCQueue.h:65-69 | Leaves no node allocated. |
| `LockQueue.RefinesOneFifo` | logger/MPSCQueue.h:9-40 | With pushes between Pop's locked phase and its unlocked removal, consumer queue then producer queue is one FIFO: push appends, the swap is invisible, Pop returns the head; Pop answers false only when stopped and both are empty. |
| `LockQueue.PopReturnsAfterStop` | logger/MPSCQueue.h:11-32 | After Stop, in every continuation, a Pop that tests does not wait: it goes on to take a value exactly when one is left, and answers false exactly when every pushed value was popped. |
| `LockQueue.PopWaits` | logger/MPSCQueue.h:11-32 | In every run, before Stop a Pop that finds nothing waits, and one that finds a value goes on to take it. |
| `LockQueue.MpscLockQueue.Push` | logger/MPSCQueue.h:35-40 | The machine's step: appends to the one queue that both stand for, invariant kept. |
| `LockQueue.MpscLockQueue.Pop` | logger/MPSCQueue.h:11-27 | After the wait, the machine's locked phase and removal: removes and returns the head, or reports an empty stopped queue. |
| `LockQueue.MpscLockQueue.Stop` | logger/MPSCQueue.h:28-32 | The machine's step: leaves the values in place and makes the wait condition of Pop true from now on. |
| `FileSink.NothingLost` | logger/AsyncFileSink.cpp:27-107 | In every run over the lock-free queue, file plus buffer is the concatenation of the lines dequeued, a prefix of the arguments of submit in queue order; at the loop head bytes_since_sync is the buffered size and below 64 KiB. |
| `FileSink.CompleteAtStop` | logger/AsyncFileSink.cpp:94-107 | When the final drain ends with no submit between exchange and link, the file is every submitted line in queue order. |
| `FileSink.StopCompletes` | logger/AsyncFileSink.cpp:33-107 | Told to stop, from any state with no submit between exchange and link, the worker finishes on its own, and the file is every line submitted, in order. |
| `FileSink.FlushesWhenDue` | logger/AsyncFileSink.cpp:76-91 | The flush test writes and empties the buffer and sets the next deadline if it is large or due, by size or time, and otherwise leaves them alone. |
| `FileSink.DeliversLine` | logger/AsyncFileSink.cpp:68-98 | A line that dequeue delivers ends the buffer; the loop goes on to the flush test, the final drain to the next line. |
| `FileSink.RunsUntilStop` | logger/AsyncFileSink.cpp:33-98 | In every run the worker keeps to its loop until stop() is called, and only then drains. |
| `FileSinkObject.AsyncFileSink.Run` | logger/AsyncFileSink.cpp:60-107 | The worker loop and final drain write exactly the lines taken, in order, whatever the flush decisions. |
| `BlockingQueue.NoLostWakeup` | db/include/BlockingQueue.h:15-43 | While a thread sleeps, items number at most owed notifies plus woken unchecked threads; after Cancel nobody sleeps unless notify_all is owed. |
| `BlockingQueue.WaitMoves` | db/include/BlockingQueue.h:15-43 | How tests, notifications and spurious wakeups move a thread between sleeping, woken and neither. |
| `BlockingQueue.ExactFifo` | db/include/BlockingQueue.h:15-34 | Popped values followed by the queue are the values of the Push calls before the first Cancel, in order. |
| `BlockingQueue.PopExactly` | db/include/BlockingQueue.h:26-34 | In every run a thread that tests gets the oldest accepted value not yet popped; with none it sleeps, or leaves once cancelled. |
| `BlockingQueue.DrainsAfterCancel` | db/include/BlockingQueue.h:15-43 | From any stopped state that meets the invariant nothing more is accepted, and Pop would answer false exactly when every accepted value was popped. |
| `BlockingQueue.BlockingQueue.Push` | db/include/BlockingQueue.h:15-23 | The machine's push and notify_one: an accepted value ends the queue and takes one thread out of its sleep; the no-lost-wakeup invariant is kept. A stopped queue is left alone. |
| `BlockingQueue.BlockingQueue.Pop` | db/include/BlockingQueue.h:26-34 | After the wait, the machine's step: returns the oldest accepted value that no Pop has returned, or false exactly when there is none. |
| `BlockingQueue.BlockingQueue.Cancel` | db/include/BlockingQueue.h:37-43 | The machine's stop and notify_all: nobody is left asleep, no Pop will wait again, and what was accepted is still there. |
| `RedisPool.EveryClientInOnePlace` | cache/RedisPool.cpp:23-60 | Each client the pool was built with is at all times exactly one of idle, lent once or freed once, none is freed while the pool lives, and while a thread sleeps the idle clients number at most the owed notifies plus the woken threads. |
| `RedisPool.ClientsMove` | cache/RedisPool.cpp:23-60 | Which way each call moves a client: idle to lent, lent to the end of the queue, lent to freed once the pool is gone, idle to freed at its end. |
| `RedisPool.WaitMoves` | cache/RedisPool.cpp:31-60 | The same for the threads that wait for a client. |
| `RedisPool.RedisPool.GetClient` | cache/RedisPool.cpp:31-36 | After the wait, the machine's step: the first idle client becomes a lent one. |
| `RedisPool.RedisPool.Release` | cache/RedisPool.cpp:49-60 | The machine's return and notify_one: the client is lent once less and idle once more, no client is lost, one thread leaves its sleep, and a stale connection is up again exactly if reconnecting succeeds. |
| `RedisPool.RedisPool.Destroy` | cache/RedisPool.cpp:23-29 | The machine's step: deletes every idle client once, in order, and leaves lent ones to their deleters. |
| `EventLoop.NoLostWakeup` | core/src/EventLoop.cpp:61-148 | Whenever the loop thread is in poll with a functor pending or a quit requested since loop() reset the flag, the eventfd is readable or another thread is about to make it so, although some wakeups are skipped. |
| `EventLoop.WakeupsExactly` | core/src/EventLoop.cpp:61-135 | Where the eventfd is written, and where a push on the loop thread skips it; the counter never exceeds its limit, and its handler runs only when poll reported it. |
| `EventLoop.ExactlyOnceFifo` | core/src/EventLoop.cpp:93-148 | Executed functors, the rest of the batch and the queue are exactly the functors handed to queueInLoop, by any thread, in order; one handed over after g swaps runs in batch g + 1. |
| `EventLoop.NothingStranded` | core/src/EventLoop.cpp:61-148 | From poll with no other thread mid-call, one turn of the loop thread alone executes every functor handed to queueInLoop. |
| `EventLoop.QuitLeaves` | core/src/EventLoop.cpp:61-148 | From poll with a quit requested and no other thread mid-call, one turn of the loop thread alone and its next test leave loop(), with every functor handed over executed. |
| `EventLoop.QuitHonoured` | core/src/EventLoop.cpp:61-83 | Once set, quit stays set for as long as the loop thread is inside loop(). |
| `EventLoop.QuitExactly` | core/src/EventLoop.cpp:61-83 | In every run the flag is set if and only if a quit took effect since loop() was last entered. |
| `EventLoop.QuitBeforeLoopIsLost` | core/src/EventLoop.cpp:61-66 | Whatever was requested before loop() is entered, loop() does not return until a quit takes effect after the entry. |
| `EventLoop.QuitThenLoop` | core/src/EventLoop.cpp:61-66 | The shortest such run ends in poll with the request gone. |
| `EventLoopObject.EventLoop.QueueInLoop` | core/src/EventLoop.cpp:93-101 | On the loop thread: appends, and wakes only while functors are being called; equals the machine's two steps. |
| `EventLoopObject.EventLoop.Wakeup` | core/src/EventLoop.cpp:103-109 | Increments the counter unless it is full. |
| `EventLoopObject.EventLoop.Quit` | core/src/EventLoop.cpp:78-83 | On the loop thread: one step of the machine, without a wakeup. |
| `EventLoopObject.EventLoop.HandleRead` | core/src/EventLoop.cpp:123-135 | Empties the counter. |
| `EventLoopObject.EventLoop.DoPendingFunctors` | core/src/EventLoop.cpp:137-148 | Runs exactly what was pending, in order; what those functors queue remains, with a wakeup sent, and the flag is set if one of them quits; a run of the machine. |
| `EventLoopObject.EventLoop.Turn` | core/src/EventLoop.cpp:66-73 | One turn runs what was pending and what the handlers queued, in one batch, and a quit in any of them sets the flag; a run of the machine. |
| `EventLoopObject.EventLoop.Loop` | core/src/EventLoop.cpp:61-76 | loop() makes its turns, returns after the first one in which a handler or functor calls quit, whose batch still runs to its end, and not before; a run of the machine that leaves pending functors covered by a wakeup. |
| `Buffer.Buffer.constructor` | base/Buffer.h:15 | An empty buffer with the requested writable space. |
| `Buffer.Buffer.Retrieve` | base/Buffer.h:23-29 | Drops min(len, readable) bytes from the front. |
| `Buffer.Buffer.RetrieveAll` | base/Buffer.h:30-33 | Drops everything. |
| `Buffer.Buffer.RetrieveAsString` | base/Buffer.h:37-41 | For a length within the readable bytes, splits them into the returned ones and the rest. |
| `Buffer.Buffer.MakeSpace` | base/Buffer.h:80-91 | Keeps the readable bytes and yields at least len writable ones, growing exactly when moving to the front would not do; moving happens only with reader > 8, so the forward overlapping copy loses nothing. |
| `Buffer.Buffer.EnsureWritableBytes` | base/Buffer.h:44-48 | Keeps the readable bytes and yields at least len writable ones. |
| `Buffer.Buffer.Append` | base/Buffer.h:51-55 | Appends the data to the readable bytes. |
| `Buffer.Buffer.ReadFd` | base/Buffer.cpp:9-42 | Appends exactly the bytes read, in order, across buffer and spill area; nothing on error. |
| `Buffer.Buffer.Replay` | base/Buffer.h:23-91 | Every run of append, retrieve and single reads, failing ones included, each read delivering no more than it was offered, behaves as on a plain byte sequence. |
| `HttpContext.SetQueryParameters` | net/src/HttpRequest.cpp:79-98 | The split loop computes the splitting function that QueryExactly characterises. |
| `HttpFields.QueryExactly` | net/src/HttpRequest.cpp:79-98 | For every query text and key: the value is that of the last piece between ampersands of the form key=value, or the previous one; pieces without an equals sign are ignored. |
| `HttpFields.CutsInto` | net/src/HttpRequest.cpp:79-98 | Every text is cut into such pieces. |
| `HttpContext.TrimLoops` | net/src/HttpRequest.cpp:105-114 | The two loops trim white space on both sides. |
| `HttpFields.TrimExactly` | net/src/HttpRequest.cpp:105-114 | The trimmed value is the only text without white space at its ends that the original is, but for white space around it. |
| `HttpFields.HeaderGives` | net/src/HttpRequest.cpp:105-114 | A header line sets the field before its first colon to the trimmed text after it, and nothing else. |
| `HttpContext.HttpContext.Reset` | net/src/HttpContext.cpp:12-16 | The parser is as new. |
| `HttpContext.HttpContext.ProcessRequestLine` | net/src/HttpContext.cpp:17-48 | Verdict and fields of the specification function, also when the line is rejected half-way. |
| `HttpFields.RequestLineReads` | net/src/HttpContext.cpp:17-48 | A line of three words with a known method sets method, path and parameters; it is accepted, and sets the version, exactly when the third word is one of the two versions. |
| `HttpFields.ShortLineReads` | net/src/HttpContext.cpp:17-48 | Lines without a space set nothing, lines with an unknown or a lone method only that; all are refused. |
| `HttpContext.HttpContext.EndOfHeaders` | net/src/HttpContext.cpp:86-104 | The blank-line turn, including the missing length and the exception. |
| `HttpContext.HttpContext.ParseRequest` | net/src/HttpContext.cpp:50-130 | The loop over the buffer computes `Parse`: verdict, state, request and unconsumed bytes. |
| `HttpChunking.SplitAnywhere` | net/src/HttpContext.cpp:50-130 | Parsing a prefix and then the rest with more bytes is parsing the concatenation, for every cut. |
| `HttpChunking.TimeIsIgnored` | net/src/HttpContext.cpp:66-71 | The receive time influences nothing but its own field. |
| `HttpChunking.ChunkingIndependence` | net/src/HttpContext.cpp:50-130 | From any unfinished parser state, any split into reads gives the same verdict, state, request (but for the time) and remaining bytes as one parse. |
| `HttpChunking.PipelineChunkingIndependence` | net/src/HttpContext.cpp:12-130 | The same for a stream of pipelined requests drained after each read. |
| `HttpRoundTrip.ReadsBackExactly` | net/src/HttpContext.cpp:17-130 | A well-formed message followed by anything reads back as itself, consuming exactly its bytes, if and only if its framing is supported. |
| `HttpRoundTrip.MessageParses` | net/src/HttpContext.cpp:50-130 | The whole outcome on every well-formed message, supported or not: read back, rejected at the blank line, or accepted with its body left over. |
| `HttpRoundTrip.QueryInverts` | net/src/HttpRequest.cpp:79-98 | Splitting inverts joining of key=value pairs, last key wins. |
| `HttpRoundTrip.TrimInverts` | net/src/HttpRequest.cpp:105-114 | Trimming removes the optional white space around a field value and nothing else. |
| `HttpRoundTrip.DeleteBodyIsMisread` | net/src/HttpContext.cpp:87-104 | A well-formed DELETE with a body leaves its body in the buffer. |
| `HttpRoundTrip.PipelinedRoundTrip` | net/src/HttpContext.cpp:12-130 | Alternating parse and reset decodes exactly the sequence of supported messages and leaves nothing. |
| `HttpRoundTrip.ChunkedRoundTrip` | net/src/HttpContext.cpp:12-130 | The same when the bytes arrive cut anywhere. |
| `HttpSoundness.RequestLineExactly` | net/src/HttpContext.cpp:17-48 | A request line is accepted if and only if it is a known method, a target without spaces and one of two versions. |
| `HttpSoundness.AcceptedIsFramed` | net/src/HttpContext.cpp:50-130 | Whatever is accepted as complete is an acceptable line, header lines with colons, a blank line and a body of the declared length, and the request is exactly what these describe: the line's fields, one addHeader per line, the body. |
| `HttpSoundness.FramedIsAccepted` | net/src/HttpContext.cpp:50-130 | Conversely, on any such bytes followed by anything, a fresh parser reports exactly that request and leaves what follows. |
| `HttpSoundness.CompleteExactly` | net/src/HttpContext.cpp:50-130 | A fresh parser reports a complete request if and only if the buffer begins with such bytes. |
| `HttpSoundness.DescribedExactly` | net/src/HttpContext.cpp:17-130 | The request that framed bytes describe, field by field and without the parser: words of the line, the last key=value for each parameter, the last line with its name, trimmed, for each header. |
| `HttpSoundness.EndExactly` | net/src/HttpContext.cpp:86-104 | At the blank line: refused without a length, thrown with an unreadable one, waiting for a body that is not there, complete otherwise; for POST and PUT only. |
| `HttpSoundness.BadHeaderLine` | net/src/HttpContext.cpp:78-109 | A header line without a colon is refused and consumed. |
| `TcpConnection.StreamIntegrity` | core/src/TcpConnection.cpp:181-282 | The accepted data is what callers sent. Until disconnect, wire then backlog equal it and write interest is on exactly with a backlog; afterwards they are a prefix. |
| `TcpConnection.AcceptedIsSent` | core/src/TcpConnection.cpp:51-91 | In every run the accepted bytes are the data of the sends made in kConnected, in order: those on the loop thread, and those of other threads when the loop ran their functors in kConnected; the others still wait in order. |
| `TcpConnection.OtherSendDelivered` | core/src/TcpConnection.cpp:55-69 | A send of another thread on a connected, idle connection reaches the wire or the backlog when its functor runs, unless the write finds the connection broken. |
| `TcpConnection.SendTakes` | core/src/TcpConnection.cpp:234-282 | A direct write puts exactly what the socket took on the wire and the rest behind the backlog; behind a backlog nothing is written. |
| `TcpConnection.WriteTakes` | core/src/TcpConnection.cpp:181-190 | A write event moves exactly what the socket took from the backlog to the wire. |
| `TcpConnection.ClosesOn` | core/src/TcpConnection.cpp:123-218 | End of file, a hang-up, a broken write and the destruction of a connected one disconnect and drop all interest, leaving the backlog; reading data does not. |
| `TcpConnection.BreaksExactly` | core/src/TcpConnection.cpp:234-282 | A send disconnects exactly when its direct write finds the connection broken. |
| `TcpConnection.NothingWrittenPast` | core/src/TcpConnection.cpp:234-240 | Once disconnected, sendInLoop takes nothing; it writes nothing past a backlog or while a write event is awaited. |
| `TcpConnection.HalfClose` | core/src/TcpConnection.cpp:107-112 | SHUT_WR before a disconnect follows every accepted byte, nothing is writable after it, and a requested half-close is done, waits for the backlog or is on its way. |
| `TcpConnection.LoopShutdown` | core/src/TcpConnection.cpp:107-112 | shutdown on the loop thread half-closes at once when nothing waits, and otherwise with the write event that takes the last byte. |
| `TcpConnection.OtherShutdownOnce` | core/src/TcpConnection.cpp:107-112 | A shutdown on another thread goes on only from kConnected, queues its functor once, and is then over. |
| `TcpConnection.NothingAfterShut` | core/src/TcpConnection.cpp:187-288 | After SHUT_WR the wire never changes, in any continuation. |
| `TcpConnection.GracefulHalfClose` | core/src/TcpConnection.cpp:107-288 | With shutdown on the loop thread only, SHUT_WR always follows the last accepted byte, and a waiting one is performed by the handleWrite that drains the backlog. |
| `TcpConnection.ShutEarlyExactly` | core/src/TcpConnection.cpp:107-288 | In every run SHUT_WR comes before the last accepted byte if and only if the loop runs a queued shutdownInLoop after a close that left bytes unwritten. |
| `TcpConnection.ShutdownAcrossCloseIsEarly` | core/src/TcpConnection.cpp:107-112 | From any state closed with bytes unwritten, every shutdown that another thread had begun ends in such an early SHUT_WR. |
| `TcpConnection.ShutdownRacesWithClose` | core/src/TcpConnection.cpp:107-112 | Two runs in which SHUT_WR is issued with a byte undelivered: the close falls between the test and the store of another thread's shutdown, which also revives the state, or between its store and its functor. |
| `TcpConnection.WriteCompleteWhenDrained` | core/src/TcpConnection.cpp:188-255 | In a connection not yet closed, the write-complete callback is queued exactly when a write succeeds and leaves every accepted byte on the wire; a write event must also have had write interest and sent something. |
| `TcpConnection.HighWaterOnCrossing` | core/src/TcpConnection.cpp:267-278 | In a connection not yet closed, the high-water callback is queued exactly when a send lifts the backlog from below the mark to it or above. |
| `TcpConnectionObject.TcpConnection.SendInLoop` | core/src/TcpConnection.cpp:234-282 | Computes `Deliver` on the output buffer and calls the close callback exactly when a direct write finds the connection broken. |
| `TcpConnectionObject.TcpConnection.HandleWrite` | core/src/TcpConnection.cpp:181-207 | Computes `Flush` on the output buffer. |
| `TcpConnectionObject.TcpConnection.HandleClose` | core/src/TcpConnection.cpp:209-218 | Disconnects, drops all interest and calls the close callback once. |
| `TcpConnectionObject.TcpConnection.HandleRead` | core/src/TcpConnection.cpp:134-146 | Closes, calling the close callback, at end of file only. |
| `TcpConnectionObject.TcpConnection.Shutdown` | core/src/TcpConnection.cpp:107-112 | On the loop thread: half-closes at once or leaves it to the drain. |
| `TcpConnectionObject.TcpConnection.ShutdownInLoop` | core/src/TcpConnection.cpp:284-288 | Issues SHUT_WR unless a backlog is waiting. |
| `TcpConnectionObject.TcpConnection.ConnectEstablished` | core/src/TcpConnection.cpp:116-121 | Connects and enables reading. |
| `TcpConnectionObject.TcpConnection.ConnectDestroyed` | core/src/TcpConnection.cpp:123-130 | Disconnects a connection that is still connected. |
| `TcpServer.StagesInOrder` | core/src/TcpServer.cpp:72-116 | In every run, with shutdown testing and storing in two steps on any thread: established at most once and before any close, at most one erase per close and one destroy per erase; a closed connection is kDisconnected or kDisconnecting and its channel has no interest; the map holds exactly the connections not yet erased. |
| `TcpServer.AliveUntilDestroyed` | core/src/TcpServer.cpp:72-116 | Until connectDestroyed has run, the map, a queued or a running functor holds the connection; with nothing queued or running it is established and erased and destroyed once per close. |
| `TcpServer.OneForEachAccept` | core/src/TcpServer.cpp:72-103 | In every run there is one connection for each newConnection call, under a number of its own, on the loop chosen for it. |
| `TcpServer.StagesAdvance` | core/src/TcpServer.cpp:72-116 | Nothing begun is dropped: each step of a loop performs the stage that waits for it, establishing, erasing or destroying, and a close is recorded. |
| `TcpServer.ShutdownOnce` | core/src/TcpConnection.cpp:107-112 | The same for the server's view of a shutdown: one store after a test that found kConnected. |
| `TcpServer.DestroyExactly` | core/src/TcpConnection.cpp:123-130 | connectDestroyed disconnects a connection that is still connected and leaves any other as it is. |
| `TcpServer.DestroyedIsClosed` | core/src/TcpServer.cpp:110-116 | In every run it never finds one connected, because only a close queues it. |
| `TcpServer.AtMostOnceExactly` | core/src/TcpConnection.cpp:209-218 | Every stage happens at most once if and only if handleClose is never called when the channel has no interest left. |
| `TcpServer.StateGuardSuffices` | core/src/TcpConnection.cpp:209-218 | In runs where no thread stores kDisconnecting after a close, the same with a test of the state: never called in kDisconnected. |
| `TcpServer.StateGuardIsNotEnough` | core/src/TcpConnection.cpp:107-112 | With such a late store it is not: a run in which handleClose is never called in kDisconnected erases the connection twice. |
| `TcpServer.ClosedTwice` | core/src/TcpConnection.cpp:209-218 | A run with two closes erases and destroys twice. |
| `TcpServerObject.TcpServer.NewConnection` | core/src/TcpServer.cpp:72-103 | Inserts under a fresh number and establishes at once or through the connection's loop. |
| `TcpServerObject.TcpServer.RemoveConnectionInLoop` | core/src/TcpServer.cpp:110-116 | Erases and always queues the destruction. |
| `TcpServerObject.TcpServer.HandleClose` | core/src/TcpServer.cpp:105-108 | Removes at once on the accepting loop, through its queue elsewhere. |
| `Inventory.ReserveEffect` | apps/order_server/domain/InventoryService.cpp:14-83 | A reservation succeeds if and only if every call does and the stock is a number of at least its quantity. It takes exactly its quantity from its product on success and nothing when it fails with every Redis call answered, never raises a stock, and never touches another product. |
| `Inventory.ReserveWrites` | apps/order_server/domain/InventoryService.cpp:14-83 | Whatever became of the calls: the stock is debited once its write is performed, even if the reply is lost, the entry is written after a confirmed debit, and no other key changes. |
| `Inventory.EntryReadsBack` | apps/order_server/domain/InventoryService.cpp:286-306 | A reservation entry whose ids have no comma reads back as the order, product and quantity it was written for. |
| `Inventory.ReleaseEffect` | apps/order_server/domain/InventoryService.cpp:111-138 | When the sum fits 64 bits, a release gives back exactly its quantity on success and at most that otherwise, touches no other product, and succeeds when its calls do and the product has a stock entry. |
| `Inventory.ReleaseWrites` | apps/order_server/domain/InventoryService.cpp:111-138 | Whatever became of the calls: the stock is credited in 64 bits once its write is performed, the entry is deleted after a confirmed credit, no other key changes, and success is a confirmed credit. |
| `Decimal.ScanExactly` | apps/order_server/domain/InventoryService.cpp:40-45 | std::stoull and its relatives read a number exactly from white space, an optional sign, digits and any rest. |
| `Decimal.StoullOfParts` | apps/order_server/domain/InventoryService.cpp:40-45 | The value read: out-of-range magnitudes throw, an unsigned minus wraps around 64 bits, signed reads keep within their limits. |
| `Inventory.StockKeysApart` | apps/order_server/domain/InventoryService.cpp:236-246 | Stock keys and order keys are one-to-one, and stock, reservation and order keys, with the prefixes the application sets, never collide with each other. |
| `Inventory.PrefixesApartExactly` | apps/order_server/app/OrderApplication.cpp:114-116 | For any two prefixes, their keys never collide if and only if neither prefix begins the other. |
| `StockConservation.Conservation` | apps/order_server/domain/InventoryService.cpp:14-138 | Over every run of non-interleaved operations, with any Redis failures and throwing or refused inserts, in which cancellations release only what a creation reserved and no cancellation released since: stock plus persisted reserved quantities never exceeds the initial stock of a product, with equality when no stock or reservation-caching call fails and no insert throws. |
| `StockConservation.HeldExactly` | apps/order_server/domain/OrderService.cpp:61-165 | In every run whatever, the reserved quantities counted are one for each order that a creation reserved and inserted and no later cancellation released, with the product and quantity of its row. |
| `StockConservation.StatusTellsExactly` | apps/order_server/domain/OrderService.cpp:61-165 | From an empty database, where creations reserve, cancellations release and other updates neither open nor close an order, an order holds stock if and only if its row is neither cancelled nor failed. |
| `StockConservation.ConservationByStatus` | apps/order_server/domain/OrderService.cpp:61-165 | In such runs the conservation bound holds when no cancellation is called on a cancelled or failed row. |
| `StockConservation.NeverWraps` | apps/order_server/domain/InventoryService.cpp:269-284 | In the same runs neither the release of a live order nor the compensation after a refused insert wraps 64 bits. |
| `StockConservation.CancelExactly` | apps/order_server/domain/OrderService.cpp:140-156 | After any such run, for an order of positive quantity whose cancellation reaches a release that succeeds without wrapping, stock plus reserved quantities does not grow for any product if and only if a creation reserved the order and no cancellation released it since. |
| `StockConservation.CancelByStatus` | apps/order_server/domain/OrderService.cpp:140-156 | Where the status tells, the same if and only if the row is neither cancelled nor failed. |
| `StockConservation.HandleKeeps` | apps/order_server/interface/http/OrderCreateHandler.cpp:119-170 | One create request keeps the bound through reserve, insert and compensation. |
| `StockConservation.CreateKeeps` | apps/order_server/domain/OrderService.cpp:61-102 | The same for the service. |
| `OrderResults.HandlerCreates` | apps/order_server/interface/http/OrderCreateHandler.cpp:32-185 | A create request succeeds if and only if user and product are given, quantity and amount are positive, stock suffices where required and the insert succeeds under a fresh id; it then leaves exactly one new row with the request's fields, a hold and a debit of its quantity. An invalid request changes nothing. |
| `OrderResults.HandlerCaches` | apps/order_server/interface/http/OrderCreateHandler.cpp:172-185 | A created order that the stores can carry is read from the cache as it was given, times cut to seconds. |
| `OrderResults.ServiceCreates` | apps/order_server/domain/OrderService.cpp:61-102 | A service creation whose insert succeeds leaves exactly one new row: the pending order with a hold and a debit, or, when stock does not suffice, the failed one without. |
| `OrderResults.FailedReservationStays` | apps/order_server/interface/http/OrderCreateHandler.cpp:119-137 | A reservation that fails ends the request with what it did to Redis and nothing else; so does a throwing insert of the service. |
| `StockConservation.CancelKeeps` | apps/order_server/domain/OrderService.cpp:140-165 | The same for a cancellation that releases only an order holding stock. |
| `OrderResults.CancelCredits` | apps/order_server/domain/OrderService.cpp:140-156 | A cancellation that releases credits exactly the row's quantity to its product, in 64 bits; one that does not, or fails before, leaves every stock alone. |
| `StockConservation.InsertExceptionLeaks` | apps/order_server/interface/http/OrderCreateHandler.cpp:139-170 | A create request whose reservation succeeded and whose insert throws loses exactly the reserved quantity. |
| `StockConservation.RollbackDeletesReservation` | apps/order_server/domain/OrderService.cpp:86-93 | A service creation whose insert is refused deletes its reservation entry when the release and the delete succeed. |
| `StockConservation.HandlerRollbackLeavesReservation` | apps/order_server/interface/http/OrderCreateHandler.cpp:139-170 | After the handler compensates a refused insert, the reservation entry it cached is still there, whatever the release calls answered. |
| `OrderCache.CacheFirstReadsAgree` | apps/order_server/domain/OrderService.cpp:18-28 | Over every run from an empty database and order cache, with inputs the stores can carry and every step keeping pace, a cache-first read and a database read find the same order with the same identity, user, product, quantity, currency, status and reason, and neither throws; the same amount too where new orders that are cached have at most six significant digits. |
| `OrderCache.StepAgreesExactly` | apps/order_server/domain/OrderService.cpp:61-185 | With inputs the stores can carry, an operation keeps each cached order decodable and equal to its row if and only if it keeps pace: an update of a cached order refreshes the cache or changes nothing, a failed creation that inserted nothing is not cached over anything else and, where amounts are compared, a new order that is cached has at most six significant digits. |
| `OrderCache.UpdatesAreRead` | apps/order_server/domain/OrderService.cpp:106-185 | After a successful update that keeps pace both kinds of read give the updated reason and status, a status without a name reading as Pending, the amount as the SQL text has it, and the other compared fields unchanged. |
| `OrderCache.PaymentReadsBackExactly` | apps/order_server/infra/db/OrderRepository.cpp:207-214 | After a payment that is stored and refreshed both reads give the same amount, and it is the paid one if and only if that has at most six significant digits. |
| `OrderResults.PaymentMarksPaid` | apps/order_server/infra/db/OrderRepository.cpp:207-214 | After a payment that is stored and refreshed both reads say Paid (3), with order and reason as before. |
| `OrderResults.StatusReadsBackExactly` | apps/order_server/infra/db/OrderRepository.cpp:13-36 | After a status update that is stored and refreshed both reads give the status up to 6 as itself and any other as 0, with the reason given and the order as before. |
| `OrderResults.CancelReadsBack` | apps/order_server/domain/OrderService.cpp:140-165 | After a cancellation that is stored and refreshed both reads say Cancelled (5) with the reason given. |
| `OrderResults.NothingUpdated` | apps/order_server/domain/OrderService.cpp:106-165 | An update of an order that does not exist, or whose UPDATE is refused, changes nothing. |
| `OrderResults.UpdatesDateTheRow` | apps/order_server/infra/db/OrderRepository.cpp:200-214 | An update that is stored dates the row by the clock, or by the payment. |
| `OrderResults.ReadFillsCache` | apps/order_server/domain/OrderService.cpp:18-28 | A read that has to ask the database fills the cache: a later read finds the same order there without the database. |
| `OrderResults.ReadAnswers` | apps/order_server/domain/OrderService.cpp:18-28 | A read that finds the order in the cache answers from there and changes nothing; one that finds it nowhere says so. |
| `OrderResults.DatabaseRead` | apps/order_server/infra/db/OrderRepository.cpp:255-271 | A read of the database gives the row without its times. |
| `OrderCache.CreatedAmountExactly` | apps/order_server/infra/db/OrderRepository.cpp:181-190 | After a creation that is inserted and cached, the cache-first read gives the order's amount and the database read the rounded one; they agree if and only if it has at most six significant digits. |
| `OrderCache.RoundedAmountParts` | apps/order_server/infra/db/OrderRepository.cpp:181-190 | An order of 12345.67 is read as 12345.67 and as 12345.70. |
| `SqlAmount.StoredExactly` | apps/order_server/infra/db/OrderRepository.cpp:186-211 | An amount survives the SQL text if and only if it has at most six significant digits; what is kept always has, is off by at most half a unit of the sixth digit, and is kept when stored again. |
| `SqlAmount.ShortExactly` | apps/order_server/infra/db/OrderRepository.cpp:186-211 | Six significant digits means a number below a million times a power of ten. |
| `OrderCache.FailedCreateAgreesExactly` | apps/order_server/domain/OrderService.cpp:76-81 | A creation without stock that inserted nothing keeps the agreement, with amounts or without, if and only if the cache refused it or the row there is the same failed order. |
| `OrderCache.ReusedIdDisagrees` | apps/order_server/domain/OrderService.cpp:76-81 | A service creation with a used id whose reservation fails breaks the agreement whenever the row is any other order. |
| `OrderCache.RefusedInsertDisagrees` | apps/order_server/domain/OrderService.cpp:76-81 | With a fresh id whose insert is refused, the order is then found in the cache and not in the database. |
| `OrderCodec.ReadsBackExactly` | apps/order_server/infra/cache/OrderCache.cpp:141-180 | For every record its C++ fields can hold, decoding the encoding gives the record, times cut to seconds, if and only if no text field contains '\|'. |
| `OrderCodec.ListReadsBackExactly` | apps/order_server/infra/cache/OrderCache.cpp:182-201 | For every list of such records, the empty one included, decoding inverts encoding if and only if no text field contains '\|' or a newline. |
| `OrderCodec.DecodesExactly` | apps/order_server/infra/cache/OrderCache.cpp:150-180 | Decoding any fields, few or many, fails exactly when one of the five numbers cannot be read, and otherwise gives the fields as they stand: missing texts keep their initial value, a missing number repeats the last one. |
| `OrderCodec.SampleFields` | apps/order_server/infra/cache/OrderCache.cpp:141-148 | The field order and number formats of one record, written out. |
| `OrderCodec.SerializeList` | apps/order_server/infra/cache/OrderCache.cpp:182-190 | The loop joins the encodings with newlines. |
| `OrderCodec.DeserializeListLoop` | apps/order_server/infra/cache/OrderCache.cpp:192-201 | The loop decodes every non-empty line, or stops at the first exception. |
| `OrderServer.OrderServer.ReserveForOrder` | apps/order_server/domain/InventoryService.cpp:14-83 | Computes `Reserve`. |
| `OrderServer.OrderServer.IncrementStock` | apps/order_server/domain/InventoryService.cpp:269-284 | Adds in 64 bits to a readable stock and changes nothing otherwise. |
| `OrderServer.OrderServer.ReleaseReservation` | apps/order_server/domain/InventoryService.cpp:111-138 | Computes `Release`. |
| `OrderServer.OrderServer.PutOrder` | apps/order_server/infra/cache/OrderCache.cpp:16-26 | Stores the encoding under the order's key. |
| `OrderServer.OrderServer.RefreshCache` | apps/order_server/domain/OrderService.cpp:179-185 | Caches the row as the database returns it. |
| `OrderServer.OrderServer.HandleCreate` | apps/order_server/interface/http/OrderCreateHandler.cpp:32-66 | Computes `Handle`: validate, reserve, persist or compensate, cache. |
| `OrderServer.OrderServer.CreateOrder` | apps/order_server/domain/OrderService.cpp:61-102 | Computes `Create`. |
| `OrderServer.OrderServer.CancelOrder` | apps/order_server/domain/OrderService.cpp:140-165 | Computes `CancelOrder` and its answer. |
| `OrderServer.OrderServer.UpdateStatus` | apps/order_server/domain/OrderService.cpp:106-122 | Rewrites the row, with the status as its name reads back, and refreshes the cache. |
| `OrderServer.OrderServer.MarkPaid` | apps/order_server/domain/OrderService.cpp:124-138 | The same for a payment, with the amount as the SQL text has it. |
| `OrderServer.OrderServer.GetOrderById` | apps/order_server/domain/OrderService.cpp:18-28 | Cache first, where an undecodable text throws and a cache that cannot be asked counts as a miss; then the database, caching what it found. |

## Left out

- `sendFile` and the pending-file branch of handleWrite: one file-global variable shared by all connections; the stream properties are for runs without it.
- `flush_all_now`: a second consumer of a queue that is correct for one.
- Weak memory: atomics are sequentially consistent, the acquire and release orders are not modelled.
- Sizes: `size_t` and connection numbers do not overflow; stock arithmetic does model 64 bits.
- Destruction of TcpServer, EventLoop and threads, the acceptor, sockets, addresses, and epoll beyond an interest flag: system-call wrappers.
- Liveness under a fair scheduler, and `MPSCLockQueue::Stop`, whose flag is stored without the mutex: only safety is stated for that queue.
- Urgent data on a connection, and references to a connection kept by user code: a close is possible for every established connection, which covers both.
- Optional callbacks: write-complete, high-water and close callbacks are taken to be installed.
- An insert that reports failure after inserting: then the stock is restored for an order that exists.
- StockConservation.Conservation: operations do not interleave, because stock is read and then written by separate Redis calls; a cancellation that releases an order not live is excluded, and `CancelExactly` says why.
- Amounts are whole cents, few enough for a double to tell apart.
- OrderServer.OrderServer.GetOrderById: `std::stod` is modelled on amounts with two decimals, so the exception is exact for cached texts that the cache itself wrote; `std::stod` also accepts others, such as "5".
- SQL text and result parsing: the database is a map from order id to record, read without timestamps; column limits and collations are not modelled. Literals are not escaped in the SQL text, so the cache results ask for texts without quotes and backslashes and leave the payload out of the comparison.
- User-order lists in the cache and pagination, message queue events, JSON, TLS, routing, sessions and configuration.
- `HttpServer::onPlainMessage` parses once per read; the pipelining results are for a caller that goes on until the buffer holds no complete request.
- FileSink.NothingLost: write(2) is taken to write all it is given; the code ignores partial writes.
- FileSink.CompleteAtStop: states the file at the end of the drain; lines submitted later are not written by any code.
- OrderCache.CacheFirstReadsAgree: timestamps are excluded, because the database read does not return them, and so is the payload; steps that do not keep pace are excluded, and `StepAgreesExactly` says why.
- Texts with a NUL: Redis commands are formatted from C strings and cut there; the cache results ask for texts without one, and product and order ids are taken to have none.
- EventLoopObject.EventLoop.Loop: a functor is what it queues and whether it quits; what the handlers of each turn do is a parameter, and calls from other threads are covered by the machine only.
- The queue and pool objects: each call runs while no other thread is between its critical section and its notification; the machines beside them have all interleavings.
