# A verified model of the TinyWeb epoll server

TinyWeb is a Linux web server in C++: one event loop over one-shot epoll events, a pool of
worker threads, and HTTP connections that parse requests in place and send their responses in
pieces. This project models the parts of it that keep state of their own and proves what they
do, for every input, every run and every interleaving. `dafny verify dfyconfig.toml` checks all
of it.

| file | what it holds |
|---|---|
| ConnectionOwnership, NoConnectionLost | the protocol between the event loop and the workers: a step system with one step per access to shared data, and its invariants |
| EventInterest, GivenUp, Progress | what epoll is asked for, what becomes of connections that are given up, and that the threads go on |
| SlotReuse, LateFlag, LateReset, TaskDropped | a run of the server from its start against each condition of those invariants |
| ThreadPool, SqlPool, QueueMonitor, ThreadCounts | the bounded task queue, the database connection pool and the blocking queue as step systems of any number of threads |
| BlockQueue | the ring buffer in the blocking queue, a class over an array |
| TimerList, TimerRuns, TimerServer | the doubly linked timer list, a class over nodes; whole runs of the timers and of the pointers to them, on values; the same calls on the nodes |
| StrayTimers, UserCount | timers that outlive their connection; the user count, which main and workers update without a lock |
| Text, RequestGrammar, RequestPrinter | C strings, comparison without case, numbers; what a stream of request bytes means when it is seen at once; requests as clients print them |
| HeaderOffset | `parse_headers` in any number of workers around the one variable that holds the length of a name |
| LineScanner, ContentReader, Arrivals, HttpReader | `parse_line`, the content state, reads in pieces, and the class that does it in place in a 2048-byte array |
| Delivery, ResponseText, ResponseReader, ResponseSender | the counters of `write` over any number of short writes, the text of a response, what a client reads from it, and the class that prints into a 1024-byte array and sends |
| Url | `split` and the URL parser |
| Wrappers, Runs | option and bit; runs of a step function |

The class `http_conn` is modelled in two halves, `HttpReader.HttpConn` with the fields of the
request side and `ResponseSender.HttpConn` with those of the response side. Characters stand for
bytes. Mutexes, semaphores and condition variables are step rules; a wait on a semaphore succeeds
only by taking a unit. The kernel's answers (`recv`, `writev`, `epoll_wait`), the clock and the
result of `do_request` are inputs. So is what a load of the shared header offset finds, in the
methods that read a request. Pointers into the read buffer are indices, and -1 is the null pointer.

## Where the code does not do what it seems to be meant to do

Each of these is modelled as the code has it, with the exact condition under which it does no harm.

- **Accepting on a slot in use.** A worker that closes a descriptor in `process` has not left
  `process` yet when the kernel can hand the descriptor out again. A step keeps the ownership
  invariant if and only if it is calm: no accept on a slot that somebody still holds
  or for which a `timer_flag` is still to be stored, and no `init` in `write` over such a late store
  (`ConnectionOwnership.StepKeepsExactlyWhenCalm`). `SlotReuse`, `LateFlag` and `LateReset` give
  a run from the start for each of the three.
- **A refused append.** In proactor mode the result of `append` is not looked at; a connection is
  lost exactly by such a step (`NoConnectionLost.StepKeepsUnlessDropped`). `TaskDropped` is a run
  into it.
- **The shared header offset.** `parse_headers` keeps the length of the name it tries in one
  variable of the program, so workers overwrite each other's. The value of a matched header is
  taken at the right place if and only if since this worker's store no other has stored, or the
  last one stored the same length (`HeaderOffset.ValueRightExactly`); in
  `HeaderOffset.LengthIsLost` any announced length becomes none. `HttpReader` gives what each load
  finds as an input: a worker that finds another's length is `Disturbed`, and the claims on what a
  request means are for one that is not.
- **The user count.** Main and workers update `m_user_count` without a lock. It accounts for the
  timers throughout a run if and only if each store finds it as its load did
  (`UserCount.AccountsExactly`); `UserCount.UpdateIsLost` is a lost update.
- **A body that comes in pieces.** While the body is incomplete, the loop condition of
  `process_read` runs `parse_line` over it and moves `m_checked_idx`. The call after the last byte
  issues the request if and only if every earlier piece stops `parse_line` on the first byte of
  the body (`ContentReader.BodyInPieces`, `HttpReader.HttpConn.Serve`). When more bytes follow, a
  badly cut body can be issued late, on the text at `m_start_line`: that is the whole body when
  `m_start_line` is still where the body starts, and otherwise begins behind its first byte
  (`ContentReader.TextStarts`, `HttpReader.HttpConn.Serve`).
- **A body that ends with the buffer.** In level-triggered mode a `recv` that fills all 2048 bytes
  succeeds, and in edge-triggered mode too when nothing more is waiting. A whole body that ends at
  the last byte has its terminator written behind the buffer: `Fault`, if and only if its end is
  the end of the buffer (`ContentReader.BodyCall`, `HttpReader.HttpConn.Serve`).
- **Two short writes inside the header.** `write` compares the running total with an already
  shortened length. A response that it finishes is the header and the file, each byte once and in
  order, if and only if at most one write left the total strictly inside the header
  (`Delivery.DeliversIffCutOnce`); otherwise the last byte of the header never goes out.
  `TwoCutsCorrupt` is a wrong delivery and `SecondCutStalls` an endless one.
- **A request without init before it.** After a response without keep-alive whose late
  `timer_flag` main missed, the next request finds the old state. A request line is then a header
  that nobody knows, so that the first method and URL are issued again
  (`RequestPrinter.NextWithoutInit`); behind a request with a body, any bytes issue that one again
  (`ContentReader.BodyIssuedAgain`). The old text stays in front of the new response
  (`ResponseSender.HttpConn.ProcessWrite`). What a finished run has sent is the buffer and the file
  if and only if the first `writev` took everything (`Delivery.StaleInOnePiece`), and the client
  then reads the old header again (`ResponseSender.ClientRereads`).
- **No answer.** A file of no bytes and a missing file (`OtherResult`) fall to the default case of
  `process_write`: the connection is closed without a response. A line with a lone CR or LF
  is never answered at all (`Stuck` in `RequestGrammar.Parse`).
- **File sizes beyond an int.** `Content-Length` and `bytes_to_send` are ints: right if and only if
  the size, and the size with the header, fit (`ResponseReader.AnnouncesFileSize`,
  `ResponseSender.HttpConn.ProcessWrite`).
- **The last timer.** `tick` leaves the head in place when the last node expires and reads it after its
  deletion: if and only if no timer outlives the tick (`TimerList.SortedTimerList.Tick`).
- **A timer that outlives its connection.** A worker's `close_conn` leaves the timer in the list, and
  its callback closes the descriptor, whoever has it then. A listed timer is that of another
  connection's descriptor if and only if the descriptor is open and was accepted again after the
  timer was added (`StrayTimers.StrayExactly`); `StrayTimers.ConnectionIsClosed` is a run.
- **An expiry that is lowered.** `adjust_timer` leaves the list unsorted if and only if the new
  expiry is below the predecessor's (`TimerList.SortedTimerList.AdjustTimer`).
- **`clear` wakes no producer.** It keeps the invariant if and only if none of them sleeps
  (`QueueMonitor.StepKeepsExactly`, `ClearLosesWakeup`).
- **`front` of the blocking queue** reads the slot before the oldest element, index -1 on a fresh queue
  (`BlockQueue.RingBuffer.Front`).
- **One piece in a query** is ignored: a query is read back if and only if it is not a single piece
  (`Url.QueryReadsBack`). A piece with three parts or none assigns the previous parameter again
  (`Url.PieceReadsBack`).
- **A target with a scheme.** With a query its host is the scheme's name and its port zero; without
  one the domain is lost (`Url.ParsedUrl.DoParse`).
- A bad request is answered with status 404, where its own text says 400; the model has 404.

## Model

| member | source | states |
|---|---|---|
| `ConnectionOwnership.StepKeepsExactlyWhenCalm` | webserver.cpp:311-453 | From any state with at most one owner per connection and an honest handshake, a step of main or of any worker leads to such a state again if and only if it is calm |
| `ConnectionOwnership.RunKeeps` | webserver.cpp:400-453 | The invariant holds at the end of every calm run, of any length and interleaving |
| `ConnectionOwnership.InitialInv` | webserver.cpp:400-409 | The server before its first event satisfies the invariant |
| `ConnectionOwnership.NoTwoThreads` | webserver.cpp:311-396 | In a calm run no two threads are ever inside read_once, process or write of one connection; nor is it queued or in main's batch then, and epoll has it armed only while the reactor's main thread still waits for it |
| `ConnectionOwnership.ReactorHandshakeHolds` | webserver.cpp:318-338 | In reactor mode the queue never holds two tasks and is never full at an append; improv is set only inside the handshake on that connection; main leaves the spin only after every appended read or write has returned; a timer is removed only after a reported failure |
| `ConnectionOwnership.WriteKeepsFlags` | bin/http/http_conn.cpp:553-598 | A worker's step in write makes an unjustified timer_flag possible exactly when its init runs with a late flag store outstanding |
| `ConnectionOwnership.AcceptKeeps` | webserver.cpp:192-219 | Accepting on a slot keeps the invariant if and only if nobody holds the slot and no flag store for it is due |
| `ConnectionOwnership.ReactorWorkerKeeps` | devlop/threadpool_default_scheduler.cpp:6-24 | Every step of a reactor worker keeps the invariant if and only if it is calm |
| `ConnectionOwnership.ProactorWorkerKeeps` | devlop/threadpool_default_scheduler.cpp:25-28 | Every step of a proactor worker keeps the invariant |
| `ConnectionOwnership.HandshakeKeeps` | webserver.cpp:328-338 | Every step of main's spin and of the two flag stores behind it keeps the invariant |
| `ConnectionOwnership.AppendKeeps` | webserver.cpp:325-325 | A reactor append finds the queue empty, so it is never refused, and keeps the invariant |
| `ConnectionOwnership.ProactorKeeps` | webserver.cpp:339-353 | read_once and write in the main thread keep the invariant, write re-arming before it returns |
| `ConnectionOwnership.LoopKeeps` | webserver.cpp:418-451 | Polling, expiring and dispatching events keep the invariant |
| `ConnectionOwnership.OnlyUnpublished` | webserver.cpp:328-338 | A worker that has not stored improv yet is the only one, works on the connection main spins on, and the queue is empty |
| `EventInterest.ArmedForWhatIsOwed` | bin/http/http_conn.cpp:710-725 | After any calm run epoll is asked for EPOLLOUT for exactly the armed connections to which a response is owed, from the decision of process to the end of write, and for EPOLLIN for the others; write is entered for those only, read_once and process for the others only |
| `GivenUp.GivenUpIsClosed` | webserver.cpp:318-396 | After a calm run at rest, a connection that was given up (failed read or write, no keep-alive, refusal, hang-up, timer) is closed, or its flag came too late and still stands; only one that was given up is closed; in proactor mode all of them are |
| `GivenUp.HandshakeAlone` | webserver.cpp:328-338 | Once main has seen improv it closes the connection and clears the flag if and only if it finds the flag set |
| `GivenUp.NoEventOfClosed` | webserver.cpp:418-451 | In a calm run main never has an event of a descriptor that is closed |
| `Progress.SpinGoesOn` | webserver.cpp:328-338 | Whenever main spins in a calm run, it can leave the spin or some worker can make a step |
| `Progress.WorkerGoesOn` | devlop/threadpool_default_scheduler.cpp:6-28 | A worker inside the scheduler can make its next step, whatever read_once, write and process decide |
| `Progress.MainGoesOn` | webserver.cpp:318-396 | So can main inside an event, unless it waits for improv |
| `Progress.PollingGoesOn` | webserver.cpp:418-451 | Between events main can take up any event that it has, and poll, accept or expire |
| `Progress.ProcessAlone` | bin/http/http_conn.cpp:710-725 | process alone leaves the connection armed for reading, armed for writing, or closed without a descriptor, by its decision |
| `NoConnectionLost.StepKeepsUnlessDropped` | bin/threadpool/pool/threadpool_impl.h:106-117 | A calm step leaves an open connection without holder, interest or reported failure exactly when it is an append refused by a full queue |
| `NoConnectionLost.NothingLost` | webserver.cpp:311-396 | In a calm run without such a step no open connection is forgotten |
| `NoConnectionLost.NothingLostFromStart` | webserver.cpp:400-453 | From the start, an open connection without reported failure is armed or has exactly one holder |
| `SlotReuse.SlotReuseBreaksOwnership` | bin/http/http_conn.cpp:710-725 | A concrete run from the start in which main and a worker run methods of one connection at once, through the last modfd of process on a reused descriptor |
| `LateFlag.LateFlagRemovesTimer` | devlop/threadpool_default_scheduler.cpp:13-16 | A concrete run from the start in which main removes the timer of a connection whose only read succeeded, since improv is stored before timer_flag |
| `LateReset.LateResetRemovesTimer` | devlop/threadpool_default_scheduler.cpp:18-23 | A concrete run from the start in which the init of a second response, over the late timer_flag of the first, makes main remove the timer of an open connection that has not failed |
| `TaskDropped.FullQueueDropsTask` | webserver.cpp:341-346 | A concrete proactor run from the start in which the queue refuses a connection that main has read, and which then is armed nowhere and held by nobody |
| `HeaderOffset.ValueRightExactly` | bin/http/http_conn.cpp:310-326 | In every run of any number of workers, a matched name is stepped over exactly if and only if since its own store no other worker has stored, or the last one stored the same length |
| `HeaderOffset.ComparedExactly` | bin/http/http_conn.cpp:310-323 | A name is compared over its own length if and only if the same holds |
| `HeaderOffset.HeardOnlyItself` | bin/http/http_conn.cpp:299-331 | Whatever the others do, a worker all of whose loads found its own length gives its line the meaning that it has alone |
| `HeaderOffset.LengthIsLost` | bin/http/http_conn.cpp:317-321 | A concrete run of two workers in which any announced length is read as none, because the other begins a header line of any kind |
| `HeaderOffset.HostBehindItsLine` | bin/http/http_conn.cpp:323-326 | A concrete run of two workers, with any short Host line of the one and any line of the other, in which the host pointer is set behind the end of its line |
| `ThreadPool.ReachableInv` | bin/threadpool/pool/threadpool_impl.h:93-146 | In every reachable state the queue length is the semaphore's value plus the workers past the wait plus the appenders before their post, and the queue never exceeds its bound |
| `ThreadPool.EachTaskOnce` | bin/threadpool/pool/threadpool_impl.h:93-146 | Each accepted task is queued at its place, in the hand of exactly one worker, or executed, and only one of these; tasks leave in the order accepted |
| `ThreadPool.RunRefines` | bin/threadpool/pool/threadpool_impl.h:93-146 | In any run the list is a bounded queue whose operations happen in one piece: accepted at the end below the bound, refused at it, taken from the front |
| `ThreadPool.CallActsOnce` | bin/threadpool/pool/threadpool_impl.h:93-119 | A call of append changes the list in one step only, and returns true behind that and false behind a refusal |
| `ThreadPool.StuckIsIdle` | bin/threadpool/pool/threadpool_impl.h:93-146 | When in a reachable state nobody can make a step, every append has returned, every accepted task is executed and the workers wait |
| `ThreadPool.AppendAlone` | bin/threadpool/pool/threadpool_impl.h:93-119 | append alone puts the task at the end, posts and returns true, or with a full list changes nothing and returns false |
| `ThreadPool.WorkAlone` | bin/threadpool/pool/threadpool_impl.h:122-146 | A worker alone past the wait takes the front and executes it, by trylock or behind a failed trylock by lock |
| `ThreadPool.NoPopFromEmpty` | bin/threadpool/pool/threadpool_impl.h:127-136 | Whoever is past the wait finds a task, on the trylock path too, and takes the next in order |
| `ThreadPool.StepKeeps` | bin/threadpool/pool/threadpool_impl.h:93-146 | Every single step keeps counts, mutex, bound, order and once-only service |
| `SqlPool.Init` | bin/CGImysql/sql_connection_pool.cpp:31-45 | init leaves every connection in the list once, all counters and the semaphore at their number, also for a negative size |
| `SqlPool.ReachableInv` | bin/CGImysql/sql_connection_pool.cpp:49-89 | Counts, mutex, conservation and counters hold in every interleaving of any number of callers |
| `SqlPool.Conservation` | bin/CGImysql/sql_connection_pool.cpp:49-89 | A connection is in the list once and in no hand or in one hand and not in the list; with the lock free m_FreeConn is the list's length and the counters add up to m_MaxConn |
| `SqlPool.TakeFindsConnection` | bin/CGImysql/sql_connection_pool.cpp:52-57 | Behind the semaphore the list is not empty although it was tested without the lock |
| `SqlPool.GetAlone` | bin/CGImysql/sql_connection_pool.cpp:49-69 | With connections in the list and the mutex free, getConnection alone returns the oldest one, both counters moved by one, if and only if the semaphore has a unit, and waits otherwise |
| `SqlPool.ReleaseAlone` | bin/CGImysql/sql_connection_pool.cpp:72-89 | releaseConnection alone puts the connection at the end of the list, counters and semaphore as before it was taken |
| `SqlPool.NullExactly` | bin/CGImysql/sql_connection_pool.cpp:52-53 | In any run a caller has null if and only if it found the list empty when it tested |
| `SqlPool.SomebodyCanGoOn` | bin/CGImysql/sql_connection_pool.cpp:49-89 | In every reachable state some caller can go on |
| `SqlPool.NullHolderChangesNothing` | bin/CGImysql/sql_connection_pool.cpp:121-130 | A scoped holder that got null disturbs nobody: whatever other callers do meanwhile they can do without it, and the pool ends as if it had not been there |
| `BlockQueue.Create` | bin/log/block_queue.h:37-47 | A size that is not positive is refused; any other gives a queue that stands for the empty sequence |
| `BlockQueue.RingBuffer.constructor` | bin/log/block_queue.h:42-46 | A new queue stands for the empty sequence, both indices at -1 |
| `BlockQueue.RingBuffer.TryPush` | bin/log/block_queue.h:104-115 | Appends the item to the sequence, m_back moving on cyclically and congruent to m_front plus m_size, or changes nothing when the queue is full |
| `BlockQueue.RingBuffer.TryPop` | bin/log/block_queue.h:118-129 | Removes and returns the oldest element, the same congruence kept, or changes nothing when the queue is empty |
| `BlockQueue.RingBuffer.Back` | bin/log/block_queue.h:76-83 | Returns the newest element |
| `BlockQueue.RingBuffer.Front` | bin/log/block_queue.h:66-73 | What front reads as written: never the oldest element's slot unless there is only one, the newest element when the queue is full, out of bounds while m_front is -1 |
| `BlockQueue.RingBuffer.Clear` | bin/log/block_queue.h:49-55 | The queue stands for the empty sequence again |
| `BlockQueue.Run` | bin/log/block_queue.h:104-129 | Any run of pushes and pops on the array gives the results and the contents of a bounded FIFO sequence |
| `BlockQueue.FifoConserves` | bin/log/block_queue.h:104-129 | What was accepted is what was popped, in order, followed by what is left |
| `QueueMonitor.ReachableInv` | bin/log/block_queue.h:49-129 | In every interleaving whose clears find no producer asleep, spurious wakeups included, the bounds on sleepers and notified consumers hold |
| `QueueMonitor.NoLostWakeup` | bin/log/block_queue.h:104-129 | In such a run, with the mutex free, a sleeping consumer means at least as many notified consumers as items, a sleeping producer a full queue; without clears items leave in order |
| `QueueMonitor.NeverAllAsleep` | bin/log/block_queue.h:104-129 | In such a run consumers never all sleep on a non-empty queue, producers never on one that is not full, nor both sides at once |
| `QueueMonitor.StuckIsAsleep` | bin/log/block_queue.h:104-129 | In such a run, when nobody can make a step, all who are inside sleep, producers over a full queue only, consumers over an empty one only |
| `QueueMonitor.PushAlone` | bin/log/block_queue.h:104-115 | push alone with room puts the item at the end and wakes one sleeping consumer if there is any |
| `QueueMonitor.PopAlone` | bin/log/block_queue.h:118-129 | pop alone takes the oldest item and wakes every sleeping producer |
| `QueueMonitor.ItemsArrive` | bin/log/block_queue.h:104-115 | What a producer was called with is what it inserts, also behind any wait |
| `QueueMonitor.StepKeepsExactly` | bin/log/block_queue.h:49-55 | Every step keeps those bounds, a clear if and only if no producer sleeps |
| `QueueMonitor.ClearLosesWakeup` | bin/log/block_queue.h:49-55 | A concrete run after which producer and consumer sleep on an empty queue and nothing but a wakeup without cause or another clear can happen |
| `TimerList.InsertPosUnique` | bin/timer/lst_timer.cpp:105-125 | In an ascending list the stable insertion position is the only one between not larger and larger keys |
| `TimerList.InsertKeepsAscending` | bin/timer/lst_timer.cpp:18-33 | Inserting at that position keeps the list ascending |
| `TimerList.AdjustPosition` | bin/timer/lst_timer.cpp:35-42 | A node whose successor expires later stays: sorted if and only if its expiry is not below its predecessor's, and then it is where insertion would put it |
| `TimerList.InsertChain` | bin/timer/lst_timer.cpp:105-125 | Relinking around a new node gives a doubly linked, duplicate-free chain |
| `TimerList.RemoveChain` | bin/timer/lst_timer.cpp:77-79 | Bypassing a node leaves a doubly linked, duplicate-free chain of the others |
| `TimerList.SortedTimerList.AddTimer` | bin/timer/lst_timer.cpp:18-33 | Stable insertion by expiry: the new node goes behind those that expire no later, the list stays linked, sorted, with right head and tail |
| `TimerList.SortedTimerList.AddAfter` | bin/timer/lst_timer.cpp:105-125 | The search from any node that expires no later finds the same position |
| `TimerList.SortedTimerList.AdjustTimer` | bin/timer/lst_timer.cpp:35-53 | Takes the node out and inserts it stably; a lowered expiry below the predecessor's, and nothing else, leaves the list unsorted, linked as before |
| `TimerList.SortedTimerList.MoveBack` | bin/timer/lst_timer.cpp:43-52 | Both relinking cases take the node out and insert it behind its successor at the stable position |
| `TimerList.SortedTimerList.Remove` | bin/timer/lst_timer.cpp:55-80 | Exactly that node goes, in all four cases of head and tail, and is deleted |
| `TimerList.SortedTimerList.ExpireHead` | bin/timer/lst_timer.cpp:96-101 | One turn of tick: callback once, the rest stays well linked, but the head stays when there is no next |
| `TimerList.SortedTimerList.Tick` | bin/timer/lst_timer.cpp:82-103 | The callback runs once, in order, for exactly the timers due; the rest is a valid sorted list with nothing due; a deleted node is read if and only if there are timers and none outlives now |
| `TimerRuns.ListIsOrderedLive` | webserver.cpp:192-241 | After any run of accepts, adjustments, removals, expiries and worker closes the list is exactly the live timers, none lost or doubled, ordered by expiry and last adjustment; the timer pointer of every descriptor that is open, or of which main may have an event, leads to its own timer in the list |
| `TimerRuns.OrderDeterminesList` | bin/timer/lst_timer.cpp:18-53 | That order and the set of live timers determine the list |
| `TimerRuns.StepKeeps` | webserver.cpp:192-241 | Each operation keeps order, live set and live pointers |
| `TimerRuns.TickIsExpiries` | bin/timer/lst_timer.cpp:90-102 | The turns of one tick that leaves a timer take exactly the timers due, one operation each |
| `TimerServer.PerformAll` | webserver.cpp:192-241 | Any sequence of the timer calls, made on the linked nodes and the pointers of users_timer, leaves them as its operations leave the values, or reads a deleted node exactly where the values say so |
| `TimerServer.Timers.Create` | webserver.cpp:192-219 | A new node, users_timer's pointer to it and its place in the list are what Accept does on values |
| `TimerServer.Timers.Adjust` | webserver.cpp:223-230 | The node that users_timer's pointer leads to gets its new expiry and place, as on values |
| `TimerServer.Timers.Remove` | webserver.cpp:232-240 | The node that the pointer leads to is taken out, as on values |
| `TimerServer.Timers.Tick` | bin/timer/lst_timer.cpp:82-103 | A tick is the expiries of the timers due, or reads a deleted node if and only if there are timers and all are due |
| `StrayTimers.StrayExactly` | webserver.cpp:192-219 | After any run, a listed timer would close a connection that is not its own if and only if its descriptor is open and was accepted again after the timer was added |
| `StrayTimers.StrayNeedsWorker` | bin/http/http_conn.cpp:118-126 | Without a worker's close_conn there is no such timer |
| `StrayTimers.StrayCloses` | bin/http/http_conn.cpp:751-757 | The callback of such a timer closes the descriptor, and the timer of the connection that had it stays in the list |
| `StrayTimers.RemoveIsOwn` | webserver.cpp:232-240 | remove_timer closes the connection that it was called for and drops its own timer |
| `StrayTimers.ConnectionIsClosed` | bin/http/http_conn.cpp:118-126 | A concrete run from the start in which a connection is closed before its time by the timer of an earlier one |
| `UserCount.StoreKeepsExactly` | bin/http/http_conn.cpp:118-135 | With every update a load and a store, a step keeps count plus worker closes equal to the number of timers if and only if a store finds the count as its load did |
| `UserCount.AccountsExactly` | bin/http/http_conn.cpp:118-135 | Over a whole run it does so at every point if and only if every store does |
| `UserCount.AloneSuffices` | bin/http/http_conn.h:102-105 | Every store does so when no other falls between a load and its store |
| `UserCount.AccountsFromStart` | bin/http/http_conn.cpp:751-757 | In such a run from the empty server the count accounts for the timers at the end |
| `UserCount.UpdateIsLost` | bin/http/http_conn.cpp:123-123 | A concrete run in which a worker's store undoes main's: two timers, one close and a count of none |
| `Text.AtolOfDecimal` | bin/http/http_conn.cpp:321-321 | atol reads back every printed decimal up to the largest long, whatever follows that is no digit |
| `Text.AtolOfNumber` | bin/http/http_conn.cpp:321-321 | atol of any number behind white space, signed or not, with anything but a digit behind it: the nearest long |
| `Text.AtolOfNone` | bin/http/http_conn.cpp:321-321 | Where no number begins, atol gives zero |
| `Text.ToIntExactly` | bin/http/http_conn.cpp:321-321 | A long stored in an int keeps its value modulo 2^32 |
| `Text.DecimalWrites` | bin/http/http_conn.cpp:629-632 | Lengths are written in decimal, highest digit first |
| `Text.EqNoCaseExactly` | bin/http/http_conn.cpp:253-256 | strcasecmp finds no difference if and only if there is none but of the case of letters |
| `Text.StartsNoCaseExactly` | bin/http/http_conn.cpp:310-323 | strncasecmp with a name finds no difference if and only if the line begins with the name in some case |
| `LineScanner.ScanStops` | bin/http/http_conn.cpp:178-202 | Resumed anywhere in an unfinished or bad line, parse_line reports what a scan of the whole rest reports and touches no byte |
| `LineScanner.ScanCompletes` | bin/http/http_conn.cpp:178-202 | Resumed anywhere, also between CR and LF, it ends a complete line at the same place and overwrites just its CR LF |
| `LineScanner.ScanExactly` | bin/http/http_conn.cpp:178-202 | parse_line in plain words: ok at a CR LF, also one resumed between the two, open at the end of the bytes, bad at any other CR or LF, with its position and what it overwrites |
| `RequestPrinter.PrintThenParse` | bin/http/http_conn.cpp:242-394 | A request printed with names in any case and any separators parses to its method, URL, last length and host and keep-alive, the bytes behind the blank line left as its body |
| `RequestPrinter.RequestLineParses` | bin/http/http_conn.cpp:242-295 | A printed request line gives its method and URL, a URL of one character the index file |
| `RequestPrinter.AcceptsExactly` | bin/http/http_conn.cpp:242-295 | Accepted are exactly GET or POST and HTTP/1.1, in any case, around a target without separators, with any separators between |
| `RequestPrinter.HeaderParses` | bin/http/http_conn.cpp:299-331 | Each kind of header, its name in any case and any separators before its value, has just the effect that it names, and any line that begins with no name has none, for a worker that finds its own lengths in the shared offset; a length may be any number, also one that fits in no int |
| `RequestGrammar.ParseExtends` | bin/http/http_conn.cpp:346-394 | What a stream has come to mean is not changed by more bytes |
| `RequestGrammar.LeadsOn` | bin/http/http_conn.cpp:354-389 | A complete line moves the parser on to the same state whatever comes behind it |
| `RequestPrinter.NextWithoutInit` | bin/http/http_conn.cpp:299-389 | Behind a request without init, a printed request adds its headers to the old fields and leaves method and URL, which are issued again |
| `HttpReader.HttpConn.ParseLine` | bin/http/http_conn.cpp:178-202 | The loop over the buffer stops where the first CR or LF from m_checked_idx says, with that status, and overwrites just a CR LF |
| `HttpReader.HttpConn.ParseRequestLine` | bin/http/http_conn.cpp:242-295 | Accepts exactly the lines of method, URL and version; all writes, the index file's too, stay inside the line and its CR LF |
| `HttpReader.HttpConn.ParseTarget` | bin/http/http_conn.h:239-247 | The version is cut off; a URL of one character gets the index file in bytes of the line already consumed |
| `HttpReader.HttpConn.ParseMethodName` | bin/http/http_conn.cpp:253-265 | GET or POST without regard to case; only POST sets cgi and nothing clears it |
| `HttpReader.HttpConn.ParseHeaders` | bin/http/http_conn.cpp:299-331 | Whatever the loads of the shared offset find: disturbed if and only if one finds another worker's length; otherwise the fields become those of the header's effect, and the blank line finishes or starts the content by the length |
| `HttpReader.HttpConn.MatchName` | bin/http/http_conn.cpp:310-326 | Undisturbed, the names are tried in order and the one that begins the line without regard to case is matched |
| `HttpReader.HttpConn.Switch` | bin/http/http_conn.cpp:358-384 | One line changes the fields as the line's meaning says, unless the worker is disturbed |
| `HttpReader.HttpConn.ReadLines` | bin/http/http_conn.cpp:346-394 | However the bytes were split into reads, up to the blank line an undisturbed worker has the result and all fields of parsing the whole stream at once, and the bytes behind are untouched |
| `HttpReader.HttpConn.ParseContent` | bin/http/http_conn.cpp:334-344 | The body is complete when the bytes read reach the length; a write outside the buffer or an int overflow is a fault |
| `HttpReader.HttpConn.ReadContent` | bin/http/http_conn.cpp:354-389 | The loop in the content state, with its runs of parse_line over body bytes |
| `HttpReader.HttpConn.ProcessRead` | bin/http/http_conn.cpp:346-394 | From any state between reads, undisturbed: the answer the stream means; a body whole in this call is issued and terminated in place, or a fault if it ends with the buffer; an incomplete one is not issued, and shows whether parse_line moved into it; behind such a move, issued on the text at m_start_line if and only if the announced length is there behind m_checked_idx |
| `Arrivals.DrainsAt` | bin/http/http_conn.cpp:222-237 | recv runs dry if and only if the first answer that is not bytes is EAGAIN, and what it brought are the bytes before |
| `HttpReader.HttpConn.ReadEdge` | bin/http/http_conn.cpp:222-237 | Succeeds if and only if there is room at first, recv runs dry before any error and the bytes do not exceed the buffer, which they may fill; then all bytes are behind the old ones |
| `HttpReader.HttpConn.ReadLevel` | bin/http/http_conn.cpp:208-220 | One recv, which succeeds if and only if there is room and it returned bytes; a failed one moves m_read_idx back by one |
| `HttpReader.HttpConn.Init` | bin/http/http_conn.cpp:150-174 | The connection reads a new request from an empty stream |
| `HttpReader.HttpConn.Serve` | bin/http/http_conn.cpp:206-394 | Over reads in any pieces that fit in the buffer, which they may fill: disturbed if and only if a load of the shared offset finds another worker's length; otherwise answer and fields depend on the bytes alone up to the blank line; a body of the announced length is handed on, whole, if and only if no piece ends badly inside it and it ends before the last byte of the buffer, and is a fault where it ends with it; one issued late starts at or behind its first byte and is whole if at it |
| `HttpReader.HttpConn.ServedAsPrinted` | bin/http/http_conn.cpp:242-394 | By an undisturbed worker a printed request of up to 2048 bytes is issued, with the printed fields and body, if and only if its body is empty, or not badly cut and the request short of the buffer; with a body that fills the buffer, not badly cut, it is a fault; badly cut, nothing |
| `ContentReader.BodyInPieces` | bin/http/http_conn.cpp:354-386 | The call after the last byte issues the request, or is a fault with a body that ends with the buffer, if and only if every earlier piece stops parse_line where the body starts |
| `ContentReader.TextStarts` | bin/http/http_conn.cpp:354-386 | A call issues the request at its first turn or not at all, on the text at m_start_line, exactly when the announced length has been read behind m_checked_idx and the terminator falls into the buffer; issuing nothing, it leaves m_start_line at or behind the m_checked_idx that it found, and at it only with the buffer unchanged |
| `ContentReader.BodyCall` | bin/http/http_conn.cpp:334-386 | The first call in the content: a whole body is issued, or a fault exactly when it ends with the buffer; part of a body is not; and when m_checked_idx moves |
| `ContentReader.MovedCallsNeverComplete` | bin/http/http_conn.cpp:354-386 | Once m_checked_idx is inside the body, the body's own bytes never complete it |
| `ContentReader.BodyIssuedAgain` | bin/http/http_conn.cpp:334-344 | A body that was issued, without init behind it, is issued again at once whatever bytes come next |
| `ContentReader.CutBodyIsLost` | bin/http/http_conn.cpp:386-386 | A two-byte body that comes byte by byte is never handed on, in one piece it is |
| `Delivery.SumKept` | bin/http/http_conn.cpp:575-576 | bytes_have_send plus bytes_to_send stays the same over any writes |
| `Delivery.WriteKeepsExactly` | bin/http/http_conn.cpp:575-584 | After one write the buffers describe what is left if and only if the write did not leave an already begun header unfinished |
| `Delivery.FaithfulIffCutOnce` | bin/http/http_conn.cpp:562-597 | Over a whole run they do so at every point if and only if at most one write leaves the total strictly inside the header |
| `Delivery.DeliversInOrder` | bin/http/http_conn.cpp:562-597 | In such a run the bytes sent are the beginning of header and file, each once and in order |
| `Delivery.DeliversAll` | bin/http/http_conn.cpp:586-596 | When in such a run the counter says that all is sent, all of it has been |
| `Delivery.DeliversIffCutOnce` | bin/http/http_conn.cpp:553-598 | A response that write has finished by its counter is the header and the file, each byte once and in order, if and only if at most one write left the total strictly inside the header |
| `Delivery.HeaderEndLost` | bin/http/http_conn.cpp:577-584 | After a second such write the last byte of the header never goes out, however often write is called |
| `Delivery.CallsCompose` | bin/http/http_conn.cpp:565-569 | Calls suspended by EAGAIN make one run |
| `Delivery.TwoCutsCorrupt` | bin/http/http_conn.cpp:577-584 | A concrete run with two short writes in the header that finishes by its counters and sends a wrong sequence |
| `Delivery.SecondCutStalls` | bin/http/http_conn.cpp:577-584 | Without a file, a second cut can leave nothing to send with bytes outstanding, for ever |
| `Delivery.StaleInOnePiece` | bin/http/http_conn.cpp:553-598 | On the total of an earlier response, with a file or a form: what a finished run has sent is the buffer and the file, each byte once and in order, if and only if the first writev took everything |
| `Delivery.StaleQueue` | bin/http/http_conn.cpp:575-584 | Behind the first writev of such a run, what is queued is what is left if and only if it took everything |
| `ResponseReader.HeaderReadsBack` | bin/http/http_conn.cpp:619-648 | A client reads back version, status, reason, announced length, connection option and body from the printed header |
| `ResponseReader.AnnouncesFileSize` | bin/http/http_conn.cpp:679-689 | The announced length of a file is the number of bytes behind the blank line if and only if its size fits in an int |
| `ResponseReader.ErrorsAsMeant` | bin/http/http_conn.cpp:655-678 | The client reads 500 Internal Error, 404 Not Found for a bad request and 403 Forbidden, each with its own page and its length |
| `ResponseText.HeaderFits` | bin/http/http_conn.cpp:655-708 | Every header with every form is far below the buffer's bound |
| `ResponseText.HeadersUpToMiss` | bin/http/http_conn.cpp:624-628 | add_headers appends its three lines up to the first that leaves no room for two more bytes |
| `ResponseSender.HttpConn.AddResponse` | bin/http/http_conn.cpp:600-617 | Appends the text if and only if it leaves two bytes of the buffer free, and otherwise keeps the text that is there |
| `ResponseSender.HttpConn.ProcessWrite` | bin/http/http_conn.cpp:655-708 | In any state: what was in the buffer stays in front of header and form, bytes_have_send stays, false leaves bytes_to_send; on counters of an earlier response the new one is stale. Behind init: true exactly for errors with a form and for files with bytes, not for a missing file, which like any other result gets no response; then no add_response has failed, the buffer holds the whole header (and form), of an error the one that the client reads as that error, and the counters describe the response if and only if its size fits in an int |
| `ResponseSender.HttpConn.SendSome` | bin/http/http_conn.cpp:575-584 | The bookkeeping behind one writev |
| `ResponseSender.HttpConn.Write` | bin/http/http_conn.cpp:553-598 | Any script of short writes, EAGAIN and errors, and any bytes_to_send, also a negative one: the state of the whole run, what is armed, and init on a kept connection |
| `ResponseSender.FailsAt` | bin/http/http_conn.cpp:562-573 | A call of write fails if and only if the first answer that is no count is an error other than EAGAIN |
| `ResponseSender.HttpConn.Init` | bin/http/http_conn.cpp:150-174 | The counters and the write buffer are as for a new connection |
| `ResponseSender.ClientGetsFile` | bin/http/http_conn.cpp:553-708 | A finished file response went out whole if and only if its header was cut once at most; then the client reads all of the file, behind a Content-Length that is its size |
| `ResponseSender.ClientGetsForm` | bin/http/http_conn.cpp:553-708 | The same for each error, which the client reads as its own status, reason and page |
| `ResponseSender.ClientRereads` | bin/http/http_conn.cpp:553-708 | A finished response without init before it went out whole if and only if the first writev took everything; then the client reads the old header again, and the new response as its body |
| `Url.SplitAll` | utils/string_utils.cpp:7-19 | The getline loop gives the pieces, an empty last one dropped |
| `Url.JoinOfSplit` | utils/string_utils.cpp:7-19 | Joining the pieces restores every text up to one final delimiter |
| `Url.SplitOfJoin` | utils/string_utils.cpp:7-19 | Splitting joined pieces gives them back if and only if the last is not empty |
| `Url.QueryReadsBack` | bin/netroute/urlparser.h:60-83 | A query of any mixed pieces is read as they say, last value wins, if and only if it is not a single piece |
| `Url.PieceReadsBack` | bin/netroute/urlparser.h:62-75 | A pair assigns its value, also when key or value is empty, a lone key the empty value, and a piece with three parts or none the previous parameter again |
| `Url.ParsedUrl.ParseScheme` | bin/netroute/urlparser.h:37-49 | http:// or https:// in any case, and the first slash behind it |
| `Url.ParsedUrl.ParseParams` | bin/netroute/urlparser.h:60-75 | The loop assigns in order and carries key and value over pieces that have neither one nor two parts |
| `Url.ParsedUrl.ParseHost` | bin/netroute/urlparser.h:86-101 | Path, host and port of a full path in origin form, and of one that begins with a scheme |
| `Url.ParsedUrl.DoParse` | bin/netroute/urlparser.h:29-102 | Goes on exactly for a target in origin form or a slash behind a scheme in any case. In origin form full path and query together are the input if and only if no NUL hides its end, cut behind the first question mark; behind a scheme the same with a question mark, the host being the scheme and the port zero, and without one only the part from that slash is kept |

## Left out

- ConnectionOwnership.StepKeepsExactlyWhenCalm: threads interleave inside calls, so the event loop, the scheduler, `process` and `write` are a step system on values and not methods of a class; shared ints are sequentially consistent, and the queue operations are atomic here, as ThreadPool.RunRefines shows of the list; that a worker's wait, pop and test are one step on top of it is a simplification.
- ConnectionOwnership.NoTwoThreads: is about calm runs; the runs in SlotReuse, LateFlag and LateReset show that the program does not ensure calmness by itself.
- ThreadPool.ReachableInv: the list and the mutex are fields of a state value, one step per operation, since `append` and `run` of several threads interleave between them; a null task is not modelled, for nobody appends one.
- SqlPool.Conservation: the same; `init` alone is a method with its loop, and the exception handlers of a list that cannot throw are not modelled.
- QueueMonitor.NoLostWakeup: one pass through the guarded section is one step per lock, test, notification and unlock; the array itself is in BlockQueue.
- TimerRuns.ListIsOrderedLive: is about values, which TimerServer.PerformAll ties to the nodes; neither takes runs on after a tick that reads a deleted node or after an expiry that was lowered.
- UserCount.AccountsExactly: the condition is on the value that a store finds, since stores of others that cancel out do no harm; a changed count between load and store always does.
- HeaderOffset.ValueRightExactly: a foreign length can lead behind the end of a short line; what is read there is not modelled.
- HttpReader.HttpConn.Serve: makes no claim for a negative Content-length or for lengths within 2048 of the largest int; a disturbed worker is not followed behind the load that disturbed it; what lies behind the buffer, where a fault writes, is not modelled; a full buffer is refused by the next read_once.
- RequestPrinter.NextWithoutInit: is on the meaning of the bytes; the reader class is not followed behind a request that it has issued.
- ResponseSender.HttpConn.ProcessWrite: which requests reach a connection without init between is a matter of the ownership protocol and not of this class.
- ResponseSender.ClientGetsFile: the converse is on the bytes by their place in header and file; two wrong places can hold equal bytes, so a client may be lucky.
- Delivery.DeliversIffCutOnce: bytes_have_send is unbounded; it stays within an int when the size of the response does.
- `do_request`, routers, blueprints, views and templates: user callbacks and file system calls; the call is one result, `DoRequest`, of the reader.
- Login, registration and the user table: calls into MySQL.
- The logger, configuration, XML, thread-local storage and the hash map: thin wrappers.
- `front` has no place in the FIFO refinement, since it departs from it; the timed `pop` passes a time where a predicate belongs.
- Destructors, `destroyPool`, `close_log` and the shutdown of the server.
- The limit on the number of connections in `deal_client_data`, the listening socket's own trigger mode, and the signal pipe.
- The unfinished skeletons of an event loop, channel, poller and socket class.
- Bytes above 127, locale-dependent case folding, and NUL bytes in printed text.
