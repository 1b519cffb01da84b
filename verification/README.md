# A concurrent web server, its request buffer and its load client: models and proofs

The repository holds a web server that serves connections with a pool of
threads: an acceptor reads each request and puts it into a bounded buffer, and
workers take requests from the buffer first in, first out (FIFO) or smallest
file first (SFF). Beside it stand the sequential server it was made from and a
load client that measures it. This project models all three and proves what
they promise, for every input, every interleaving and every run.

## The models

- **The buffer.** `RequestBuffer.Buffer` is the circular array with its `head`,
  `tail` and `count`, and its put, get, scan and compaction loops
  (`RingLayout` has the slot arithmetic). Each operation is proved against the
  obvious operation on a sequence, from every valid state: wrapped, full, with
  one slot, with any `head`. `BoundedQueue` is that sequence with its runs; on it
  stand the order theorems (FIFO order, per-size order, how long a request can
  wait under SFF). `Scheduling` compares drains: the SFF drain is the stable sort
  by size and, for one worker and service times equal to the sizes, the best
  order there is.
- **The threads.** `ServerModel` is a step system: a program counter for each
  thread, the mutex, both condition variables with signals, spurious wake-ups
  and barging, the ring, the kernel's table of open descriptors (numbers are used
  again after a close) and the bytes on each connection. A step is one access,
  one lock operation or one kernel call. `Linearisation` proves that the ring
  follows the abstract queue, `WakeUps` that no wake-up is lost, `Ownership` that
  each open descriptor is in exactly one pair of hands, `Responses` that each
  connection gets what it is owed. `ServerTheorems` states the results for
  every reachable state. `Draining` shows that every run without arrivals and
  spurious wake-ups is bounded, and that where no thread can go on every client
  has been served whose request ends, unless a request for a file that cannot be
  mapped has ended the process. `FairService` is about arrivals that never end:
  in infinite runs that are fair to the threads the workers go on taking requests.
  `Arrivals` and `FairRuns` show that the runs which all this is about exist: any
  sequence of clients, a full buffer, a sleeping acceptor, fair runs for ever.
- **One connection.** `LineReader` has `readline` and the header loop on a byte
  stream, with the buffer that the loop does not initialise. `RequestHandling`
  says what the sequential `request_handle` and the two halves `request_parse`
  and `request_serve` decide and write; `RequestProcedures` has the procedures
  themselves, which write to and close descriptors of `Descriptors.World`.
  `RequestFraming` takes the load client's request through the server's parsing,
  `ResponseBytes` says what each kind of request gets byte for byte, `HttpText` and
  `ResponseFraming` read the responses back, and `EndToEnd`
  joins the load client's reader to the concurrent server.
- **The load client.** `TokenBucket` is the dispatcher over any readings of the
  clock, `LoadAccounting` the queue, the workers and the rows as a step system
  (`LoadRuns` has what whole runs leave),
  `Percentile` the interpolated percentile. `Sorting` and `Folds` hold what
  several modules share: the insertion sort and sums over a sequence.

## What turned out false, and exactly when it holds

- *The header loop reads up to and including the blank line*
  (`src/Solution/WebServer/request.c:42-45`). It also stops after any line that
  ends in CRLF and whose length is 2 modulo 8191, because the last piece of such
  a line is a bare CRLF; and at a lone carriage return that ends the stream
  behind a line that left a newline in the right place of the buffer, because
  `readline` stores no terminator then. `LineReader.HeaderLoopStops` says where
  it stops for every stream, `LineReader.DrainsToBlankLineIff` when that is
  right, and two lemmas give the inputs.
- *The response carries the file.* A client that asks for a readable regular file
  gets the whole of it if and only if its size is positive and below 2^31: the
  size is cast to `int`, and a size that is not positive cannot be mapped
  (`ResponseFraming.WholeFileIffSizeFits`). Of 2^32 + 1 bytes it gets the first
  (`ResponseFraming.HugeFileIsCut`).
- *The server goes on serving.* One GET of an empty file ends the process, as does
  any whose size is 0 or at least 2^31 modulo 2^32
  (`RequestHandling.DiesIff`, `ResponseFraming.EmptyFileEndsTheProcess`); every
  run that goes on until no thread can ends that way if and only if there has been
  such a request (`Draining.EveryRunServesEverybody`).
- *The acceptor comes back for the next connection.* A client that closes its side
  of a GET before the header loop finds its end keeps the acceptor in
  `request_parse` for ever (`RequestHandling.HangsIff`,
  `EndToEnd.SomeAcceptorIsStuck`), and then nobody else is accepted
  (`Draining.NobodyElseIsAccepted`). Otherwise, and only then, the acceptor can
  get back to `accept` (`Draining.AcceptorReturnsIff`).
- *Every refusal has its page.* The page is printed into 8192 bytes together with
  the client's own words, and fits if and only if these are short enough
  (`RequestHandling.PageFitsIff`); names that fit their own arrays can be too long
  for it (`ResponseFraming.LongNameOverflowsThePage`). The theorems about what
  connections get ask for `RequestHandling.FitsArrays`.
- *Requests at `rate` per second*
  (`src/Solution/DataAnalysis/load_client.py:131`). With the loop turning at least
  once per interval, the requests sent are always rate times time or up to one
  more if and only if `rate >= 2` (`TokenBucket.KeepsRateIff`). From 1 up to 2 a
  run can fall behind by any amount (`TokenBucket.SlowRateFallsBehind`); the
  bucket is capped at `rate`, so below 1 nothing is ever dispatched
  (`TokenBucket.DispatchesIffRateAtLeastOne`).
- *`join` waits for the queue to drain.* A worker that found the queue empty
  just before the last put leaves when it sees the stop flag. `join` returns if
  and only if, when the flag is set, the queue is empty or some worker has not
  already had its last look (`LoadAccounting.JoinReturnsIff`; the other case
  happens: `LoadAccounting.AnItemCanBeStranded`).
- *No request waits for ever.* Under SFF one can
  (`BoundedQueue.SffStarvation`); `BoundedQueue.SffTakenIff` says for every run
  whether a request is returned and by which get. Under FIFO none does
  (`FairService.EveryPutIsTaken`).
- The comment at `src/Solution/WebServer/io_helper.c:15` says that no data was
  read; the branch is taken when one byte was read, and the model follows the
  code.

## Model

| member | source | states |
|---|---|---|
| `Requests.LeftmostMin` | src/Solution/WebServer/buffer.c:83-92 | the entry SFF takes is the smallest file, and the oldest of the smallest |
| `Requests.LeftmostMinUnique` | src/Solution/WebServer/buffer.c:88-91 | that description fixes the entry, so ties cannot go anywhere else |
| `RequestBuffer.Buffer.constructor` | src/Solution/WebServer/buffer.c:28-37 | an empty buffer of the given capacity |
| `RequestBuffer.Buffer.Put` | src/Solution/WebServer/buffer.c:45-58 | a put into a full buffer waits and changes nothing; any other appends, whatever head is |
| `RequestBuffer.Buffer.Get` | src/Solution/WebServer/buffer.c:62-120 | a get from an empty buffer waits; any other returns the entry the policy chooses, keeps the rest in order, and under SFF does not move head |
| `RequestBuffer.Buffer.TakeOldest` | src/Solution/WebServer/buffer.c:71-74 | the FIFO branch returns and drops the oldest entry |
| `RequestBuffer.Buffer.TakeSmallest` | src/Solution/WebServer/buffer.c:83-113 | the SFF branch returns the leftmost minimum, closes the gap and puts tail behind the last entry |
| `RequestBuffer.Buffer.FindSmallest` | src/Solution/WebServer/buffer.c:83-92 | the modular scan finds the leftmost minimum of the live entries |
| `RequestBuffer.Buffer.Compact` | src/Solution/WebServer/buffer.c:106-113 | the shifting loop ends, leaves the other entries in order, and retracts tail to (head + count - 1) mod cap, also when the buffer is full and tail is head |
| `RequestBuffer.Buffer.SffLayout` | src/Solution/WebServer/buffer.c:28-37 | under SFF, in every state that the constructor, puts and gets lead to, the live entries are the first count slots in arrival order and tail is count mod cap |
| `RingLayout.StoreAppends` | src/Solution/WebServer/buffer.c:52-54 | storing at tail appends to the live entries, for any head and wrap |
| `RingLayout.AdvanceDropsOldest` | src/Solution/WebServer/buffer.c:73-74 | advancing head drops exactly the oldest entry |
| `RingLayout.ShiftMoves` | src/Solution/WebServer/buffer.c:108-112 | one round of the compaction moves the gap one entry on and changes no entry |
| `RingLayout.ShiftEnds` | src/Solution/WebServer/buffer.c:113 | when the gap has reached tail, the entries before it are the queue without the entry taken |
| `BoundedQueue.Conservation` | src/Solution/WebServer/buffer.c:45-120 | a run never holds more than cap requests, and what was put is what was got and what is left, as multisets |
| `BoundedQueue.FifoOrder` | src/Solution/WebServer/buffer.c:71-74 | FIFO returns requests in the order in which they came |
| `BoundedQueue.FifoPosition` | src/Solution/WebServer/buffer.c:71-74 | a request with k ahead of it is returned by exactly the (k+1)-th following get |
| `BoundedQueue.ChosenIsOldestOfItsSize` | src/Solution/WebServer/buffer.c:83-95 | a get takes the oldest request of its size and leaves every other size alone |
| `BoundedQueue.PerSizeOrder` | src/Solution/WebServer/buffer.c:71-113 | over whole runs, the requests of each size leave in the order they came, and those left are the rest |
| `BoundedQueue.EqualSizesActAsFifo` | src/Solution/WebServer/buffer.c:71-113 | with one file size the runs of SFF are the runs of FIFO |
| `BoundedQueue.ChosenWhenNoBeaters` | src/Solution/WebServer/buffer.c:83-95 | a waiting request is taken next exactly when no strictly smaller one and no earlier one of its size waits |
| `BoundedQueue.SffWaitLaw` | src/Solution/WebServer/buffer.c:83-113 | while a request waits under SFF, the gets so far are the requests that beat it at first, plus the strictly smaller arrivals, minus those that beat it still |
| `BoundedQueue.SffWaitStep` | src/Solution/WebServer/buffer.c:83-113 | a request is overtaken only by a strictly smaller one or an earlier equal one |
| `BoundedQueue.SffWaitBound` | src/Solution/WebServer/buffer.c:83-113 | hence a request has been returned once there were more gets than its first beaters and the strictly smaller arrivals |
| `BoundedQueue.SffTakenIff` | src/Solution/WebServer/buffer.c:83-113 | a waiting request is returned if and only if some get comes when the gets so far equal its first beaters plus the strictly smaller arrivals so far; the first such get takes that very entry, which waits before it and not after it |
| `BoundedQueue.SffStarvation` | src/Solution/WebServer/buffer.c:83-113 | with room for two, for every n some SFF run overtakes one request n times |
| `Scheduling.FillThenDrain` | src/Solution/WebServer/buffer.c:45-120 | after putting any requests that fit, the following gets can only return the drain of them |
| `Scheduling.FifoDrainIsArrivalOrder` | src/Solution/WebServer/buffer.c:71-74 | the FIFO drain is the arrival order |
| `Scheduling.SffDrainIsStableSort` | src/Solution/WebServer/buffer.c:77-113 | the SFF drain is the stable insertion sort by size |
| `Scheduling.SffDrainSorted` | src/Solution/WebServer/buffer.c:83-95 | the SFF drain is sorted by size |
| `Scheduling.CompletionOfLast` | src/Solution/WebServer/buffer.h:9-12 | the sum of completion times adds, for each request, the moment when it and all before it have had their time |
| `Scheduling.DrainKeepsEachSizeInOrder` | src/Solution/WebServer/buffer.c:71-113 | a drain keeps the arrival order among equal sizes |
| `Scheduling.SortedIsFixedByItsSizes` | src/Solution/WebServer/buffer.c:83-113 | a sequence sorted by size is fixed by its subsequences of each size |
| `Scheduling.SffMinimisesCompletionSum` | src/Solution/WebServer/buffer.h:9-12 | no order of the same requests has a smaller sum of completion times than the SFF drain |
| `Scheduling.OptimalIffSorted` | src/Solution/WebServer/buffer.h:9-12 | an order is that good if and only if it is sorted by size; FIFO never beats SFF, and equals it if and only if the arrivals were sorted |
| `ServerModel.MoveRespectsTheLock` | src/Solution/WebServer/buffer.c:45-120 | only the holder of the mutex touches the ring, it does not touch descriptors meanwhile, and locks and unlocks are paired |
| `Linearisation.RingInvStep` | src/Solution/WebServer/buffer.c:45-120 | every step of every thread keeps the ring at the place of its holder's code that the abstract queue demands |
| `Linearisation.ShiftOnRing` | src/Solution/WebServer/buffer.c:106-113 | the same for each round of the compaction, one slot at a time |
| `WakeUps.WakeInvStep` | src/Solution/WebServer/buffer.c:49-67 | every step keeps the balance of sleepers, woken threads and entries, also between the count update and the signal |
| `WakeUps.NoLostWakeUp` | src/Solution/WebServer/buffer.c:56-117 | the balance at a free mutex: sleepers only if every entry, or free slot, has a woken thread of its own |
| `WakeUps.NeverAllAsleep` | src/Solution/WebServer/wserver.c:70-82 | with cap >= 1, a worker and an acceptor, some thread is awake |
| `Ownership.OwnInvStep` | src/Solution/WebServer/wserver.c:144-152 | every step keeps each open descriptor in exactly one pair of hands |
| `Responses.ConnInvStep` | src/Solution/WebServer/wserver.c:31-36 | every step keeps each connection at a beginning of what it is owed, and complete when closed |
| `Responses.ParseNamesTheDescriptor` | src/Solution/WebServer/request.c:201-259 | the number of the descriptor changes nothing in the outcome but the number in the request |
| `ServerTheorems.InvReachable` | src/Solution/WebServer/wserver.c:105-155 | all the invariants hold in every reachable state |
| `ServerTheorems.MutualExclusion` | src/Solution/WebServer/buffer.c:46-118 | at most one thread is in a critical section |
| `ServerTheorems.BufferIsLinearisable` | src/Solution/WebServer/buffer.c:45-120 | the completed puts and gets in mutex order are a run of the abstract queue, and at a free mutex the ring holds exactly that queue |
| `ServerTheorems.SffRingLayout` | src/Solution/WebServer/buffer.c:28-37 | in every reachable SFF state with a free mutex head is 0, the live entries are the first count slots in arrival order, and tail is count mod cap |
| `ServerTheorems.WorkersGetRequestsInOrder` | src/Solution/WebServer/buffer.c:45-120 | however the threads interleave, FIFO hands requests over in arrival order and SFF does so within each size |
| `ServerTheorems.FifoPutsOvertakeNobody` | src/Solution/WebServer/buffer.c:49-74 | under FIFO a request has been handed to a worker by the time that cap more have been put, while arrivals go on |
| `ServerTheorems.NobodyIsForgotten` | src/Solution/WebServer/buffer.c:49-67 | never are all threads asleep; with the mutex free, a queued request has a worker awake, and a free slot a woken putter if any putter sleeps |
| `ServerTheorems.EveryRequestHasAWakeUp` | src/Solution/WebServer/buffer.c:56-117 | with the mutex free, workers asleep imply count at most the woken workers; symmetrically for putters and free slots |
| `ServerTheorems.OneOwnerPerDescriptor` | src/Solution/WebServer/wserver.c:31-36 | each open descriptor is held by exactly one of the threads and queue entries, any other number by none |
| `ServerTheorems.ClosedOnceAndNeverUsedAgain` | src/Solution/WebServer/request.c:267-274 | a connection is closed at most once and is open exactly when it has not been, every thread holds only open numbers, and the process fails only over a request for a file that cannot be mapped |
| `ServerTheorems.EachConnectionIsInOnePlace` | src/Solution/WebServer/wserver.c:140-155 | each accepted connection is turned away, completed, in one acceptor's hands, in one buffer entry or in one worker's hands, and in only one of these places |
| `ServerTheorems.ConnectionsAreConserved` | src/Solution/WebServer/wserver.c:140-155 | so the counts add up, and at most cap + threads connections are open |
| `ServerTheorems.ConcurrentRefinesSequential` | src/CodeBase/wserver.c:33-39 | under either policy and any interleaving, a finished connection whose names and error page fit their arrays was closed once and got exactly the bytes the sequential server writes |
| `ServerTheorems.OpenConnectionsHaveAPrefix` | src/Solution/WebServer/request.c:267-274 | an open connection has got a beginning of them |
| `Draining.HolderCanMove` | src/Solution/WebServer/buffer.c:45-120 | the holder of the mutex can always go on |
| `Draining.StepLightens` | src/Solution/WebServer/buffer.c:45-120 | every step of every thread brings the measure down, arrivals and spurious wake-ups apart |
| `Draining.QuietIsAtRest` | src/Solution/WebServer/wserver.c:31-36 | where no thread can go on and the process lives, the mutex is free, the buffer is empty, and each thread waits for a connection, sleeps or is in a request_parse that never returns |
| `Draining.AtRestOnlyStuckAreOpen` | src/Solution/WebServer/wserver.c:140-155 | then a connection is open if and only if its request never ends |
| `Draining.EveryRunServesEverybody` | src/Solution/WebServer/wserver.c:31-36 | every run without arrivals and spurious wake-ups is bounded; where no thread can go on, either a request for a file that cannot be mapped has ended the process, exactly if there was one, or every connection that fits the arrays is served if and only if its request ends |
| `Draining.EverybodyCanBeServed` | src/Solution/WebServer/wserver.c:31-36 | so from every reachable state, unless somebody asks for a file that cannot be mapped, the threads can go on until all those are served |
| `Draining.NobodyElseIsAccepted` | src/Solution/WebServer/wserver.c:140-155 | with the one acceptor in a request_parse that never returns, no run accepts another connection |
| `Draining.AcceptorReturnsIff` | src/Solution/WebServer/wserver.c:140-155 | unless somebody asks for a file that cannot be mapped, an acceptor can get back to accept if and only if it is not in a request_parse that never returns |
| `Arrivals.AnybodyCanConnect` | src/Solution/WebServer/wserver.c:140-146 | an acceptor at accept can get any connection on any number that is not open, however many there have been; the connections grow by that one and nothing else changes |
| `Arrivals.AnybodyCanLock` | src/Solution/WebServer/buffer.c:46 | any thread that wants the mutex can have it when it is free |
| `Arrivals.AnybodyCanWake` | src/Solution/WebServer/buffer.c:50-67 | any sleeper can wake up without a signal, and a signal can wake any sleeper of its condition variable |
| `Arrivals.EverybodyCanCome` | src/Solution/WebServer/wserver.c:140-155 | for every sequence of clients whose requests pass, some run accepts them all, closes them all and brings the acceptor back |
| `Arrivals.FilledBuffer` | src/Solution/WebServer/buffer.c:45-58 | any clients up to cap whose requests parse can all wait in the buffer at once, in the order of their arrival |
| `Arrivals.PutterCanSleep` | src/Solution/WebServer/buffer.c:48-50 | with cap of them waiting, one more makes the acceptor sleep before the full buffer |
| `FairService.MutexBecomesFree` | src/Solution/WebServer/buffer.c:46-118 | in every infinite run that is fair to the threads and takes no more requests, the mutex becomes free again and again |
| `FairService.AnotherRequestIsTaken` | src/Solution/WebServer/buffer.c:62-120 | under either policy, every fair infinite run takes another request from a buffer that is not empty, whatever arrivals and spurious wake-ups go on |
| `FairService.EveryPutIsTaken` | src/Solution/WebServer/buffer.c:71-74 | so under FIFO every request that is put is handed to a worker, the k-th put as the k-th |
| `FairRuns.FairRunsExist` | src/Solution/WebServer/wserver.c:31-36 | for every sequence of clients whose requests pass there is a fair infinite run that accepts exactly them and closes them all |
| `LineReader.ByteStream.ReadByte` | src/Solution/WebServer/io_helper.c:9-13 | one byte at a time, none at the end |
| `LineReader.Readline` | src/Solution/WebServer/io_helper.c:3-23 | consumes exactly one chunk, fills the buffer, and returns the index of the newline or the number of bytes; at end of file behind a single byte it returns 0 and stores no terminator |
| `LineReader.CopyBytes` | src/Solution/WebServer/io_helper.c:7-20 | the copying loop, with its early return |
| `LineReader.ChunkLenIs` | src/Solution/WebServer/io_helper.c:7-20 | a chunk ends at the first newline, at the end of the room or at the end of the stream, whichever is first |
| `LineReader.ReturnedIs` | src/Solution/WebServer/io_helper.c:7-22 | readline returns the position of the first newline within the room; without one, the number of bytes, and 0 behind a single byte at end of file |
| `LineReader.ChunksAreLossless` | src/Solution/WebServer/io_helper.c:3-23 | repeated calls split any stream into non-empty chunks of at most maxlen - 1 bytes with a newline at most at the end, each but the last as long as can be, that join to the stream |
| `LineReader.ReadHeaders` | src/Solution/WebServer/request.c:46-52 | the header loop returns exactly when the specification stops, and leaves what it leaves; otherwise it is at end of file |
| `LineReader.EndOfFileIsForever` | src/Solution/WebServer/request.c:49-51 | a header loop at end of file never sees another buffer, so it never returns |
| `LineReader.HeaderLoopStops` | src/Solution/WebServer/request.c:46-52 | where the loop stops, for every stream and every initial buffer |
| `LineReader.DrainsToBlankLineIff` | src/Solution/WebServer/request.c:42-52 | it leaves exactly what follows the blank line if and only if no earlier line ends in CRLF with a length of 2 modulo 8191 |
| `LineReader.LongHeaderLineEndsTheHeaders` | src/Solution/WebServer/request.c:46-52 | a header line that fills the buffer before its CRLF ends the header section |
| `LineReader.LoneReturnEndsTheHeaders` | src/Solution/WebServer/io_helper.c:13-17 | a lone carriage return at end of file is taken for a blank line behind a line of one character |
| `RequestFraming.RequestRoundTrip` | src/Solution/DataAnalysis/load_client.py:72-73 | the server gets back method and URI from the load client's request and finds the end of its headers, whatever its arrays held, unless the host's name makes its line look blank |
| `RequestFraming.AnyMethodComesBack` | src/Solution/WebServer/request.c:208-209 | whatever the method and whatever follows the line, sscanf gets back method and URI |
| `RequestFraming.OneWordComesBack` | src/Solution/WebServer/request.c:208-209 | a line with one word leaves the URI as its array happened to be |
| `RequestFraming.ClosedBehindTheRequestLine` | src/Solution/WebServer/request.c:46-52 | a client that closes its side behind the request line is never answered |
| `HttpText.ParseOfDecimal` | src/Solution/WebServer/request.c:122-129 | the length printed with %d or %lu is read back as the same number |
| `HttpText.DecimalIsPlain` | src/Solution/WebServer/request.c:122-127 | and it is printed without leading zeros |
| `HttpText.SplitOfLine` | src/Solution/DataAnalysis/load_client.py:85-87 | splitting at the first CRLF gives back the line and the rest |
| `HttpText.TwoWordsTakeRoom` | src/Solution/WebServer/request.c:208-209 | two words found by sscanf are at least two characters shorter than the line |
| `HttpText.GetSpellings` | src/Solution/WebServer/request.c:212 | strcasecmp accepts exactly the eight spellings of GET |
| `HttpText.SpacesAre` | src/Solution/WebServer/request.c:209 | sscanf separates words at the six characters of isspace |
| `HttpText.NumbersAreDigits` | src/Solution/DataAnalysis/load_client.py:89-92 | a status is read exactly from a non-empty sequence of digits |
| `RequestHandling.SubstringIff` | src/Solution/WebServer/request.c:61 | strstr finds a word if and only if it stands at some position |
| `RequestHandling.ResolveSplitsTheUri` | src/Solution/WebServer/request.c:58-80 | a URI is static unless cgi stands in it; a program's path and arguments are the URI cut at its first question mark; a file's name keeps it, and a directory's gets index.html |
| `RequestHandling.NamesFitIff` | src/Solution/WebServer/request.c:64-66 | names from a request line fit their arrays, except when index.html does not fit behind the URI of a directory |
| `RequestHandling.PipelineIsSequential` | src/Solution/WebServer/request.c:201-274 | request_parse then request_serve decide on the same response as request_handle, error cases and hangs included |
| `RequestHandling.PipelineIgnoresTheNumber` | src/Solution/WebServer/request.c:201-274 | whatever descriptor number the connection has |
| `RequestHandling.DiesIff` | src/Solution/WebServer/request.c:117-119 | a request ends the process if and only if it is a GET of a readable regular file whose size modulo 2^32 is 0 or at least 2^31; in the concurrent server also if the copied name is not a file |
| `RequestHandling.HangsIff` | src/Solution/WebServer/request.c:46-52 | a request is never answered if and only if it is a GET and nothing in the bytes behind its first line stops the header loop |
| `RequestHandling.ReadyRequest` | src/Solution/WebServer/request.c:249-256 | request_parse hands on a request if and only if it is a GET that ends, of something that exists and may be used; with its descriptor, names, kind and the size of the file, of a program too |
| `RequestHandling.CastToIntIs` | src/Solution/WebServer/request.c:252 | the size after the cast is the size modulo 2^32 in the range of an int |
| `RequestHandling.ShortNamesFit` | src/Solution/WebServer/request.c:15-28 | a method up to 8008 and a URI up to 8003 characters fit every array, whatever files there are |
| `RequestHandling.PageFitsIff` | src/Solution/WebServer/request.c:15-28 | an error page fits its array if and only if the client's words in it have at most 8008, 8020, 8020 or 8014 characters |
| `RequestProcedures.Process.RequestError` | src/Solution/WebServer/request.c:13-40 | the four writes of an error response, in order, on that descriptor only |
| `RequestProcedures.Process.ServeStatic` | src/Solution/WebServer/request.c:111-133 | header and mapped bytes, or a failed assertion when the file cannot be mapped |
| `RequestProcedures.Process.ServeDynamic` | src/Solution/WebServer/request.c:92-109 | the two status lines and then what the program prints for its arguments |
| `RequestProcedures.Process.RequestHandle` | src/Solution/WebServer/request.c:139-178 | writes exactly the response decided on and closes nothing; does not return exactly when the outcome is a hang or a failed assertion |
| `RequestProcedures.Process.HandleAndClose` | src/CodeBase/wserver.c:36-38 | one turn of the sequential server's loop |
| `RequestProcedures.Process.RequestParse` | src/Solution/WebServer/request.c:201-259 | returns the request of the specification and leaves the descriptor alone, or writes the error response and closes |
| `RequestProcedures.Process.RequestServe` | src/Solution/WebServer/request.c:267-274 | writes the response and closes the descriptor |
| `RequestProcedures.Process.ParseThenServe` | src/Solution/WebServer/wserver.c:148-152 | the two halves together leave every descriptor and every byte as one turn of the sequential loop does |
| `RequestProcedures.TurnLeaves` | src/Solution/WebServer/request.c:267-274 | when request_handle has returned the connection is open with the whole response on it; when request_serve or a turn of the sequential loop has returned, the number is not open and the connection has one close more and the whole response; nothing else has changed; a failed check ends the process and a hang changes nothing |
| `RequestProcedures.SequentialTurnLeaves` | src/CodeBase/wserver.c:36-38 | so a turn that comes back adds exactly SequentialBytes and one close |
| `RequestProcedures.StaleNumbersFail` | src/Solution/WebServer/request.c:31-39 | writing to or closing a number that is not open is a failed check |
| `Descriptors.WriteAllAppends` | src/Solution/WebServer/request.c:30-39 | writes to an open descriptor append their bytes, joined, to that connection and touch no other |
| `ResponseFraming.RefusalRoundTrip` | src/Solution/WebServer/request.c:13-40 | from every error page that fits its array an HTTP/1.0 reader (sections 6 and 10.4 of RFC 1945) gets back the status and a body of exactly Content-Length bytes |
| `ResponseFraming.StaticRoundTrip` | src/Solution/WebServer/request.c:111-133 | the same for files: status 200 and the announced beginning of the file |
| `ResponseFraming.ClientGetsTheCast` | src/Solution/WebServer/request.c:252-254 | a client that asks for a file gets as much of it as its size after the cast says |
| `ResponseFraming.WholeFileIffSizeFits` | src/Solution/WebServer/request.c:252-254 | it gets the whole file if and only if the size is positive and below 2^31 |
| `ResponseFraming.EmptyFileEndsTheProcess` | src/Solution/WebServer/request.c:117-119 | a request, by name, for an empty file that ends the process |
| `ResponseFraming.HugeFileIsCut` | src/Solution/WebServer/request.c:252-254 | of 2^32 + 1 bytes the client gets the first |
| `ResponseFraming.LongNameOverflowsThePage` | src/Solution/WebServer/request.c:15-28 | a request whose names fit and whose 404 page does not |
| `ResponseFraming.DynamicStatus` | src/Solution/WebServer/request.c:92-99 | whatever a program prints, the client sees status 200 |
| `ResponseFraming.ClientSeesTheStatus` | src/Solution/DataAnalysis/load_client.py:84-92 | the load client reads off every response that fits the arrays the status the server decided on |
| `ResponseFraming.NoStatus` | src/Solution/DataAnalysis/load_client.py:84-92 | the load client reports 0 for an empty response and when the first line has no second word made of digits |
| `ResponseBytes.NotImplementedBytes` | src/Solution/WebServer/request.c:212-217 | another method than GET gets the 501 page with the method in it, byte for byte |
| `ResponseBytes.NotFoundBytes` | src/Solution/WebServer/request.c:226-231 | a GET of a missing file gets the 404 page with its name |
| `ResponseBytes.CannotReadBytes` | src/Solution/WebServer/request.c:233-239 | of a file that is not regular or not readable, the 403 page for files |
| `ResponseBytes.CannotRunBytes` | src/Solution/WebServer/request.c:240-246 | of a program that may not be run, the 403 page for programs |
| `ResponseBytes.FileBytes` | src/Solution/WebServer/request.c:122-130 | of a readable file whose size is positive and below 2^31, the header with its length and kind, and the whole file |
| `ResponseBytes.KindOfFile` | src/Solution/WebServer/request.c:85-90 | the kind goes by the first of .html, .gif and .jpg that stands anywhere in the name |
| `ResponseBytes.ProgramBytes` | src/Solution/WebServer/request.c:92-105 | of a program, two lines and what it prints for the part of the URI behind its first question mark |
| `ResponseBytes.ProgramBytesWithoutArguments` | src/Solution/WebServer/request.c:75-76 | and for the empty string when there is none |
| `EndToEnd.ClientsSeeTheSequentialStatus` | src/Solution/DataAnalysis/load_client.py:64-94 | so it does for every finished connection of every concurrent run |
| `EndToEnd.StatusTellsWhatHappened` | src/Solution/WebServer/request.c:148-178 | and it is 501 exactly when the method is not GET, 404 exactly when there is no such file, 403 exactly when there is one that may not be used, else 200 |
| `EndToEnd.SomeRunFinishes` | src/Solution/WebServer/wserver.c:140-155 | every request that ends and fits the arrays has concurrent runs that finish it |
| `EndToEnd.SomeAcceptorIsStuck` | src/Solution/WebServer/wserver.c:140-155 | a reachable state in which an acceptor is in a request_parse that never returns, over one client that closed its side behind the request line |
| `TokenBucket.Dispatch` | src/Solution/DataAnalysis/load_client.py:134-162 | the loop dispatches at exactly the readings of the specification and stops exactly when a reading reaches the deadline |
| `TokenBucket.RunBalance` | src/Solution/DataAnalysis/load_client.py:134-160 | tokens left, requests sent and tokens spilled add up to 1 + rate * elapsed, with the bucket between 0 and rate |
| `TokenBucket.ReadingSends` | src/Solution/DataAnalysis/load_client.py:144-158 | a request goes out at a reading if and only if the bucket then holds a whole token after its refill, and it carries that reading |
| `TokenBucket.AnyWindow` | src/Solution/DataAnalysis/load_client.py:144-160 | any window of a run has at most rate + rate * (its length) dispatches |
| `TokenBucket.RunBound` | src/Solution/DataAnalysis/load_client.py:134-160 | a whole run sends fewer than 1 + rate * duration |
| `TokenBucket.SteadyRate` | src/Solution/DataAnalysis/load_client.py:131-160 | for rate >= 2, in every run from its start whose loop turns at least once per interval, the requests sent are rate times the elapsed time or up to one more |
| `TokenBucket.SlowRateFallsBehind` | src/Solution/DataAnalysis/load_client.py:146-160 | for every rate from 1 up to 2 and every n, such a run falls behind by n * (1 - rate / 2), less one |
| `TokenBucket.KeepsRateIff` | src/Solution/DataAnalysis/load_client.py:131-160 | so the promise is kept in every such run if and only if rate >= 2 |
| `TokenBucket.DispatchesIffRateAtLeastOne` | src/Solution/DataAnalysis/load_client.py:146-150 | a run that enters its loop dispatches something if and only if rate is at least 1 |
| `LoadAccounting.ReachableBalances` | src/Solution/DataAnalysis/load_client.py:258-273 | in every reachable state, of every item, the puts are the queued, the ones being fetched and the rows; unfinished counts the queued and the owed |
| `LoadAccounting.RowsAreTheDispatches` | src/Solution/DataAnalysis/load_client.py:294-315 | when join has returned, the rows are the dispatched items with their multiplicity, and n_total is n_small + n_large |
| `LoadRuns.RowsByClass` | src/Solution/DataAnalysis/load_client.py:152-158 | then n_small is the number of times the dispatcher chose a small file, and n_large a large one |
| `LoadRuns.DispatchesAreTheChoices` | src/Solution/DataAnalysis/load_client.py:152-158 | the dispatched items are the choices in order: file, class and reading |
| `LoadRuns.EachRowIsAnAppend` | src/Solution/DataAnalysis/load_client.py:258-273 | the j-th row is recorded by the j-th append: its answer, with the item that its worker took last before |
| `LoadRuns.RunIsOrderly` | src/Solution/DataAnalysis/load_client.py:244-265 | workers take items in the order of dispatch, the queue never holds more than maxsize, and no worker leaves before the stop flag |
| `LoadRuns.GetsAhead` | src/Solution/DataAnalysis/load_client.py:158 | the dispatcher can get any number of items ahead that the queue has room for, and one more exactly if there is room |
| `LoadAccounting.JoinReturnsIff` | src/Solution/DataAnalysis/load_client.py:258-297 | after the stop flag at most so many steps follow, and join returns if and only if the queue was empty or some worker was still to look at it |
| `LoadAccounting.AnItemCanBeStranded` | src/Solution/DataAnalysis/load_client.py:258-273 | a run in which the last item stays in the queue and join never returns |
| `Percentile.MonotoneInP` | src/Solution/DataAnalysis/load_client.py:169-176 | the percentile grows with p, from the minimum at 0 to the maximum at 100 |
| `Percentile.LinearInP` | src/Solution/DataAnalysis/load_client.py:173-176 | for p * (n - 1) = 100 * (k + f) it is the point at fraction f between the k-th and the next of the sorted data, ends included |
| `Percentile.Median` | src/Solution/DataAnalysis/load_client.py:173-176 | the 50th percentile of an odd number of data is the middle one |
| `Percentile.WithinRange` | src/Solution/DataAnalysis/load_client.py:169-176 | it lies between the smallest and the largest datum |
| `Percentile.PermutationInvariant` | src/Solution/DataAnalysis/load_client.py:172 | the order of the data does not matter |
| `Percentile.MonotoneInData` | src/Solution/DataAnalysis/load_client.py:172-176 | raising some of the data never lowers it |

## Left out

- Sockets, `accept`, `open`, `stat`, `mmap`, `fork` and `execve`: a connection brings its whole input, files are a fixed map, writes are complete, and a check in an `_or_die` wrapper that fails ends the process (`World.failed`).
- RequestProcedures.Process.ServeDynamic, and the CGI part of `ServerTheorems.ConcurrentRefinesSequential`: what a program prints is a function of its file and its arguments and is on the connection before the close. In the threaded server `wait(NULL)` may return for another worker's child, so that the server closes its copy of a connection before the child has written; the child's own copy keeps the connection open then. A program that never ends or cannot be started is not modelled.
- A client that sends part of its request and waits: a connection is either still to come or has sent all its bytes and then ended, so a parsing acceptor never blocks for a while.
- RequestProcedures.Process.RequestHandle: the arrays that it and `request_parse` do not initialise are inputs (`Junk`), also where `sscanf` finds fewer than two words; a word longer than its array cannot occur.
- ServerTheorems.ConcurrentRefinesSequential: it asks that the connection's names and error page fit their arrays of 8192 characters (`FitsArrays`), since the source writes past their end otherwise, and what that would do to other connections is not modelled; `RequestHandling.NamesFitIff` and `RequestHandling.PageFitsIff` say when they fit. Bytes beyond an array, as when an unterminated buffer is read as a string, are not modelled: such a string ends with the array.
- The character before an empty URI, which `request_parse_uri` reads (`src/Solution/WebServer/request.c:65`): the model takes it not to be a slash.
- ResponseFraming.ClientSeesTheStatus: the number is read from plain digits, as the server prints them; Python's `int` takes more spellings.
- Memory below the mutex: critical sections are sequentially consistent, as POSIX gives them. A signal wakes one sleeper; waking more is that and spurious wake-ups.
- FairService.EveryPutIsTaken: fairness is assumed of the scheduler and the mutex, in the form that a thread that can take a step again and again takes one again and again; it ends when a worker has the request, and that the worker then finishes it is stated for runs without further arrivals (`Draining.EveryRunServesEverybody`).
- The overflow of `head + i` for capacities near 2^31, failing `malloc` or `pthread_create`, `buffer_destroy` and the cleanup that `main` never reaches.
- The model has any number of acceptors; the source has one.
- Command-line arguments beyond the checks on threads and capacity, logging, `chdir`, `open_listen_fd`, `open_client_fd`, `wclient.c`, `spin.c`.
- Scheduling.SffMinimisesCompletionSum: one server, no arrivals during the drain, and service time equal to the file size, in units that make it so.
- TokenBucket.Dispatch: exact reals for Python floats, and the clock's readings as an input, which covers sleeping and blocking puts; which URI is chosen is left out.
- LoadAccounting.RowsAreTheDispatches: latencies and time stamps are arbitrary values, and the statistics other than the counts and the percentile (`coeff_variation`, means, throughput, CSV files) are left out.
- `analyze_results.py`, the shell scripts, the makefiles and the recorded data.
