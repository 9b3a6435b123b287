# Celeritas: a verified model of the server's hard parts

Celeritas is a multithreaded HTTP/1.x server in C. Listener threads accept connections and push them to a
bounded work queue; workers pop them, run one request/response exchange each, and push the connections they keep
alive to a second bounded queue; one wait-room thread drains that queue into a pool, arms a one-shot kernel
watcher for each pooled descriptor, and returns the ready ones to the work queue or closes the expired ones. A
logger thread empties a masked ring buffer, and one thread runs reloads and the shutdown.

This project models that machinery in Dafny and proves what it keeps over every run, every interleaving and every
input. `dafny verify dfyconfig.toml` checks all of it.

## How it is organised

| file | what it holds |
|---|---|
| `QueueMonitor.dfy` | the bounded queue as a monitor: lock stretches, sleepers, woken threads, barging, spurious wakeups |
| `Circular.dfy`, `WorkQueue.dfy` | the queue in memory: circular array with `head`, `tail`, `count` |
| `ConnPool.dfy` | the pool in memory: swap-remove, expiry sweep, nearest timeout |
| `Machine.dfy` | listeners, workers, wait room, kernel tables and shutdown as one transition system |
| `Frames.dfy` | what a step of each thread leaves alone |
| `Ledger.dfy` | who holds which connection: conservation |
| `Threads.dfy` | who sleeps on what, and the order of shutdown |
| `Jam.dfy`, `JamRun.dfy` | deadlock: exactly when, that it stays, and a run into it for every size of server |
| `Drain.dfy` | the drain loop in shutdown, and when shutdown conserves connections |
| `Kernel.dfy` | pool and kernel registrations agree |
| `KeepAlive.dfy` | what holds of every kept connection |
| `Effects.dfy` | what each kind of step does in a run: who is expired, closed, pooled, given back, kept, admitted |
| `Exchange.dfy`, `RequestCtx.dfy`, `HeaderTable.dfy` | one exchange: as functions, the code that fills the request context, and the response's header slots |
| `Answers.dfy` | the status, the headers and the connection's fate, told by what the client sent and the server has |
| `HttpRead.dfy`, `HttpParse.dfy`, `HttpRequest.dfy`, `HttpPrint.dfy`, `HttpIngress.dfy` | reading a header block in pieces, parsing it, the parser's arrays, printing a block, and the whole way from a client's request to the stored fields |
| `PathResolve.dfy` | from URI to file name |
| `LogRing.dfy`, `LogRuns.dfy`, `PowerOfTwo.dfy` | the log ring in memory, runs of the logging subsystem, size rounding and masks |
| `ConfigLock.dfy` | configuration reload under the reader/writer lock |
| `Text.dfy` | the C string comparisons in use |

Code that works in place is a class or a method over arrays, proved against functions on sequences and strings;
the transition systems use the same functions, so `Machine` sweeps the pool with the very `Sweep` that
`Pool.SweepExpired` computes in place, and a worker's step is the very `Serve` that `ServeOnce` computes - from the
bytes read from the socket, through the reader's buffer, the parser's arrays, the response's slots and the print
buffer, to the header bytes written to it.

A step of a transition system is one stretch of a thread under a mutex, from taking it to releasing it or to the
wait that releases it, or work on what the thread alone owns. A thread whose stretch ended in a wait runs the same
stretch again when it has woken up. The accept call and the check of the shutdown flag behind it are one step of
a listener. `Conn.id` is a label of the proofs: descriptors are reused, labels are not. The clock, the bytes peeked
at by `demux_protocol`, handshakes, reads, `stat`, write results and the kernel's events are free choices.

## What the code does that one might not expect

* `queue_trypop` answers -1 for an empty queue in shutdown, and the drain loop stops on 1 only. A wait room that is
  in the loop when the wait queue's flag is set pools its stale local `conn` again and again and never leaves
  (`DrainNeverEnds`). So conservation of connections is decided when that flag is set: if the wait room is outside
  its drain loop then, every continuation conserves connections, and if it is inside, some continuation does not
  (`FlagDecides`). `ConservationCanFail` is such a run.
* Workers and wait room can block each other: both queues full, every worker pushing to one and the wait room
  pushing to the other. `StuckIff` says that this is the only deadlock before shutdown, and that it takes
  2 * capacity + workers + 1 live connections; `JamIsReachable` gives a run into it with exactly that many, for every
  number of workers and every capacity; `JamNeverEnds` shows that not even the shutdown gets past it.
* `log_write` computes `next_tail` before it waits and stores it afterwards. The store is lossless exactly when it is
  then still the index behind the tail (`StoreAppendsIff`, `LosslessUntilStale`). With one producer it always is
  (`OneProducerLosesNothing`); with two or more some run loses an entry (`TwoWaitersLoseOne`).
* Sizes above 32768 are rounded to 65536 and stored in 16 bits as 0 (`RoundQueueSize`), although the comment there
  speaks of the next power of two only.
* The time to the nearest deadline is cast to an int. A deadline that has been over for more than 2^31 seconds can
  look like one to come, and then the kernel is asked to sleep past it; `WaitIsBounded` says exactly when, and
  `RoomOversleeps` is a run in which it happens.
* A client's `Connection: close` is compared case-sensitively, the server's own without regard to case (`ConnectionAfter`,
  `SaidCloseIff`).
* A PUT that passes validation is answered 200 with no headers at all, and so are the error responses sent when reading
  or parsing the request fails.

## Model

| member | source | states |
|---|---|---|
| QueueMonitor.StepKeepsWakeups | src/threadpool.c:64-131 | one stretch by any thread, with `signal` waking at least one sleeper, barging and spurious wakeups: sleeping consumers imply items <= woken consumers, sleeping producers imply free slots <= woken producers |
| QueueMonitor.WakeupsNeverLost | src/threadpool.c:68-76 | in every run no wakeup is lost: a non-empty queue never has only sleeping consumers, a queue with room never only sleeping producers |
| QueueMonitor.FifoOverRuns | src/threadpool.c:64-131 | in every interleaving of push, pop and trypop, what came out followed by the contents is what went in, in order |
| QueueMonitor.NobodySleepsAfterBroadcast | src/server.c:349-352 | once the flag is set and broadcast, no consumer is ever asleep again |
| WorkQueue.Queue.constructor | src/threadpool.c:45-60 | an empty queue of the given capacity |
| WorkQueue.Queue.Push | src/threadpool.c:64-78 | appends to the FIFO contents, or waits exactly when they fill the capacity; tail stays (head + count) mod capacity |
| WorkQueue.Queue.Pop | src/threadpool.c:82-105 | removes the oldest item; on an empty queue returns -1 when shutting down and waits otherwise |
| WorkQueue.Queue.TryPop | src/threadpool.c:109-131 | removes the oldest item; on an empty queue returns -1 when shutting down and 1 otherwise |
| WorkQueue.Queue.ShutDown | src/server.c:342-345 | sets the flag and leaves the contents alone |
| Circular.RingPut | src/threadpool.c:72-74 | writing the slot behind the contents appends to them and disturbs no other item |
| Circular.RingTake | src/threadpool.c:97-99 | moving head one slot on takes exactly the first item |
| ConnPool.Pool.Add | src/io_watcher.c:185-194 | appends, or fails exactly when the pool is full |
| ConnPool.Pool.RemoveAt | src/io_watcher.c:198-207 | the last item fills the hole; an index out of range changes nothing |
| ConnPool.Pool.RemoveByFd | src/io_watcher.c:231-243 | finds the first item with the descriptor, hands it out and removes it, or leaves the pool alone |
| ConnPool.Pool.NearestTimeoutMs | src/io_watcher.c:212-227 | -1 when empty, otherwise the time to the least deadline in ms, 0 if it is over, with the cast to int and the product in 32 bits |
| ConnPool.Pool.SweepExpired | src/io_watcher.c:247-264 | the loop that swaps items into the hole under examination terminates with the contents, the closings and the deregistrations of the sweep |
| ConnPool.SwapRemoveTakesOne | src/io_watcher.c:203-206 | swap-remove takes exactly the chosen item out: the last one fills its place, every other one keeps its own |
| ConnPool.SweepIsExact | src/io_watcher.c:247-264 | the sweep keeps exactly the connections with deadline > now and closes every other one exactly once |
| ConnPool.IndexOfFd | src/io_watcher.c:231-243 | the index found is the first with that descriptor, -1 only if there is none |
| ConnPool.MinDeadline | src/io_watcher.c:217-223 | the value is a deadline of the pool and none is smaller |
| ConnPool.WaitIsBounded | src/io_watcher.c:212-227 | with deadlines at most 65535 s ahead: cast and product are exact for deadlines less than 2^31 s over; the wait is at most 200 ms, and it is 0..200 ms and passes no deadline unless the nearest one is over by a time that is 2^31 to 2^32 s modulo 2^32 and no multiple of 2^29 s - and then it does |
| ConnPool.OversleepsAfterWrapping | src/io_watcher.c:225-226 | the input: a deadline that was over 2^32 - 1 seconds ago makes the wait 200 ms |
| Ledger.StepIsEntry | src/threadpool.c:158-214 | every step of every thread moves, admits or closes connections and does nothing else to the books, but for stale pops and what follows from them; which kind of step makes which entry is in `Effects` |
| Ledger.StepKeepsBooks | src/threadpool.c:232-299 | every step keeps the books: identities, the total, and, without stale pops, each connection's one place |
| Ledger.BooksKeptAlways | src/threadpool.c:158-332 | the books are kept in every state of every run |
| Ledger.HoldingsDiffer | src/threadpool.c:158-332 | without stale pops no connection is held twice, and two held connections differ in identity and descriptor |
| Ledger.ConservationIff | src/threadpool.c:161 | in every run every admitted connection is in exactly one place or closed exactly once, if and only if trypop has not returned -1 to the drain loop so far |
| Ledger.ConservedBeforeShutdown | src/threadpool.c:158-332 | while the wait queue's flag is 0: exactly one of work queue, a worker's hand, wait queue, wait room's hand, pool, a listener's hand, freed pool, closed; and the descriptor of a held connection is open and its own |
| Ledger.ConservationCanFail | src/threadpool.c:116-118 | a run after which a connection that was never admitted is in the wait room's hand |
| Ledger.EachStalePopAddsOne | src/threadpool.c:161 | in every run, shutdown included, the places and the closed log together hold what was admitted and one connection more for each -1 that trypop returned to the drain loop |
| Threads.StepTouches | src/threadpool.c:64-131 | every step of the server is one stretch on one queue's monitor, or leaves both alone |
| Threads.SoundAlways | src/threadpool.c:64-131 | in every state no wakeup is lost in either queue, only poppers and pushers sleep where the code lets them, and flags, joins and exits are in order |
| Threads.EmptyAfterMinusOne | src/server.c:329-357 | once queue_pop has returned -1 to any worker the work queue stays empty for the rest of the run, all producers being gone |
| Threads.NobodyLeftBehind | src/server.c:348-362 | after the broadcast no worker sleeps on not_empty, and when the queues are freed every thread that used them is gone |
| Drain.DrainNeverEnds | src/threadpool.c:158-178 | a wait room in its drain loop when the flag is set stays there for ever, and the shutdown waits for it |
| Drain.CopiesMeanDraining | src/threadpool.c:161-178 | stale copies are about only while the wait room is in its drain loop with the flag set |
| Drain.ConservedIfFlaggedOutside | src/server.c:342-346 | if the flag is set while the wait room is outside its drain loop, every connection stays accounted for to the end of the run |
| Drain.DrainBreaksBooks | src/threadpool.c:161-178 | from every reachable state with the flag set and the wait room in its drain loop, the room alone can go on to a state that does not conserve connections |
| Drain.FlagDecides | src/threadpool.c:158-178 | every continuation of a run conserves connections if and only if the wait room is outside its drain loop when the wait queue's flag is set |
| Jam.CanRunIff | src/threadpool.c:64-105 | a thread counts as able to go on exactly when it has a step |
| Jam.StuckIff | src/threadpool.c:64-105 | before shutdown no thread can go on if and only if both queues are full and every worker, the wait room and every pushing listener sleep in queue_push; so with fewer than 2 * capacity + workers + 1 live connections some thread can |
| Jam.JamNeverEnds | src/threadpool.c:207-281 | from there on nothing moves, is answered or closed, and the shutdown never gets past joining the wait room |
| JamRun.JamIsReachable | src/threadpool.c:139-300 | for every number of workers and every capacity of queues and pool a run into the deadlock, all pushers asleep, with exactly 2 * capacity + workers + 1 live connections, so that bound is tight |
| JamRun.RoomOversleeps | src/threadpool.c:181-190 | a run in which the wait room asks the kernel to wait 200 ms although its one pooled connection has long expired |
| Kernel.StepKeepsAgreement | src/threadpool.c:158-214 | without stale pops so far, every step keeps the pool equal to the armed registrations and those reported but not yet handled |
| Kernel.PoolAndKernelAgree | src/io_watcher.c:78-123 | in every run, at the top of the wait room's loop and when it is about to wait, the pool's descriptors are pairwise distinct and are exactly the armed ones; in the drain loop between the two as long as trypop has not returned -1 |
| Kernel.EveryEventFindsItsConnection | src/threadpool.c:196-210 | in every run, shutdown included, every reported descriptor finds the very connection that registered it |
| Ledger.TakesBackLast | src/threadpool.c:168-173 | without stale pops, when arming fails, the connection removed by descriptor is the one just added |
| KeepAlive.KeptConnectionsAreClean | src/threadpool.c:233-283 | while trypop has not returned -1 to the drain loop, every connection in the wait queue or the pool is HTTP/1.1 and was answered; its last response, like all before, had status 200, and neither that response nor its request said `Connection: close`; its deadline is at most 65535 s ahead |
| KeepAlive.BadAnswersAreLast | src/threadpool.c:233-299 | in every run, shutdown included, demux_protocol runs at most once per connection, and a response other than 200, or one with `Connection: close` on either side, is the last on its connection |
| KeepAlive.BadAnswersClose | src/threadpool.c:258-299 | in every run, shutdown included, a connection on which anything but a 200 was sent, or either side said `Connection: close`, is closed |
| KeepAlive.KernelWaitIsBounded | src/threadpool.c:181-190 | in every run the timeout passed to the kernel is at most 200 ms; it is not negative and does not pass the nearest deadline if and only if that deadline, when over, does not look ahead, which takes more than 2^31 s overdue |
| Effects.SweepExpires | src/threadpool.c:213 | in every run, after the sweep a connection is pooled as often as before if its deadline is yet to come and not at all if it is over; one that is over is in the closed log as often more as it was pooled, its descriptor is free and nothing is armed for it; every other descriptor and registration stays |
| Effects.EventDecides | src/threadpool.c:196-210 | in every run the connection that registered the event on top leaves the pool, closed on an error and on its way to the work queue otherwise |
| Effects.PoolingDecides | src/threadpool.c:164-177 | in every run a connection taken from the wait queue is pooled and armed if and only if the pool has room and the kernel is willing, and closed otherwise, with the pool as before unless trypop has returned -1 |
| Effects.PollReports | src/threadpool.c:190 | the kernel reports at most 64 different armed registrations, which are then no longer armed |
| Effects.ServingDecides | src/threadpool.c:232-299 | in every run: after one exchange a kept connection goes to the wait queue and any other is closed and its descriptor free; the worker leaves only if the handlers ran and the server is stopping; what was sniffed and sent is recorded once |
| Effects.AcceptingDecides | src/threadpool.c:313-331 | in every run an accepted socket is admitted under a new identity with its protocol unknown, or, in shutdown, closed again unless its descriptor is 0 while the listener leaves |
| Effects.FailedSetUpLeaks | src/socket.c:169-182 | a socket whose TLS set-up fails after accept stays open and is never admitted |
| Effects.QueuesHandOn | src/threadpool.c:64-131 | in every run who pops gets the oldest item as it was stored, who pushes adds what it holds behind the others, and no other step touches what is in the queues |
| Effects.ThreadsLeaveInShutdown | src/threadpool.c:158-218 | the wait room leaves only at the top of its loop in shutdown, giving up the pool; a worker's -1 comes from an empty work queue in shutdown and makes it leave; a listener leaves when the server is stopping |
| Effects.OthersLeaveAlone | src/threadpool.c:158-332 | only serving, pooling, events and the sweep close connections; only the wait room's steps change the pool; only workers answer, only listeners admit |
| Exchange.FindHeader | src/util.c:113-134 | the index found is the first header of that name, whatever its case, and -1 only if there is none |
| Exchange.ValidStatusIff | src/validator.c:30-80 | what each status means: 400 an unknown method or a missing Host, 403 `..` in the URI, 405 POST, DELETE or TRACE, 200 GET, HEAD, OPTIONS or PUT, in that order of precedence |
| Exchange.ClosesIffError | src/handler_static.c:65-156 | every response of the handlers says `Connection: close` if and only if its status is at least 400, and uses at most 8 of the 64 slots |
| Answers.UnhandledAnswers | src/http_common.c:120-165 | an exchange that does not reach the handlers: no answer after a failed handshake, a closed (-2) or silent (-4) client; otherwise a bare 431, 500, 400, 505 or 101 by the reader's code, the protocol and the Upgrade header; never kept |
| Answers.HandledAnswers | src/validator.c:30-80 | one that does: 400 for an unknown method or a missing Host, 403 for `..`, 405 for POST, DELETE and TRACE, 404 exactly for a GET or HEAD whose file is not found, and 200 for every other request |
| Answers.HeadersAnswer | src/handler_static.c:65-156 | the names and values of an answer's headers in order: for an error (`Allow` only with 405), OPTIONS, PUT (none), GET and HEAD |
| Answers.ConnectionAfter | src/http_common.c:288-308 | a connection is kept if and only if the request got a written 200 over HTTP/1.1 and its first Connection header is not the literal `close`; a kept one has the new deadline, identity and descriptor stay, and a handled request for HTTP/1.0 settles the protocol |
| Answers.SaidCloseIff | src/http_common.c:291-302 | what counts as `Connection: close`: the literal in the request's first Connection header, any case in any of the response's |
| Text.SameIgnoringCaseIff | src/util.c:113-134 | strcasecmp: equal lengths, and each two letters the same up to the case of the 26 letters |
| RequestCtx.Context.ConfirmHeaderExists | src/util.c:113-121 | true exactly when some header has that name |
| RequestCtx.Context.GetHeaderValue | src/util.c:126-134 | the value of the first header of that name, or none |
| RequestCtx.Context.Settle | src/http1.c:181-195 | 1 exactly when some Upgrade header contains `h2c`; otherwise version HTTP/1.0 settles the protocol |
| RequestCtx.Context.ReadRequest | src/http_common.c:120-154 | reading into the buffer and parsing into the arrays stores what the stream says, or fails with the reader's code |
| RequestCtx.Context.ReportFailure | src/http_common.c:124-147 | the status for each failure of the reader, none for a silent client |
| RequestCtx.Context.ProcessIngress | src/http_common.c:120-165 | fails exactly on a failed read, HTTP/2 or an upgrade, with the status for each; otherwise the request read from the socket is stored and the protocol settled |
| RequestCtx.Context.ValidateRequest | src/validator.c:30-80 | method and status by the chain of checks: unknown method, missing Host, `..` in the URI, method not allowed |
| HeaderTable.StrNCpy | src/response.c:49-50 | the slot's bytes are the string, cut to the slot, and zeros up to its end; no other slot changes |
| HeaderTable.StrCaseEq | src/http_common.c:299-301 | comparing a slot byte by byte decides equality up to case |
| HeaderTable.Table.Add | src/response.c:44-52 | the next of 64 slots holds the header, behind all earlier ones |
| HeaderTable.Table.HasClose | src/http_common.c:298-302 | true exactly when some slot says `Connection: close`, in any case |
| HeaderTable.Table.Stored | src/response.c:83-86 | the slots read as C strings are the headers added, in order |
| RequestCtx.Context.HandleError | src/handler_static.c:65-88 | the headers of an error response in order |
| RequestCtx.Context.HandleOptions | src/handler_static.c:109-116 | the headers of an OPTIONS response in order |
| RequestCtx.Context.HandleGetHead | src/handler_static.c:120-156 | the headers of a file response in order if the file is found, and otherwise status 404 and the error response |
| RequestCtx.Context.Handle | src/http_common.c:170-180 | an error status goes to the error handler, anything else to the static handler's method |
| RequestCtx.Context.ShouldKeep | src/http_common.c:288-308 | the keep-alive decision from the client's header, the server's headers and the protocol |
| RequestCtx.Context.PrintHeaders | src/http_common.c:252-258 | the bytes handed to the socket are the printed block, or none if it outgrows the buffer |
| RequestCtx.ServeOnce | src/threadpool.c:232-299 | the worker's pass as code, from the bytes read to the header bytes written and the decision to keep the connection, computes the exchange that the connection machine uses as a step |
| RequestCtx.SentIsRecovered | src/http_common.c:252-258 | what goes out for an exchange reads back as its status in digits, the reason cut to 15 bytes and its headers; nothing goes out without a status |
| HttpRead.HeaderEndIsFirst | src/http1.c:75-81 | the block ends behind the first marker, no zero byte comes before it, and a marker is missed only behind a zero byte |
| HttpRead.ReadingIsFaithful | src/http1.c:34-87 | 0 means the whole block of the stream is in; -3 means 8191 bytes without a complete block |
| HttpRead.FragmentationIndependence | src/http1.c:34-87 | two readings of one stream that decide return the same code, the same block and the same parsed request |
| HttpRead.EverySplitDecides | src/http1.c:34-87 | for every split into non-empty reads with any retries: 0 iff the block ends within 8191 bytes, -3 iff not and 8191 bytes came, -2 iff the peer stops earlier |
| HttpRead.GivenUpForAReason | src/http1.c:45-66 | -4 only after a poll that timed out, -1 only after an error of the socket or the poll, and never with the block already in |
| HttpRead.GivesUpAtOnce | src/http1.c:45-70 | and the other way round: while the question is open, a poll that times out makes it -4, an error of the poll or the socket -1, a peer that has closed -2, whatever came before |
| HttpRead.HeaderReader.FindEnd | src/http1.c:75-79 | the search of the zero-terminated buffer finds the end of the first marker |
| HttpRead.HeaderReader.Receive | src/http1.c:71-84 | new bytes are appended; with a marker the header length and the overshoot are set |
| HttpRead.HeaderReader.OneTurn | src/http1.c:42-84 | one turn of the loop, retries, polls and errors included |
| HttpRead.HeaderReader.ReadHttpHeaders | src/http1.c:34-87 | the loop over the buffer returns what the reading function says, and header followed by overshoot is what was read |
| HttpParse.ParserUndoesPrinter | src/http1.c:91-179 | for all parts free of their delimiters, any mix of CRLF and LF, any padding and any body: parsing the printed message gives its fields cut to 15/4095/15/127/4095 bytes and the first 128 headers in order (sections 2.2, 3 and 5 of RFC 9112) |
| HttpParse.ParsesHeaderLines | src/http1.c:138-172 | header lines are collected in order until 128 are stored, from any state between lines |
| HttpParse.UnfinishedLine | src/http1.c:91-136 | a start line that breaks off in its first, second or third word keeps what there is of each, cut to its array |
| HttpRequest.Http1Request.Byte | src/http1.c:101-179 | one turn of the switch takes the arrays from one state of the parser to the next, inside their bounds |
| HttpRequest.Http1Request.SkipAfterColon | src/http1.c:141-142 | skips exactly the spaces after the colon |
| HttpRequest.Http1Request.ParseHttp1 | src/http1.c:91-179 | for every byte string the loop terminates inside its arrays and leaves in zeroed memory exactly the parsed fields, each followed by zeros |
| HttpRequest.Http1Request.Stored | src/types.h:229-237 | the arrays read as C strings are the parsed fields, if these hold no zero byte |
| HttpParse.ParseYieldsText | src/http1.c:91-179 | fields parsed from a block without zero bytes hold none |
| HttpIngress.BlockIsText | src/http1.c:75-81 | a block that the reader accepts holds no zero byte |
| HttpPrint.Snprintf | src/response.c:76-77 | at most `remaining` bytes are touched; the text cut to fit is stored with a zero; the full length is returned |
| HttpPrint.BuildResponse | src/response.c:70-96 | the buffer holds exactly the printed block and a zero, or the block does not fit, which happens exactly when it has 8192 bytes or more |
| HttpPrint.BlockIsSpelled | src/response.c:75-93 | that block byte for byte: `HTTP/1.1 `, the status in decimal digits without leading zeros that denote it, the reason, each header as `key: value`, CRLF after every line and an empty line |
| HttpPrint.BlockIsRecovered | src/response.c:70-96 | the server's parser recovers status, reason and headers from the printed block, the status as digits that denote it |
| HttpPrint.HandlersNeverOverrun | src/handler_static.c:65-156 | no response of the handlers outgrows the buffer, with inserted texts of at most 900 bytes each |
| HttpPrint.AnswerIsRecovered | src/http_common.c:252-258 | for every answered exchange, with plain texts of at most 900 bytes: the printed block fits, and parsing its bytes gives as second word the status in decimal digits, whose value is the status, the reason cut to 15 bytes and exactly the response's headers |
| HttpIngress.HeadEndsWherePrinted | src/http1.c:75-84 | the reader finds the end of a printed block exactly where the printer put it, whatever body follows |
| HttpIngress.RequestSurvivesTheWire | src/http1.c:34-179 | a well-formed request in any pieces is accepted exactly when its block has at most 8191 bytes; then the client's fields are stored and the overshoot is the start of the body |
| HttpIngress.AnswersWhatWasSent | src/http_common.c:120-165 | such a request is answered exactly as if the client's own fields had been handed over, or, when its block is too long, with 431 and without keeping the connection |
| PathResolve.ResolvePath | src/handler_static.c:38-61 | the output buffer holds the resolved path and a zero |
| PathResolve.ResolveIs | src/handler_static.c:38-61 | the path is the root without its slash, one slash and the URI without its own; left alone unless it ends in a slash, then followed by `index.html`; cut behind 4095 bytes |
| PathResolve.ServedPathsStayBelowTheRoot | src/handler_static.c:120-130 | for every validated request the path starts with the document root, goes on with a slash, and has no `..` behind the root |
| PathResolve.DirectoryOnlyWhenCut | src/handler_static.c:56-60 | the path ends in a slash exactly when the joined name fills the buffer and is cut behind one |
| LogRing.StoreAppendsIff | src/logger.c:102-125 | the store appends and loses nothing if and only if `next_tail` is the index behind the tail at that moment |
| LogRing.TakeOne | src/logger.c:158-161 | one turn of the batch loop takes the oldest entry |
| LogRing.Logger.Write | src/logger.c:99-129 | stores in order, drops an access entry on a full ring, blocks an event entry, or refuses it in shutdown |
| LogRing.Logger.Resume | src/logger.c:112-129 | after a wait: refused in shutdown, otherwise stored with the old `next_tail`, which appends exactly when it is still right |
| LogRing.Logger.TakeBatch | src/logger.c:144-168 | takes the oldest entries in order, 32 or all there are; exits exactly on an empty ring in shutdown |
| LogRing.Split | src/logger.c:176-186 | the two output arrays are the batch's entries by target, in order |
| LogRing.OnlySelects | src/logger.c:176-186 | the selection by target holds each entry of that target as often as the batch, and no other |
| LogRuns.OnlyEventsWait | src/logger.c:104-114 | in no state of any run does a producer wait with an access entry |
| LogRuns.WriteDecides | src/logger.c:99-129 | in every run: with a slot to spare an entry is appended; with size - 1 entries in the ring an access entry, and in shutdown any entry, is refused at once, and any other waits |
| LogRuns.ResumeDecides | src/logger.c:112-129 | in every run a woken producer is refused in shutdown, sleeps on while its place is the oldest entry's, and otherwise stores at the tail |
| LogRuns.CollectDecides | src/logger.c:157-168 | in every run a batch is the oldest entries in order, 32 of them or all there are |
| LogRuns.WriteOutDecides | src/logger.c:188-201 | what a batch leaves in the logs, with the failures: a failed access write leaves out the event entries too |
| LogRuns.LoggerCanStepIff | src/logger.c:146-155 | the logger thread can go on exactly with a batch in hand, a ring that is not empty, or in shutdown |
| LogRuns.StepLosslessIff | src/logger.c:87-168 | a step of a producer, the logger or the shutdown keeps accepted = consumed + ring if and only if it is not a stale store |
| LogRuns.LosslessUntilStale | src/logger.c:87-168 | in every run without a stale store nothing accepted is lost, duplicated or reordered, and the first stale store breaks this |
| LogRuns.RefusesOnlyAccess | src/logger.c:104-121 | without stale stores at most size - 1 accepted entries wait to be consumed; before shutdown only access entries are refused |
| LogRuns.DrainedAtExit | src/logger.c:146-155 | when the logger thread exits, which it does in shutdown only, the ring is empty, and without stale stores all accepted entries were consumed |
| LogRuns.LogsAreStableSplit | src/logger.c:157-201 | with every writev complete the two logs are the order-preserving selections by target of what was consumed |
| LogRuns.TwoWaitersLoseOne | src/logger.c:102-125 | for every number of producers from two on: two event producers wait on one `next_tail`; after both stored, an accepted entry is neither consumed nor in the ring |
| LogRuns.OneProducerLosesNothing | src/logger.c:87-168 | with at most one producer no run loses, duplicates or reorders an accepted entry |
| PowerOfTwo.NextPowerOf2 | src/util.c:37-49 | the least power of two >= v for 1 <= v <= 2^31, and 1 for every other 32-bit v |
| PowerOfTwo.RoundQueueSize | src/config.c:198-199 | for a configured size of at most 32768 the stored size is the least power of two that is large enough; any larger one is stored as 0 |
| PowerOfTwo.MaskIsModulo | src/logger.c:102 | masking with size - 1 is the remainder modulo size for every power of two |
| PowerOfTwo.StoredSizeIsPow2 | src/logger.c:160 | every stored size but 0 is such a power, with an exponent below 16 |
| ConfigLock.StepKeepsSafe | src/config.c:279-301 | every step of a reader, a reload, a join or the cleanup keeps the heap accounted for, the readers' configuration alive and the joined threads gone; which configuration that is says `ReloadsTakeEffect` |
| ConfigLock.ReloadsTakeEffect | src/config.c:279-301 | in every run, up to the cleanup, readers are led to the configuration of the last swap, which but for the time from its parsing to its swap is the one given to the last reload, and before any reload the first one |
| ConfigLock.SectionsReadTheReloaded | src/config.c:293-300 | from lock to unlock a reader gets exactly the fields it reads, each under its own name from the configuration in place when it locked - after a reload the one given to the last reload |
| ConfigLock.LockExcludes | src/config.c:293-297 | a reader can lock exactly while the write lock is not held, and the manager exactly while no reader is inside |
| ConfigLock.LockedReadersAreSafe | src/config.c:293-300 | in every interleaving, from lock to unlock: no read goes astray, and whatever fields are read, in any order and at any time, belong to one live configuration |
| ConfigLock.HeapIsAccountedFor | src/server.c:335-367 | nothing is leaked or freed twice; after the cleanup nothing is left and, by the joins before it, every thread that could have read it is gone |

## Left out

- HttpPrint.BuildResponse: stops with `TooLong` at the first print that does not fit; the byte offsets the C code goes on to use are not modelled. `HandlersNeverOverrun` shows that this does not happen.
- Threads, condition variables and atomics themselves: `QueueMonitor` and `Machine` are their semantics. `server_shutdown`, the thread loops and `reload_configuration` are steps of transition systems, not methods, because what matters in them happens between their lines.
- RequestCtx.Context.HandleError: the HTML body and `body_len` are not modelled. The length header's text is a free choice here and in the next two, because `int_to_string` returns one static buffer that all workers share.
- RequestCtx.Context.HandleOptions: the length header's text is a free choice, see above.
- RequestCtx.Context.HandleGetHead: whether the file exists is a free choice, and the file mapping and `body_len` are not modelled; the path is in `PathResolve`.
- RequestCtx.ServeOnce: what happens between the response and the next connection (access log line, releasing the context, the unreleased context on the keep-alive path) is not modelled, nor is the body; whether the writes succeed is a free choice.
- HeaderTable.Table.Add: its texts are C strings shorter than a slot, as all of the server's are; a longer one would leave the slot without a terminating zero.
- WorkQueue.Queue.Push: waking and sleeping are in `QueueMonitor`; the method's outcome says whether the thread waits.
- LogRing.Logger.constructor: a ring of size 0, which a configured size above 32768 yields, is not modelled, because the C code then indexes an array without elements.
- LogRuns.LogsAreStableSplit: `writev` is complete or fails; short writes and the logger's own warnings about failures are not modelled.
- ConnPool.Pool.NearestTimeoutMs: an int product that overflows, which takes a deadline more than 2^31 seconds over, is taken in two's complement; C leaves it undefined.
- ConfigLock.LockedReadersAreSafe: of a configuration's fields only those read under the lock are there; a failed parse or allocation, which changes nothing, is not a step.
- PathResolve.ResolvePath: the document root is not empty, as the index `root_len - 1` requires.
- Liveness and fairness: what is proved about progress is who can step and who never does.
- Failing lock calls and allocations, which abort the process or the thread.
- TLS, real sockets, polling and `mmap`; daemonising, privileges, the lock file and option parsing; HTTP/2 and dynamic handlers; PUT beyond its empty answer.
- The configuration file's parser and the post-processing of `lock_file_path`; date, MIME and status texts, which are parameters; the format and truncation of log lines.
