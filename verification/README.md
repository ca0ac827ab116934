# Verified model of the servers in this repository

The project models four programs of the repository and proves what their code
keeps over whole runs.

* **cpp_server**, the multi-reactor server. `Reactor` is a transition system
  over one main loop and any number of sub-loops: map of connections, task
  queues, epoll sets, open descriptors, and connections that live exactly as
  long as some `shared_ptr` to them exists. `Servers` has the same operations as
  methods of objects. `EventLoops` is the eventfd wake-up protocol of one loop,
  `ThreadPool` the pool with its draining destructor.
* **TinyWebServer**, in proactor mode. `WorkerPools` composes the request queue
  with the database pool through `connectionRAII`, one atomic step of a thread
  at a time. `TimerQueue`/`TimerList` are the timer list as sequences and as the
  linked structure; `WebServer`/`TimedServers` are the event loop over it, and
  `WebServerRuns` says what its runs mean for one descriptor.
  `HttpParser` holds the request parser as functions, `HttpScan` what its scanner
  and in-place edits keep, `HttpRequestLine` the grammar of the request lines it
  accepts, `HttpChunks` reading in pieces. `HttpFirstLine`,
  `HttpFields` and `HttpRequests` read rendered requests back, `HttpConn` is the
  parser on its fixed buffer. `Response`, `PartialWrite`, `ReplyDelivery` and
  `HttpWriter` are the reply: its text, the scatter/gather write, all calls of
  `write` for one reply, and the buffer code. `BlockQueue` is the log's ring.
* **http_server**, the second parser. `HttpServer` has its two parsers as
  functions and objects, `ServerMessages` proves what they read back.
* `Common`, `HttpCodes` and `CStrings` hold shared types, constants and the C
  string functions.

Threads are interleaved steps: one critical section, one semaphore or eventfd
operation, one handler or task. Results of system calls are chosen freely under
a short contract: `accept` returns a descriptor that is not open, `epoll_wait`
reports registered descriptors once each, `writev` writes between one byte and
what is left or fails, reads bring any bytes. What a run has done (tasks queued,
requests accepted, connections closed, activity of a descriptor) is told by
functions of its actions, and the states are proved to agree with them.

Some of what the code promises is false, and the exact condition is proved:

| behaviour | when it holds |
|---|---|
| a connection that fails to write is cleaned up | never (`Reactor.WriteErrorLeaks`) |
| `GetConnection` returns no NULL | workers do not outnumber connections (`WorkerPools.NullExactlyWhenWorkersOutnumber`) |
| a request body is found | no read ends inside it where `parse_line` moves on (`HttpChunks.SplitBodyExactly`) |
| the iovecs describe what is left | at most one write stops inside the header (`PartialWrite.FaithfulExactly`) |
| Content-Length counts the body | the file has at most 2^31-1 bytes (`Response.FramingIsExact`) |
| a reply that `write` calls complete has been sent whole | header and file together have at most 2^31-1 bytes, with at most one stop inside the header (`ReplyDelivery.DeliveredExactly`) |
| m_user_count, timers and open descriptors agree | accept reuses a descriptor with fewer than eight of its old requests still in the pool (`WebServer.CountsAgreeExactly`) |
| an open descriptor is armed, has an event to come or a request in the pool | `append_p` did not refuse its last request (`WebServerRuns.NobodyIsStuck`) |
| a request line without a path is refused | it does not begin its target with http:// (`HttpRequestLine.RequestLineExactly`) |
| `adjust_timer` keeps the list sorted | the new deadline is not before the predecessor's (`TimerQueue.AdjustSortedExactly`) |
| http_server keeps the raw header | the first bytes read cover the whole header block; exactly so for a header whose opening word comes only once (`ServerMessages.OpenedOnceExactly`), and for any other unless the first piece comes again right behind itself (`ServerMessages.RawHeaderExactly`), which can hide the loss (`ServerMessages.EchoHidesTheLoss`) |

Where comments or names and code differ, the code is followed: BAD_REQUEST is
answered with 404, a request to "/" overwrites the version string with the tail
of "/judge.html", and NO_RESOURCE queues nothing.

`dafny verify dfyconfig.toml` checks everything.

## Model

| member | source | states |
|---|---|---|
| Reactor.RunsAreSafe | cpp_server/src/Server.cpp:45-79 | over every run: open client descriptors are those of the live connections, one each; map, polled channels and epoll sets name live connections only; no second close task |
| Reactor.StepIsSafe | cpp_server/src/EventLoop.cpp:30-56 | every step touches live objects only; a close task finds its own connection in the map, a destructor task runs on the home loop with the channel registered and out of the map; a descriptor is closed only out of every epoll set |
| Reactor.EnabledIsDefined | cpp_server/src/Channel.cpp:53-62 | a polled channel, a guarded connection and a queued task's connection are still alive when used |
| Reactor.RegisteredIsReferenced | cpp_server/src/Connection.cpp:90-97 | a connection whose channel is registered is held by the map, a queue, a running batch or a handler |
| Reactor.DroppedIsUnreachable | cpp_server/src/Connection.cpp:204-206 | when the last reference goes, no map entry, task, polled list, guard or epoll set still names the connection |
| Reactor.CollectKeeps | cpp_server/src/Connection.cpp:204-206 | destroying the dropped connections closes exactly their descriptors and keeps the invariant |
| Reactor.StepKeeps | cpp_server/src/Server.cpp:56-79 | every action of every loop keeps the invariant |
| Reactor.NewConnectionKeeps | cpp_server/src/Server.cpp:45-59 | a new connection takes a fresh id; its descriptor, reused or not, is in no map entry and no epoll set before and in exactly its own after |
| Reactor.CloseTaskKeeps | cpp_server/src/Server.cpp:65-79 | the close task takes the connection out of the map and queues the destructor on its loop |
| Reactor.DestructorTaskKeeps | cpp_server/src/Connection.cpp:56-58 | the destructor task takes the channel out of the loop's epoll set |
| Reactor.WriteErrorLeaks | cpp_server/src/Connection.cpp:160-203 | after a write error, in a handler or in the connect callback, the connection stays in map and epoll set and its descriptor stays open for the rest of the run |
| Reactor.QuietCleanup | cpp_server/src/Server.cpp:60-79 | with all queues drained, a connection is gone exactly when a close task was made for it |
| Reactor.CleanedUpExactly | cpp_server/src/Connection.cpp:90-97 | whatever loop closes it: with all queues drained an accepted connection is gone if and only if the first thing that a handler or the connect callback did to it was to close it, and not to fail at writing |
| Reactor.HandlerCloseCleansUp | cpp_server/src/Connection.cpp:90-97 | a handler of any loop that closes a connection not signalled before: from then on its close task is made, and it is gone in every state with drained queues |
| Reactor.EventsInOrder | cpp_server/src/EventLoop.cpp:30-42 | every pass takes up all channels that epoll_wait reported, in order, before it runs the tasks |
| Servers.Server.HandleNewConnection | cpp_server/src/Server.cpp:45-59 | on objects: next id, home loop by descriptor, channel added, connection filed |
| Servers.Server.HandleClose | cpp_server/src/Connection.cpp:90-97 | only the first close of a connection counts; at once on the main thread, queued from any other |
| Servers.Server.HandleCloseInLoop | cpp_server/src/Server.cpp:65-79 | the entry of the descriptor is erased and the destructor task queued |
| Servers.Server.FailWrite | cpp_server/src/Connection.cpp:160-178 | a write error marks the connection closed and does nothing else: no close task, no change of map or epoll sets |
| Servers.Server.UpdateChannel | cpp_server/src/Epoll.cpp:41-53 | MOD when the flag says registered, else ADD, refused for a registered descriptor |
| Servers.Server.DeleteChannel | cpp_server/src/Epoll.cpp:55-61 | DEL only when the flag says registered; the flag is cleared |
| EventLoops.NoLostWakeup | cpp_server/src/EventLoop.cpp:24-84 | about to poll with tasks queued: the counter is positive or a writer is about to add; the read of the eventfd never fails; the counter is the writes since the last read, and a push by the loop's own thread is followed by a write exactly during a pass |
| EventLoops.ExactlyOnceInOrder | cpp_server/src/EventLoop.cpp:43-70 | the tasks run are the first of all tasks pushed by any thread, one per run action; before a poll exactly the others wait, in order |
| EventLoops.EachPassRunsItsBatch | cpp_server/src/EventLoop.cpp:43-56 | one pass of DoToDoList runs exactly the batch it swapped out; what was queued meanwhile stays and wakes the next poll |
| EventLoops.EventLoop.QueueOneFunc | cpp_server/src/EventLoop.cpp:57-70 | appends the task; writes the eventfd unless called by the loop's own thread outside a pass |
| EventLoops.EventLoop.RunOneFunc | cpp_server/src/EventLoop.cpp:75-84 | runs at once in the loop's thread, queues otherwise |
| EventLoops.EventLoop.DoToDoList | cpp_server/src/EventLoop.cpp:43-56 | runs the queued tasks in order; left are the tasks they queued, one wake-up each |
| ThreadPool.DrainRunsEverything | cpp_server/src/ThreadPool.cpp:4-51 | when all workers have left, exactly the tasks given to add before the stop have run, each once |
| ThreadPool.DrainTerminates | cpp_server/src/ThreadPool.cpp:41-51 | after notify_all every action but a refused add brings the joins closer, and until then some worker can move |
| ThreadPool.TasksStartInOrder | cpp_server/include/ThreadPool.hpp:24-40 | the tasks given to add before the stop are those taken, in order, followed by those queued |
| ThreadPool.NoLostNotify | cpp_server/include/ThreadPool.hpp:24-40 | nobody awake with work queued or stop set: a notification is still pending |
| ThreadPool.Pool.Add | cpp_server/include/ThreadPool.hpp:31-39 | accepted unless stopped |
| ThreadPool.Pool.Take | cpp_server/src/ThreadPool.cpp:13-23 | sleeps, leaves, or takes the front task |
| ThreadPool.Pool.Stop | cpp_server/src/ThreadPool.cpp:41-46 | sets the flag and owes every sleeper its notification; the queue is left to the workers |
| WorkerPools.RequestQueueIsSafe | TinyWebServer/threadpool/threadpool.h:86-121 | queue length = semaphore + producers before post + workers before pop; bounded; first in first out; never popped empty |
| WorkerPools.RequestsReachWorkers | TinyWebServer/threadpool/threadpool.h:86-150 | a request is taken if and only if there is room; the k-th pop hands out the k-th one taken, and its worker works on it and nothing else until it releases its connection |
| WorkerPools.ConnectionsAreConserved | TinyWebServer/CGImysql/sql_connection_pool.cpp:34-86 | counters match the list, free and in use add up, every connection is in the list or in one hand, never popped empty |
| WorkerPools.ConnectionsGoRound | TinyWebServer/CGImysql/sql_connection_pool.cpp:55-86 | connections are handed out in the order in which they came back; a worker holds the one it was handed until it gives it back |
| WorkerPools.OneHandEach | TinyWebServer/CGImysql/sql_connection_pool.cpp:55-86 | a connection in hand is in no other hand and not in the list |
| WorkerPools.BlockedWaitsForSomeone | TinyWebServer/CGImysql/sql_connection_pool.cpp:60-71 | a worker blocked on the semaphore: another one holds a connection or is inside get or release |
| WorkerPools.EnoughConnections | TinyWebServer/threadpool/threadpool.h:146-150 | with no more workers than connections nobody sees an empty list or blocks |
| WorkerPools.NeverNull | TinyWebServer/CGImysql/sql_connection_pool.cpp:55-71 | with no more workers than connections every working worker has a connection |
| WorkerPools.NullExactlyWhenWorkersOutnumber | TinyWebServer/CGImysql/sql_connection_pool.cpp:55-59 | NULL can be returned in some run if and only if workers outnumber connections |
| WorkerPools.RequestQueue.AppendP | TinyWebServer/threadpool/threadpool.h:86-96 | appends and posts below the bound, refuses at it |
| WorkerPools.RequestQueue.NextRequest | TinyWebServer/threadpool/threadpool.h:108-121 | takes the front request, skips a null one and an empty queue |
| WorkerPools.ConnectionPool.constructor | TinyWebServer/CGImysql/sql_connection_pool.cpp:34-51 | the loop fills the list with distinct connections and sets counters and semaphore to their number |
| WorkerPools.ConnectionPool.GetConnection | TinyWebServer/CGImysql/sql_connection_pool.cpp:55-71 | the front connection, or NULL from an empty list |
| WorkerPools.ConnectionPool.ReleaseConnection | TinyWebServer/CGImysql/sql_connection_pool.cpp:74-86 | back to the end of the list, NULL refused |
| TimerQueue.InsertIsStable | TinyWebServer/timer/lst_timer.cpp:26-43 | a timer goes behind all earlier or equal deadlines, before all later ones; the order is kept |
| TimerQueue.AdjustIsReinsert | TinyWebServer/timer/lst_timer.cpp:45-63 | with a deadline not before the predecessor's, adjusting is removing and inserting stably, early return included |
| TimerQueue.AdjustSortedExactly | TinyWebServer/timer/lst_timer.cpp:45-63 | adjusting keeps the order if and only if the new deadline is not before the predecessor's |
| TimerQueue.ExpiredExactly | TinyWebServer/timer/lst_timer.cpp:97-102 | on a sorted list tick removes exactly the timers that have expired |
| TimerList.SortTimerLst.AddTimer | TinyWebServer/timer/lst_timer.cpp:26-43 | pointer surgery keeps the chain linked both ways and is the insertion on sequences |
| TimerList.SortTimerLst.Walk | TinyWebServer/timer/lst_timer.cpp:114-127 | the walk stops between the last timer not later and the first later one |
| TimerList.SortTimerLst.AddAfter | TinyWebServer/timer/lst_timer.cpp:114-136 | insertion into the part of the list behind a given node |
| TimerList.SortTimerLst.AdjustTimer | TinyWebServer/timer/lst_timer.cpp:45-63 | keeps the chain linked and is Adjust on sequences |
| TimerList.SortTimerLst.DelTimer | TinyWebServer/timer/lst_timer.cpp:65-90 | unlinks head, tail, middle or only node; the rest is unchanged |
| TimerList.SortTimerLst.Tick | TinyWebServer/timer/lst_timer.cpp:92-112 | drops the expired front, reports its descriptors in order, leaves tail behind |
| WebServer.CountsAgree | TinyWebServer/webserver.cpp:164-394 | over every run in which accept reuses a descriptor with fewer than eight old requests in the pool: m_user_count = timers = open client descriptors, one timer per open descriptor; no event meets a closed one |
| WebServer.CountsAgreeExactly | TinyWebServer/http/http_conn.cpp:110-117 | the counts agree in every reachable state if and only if fewer than eight old requests may be left: the ninth reply in one write buffer fails and close_conn leaves the timer behind |
| WebServer.WorkersNeverClose | TinyWebServer/http/http_conn.cpp:645-656 | below that bound process_write finds room, old requests of a reused or closed descriptor included, so close_conn is never reached |
| WebServer.TimersAreLru | TinyWebServer/webserver.cpp:176-195 | with a clock that does not go back the list is the queue of open descriptors by last activity, a tick only taking the closed ones out; right after a tick at t all deadlines lie in (t, t + 15] |
| WebServerRuns.RunTold | TinyWebServer/webserver.cpp:164-394 | over every run the actions on a descriptor alone say whether it is open, how it is armed, how many of its requests wait, what is in its write buffer and when its timer is due |
| WebServerRuns.NobodyIsStuck | TinyWebServer/http/http_conn.cpp:645-659 | an open descriptor without an event in the batch and without a waiting request is armed for input or output, unless append_p refused its last request |
| WebServerRuns.ReplyWaitsForOutput | TinyWebServer/http/http_conn.cpp:652-658 | after a reply was queued the descriptor stays armed for output, the reply behind what was in the buffer, until its next event or request |
| WebServerRuns.IdleAreClosed | TinyWebServer/timer/lst_timer.cpp:92-112 | a tick closes a connection if and only if its last accept, read or write was three slots ago |
| WebServerRuns.LongestIdleFirst | TinyWebServer/webserver.cpp:189-195 | the timer list is ordered by last activity |
| WebServer.AddedLast | TinyWebServer/webserver.cpp:164-185 | a new timer goes to the end of the list |
| WebServer.AdjustedLast | TinyWebServer/webserver.cpp:189-195 | an adjusted timer goes to the end of the list |
| WebServer.StepKeeps | TinyWebServer/webserver.cpp:349-394 | every step of the event loop and the workers keeps the invariant |
| TimedServers.TimedServer.Timer | TinyWebServer/webserver.cpp:164-185 | on the linked list: files the timer of a new client |
| TimedServers.TimedServer.AdjustTimer | TinyWebServer/webserver.cpp:189-195 | on the linked list: new deadline and new place |
| TimedServers.TimedServer.DealTimer | TinyWebServer/webserver.cpp:197-204 | closes the descriptor, counts down, unlinks the timer |
| TimedServers.TimedServer.DealWithRead | TinyWebServer/webserver.cpp:291-310 | a read adjusts the timer, a failed read deals it, whether or not the request was queued |
| TimedServers.TimedServer.DealWithWrite | TinyWebServer/webserver.cpp:333-346 | a write adjusts the timer or deals it |
| TimedServers.TimedServer.HandleNext | TinyWebServer/webserver.cpp:359-387 | the next event of the batch: hang-up deals the timer, input and output go to their handlers |
| TimedServers.TimedServer.Process | TinyWebServer/http/http_conn.cpp:645-659 | a worker handles the next request of a descriptor: read again, or queue the reply and rearm for output, or close_conn |
| TimedServers.TimedServer.TimerHandler | TinyWebServer/timer/lst_timer.cpp:92-112 | tick and cb_func for every expired timer |
| TimedServers.TimedServer.TimersAreThere | TinyWebServer/webserver.cpp:272-316 | in every state reached an open descriptor has its timer in the list and a closed one has none |
| HttpScan.FirstBreakDecides | TinyWebServer/http/http_conn.cpp:164-188 | the first CR or LF of the line decides; the branch for an LF whose CR was scanned earlier never accepts |
| HttpScan.AcceptedExactly | TinyWebServer/http/http_conn.cpp:164-188 | a line is accepted if and only if the first break is a complete CR LF |
| HttpScan.RequestLineFits | TinyWebServer/http/http_conn.cpp:232-276 | every edit of the request line, "/judge.html" included, stays inside the line; url and version point into it |
| HttpRequestLine.RequestLineExactly | TinyWebServer/http/http_conn.cpp:232-276 | a line is accepted if and only if its text up to the first NUL is GET or POST in any case, blanks, a path or http(s):// and a host with a path behind, blanks, HTTP/1.1 in any case; the null pointer is reached exactly by http:// without a path; every other line is BAD_REQUEST |
| HttpRequestLine.RequestLineMeans | TinyWebServer/http/http_conn.cpp:232-276 | from every such line the method and the path are read back, scheme and host dropped, "/" as "/judge.html" |
| HttpFirstLine.RequestLineTaken | TinyWebServer/http/http_conn.cpp:232-276 | in the parser: url and version point at these strings in the read buffer, and the header lines come next |
| HttpFirstLine.RequestLineRefused | TinyWebServer/http/http_conn.cpp:232-276 | after any other line the parser still waits for a request line |
| HttpScan.JudgeAppended | TinyWebServer/http/http_conn.cpp:271-273 | strcat turns "/" into "/judge.html" and changes no other byte but its terminating NUL |
| HttpScan.LinesKeep | TinyWebServer/http/http_conn.cpp:322-353 | the loop up to the body keeps the scan invariant and the unread bytes; the body starts right behind the blank line |
| HttpScan.FeedKeeps | TinyWebServer/http/http_conn.cpp:322-363 | over every run of reads and calls no CR or LF lies between m_start_line and m_checked_idx and every field is a terminated string |
| HttpChunks.ScanExtends | TinyWebServer/http/http_conn.cpp:164-188 | more bytes do not change a finished line, an unfinished scan goes on where it stopped |
| HttpChunks.LinesExtend | TinyWebServer/http/http_conn.cpp:322-353 | the head parsed so far is the head of any longer stream |
| HttpChunks.ChunkInvariance | TinyWebServer/http/http_conn.cpp:164-363 | any splitting gives the code, fields and unfinished state of one read, unless a read ends inside the body where parse_line moves on |
| HttpChunks.BodyInOneRead | TinyWebServer/http/http_conn.cpp:164-363 | in particular when no read boundary lies strictly inside the body |
| HttpChunks.SplitBodyExactly | TinyWebServer/http/http_conn.cpp:311-355 | a request ending with its body is recognised if and only if its reads are so; otherwise it is never answered |
| HttpChunks.BodyCompletes | TinyWebServer/http/http_conn.cpp:311-320 | a body that has arrived is answered, except for a negative length or a body that ends at the end of the buffer |
| HttpFirstLine.FirstLineParsed | TinyWebServer/http/http_conn.cpp:232-276 | a rendered request line gives back its method and its path, "/" as "/judge.html" |
| HttpFields.HeaderMeans | TinyWebServer/http/http_conn.cpp:279-309 | a connection, content-length or host line, its name in any case and with any blanks behind it, sets its field and nothing else |
| HttpFields.OtherHeader | TinyWebServer/http/http_conn.cpp:279-309 | the blank line ends the head or leads to the body, any other line changes nothing |
| HttpFields.AtolMeans | TinyWebServer/http/http_conn.cpp:298-301 | the length is the number of the digits after white space and a sign, up to the first other character |
| HttpFields.FieldTaken | TinyWebServer/http/http_conn.cpp:279-309 | one rendered header line (host, connection, content length or unknown) is taken and noted, the host string staying where it was read |
| HttpFields.FieldsTaken | TinyWebServer/http/http_conn.cpp:279-309 | so is any list of them, the last of each kind deciding |
| HttpRequests.RequestRoundTrip | TinyWebServer/http/http_conn.cpp:232-320 | a rendered GET or POST with any list of header lines is read back: method, path, host, keep-alive, length and body |
| HttpRequests.RenderedInPieces | TinyWebServer/http/http_conn.cpp:322-363 | every way to read a rendered request: answered if and only if no read ends where parse_line moves on |
| HttpRequests.SecondReadLosesRequest | TinyWebServer/http/http_conn.cpp:326-355 | a second read after the first byte of an ordinary body: recognised whole, never in pieces |
| HttpConn.HttpConnReader.ParseLine | TinyWebServer/http/http_conn.cpp:164-188 | the loop on the buffer computes the scanner's function, NULs written in place |
| HttpConn.HttpConnReader.ParseRequestLine | TinyWebServer/http/http_conn.cpp:232-276 | the in-place edits and pointers are those of the request line function; no room is ever missing |
| HttpConn.HttpConnReader.ParseHeaders | TinyWebServer/http/http_conn.cpp:279-309 | blank line, connection, content length, host and unknown headers |
| HttpConn.HttpConnReader.ParseContent | TinyWebServer/http/http_conn.cpp:311-320 | completes when length plus m_checked_idx have arrived |
| HttpConn.HttpConnReader.ProcessRead | TinyWebServer/http/http_conn.cpp:322-363 | the loop computes ProcessRead and keeps the scan invariant |
| HttpConn.HttpConnReader.ReadLevel | TinyWebServer/http/http_conn.cpp:192-205 | level-triggered: one recv, its bytes behind m_read_idx; refused when the buffer is full, the peer closed or recv failed |
| HttpConn.HttpConnReader.ReadOnce | TinyWebServer/http/http_conn.cpp:206-228 | edge-triggered: the loop takes what every recv brings until EAGAIN, an error or the end of the stream |
| HttpConn.ReadEdgeExactly | TinyWebServer/http/http_conn.cpp:206-228 | all bytes before the first result that is no data are kept; it is a success if and only if that result is EAGAIN |
| HttpConn.FullBufferIsDropped | TinyWebServer/http/http_conn.cpp:210-226 | once the buffer is full the edge-triggered loop asks for 0 bytes, gets 0 and drops the connection, whatever has arrived |
| Response.EverythingFits | TinyWebServer/http/http_conn.cpp:542-643 | for every handled code and file size all text fits and is header plus page; the byte count queued is the int of what is queued |
| Response.ProcessWriteNeverFails | TinyWebServer/http/http_conn.cpp:585-643 | on an empty write buffer process_write returns true |
| Response.ReplyText | TinyWebServer/http/http_conn.cpp:585-643 | the three header lines and the page of every reply, word for word |
| Response.FitsBehind | TinyWebServer/http/http_conn.cpp:585-643 | behind text already in the buffer a reply fits while that text and the largest reply stay below its size |
| Response.WrittenBehind | TinyWebServer/http/http_conn.cpp:542-559 | behind text in the buffer a reply is written as into an empty one |
| Response.NinthFails | TinyWebServer/http/http_conn.cpp:601-608 | behind eight of the largest replies the next one does not fit |
| Response.ReadHead | TinyWebServer/http/http_conn.cpp:561-583 | a client that follows RFC 9112 finds the blank line and the printed length |
| Response.FramingIsExact | TinyWebServer/http/http_conn.cpp:585-643 | a client gets the queued body; its Content-Length is the body's size if and only if that fits an int |
| PartialWrite.CountersConserved | TinyWebServer/http/http_conn.cpp:509-511 | sent plus left is constant and left strictly decreases |
| PartialWrite.FaithfulExactly | TinyWebServer/http/http_conn.cpp:509-524 | sent bytes and iovecs make up header and file throughout if and only if at most one write stops inside the header |
| PartialWrite.SecondStopBreaks | TinyWebServer/http/http_conn.cpp:522-523 | every second stop inside the header loses bytes |
| PartialWrite.SecondStopExactly | TinyWebServer/http/http_conn.cpp:509-524 | after a second stop the last bytes of the header, as many as were sent at the first stop, are skipped, or the iovecs leave their buffers |
| PartialWrite.TwoShortWritesLoseBytes | TinyWebServer/http/http_conn.cpp:522-523 | a concrete pair of short writes |
| PartialWrite.EndOfReply | TinyWebServer/http/http_conn.cpp:525-538 | at the end exactly header and file have been sent |
| HttpWriter.ProcessWriteStartsWriter | TinyWebServer/http/http_conn.cpp:609-642 | process_write leaves the iovecs that the writer starts from; the byte count is right if and only if it fits an int |
| ReplyDelivery.CallsAreRun | TinyWebServer/http/http_conn.cpp:494-539 | the writevs of any sequence of calls of write are a run of the scatter/gather writer |
| ReplyDelivery.LoopEnds | TinyWebServer/http/http_conn.cpp:494-524 | a call goes through its successful writevs; with bytes left EAGAIN makes it a retry, any other failure an error, and nothing else does |
| ReplyDelivery.CallsEnd | TinyWebServer/http/http_conn.cpp:487-539 | over all calls: an error if and only if a writev failed otherwise than by EAGAIN, called again if and only if every call met EAGAIN |
| ReplyDelivery.ReplyIsDelivered | TinyWebServer/http/http_conn.cpp:487-643 | over any calls of write with at most one stop inside the header, header and file within an int: when write says complete, header and file have gone out and the client reads exactly the body |
| ReplyDelivery.DeliveredExactly | TinyWebServer/http/http_conn.cpp:509-525 | what write calls complete or finds nothing to send for is always sent whole if and only if header and file together fit the int counter |
| HttpWriter.HttpConnWriter.AddResponse | TinyWebServer/http/http_conn.cpp:542-559 | vsnprintf into the rest of the buffer; the text grows only when all of it fits |
| HttpWriter.HttpConnWriter.ProcessWrite | TinyWebServer/http/http_conn.cpp:585-643 | buffer, iovecs and counter of every code |
| HttpWriter.HttpConnWriter.Loop | TinyWebServer/http/http_conn.cpp:494-524 | the loop over writev results is WriteLoop on the iovecs and counters |
| HttpWriter.HttpConnWriter.Write | TinyWebServer/http/http_conn.cpp:487-540 | one call: nothing to send, retry, error or complete; the return value follows m_linger and init resets the buffer |
| HttpWriter.HttpConnWriter.Respond | TinyWebServer/http/http_conn.cpp:487-643 | process_write and then calls of write on the object: a complete reply within an int was delivered |
| BlockQueue.PoppedIsPrefix | TinyWebServer/log/block_queue.h:103-175 | the items pushed while there was room since the last clear: the first of them, one per pop, have been popped, the others are inside, never more than the capacity |
| BlockQueue.Ring.Push | TinyWebServer/log/block_queue.h:104-122 | the ring with modular indices is the bounded queue |
| BlockQueue.Ring.Pop | TinyWebServer/log/block_queue.h:125-139 | waits while the ring is empty, gives up on a failed wait, else takes the oldest item |
| BlockQueue.PopEnds | TinyWebServer/log/block_queue.h:125-139 | a pop that waits takes the oldest item at the first round that leaves one, gives up exactly at a failed wait |
| BlockQueue.Ring.TimedPop | TinyWebServer/log/block_queue.h:147-174 | nothing on a failed wait or an empty ring, else the oldest item |
| BlockQueue.Ring.Clear | TinyWebServer/log/block_queue.h:22-28 | empties the ring |
| BlockQueue.BackFollowsFront | TinyWebServer/log/block_queue.h:115-136 | back is front plus size modulo capacity |
| HttpServer.HeaderParser.ExtractHeaders | http_server/src/main.cpp:180-203 | the loop terminates and is inserting the lines between CRLFs |
| HttpServer.HeaderParser.PushChunk | http_server/src/main.cpp:159-179 | cuts header and extra body at the first blank line; an unfinished header takes the chunk twice |
| HttpServer.RequestParser.PushChunk | http_server/src/main.cpp:221-258 | body and content length after every chunk |
| ServerMessages.JoinSplit | http_server/src/main.cpp:181-190 | the lines joined by CRLF are the header, and none contains a CRLF |
| ServerMessages.SplitJoin | http_server/src/main.cpp:181-190 | printed lines are found again |
| ServerMessages.FirstKeyWins | http_server/src/main.cpp:191-200 | a key is known if and only if some line has it, and has the first such line's value |
| ServerMessages.ReadBack | http_server/src/main.cpp:159-258 | after any reads that cover the header block: exact header, fields and body part, finished exactly when the whole body has arrived; bytes behind the body are cut off |
| ServerMessages.LengthMeans | http_server/src/main.cpp:239-255 | the length is the number of the leading digits; it is left unset exactly when there are none or they do not fit 64 bits |
| ServerMessages.RawHeaderExactly | http_server/src/main.cpp:161-176 | first bytes that cover the block keep the header; if it is kept, they do, or the first piece comes again right behind itself in the block |
| ServerMessages.OpenedOnceExactly | http_server/src/main.cpp:161-176 | if the opening word of the block ("POST ", "GET ") comes nowhere else in it, the header is what was printed if and only if the first bytes that arrive cover the block |
| ServerMessages.EchoHidesTheLoss | http_server/src/main.cpp:161-176 | some condition is needed: for the lines a, a, aa in four reads the doubled pieces make up the very header |
| ServerMessages.ReplyReadBack | http_server/src/main.cpp:301-315 | the server's own reply is read back for every body, blank lines included, whatever follows |
| ServerMessages.ReplyHeaderExactly | http_server/src/main.cpp:312-315 | for that reply the raw header survives exactly under such reads |

## Left out

- HttpParser.ParseRequestLine: `http://` without a path goes on with a null pointer in the source; the model stops there with UNDEFINED, and HttpRequestLine.RequestLineExactly says for which lines.
- HttpParser.DoContent: a negative Content-Length and a body ending at the last byte of the read buffer write outside the body; the model stops there with UNDEFINED. `atol` is read without the range of `long`.
- HttpConn.HttpConnReader.ReadLevel: a failed recv moves m_read_idx back by one in the source before the connection is closed; the model leaves it.
- HttpServer.ContentLength: a length that is not a number below 2^64 leaves the source's variable unset; the model reports None there.
- HttpServer.Lowered: lower-casing of ASCII letters only, not of the process's locale.
- WebServer.StepKeeps: assumes a clock that does not go back. A handler of the main thread and a worker's process are one step each; in the source a worker left over from before a descriptor was reused can overlap with the main thread on the same http_conn.
- TimedServers.TimedServer: the order of tests in eventLoop is in the events' kinds; signals, the listening descriptor's edge-triggered loop and shutdown are not modelled.
- Reactor.NewConnectionKeeps: accept and ConnectionEstablished are one step, and every loop has set its thread id, so races inside the Connection constructor are not modelled; `epoll_wait` reports any number of channels, without the limit of MAX_EVENTS.
- Servers.Server: the objects' methods are proved one call at a time; interleaving them is what module Reactor does on values.
- EventLoops.NoLostWakeup: the eventfd counter is unbounded.
- BlockQueue.Ring.TimedPop: the length of a timed wait is not modelled.
- PartialWrite.CountersConserved: byte counters are unbounded there; ReplyDelivery.DeliveredExactly says when the source's int is enough.
- Sockets, epoll, eventfd, mmap and stat themselves are replaced by free results as said above.
- `do_request` (login, registration, SQL, file mapping) is a free choice of result code and file size; GET_REQUEST stands for its call.
- MySQL calls, `DestroyPoll`, singletons and the lock wrappers, whose condition variable constructor tests its result the wrong way round: mutexes and semaphores are ideal.
- Reactor mode of TinyWebServer: the flags `improv` and `timer_flag` are set in a racy order and have no clean property.
- The log's files and formatting, `block_queue::front`, and the second and third heading-line accessors of http_server, which do not do what their names say.
- Read and send buffers of cpp_server's connections, the macOS code, the chat server, clients, samples and configuration.
