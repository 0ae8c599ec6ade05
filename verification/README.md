# Verification of cppws

A Dafny model of the C++ web server cppws, with proofs. `dafny verify dfyconfig.toml` checks everything.

The server is one pipeline. Bytes from a socket are fed to an incremental HTTP/1.1 parser; a complete
request is handed through a bounded queue to worker threads; a worker chooses a route, builds a
response, and hands it back through a second bounded queue and an eventfd; the event loop writes it, a
head from a buffer and a file by sendfile. The project models each part in the form the code gives it
(objects with loops and field updates for the parser, buffer, connection, response builder, router,
queue and event loop; steps over a shared state for what happens between threads) and ties every
method to a function or relation about which the properties are then proved.

| files | part |
|---|---|
| `Wrappers.dfy`, `Bags.dfy`, `Text.dfy`, `Request.dfy` | options, adding up multisets, string search, trimming, case folding, numerals; the request |
| `Parsing.dfy`, `HttpParser.dfy` | the parser as functions, and as the object with its loops |
| `ByteMachine.dfy`, `Segmentation.dfy`, `Contract.dfy` | a byte-at-a-time reference; independence from how the input is cut; exactly when the code as written keeps its contract |
| `Grammar.dfy`, `ParserInvariant.dfy` | what is accepted, printing and reading back, what every parser state means |
| `Session.dfy`, `Buffer.dfy`, `WritePath.dfy`, `FlushFate.dfy`, `Connection.dfy` | the read callback, the byte buffer, the sending side and what kills it, the connection object |
| `Hangup.dfy` | the connection's wakeups, with the client's end of stream among them |
| `WireNames.dfy`, `Accepted.dfy`, `Pages.dfy` | the words and numbers of the wire in literals: tables, accepted and refused requests, limits, responses and error pages as a client reads them |
| `Response.dfy`, `Router.dfy`, `Delivery.dfy` | serialization and framing, route choice, the end of a job up to what the client reads |
| `TaskQueue.dfy`, `Ring.dfy`, `RingProgress.dfy`, `RingQueues.dfy`, `JointRing.dfy` | the blocking queue with its condition variables; loop, workers and both queues together; the ring over the real queues |
| `Descriptors.dfy`, `Listening.dfy`, `EventLoop.dfy`, `WriteEdges.dfy` | ownership of file descriptors; accept rounds; registration and write interest; write events that are due |

## Where code and interface comments disagree

The parser is modelled under two readings. `AsWritten` is the code. `AsDocumented` differs in three
places, where the code does not do what include/http/parser.hpp says:

1. `consume_line` returns the number of bytes of a fragment without line feed (src/http/parser.cpp:89);
   its comment says 0 (include/http/parser.hpp:91-92). As written, the fragment is parsed as a whole line.
2. After an over-long line `feed` reports Complete (src/http/parser.cpp:65, 84-87, 96-99) instead of Error.
3. After any error a further `feed` reports Complete (src/http/parser.cpp:65) instead of Error. Since the
   read callback does not reset a failed parser (src/main.cpp:98-106), the next bytes of that connection
   are submitted as a request.

The properties of the contract are proved for `AsDocumented`. For `AsWritten` the project proves exactly
when a caller gets what the contract promises, on the bytes so far and on whatever comes next: when every
line the parser takes is whole and within the limit (`KeepsContractIff`), and over chunks when every chunk
up to the one that settles the parser is cut at line ends (`KeepsContractOverIff`). It gives inputs on which
the code breaks its contract, one on which a single result comes out right by luck (`RightByLuck`), and
shows that whole requests fed in one piece are parsed correctly.

Other findings. Each has its exact condition:

- The ring of queues can wedge exactly when more requests can be outstanding than one queue holds
  (`NeverStuckIff`); the loop then blocks in a push only it could make room for.
- The join at shutdown ends on every schedule exactly when what is outstanding fits the response queue
  (`JoinEndsIff`); what is pending then is never sent (`ShutdownDrains`).
- `handle_event` throws out of `run` exactly when an accept round fails (accept4 with anything but EAGAIN and
  ECONNABORTED, or epoll on the new number), or an event gets to the write branch for a connection that is
  dead, or whose flush meets a fatal answer while bytes are owed (`ItemThrowsIff`, `ThrowsIff`,
  `FlushKillsIff`); a batch throws exactly when it meets such an item (`BatchThrowsIff`, reached in
  `ThrowsInPractice`). The flush of a dead connection also revives it, exactly when nothing is buffered
  (`UnguardedRevives`). The event loop is modelled as written and with an is-alive check around the flush
  and the mask change, with which only accept rounds throw (`GuardedBatch`).
- ECONNABORTED ends an accept round: clients behind the aborted one are left in the backlog without an event,
  exactly then (`RoundStrandsIff`), until another client arrives (`StrandedStays`).
- An accepted client is served exactly when its descriptor number was not held by any connection when the
  batch began, those that die in the batch included, nor given out earlier in the batch; otherwise it is
  lost for good (`ServedIff`, `ClosedForGood`, reached in `LostInPractice`).
- A second response queued while a file is being sent lands inside that file (`EnqueueAppendsIff`), and a
  second file replaces the rest of the first (`BeginSendfileKeepsIff`), so one response in flight is a
  precondition of the delivery theorems.
- A handler that sets a string body and a file announces fewer bytes than are sent (`FileFraming`).
- A response with an empty string body and no length of its own announces none (`StringBodyFraming`); by
  section 6.3 of RFC 9112 its body then ends with the connection, also on one that is kept alive.
- A run leaks a descriptor exactly when a job whose response holds a file opens another, assigns the
  response anew, as `resp = make_error(..)` does, or throws (`DroppedIff`).
- A hangup, and with it the client's end of stream, closes the connection before anything is read: exactly
  the messages read to their last byte before are answered (`SubmittedIsHeard`, `FinWithRequestIsLost`).
- A file that became shorter than announced stalls its connection for good, owing bytes with no write event
  due; all others that owe bytes have one due (`OwingMeansEventDue`, `StalledForGood`, `CanBeDoneIff`).
- The loop closes no connection of its own accord, although include/http/parser.hpp:21 says "send 400 and
  close": one that is not to be kept alive stays open until the client hangs up (`EventClosesIff`,
  `NotKeptAliveStaysOpen`).

## Model

| member | source | states |
|---|---|---|
| HttpParsing.HttpParser.Feed | src/http/parser.cpp:31-66 | the object's loop leaves exactly the parser and verdict of the specification, and in the documented reading those of the byte machine |
| HttpParsing.HttpParser.ConsumeLine | src/http/parser.cpp:78-107 | the object moves exactly one line or fragment into the line buffer |
| HttpParsing.HttpParser.ParseHeaderLine | src/http/parser.cpp:147-186 | the object reads a header line, or ends the headers, as specified |
| HttpParsing.Trim | src/http/parser.cpp:14-18 | the two shrinking loops compute the trimmed view |
| HttpParsing.ToLower | src/http/parser.cpp:21-25 | the loop lower-cases every character |
| Text.TrimmedSplits | src/http/parser.cpp:14-18 | a string is blanks, its trimmed value without blanks at its ends, and blanks |
| Text.TrimmedPadded | src/http/parser.cpp:14-18 | trimming removes exactly the blanks around a value |
| Request.SizeRoundTrip | src/http/request.cpp:59-67 | a printed length reads back as itself below 2^64 and as 0 from there on |
| WireNames.BlanksAre | src/http/parser.cpp:14-18 | what trimming removes are spaces and tabs |
| WireNames.CaseFolding | src/http/parser.cpp:21-25 | capitals become the letters 32 codes further on, nothing else changes |
| WireNames.LineEnds | src/http/parser.cpp:101-104 | a line loses its line feed and one carriage return before it |
| WireNames.HeaderLineMeans | src/http/parser.cpp:166-185 | a name in any case, a colon, blanks, a value, blanks: the value under the folded name |
| WireNames.MethodNames | src/http/request.cpp:9-32 | method tokens in both directions, from a table of literals |
| WireNames.SizeReads | src/http/request.cpp:59-67 | leading digits are the size, if below 2^64, whatever follows them |
| WireNames.LengthIs | src/http/request.cpp:59-67 | the announced length is what the "content-length" field spells |
| WireNames.KeepAliveIs | src/http/request.cpp:46-57 | 1.1 is kept alive unless "connection" is "close", other versions only if it is "keep-alive" |
| WireNames.LookupFoldsCase | src/http/request.cpp:34-44 | fields are found under their name in any case |
| Accepted.AcceptedLine | src/http/parser.cpp:109-145 | an accepted input starts with a known token, a target and one of two versions, one space between each |
| Accepted.AcceptedBody | src/http/parser.cpp:147-199 | the body of an accepted request has exactly the length its "content-length" field spells, and none without one |
| Accepted.NoSpace | src/http/parser.cpp:117-121 | the error text of a line without a space |
| Accepted.OneSpace | src/http/parser.cpp:123-127 | the error text of a line with one space |
| Accepted.TwoSpaces | src/http/parser.cpp:129-144 | an unknown method, an unsupported version, or on to the headers |
| Accepted.HeaderLineOrRefusal | src/http/parser.cpp:166-185 | the 101st header and one without a colon are refused with their texts, all others are added |
| Accepted.BodyLimit | src/http/parser.cpp:147-164 | at the empty line: more than 8 MiB refused with its text, otherwise that many bytes are the body |
| Accepted.LineLimit | src/http/parser.cpp:82-99 | lines of more than 8192 bytes are refused with their text, finished or not, and no shorter ones |
| Accepted.PostOfThreeBytes | include/http/request.hpp:11-16 | a request with a body, byte by byte |
| ByteMachine.FeedIsRun | src/http/parser.cpp:31-107 | line searches and block copies compute what the one-byte-at-a-time machine computes, limits included |
| Segmentation.ChunkIndependence | src/http/parser.cpp:31-66 | any cut of the input gives the same verdict, error text and request as one feed |
| Segmentation.ErrorsStayErrors | include/http/parser.hpp:18-21 | after an error every further feed reports the same error |
| Segmentation.SelfDelimiting | src/http/parser.cpp:31-66 | exactly one point of the input settles the parser; before it every prefix needs more, after it nothing matters |
| Segmentation.MessageEndIsUnique | src/http/parser.cpp:31-66 | no whole message is a proper prefix of another |
| Segmentation.AsWrittenIffWholeLines | src/http/parser.cpp:78-107 | the code as written equals its contract exactly on bytes whose lines are all terminated and within the limit |
| Segmentation.AsWrittenChunks | src/http/parser.cpp:31-107 | the whole parser, half-read line included, is the same in both readings after every chunk exactly when every chunk is cut at line ends; then the result is that of one documented feed |
| Contracts.KeepsContractIff | src/http/parser.cpp:31-107 | the verdict on the data is the documented one, and so are verdict, error and request after any further bytes, exactly when every line the parser takes is whole and fits |
| Contracts.KeepsContractOverIff | src/http/parser.cpp:31-107 | the same after each of a sequence of chunks, exactly when every chunk up to the settling one is cut at line ends |
| Contracts.RightByLuck | src/http/parser.cpp:82-107 | a header cut off before its line end, on which the single result is right all the same |
| Segmentation.AsWrittenRefusesAFragment | src/http/parser.cpp:82-90 | an input on which a fragment is refused as a whole line |
| Segmentation.AsWrittenAcceptsOverlongLine | src/http/parser.cpp:84-87 | every over-long line, finished or not, is answered Complete by the code as written and Error by its contract |
| Segmentation.AsWrittenForgetsErrors | src/http/parser.cpp:65 | after any error the code as written answers Complete to whatever comes next |
| Grammar.AcceptsIffDerives | src/http/parser.cpp:109-199 | the parser accepts exactly the inputs that are a request line, header lines, an empty line, a body of the announced length and a rest, and returns the request they spell |
| Grammar.AsWrittenAcceptsWholeRequests | src/http/parser.cpp:31-66 | in one piece, the code as written returns every request its contract accepts |
| Grammar.RequestRoundTrip | include/http/request.hpp:11-16 | a printable request, printed with its headers in any order, is read back as itself, in both readings |
| ParserInvariant.EveryStateAccounts | src/http/parser.cpp:109-199 | in every reachable state, failed ones included, at most 100 headers, the last-wins fold of the lines read; received and missing body add up to the announced length within the limit; a completed body has that length |
| Sessions.AwaitingClient | src/main.cpp:89-137 | for a client that awaits its responses the submitted requests are those of its messages in order, however each was cut |
| Sessions.AwaitingClientAsWritten | src/main.cpp:89-137 | the same client under the code as written, when every piece ends at a line end |
| Sessions.MalformedMessage | src/main.cpp:98-106 | however a malformed message is cut, it is rejected once, with the error text of one feed of the whole; nothing is submitted and the connection is not to be kept alive |
| Sessions.RejectedAgain | src/main.cpp:98-106 | under the contract every further piece is rejected again with the same text |
| Sessions.AfterRejection | src/main.cpp:98-106 | after a rejected parse the code as written submits the next bytes as a request |
| Buffers.Buffer.Compact | src/net/buffer.cpp:47-60 | the overlapping move leaves the unread bytes unchanged and recovers the dead zone |
| Buffers.Buffer.Reserve | src/net/buffer.cpp:62-69 | growing keeps the unread bytes |
| Buffers.Buffer.Append | src/net/connection.cpp:110-120 | making room ends for every length and the bytes are appended exactly; the array is replaced only when they do not fit, and doubled no more often than needed |
| Buffers.Doubled | src/net/connection.cpp:113-118 | doubling reaches room for every length, and a grown buffer is at least half full |
| Buffers.FirstInFirstOut | include/net/buffer.hpp:4-22 | over any operations, bytes taken then bytes left are the bytes written |
| Buffers.Perform | src/net/buffer.cpp:13-73 | the array with its cursors behaves as that queue over any sequence of operations |
| WritePath.FlushKeepsOrder | src/net/connection.cpp:127-196 | for any kernel answers the wire grows along head then file; alive, nothing is lost and the result is what is owed; 0 means everything was sent and the descriptor closed |
| WritePath.FlushAllKeepsOrder | src/net/connection.cpp:127-196 | the same over any number of flushes: sent plus owed is the whole, offset plus remainder the file size, a last 0 means all sent and the descriptor closed, and death closes it too |
| FlushFates.FlushKillsIff | src/net/connection.cpp:127-180 | a flush kills a live connection exactly when a fatal answer is met while bytes of the head, or after it of the file, are still owed, told from the answers and the lengths |
| WritePath.OneResponseInFlight | src/net/connection.cpp:110-196 | one response on an idle connection reaches the wire as head then file, with the same account of what is owed and its descriptor closed once, whether it is sent or dies |
| WritePath.EnqueueAppendsIff | src/net/connection.cpp:110-120 | queued bytes go to the end, for all bytes, exactly when no file bytes are outstanding |
| WritePath.BeginSendfileKeepsIff | src/net/connection.cpp:122-125 | a new file keeps what was promised exactly when the old one is finished |
| WritePath.FlushRevivesClosed | src/net/connection.cpp:186-192 | flushing a dead connection returns 0 and revives it exactly when nothing is buffered |
| Connections.Connection.FlushWrite | src/net/connection.cpp:127-196 | the object's two loops compute the specified flush |
| Connections.Connection.EnqueueWrite | src/net/connection.cpp:110-120 | the data is appended to what is unsent and nothing else changes |
| Connections.Connection.OnClosed | src/net/connection.cpp:99-106 | closing happens once and closes the transfer's descriptor |
| Connections.Connection.constructor | src/net/connection.cpp:41-44 | a new connection is open and idle with a clean read buffer and a fresh parser |
| Connections.Connection.OnReadable | src/net/connection.cpp:52-86 | from a clean buffer, which it leaves behind, the callback sees every piece in order, the buffer is never found full, and only end of stream or an error closes; a closed connection reads nothing |
| Connections.PiecesDeliver | src/net/connection.cpp:52-86 | the pieces are the delivered bytes, once and in order |
| Connections.SegmentationIndependence | src/main.cpp:89-137 | from recv to submit: the same requests for every way the stream is split over wakeups, recv calls and buffer room |
| Connections.PiecesFit | src/net/connection.cpp:55-66 | no piece is larger than the room in the buffer |
| Connections.ReadEndsClosedIff | src/net/connection.cpp:68-85 | reading ends closed exactly when the first answer that ends it is end of stream or an error |
| Connections.DeliveredIs | src/net/connection.cpp:65-85 | delivered are the bytes of all answers before the one that ends the loop |
| Connections.RejectionIndependence | src/main.cpp:98-106 | from recv on: after the requests before it, a malformed message is rejected once for every split of the stream |
| Connections.RefuseClient | src/main.cpp:98-106 | the same on the object from its construction on |
| Connections.ServeClient | src/main.cpp:86-136 | the object from its construction on: over any wakeups it submits the requests of the messages, in order, and rejects nothing |
| Hangups.HandleWakeup | src/core/event_loop.cpp:157-164 | a hangup closes unread; otherwise every piece reaches the parser |
| Hangups.HeardIs | src/core/event_loop.cpp:157-164 | what is read: all readable wakeups up to and in the one that closes the connection, unless that is a hangup |
| Hangups.SubmittedIsHeard | src/core/event_loop.cpp:157-164 | submitted are the requests of exactly the messages read to their last byte before a hangup is seen or reading ends |
| Hangups.ServeUntilHangup | src/core/event_loop.cpp:157-164 | the same on the object from its construction on |
| Hangups.FinWithRequestIsLost | include/net/epoll.hpp:43-45 | a request that arrives together with the end of stream is never submitted |
| Responses.HttpResponse.Serialize | src/http/response.cpp:44-79 | the loop emits the specified text for whatever order the map offers |
| Responses.ResponseRoundTrip | src/http/response.cpp:44-79 | the text reads back as status line, headers and body, the length added exactly when the body is non-empty and unannounced |
| WireNames.StatusLines | src/http/response.cpp:50-55 | the status line is "HTTP/1.1", code and reason, from a table of literals |
| Pages.ResponseText | src/http/response.cpp:44-79 | the whole text of a response in literals, for any order of its fields |
| Pages.ResponseReads | src/http/response.cpp:44-79 | status line, fields and body as a client reads them, in literals |
| Pages.ErrorPage | src/http/response.cpp:90-106 | every error page reads back with the status line of its code, code and reason and detail as text, and the length of that |
| Pages.RefusalPage | src/main.cpp:98-106 | a malformed message is answered with "400 Bad Request" and the parser's error text |
| Pages.NoRouteReads | src/main.cpp:123-134 | a request without a route is answered with "404 Not Found" and the connection field |
| Pages.HandledReads | src/main.cpp:121-134 | a handler's response is read as it was made, with the connection field |
| Responses.StatusReadsBack | src/http/response.cpp:50-55 | the status can be recovered from the status line |
| Responses.StringBodyFraming | src/http/response.cpp:66-77 | an automatic length is the number of bytes after the head; an empty body has none |
| Responses.FileFraming | src/main.cpp:130-134 | with the descriptor taken first, the announced length is what follows exactly when there is no string body |
| Responses.BodyAndFileMisframe | src/http/response.cpp:81-88 | a body and a file together are announced short |
| Responses.ErrorResponseFraming | src/http/response.cpp:90-106 | every error page is announced exactly |
| Delivery.FinishTask | src/main.cpp:128-134 | what is posted is the text of the response without its descriptor, the descriptor and the size; the response keeps no descriptor |
| Delivery.FileResponseDelivered | src/main.cpp:121-135 | what the client reads once a file response is sent: head, then a body ending with the file, framed exactly when no string body was set |
| Routing.Router.Dispatch | src/http/router.cpp:15-47 | the two scans find the first exact match, else the longest prefix registered first |
| Routing.ChoiceMeans | src/http/router.cpp:15-47 | what is chosen, in terms of method and paths: nothing exactly when nothing fits, the first exact route, else the longest fitting prefix registered first |
| Routing.ChoiceIsUnique | src/http/router.cpp:15-47 | the priorities leave exactly one choice |
| Routing.TiesAreDuplicates | src/http/router.cpp:28-37 | equally good matches are the same method, path and kind |
| Routing.OrderIsIrrelevant | include/http/router.hpp:4-17 | without duplicates the order of registration never changes the chosen route |
| Routing.DuplicatesMakeOrderMatter | src/http/router.cpp:28-37 | the same route registered twice does make the order matter |
| TaskQueues.TaskQueue.Push | include/core/task_queue.hpp:54-61 | one turn of push is the specified step and keeps the invariant |
| TaskQueues.TaskQueue.Pop | include/core/task_queue.hpp:76-84 | one turn of pop is the specified step and keeps the invariant |
| TaskQueues.NextKeepsInv | include/core/task_queue.hpp:54-105 | every step keeps order, bound and no lost wakeup, spurious wakeups and non-blocking calls included |
| TaskQueues.RunsKeepInv | include/core/task_queue.hpp:54-105 | in every interleaving the removed items are a prefix of the accepted ones, within the bound, and no wakeup is lost |
| TaskQueues.ClosedIsFinal | include/core/task_queue.hpp:98-105 | after close nothing is accepted and nobody sleeps |
| TaskQueues.BlockedPopProceeds | include/core/task_queue.hpp:76-84 | while a thread is blocked in pop and its wait condition holds, some woken thread's turn gets it out, with the front item, or with nothing on a closed empty queue |
| TaskQueues.BlockedPushProceeds | include/core/task_queue.hpp:54-61 | the same for push beside a free slot or on a closed queue |
| TaskQueues.PopTurnMeans | include/core/task_queue.hpp:76-84 | what pop returns, and that its thread is then asleep or gone, all others staying where they were |
| TaskQueues.PushTurnMeans | include/core/task_queue.hpp:54-61 | the same for push, with the item kept by a sleeping thread |
| TaskQueues.OthersMean | include/core/task_queue.hpp:64-105 | try_push, try_pop and close |
| TaskQueues.NothingMeansClosedAndEmpty | include/core/task_queue.hpp:74-84 | a blocking pop yields nothing exactly when closed and empty |
| Ring.StepKeepsInv | src/core/event_loop.cpp:45-79 | every step of loop and workers keeps all ring invariants |
| Ring.ReachableInv | src/core/event_loop.cpp:70-116 | in every reachable state no response is forgotten across the edge-triggered eventfd; every accepted job is queued, running or executed once; every executed or refused one has its answer posting, pending or delivered once, or threw |
| RingProgress.ProgressIsBounded | src/core/event_loop.cpp:45-136 | no run makes progress more often than a measure of its first state |
| RingProgress.PushNeverBlocks | include/core/task_queue.hpp:54-61 | with at most a queue's capacity outstanding neither loop nor worker is ever blocked in push |
| RingProgress.QuietMeansAnswered | src/core/event_loop.cpp:105-136 | then progress is possible until nothing is outstanding, and the answers delivered are those of all accepted and refused requests but the jobs that threw |
| RingProgress.NeverStuckIff | src/core/event_loop.cpp:70-79 | the ring never wedges if and only if at most a capacity of requests may be outstanding |
| RingProgress.FullRingIff | src/main.cpp:121-135 | the wedge with both queues full and every worker blocked is reachable exactly from 2C + W + 1 requests on |
| RingProgress.JoinEndsIff | src/core/event_loop.cpp:63-65 | the join ends on every schedule exactly when what is outstanding fits the response queue |
| RingProgress.StopIsSeen | src/core/event_loop.cpp:48-63 | after the stop signal the loop waits for events at most once more |
| RingProgress.ShutdownDrains | src/core/thread_pool.cpp:35-71 | after shutdown all workers have exited, no job is left, and the executed jobs are the accepted ones, failing jobs included; the answers not delivered are those still pending |
| RingProgress.ReadingLastLosesAResponse | src/core/event_loop.cpp:105-116 | why the counter is read before the queue is emptied |
| RingQueues.SomePopHappens | include/core/task_queue.hpp:76-84 | whenever a worker can pop or leave in the ring, some worker at pop, arriving or woken, can on the monitor |
| RingQueues.SubmitHappens | include/core/task_queue.hpp:54-61 | whenever the loop can submit in the ring, it can push on the monitor |
| RingQueues.SomePostHappens | src/core/event_loop.cpp:70-73 | the same for posting a response, by a worker or the loop |
| RingQueues.PopIsAStep | include/core/task_queue.hpp:76-84 | a pop that leaves the monitor is a step of the ring and keeps the two in agreement |
| RingQueues.SubmitIsAStep | include/core/task_queue.hpp:54-61 | so is an accepted submit |
| RingQueues.PostIsAStep | src/core/event_loop.cpp:70-73 | so is an accepted response |
| JointRings.MoveKeepsAgree | include/core/task_queue.hpp:54-105 | every move of every thread over the real queues, sleeping and spurious wakeups included, is a step of the ring or none, and keeps the queues in agreement with it |
| JointRings.PathIsRun | include/core/task_queue.hpp:54-105 | every run over the real queues is a run of the ring |
| JointRings.RunIsPath | include/core/task_queue.hpp:54-105 | every run of the ring is one over the real queues |
| JointRings.AdvancesIff | include/core/task_queue.hpp:54-105 | some thread can do more than sleep or stir exactly when the ring can make progress |
| JointRings.JointNeverStuckIff | src/core/event_loop.cpp:70-79 | over the real queues too the server never wedges if and only if at most a capacity of requests may be outstanding |
| JointRings.JointJoinEndsIff | src/core/event_loop.cpp:63-65 | over the real queues too the join ends on every schedule exactly when what is outstanding fits |
| Descriptors.StepMoves | src/core/event_loop.cpp:105-136 | every step moves a descriptor from one place to exactly one other |
| Descriptors.ExactlyOneOwner | include/http/response.hpp:69-77 | on every run each descriptor has one owner, or was closed once, or was dropped once |
| Descriptors.LeftAtStop | src/core/event_loop.cpp:63-65 | when run has returned, what is neither closed nor dropped is in the pending writes or the transfer of a connection they hold |
| Descriptors.TransferLeftAtStop | src/core/event_loop.cpp:63-65 | a run that ends with a half-sent file open and a second one pending |
| Descriptors.DroppedIff | src/http/response.cpp:81-88 | on every run, nothing was dropped exactly when no job whose response held a file opened another, assigned the response anew, or threw |
| Descriptors.OwnedOrClosed | include/http/response.hpp:69-77 | on such runs each descriptor has one owner or was closed once |
| Descriptors.RightConnection | src/core/event_loop.cpp:114-129 | on every run a connection holds, and closes, only descriptors of responses posted for it |
| Descriptors.HangUpCloses | src/net/connection.cpp:99-106 | hanging up ends the transfer and closes its descriptor |
| Descriptors.WriteEventEnds | src/net/connection.cpp:157-192 | a write event kills its connection exactly as said, and for some answers ends the transfer with everything sent |
| Descriptors.SendfileHandle.Assign | src/net/connection.cpp:28-37 | move assignment closes the replaced descriptor once and takes the other |
| EventLoops.EventLoop.RunOnce | src/core/event_loop.cpp:45-61 | one iteration handles its batch as specified and leaves only live, watched connections |
| EventLoops.EventLoop.HandleReady | src/core/event_loop.cpp:138-173 | the handler as written, or guarded, as specified |
| EventLoops.ThrowsIff | src/core/event_loop.cpp:149-173 | for a connection, handle_event throws exactly when the event gets to the write branch for a connection that is dead or meets a fatal answer while it owes bytes; guarded it never throws and otherwise does the same |
| EventLoops.AcceptRoundIs | src/core/event_loop.cpp:83-103 | an accept round throws exactly when accept4 fails, or epoll to watch a client; one that returns has taken in the clients before its end |
| EventLoops.UnwatchedIsEntered | src/core/event_loop.cpp:95-96 | a client epoll refuses to watch is left in the map unwatched when the round throws |
| EventLoops.ItemThrowsIff | src/core/event_loop.cpp:138-173 | what of a batch throws: a failing accept round, guard or no guard, and without it such an event |
| EventLoops.BatchThrowsIff | src/core/event_loop.cpp:51-53 | a batch throws exactly when it meets such an item |
| EventLoops.ThrowsInPractice | src/core/event_loop.cpp:166-172 | a batch, reached from the start, that throws and brings a closed connection back |
| EventLoops.DrainKeepsInv | src/core/event_loop.cpp:114-135 | draining a response never throws and keeps the books |
| EventLoops.GuardedBatch | src/core/event_loop.cpp:51-53 | guarded a batch throws exactly from an accept round that fails; a batch that does not throw unguarded is handled the same |
| EventLoops.ClosedIsFinal | src/net/connection.cpp:99-106 | guarded, no handler brings a closed connection back |
| EventLoops.ClosedForGood | src/net/connection.cpp:99-106 | guarded, an id without a live connection has none for the rest of the batch and of the run |
| EventLoops.UnguardedRevives | src/core/event_loop.cpp:166-172 | unguarded, a write event for a dead connection throws, and revives it exactly when nothing is buffered |
| EventLoops.ServedIff | src/core/event_loop.cpp:83-103 | a client accepted in a batch is served exactly when its number was not held when the batch began nor given out earlier in it |
| EventLoops.LostInPractice | src/core/event_loop.cpp:83-103 | a batch, reached from the start, that loses a client |
| EventLoops.MaskAfterEvent | src/core/event_loop.cpp:166-172 | after its write event a live connection is watched for writing exactly while it owes bytes |
| EventLoops.MaskAfterDrain | src/core/event_loop.cpp:131-134 | draining sets EPOLLOUT when bytes stay owed, and else leaves the mask as it was |
| EventLoops.MaskAfterAccept | src/core/event_loop.cpp:88-98 | a new client is not watched for writing |
| EventLoops.EventTouchesItsOwn | src/core/event_loop.cpp:138-173 | an event touches no other connection and no other mask |
| EventLoops.DrainTouchesItsOwn | src/core/event_loop.cpp:115-135 | draining a response touches no other connection and no other mask |
| EventLoops.EventSends | src/core/event_loop.cpp:162-168 | what a surviving connection has sent, still owes, and knows about keep-alive after an event |
| EventLoops.DrainSends | src/core/event_loop.cpp:114-131 | a drained response on an idle connection reaches the wire as text then file |
| EventLoops.EventClosesIff | src/core/event_loop.cpp:157-173 | an event closes a live connection exactly by a hangup, the end of reading, or a fatal answer while bytes are owed |
| EventLoops.DrainClosesIff | src/core/event_loop.cpp:114-135 | a drained response closes its connection exactly when its flush meets a fatal answer with bytes owed |
| EventLoops.NotKeptAliveStaysOpen | src/net/connection.cpp:186-192 | a connection that owes nothing stays open under every other event, kept alive or not |
| EventLoops.EveryRun | src/core/event_loop.cpp:45-61 | the guarded run throws exactly when an accept round fails; as long as it does not, epoll watches exactly the live connections, those owing bytes ask for write events, and after an iteration only live ones are held |
| FlushFates.CanBeDoneIff | src/net/connection.cpp:161-184 | what is owed can be sent, for some answers, exactly when the file still holds what was promised |
| WriteEdges.OwingMeansEventDue | src/core/event_loop.cpp:131-134 | after every iteration a live connection that owes bytes its file still holds has a write event due |
| WriteEdges.StalledForGood | src/net/connection.cpp:181-183 | a flush that leaves bytes owed without blocking has a file that became shorter, and nothing will ever let it finish |
| Listening.RoundStrandsIff | src/core/event_loop.cpp:84-86 | an accept round leaves a client waiting without an event exactly when an aborted connection was ahead of it |
| Listening.StrandedInPractice | src/core/event_loop.cpp:84-86 | a run, from an empty backlog, that strands a client |
| Listening.NoneStranded | src/core/event_loop.cpp:84-86 | when nobody aborts, nobody is ever left waiting without an event |

## Left out

- Ring.Apply: the eventfd write is taken to succeed; at the counter's maximum it would not.
- EventLoops.HandleEvent: what happens after an exception leaves `run` is not modelled; unwinding destroys the event loop, whose shutdown joins the workers, so by JoinEndsIff the process may not end.
- EventLoops.EventLoop: connections are values in the map, so sharing of a connection object between the map and a queued response is modelled by its id only.
- Sessions.AwaitingClient: bytes that follow a complete request in the same recv are discarded by the callback, so pipelining clients are outside its precondition.
- Responses.ReadHead: the reader has no limit on lines or header count.
- Text.Lower: the C locale; characters other than A-Z are unchanged.
- Descriptors.Apply: response objects are not copied; a handler works on one response.
- The thread pool has no object of its own: its workers, shutdown and join are steps of the ring.
- Sockets, epoll and eventfd: represented by the answers given to the handlers, accept4's errors among them. An epoll_wait that fails throws out of `run` between batches, and memory exhaustion anywhere; neither is modelled.
- Filesystem access of the static file handler and MIME lookup: only "a descriptor and a size" remains.
- Handlers: opaque; a job may throw.
- `on_writable`, timeouts, logging, redirects and the choice of the number of workers: not part of the properties.
