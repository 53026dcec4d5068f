# csi-http server: a verified model

This project models the server half of csi-http, a C++11 HTTP library built on boost::asio and Joyent's
http_parser, and proves what it does over whole runs. `dafny verify dfyconfig.toml` checks everything.

| module (file) | models |
|---|---|
| `Replies` (Reply.dfy) | the reply object: `create`, `add`, `reset`, `to_buffers` |
| `ResponseParser` (Parser.dfy) | a client: a reference response parser after sections 3 and 3.3.3 of RFC 7230 |
| `Framing` (Framing.dfy) | when a printed reply delimits itself |
| `Connection` (Connection.dfy) | the connection as an event machine on values |
| `HttpConnections` (HttpConnection.dfy) | the connection object; every member function is proved against the machine |
| `Runs` (Runs.dfy) | runs: the token of control, the null stream, the timer, how a run ends |
| `Wire` (Wire.dfy) | runs: the octets sent and the replies they are read as |
| `Ledger` (Ledger.dfy) | runs: which requests are answered |
| `UriPatterns` (Uri.dfy) | the wildcard patterns, their languages and containment |
| `Routing` (Server.dfy) | first-match dispatch and the per-route counters |
| `Requests` (Request.dfy) | header lookup and the id/uuid cache |
| `Base`, `Decimal` | shared vocabulary, the `%d` conversion and its reader |

The headline results are `Ledger.StreamAnswersEveryMessage`, `Wire.StreamDecodes`, `Wire.FitsByFill`,
`Wire.CloseAgreement`, `Wire.CloseIsHeard`, `Runs.TokenIsConserved`, `Runs.TimeoutQuiesces`, `UriPatterns.ContainmentExact` and
`Routing.DispatchConserves`.

## How the connection is modelled

A connection lives through its outstanding completions: pending reads and writes, timer waits (running, cancelled,
or run out but not yet delivered), posted reply-done calls, and request handlers that owe their call back. The
environment chooses which completion is delivered next and how it went, so a theorem about runs holds for every
schedule. A failed write may have sent any prefix of its octets. `cancel` and `expires_from_now` turn a running wait
into an aborted one; a wait that has run out can no longer be cancelled. One io_service thread runs the handlers.

http_parser itself is the environment's: a chunk is any sequence of the callbacks of connection.cpp and a verdict.
A request handler either fills the reply and calls `create`, or calls `wait_for_async_reply` and later fills the
reply and calls `notify_async_reply_done` once, as the sample server does. A fill is any list of headers, a body,
any arguments of `create`, and any headers added behind it. One character stands for one octet.

## Where the code and what one would expect of it part

* A reply made before any `on_message_begin` uses a stream that nobody has allocated (reply.h declares no
  constructor, and only `reset` sets the stream). The model marks such a step as a fault and stops;
  `Runs.FaultExact` says exactly when it happens.
* Two requests in one chunk get one reply, and a chunk without a message behind a finished exchange is served again,
  because `_request_complete` is cleared only by the next `on_message_begin`. `Ledger.AnswersKeepStepExact` gives the
  exact condition, `Ledger.PipelinedRequestIsLost` and `Ledger.EmptyChunkIsServed` the witnesses.
* `create` has no guard for statuses or request methods without a body, casts the size to `int`, and pads the header
  list with nameless headers when asked to keep more than there are. `Wire.FitsByFill` gives the exact condition.
* `get_no_of_requests` also adds routes without a final "#" that happen to match the text of a query ending in "#";
  see `Routing.QuerySumsContainingRoutes` and `UriPatterns.MatchedButNotContained`.
* `request_uuid` hands out the nil uuid when the header spells it (`Requests.UuidIsNilExactly`).
* The first read of a connection has no timeout (`Runs.ReadTimeoutExact`).

## Model

The parser callbacks and the base constructor are modelled after their bodies in connection.cpp and cited by their
declarations in connection.h.

| member | source | states |
|---|---|---|
| Ledger.StreamAnswersEveryMessage | csi_http/server/http_connection.cpp:52-181 | whenever a read is pending, the octets sent so far are read as exactly one reply per completed message and refused chunk, in order, with nothing left over |
| Wire.StreamDecodes | csi_http/server/http_connection.cpp:57-181 | the octets of any run are read as the delivered replies in order; the rest is what a failed write had sent |
| Wire.NothingLeftOver | csi_http/server/http_connection.cpp:143-181 | while no write has failed nothing is left over and at most one reply is on its way |
| Wire.AnswerIsItsFill | csi_http/server/reply.cpp:278-314 | the message a client hears is made of its own handler's headers, body and status, a length header, and the close header if added; nothing of another reply |
| Wire.FitsByFill | csi_http/server/reply.cpp:278-307 | a handler's reply delimits itself if and only if its parts pass a check made before `create` |
| Wire.FitsExact | csi_http/server/reply.cpp:111-147 | a fill fits if and only if its print, followed by anything, is read back as itself and that |
| Wire.PaddedHeadersNeverFit | csi_http/server/reply.cpp:287-296 | `create` asked to keep more headers than there are makes a reply no client accepts |
| Wire.StockRepliesFit | csi_http/server/reply.cpp:285-291 | the 400 and 404 replies are self-delimiting for any request method and status |
| Wire.BuffersAreStable | csi_http/server/reply.h:35-38 | while a write is pending its octets are those of the reply object |
| Wire.ReplyIsUntouchedWhileWriting | csi_http/server/reply.h:35-38 | reply, method and keep-alive flag do not move between send_reply and the matching handle_write |
| Wire.ReplyIsEmptyWhileReading | csi_http/server/http_connection.cpp:165-175 | while a read is pending the reply has no headers and no content |
| Wire.CloseAgreement | csi_http/server/http_connection.cpp:57-64 | the octets of a written reply are the handler's own reply, with "Connection: close" behind its headers if and only if no read is ever started afterwards |
| Wire.CloseIsHeard | csi_http/server/http_connection.cpp:57-64 | a client that reads the stream hears "Connection: close" at the end of the last reply's headers if and only if no read follows, and otherwise the handler's headers alone |
| Wire.ReadsAgainExact | csi_http/server/http_connection.cpp:165-180 | after a written reply a read is started if and only if keep-alive was set |
| Wire.RefusedChunkGets400 | csi_http/server/http_connection.cpp:97-103 | a refused chunk begins exactly one reply: status 400, no body |
| Wire.RunIsSound | csi_http/server/http_connection.cpp:57-181 | the invariant behind the stream theorems holds in every reachable state |
| Runs.TokenIsConserved | csi_http/server/http_connection.cpp:52-181 | reads, writes, posted and owed calls add up to one until the first ending step and to zero ever after |
| Runs.TokenNeverReturns | csi_http/server/http_connection.cpp:137-140 | an ended connection never starts anything again |
| Runs.StepKeepsGood | csi_http/server/http_connection.cpp:80-214 | every step keeps the connection invariant and says exactly when the token is lost and when the null stream is used |
| Runs.FaultExact | csi_http/server/http_connection.cpp:97-103 | a run uses the null stream exactly when it makes a reply before any message has begun |
| Runs.KeepAliveFollowsParser | csi_http/server/connection.h:53-53 | whatever happened in between, keep-alive is the last complete message's, and the request counts as complete until the next one begins |
| Runs.VerbFollowsParser | csi_http/server/connection.h:51-51 | the method is the one the parser reported last |
| Runs.KeepAliveStartsOff | csi_http/server/connection.h:67-68 | before the first complete message keep-alive and complete are off |
| Runs.StreamIsNullUntilMessageBegins | csi_http/server/reply.h:40-46 | the content stream is null exactly until the first on_message_begin |
| Runs.TimerDiscipline | csi_http/server/http_connection.cpp:66-72 | at most one wait runs, none during a write, and an aborted wait, read or write changes nothing else |
| Runs.WaitsAreConserved | csi_http/server/http_connection.cpp:66-72 | no wait is lost by cancelling or re-arming: each one started is delivered once |
| Runs.EndLeavesNoRunningWait | csi_http/server/http_connection.cpp:88-89 | after a read error or the last write no wait runs, ever |
| Runs.ReadTimeoutExact | csi_http/server/http_connection.cpp:124-130 | a pending read on an open socket has a timeout exactly when data has arrived before |
| Runs.TimedSinceRead | csi_http/server/http_connection.cpp:112-130 | after the first data, every wait for data or for a handler is timed |
| Runs.ShutStepDecreases | csi_http/server/http_connection.cpp:196-207 | with the socket shut every step lowers a measure of what is pending |
| Runs.TimeoutQuiesces | csi_http/server/http_connection.cpp:196-207 | after a timeout the rest of any run is no longer than what was pending allows |
| Runs.StuckExact | csi_http/server/http_connection.cpp:137-140 | a run can go on exactly while something is pending |
| Ledger.RunBalances | csi_http/server/http_connection.cpp:66-78 | every request is answered once, and a waiting handler's reply is sent once per notification |
| Ledger.NothingWrittenWhileOwed | csi_http/server/http_connection.cpp:107-122 | between wait_for_async_reply and the handler's call back nothing is written, whatever the timer does |
| Ledger.AnswersKeepStepExact | csi_http/server/http_connection.cpp:91-131 | answers keep step with messages all along a run if and only if every chunk holds one message at most and none is empty behind a finished one |
| Ledger.OneAnswerPerMessage | csi_http/server/http_connection.cpp:91-131 | in such a run every completed message and refused chunk has one answer, begun, posted or owed |
| Ledger.PipelinedRequestIsLost | csi_http/server/http_connection.cpp:94-109 | two requests in one chunk get one answer |
| Ledger.EmptyChunkIsServed | csi_http/server/http_connection.cpp:107-111 | a chunk without a message behind a finished exchange is served and answered |
| Framing.FramingExact | csi_http/server/reply.cpp:111-147 | a reply made by create is read back whole, whatever follows it, if and only if it is framable |
| Framing.FramableRoundTrips | csi_http/server/reply.cpp:111-147 | print then parse gives status, headers, body and exactly the rest |
| Framing.StreamRoundTrips | csi_http/server/reply.cpp:111-147 | a stream of framable replies is read as those replies in order |
| Framing.StatusLineParses | csi_http/server/reply.cpp:60-101 | the status line is clean and read as the code that was printed |
| Framing.StatusIsRead | csi_http/server/reply.cpp:60-101 | a client reads each of the 17 statuses of the table as itself and every other one as 500 |
| Framing.SuccessTexts | csi_http/server/reply.cpp:25-32 | code and reason of the success lines, octet by octet |
| Framing.RedirectionTexts | csi_http/server/reply.cpp:33-40 | code and reason of the redirection lines |
| Framing.ClientErrorTexts | csi_http/server/reply.cpp:41-50 | code and reason of the client error lines |
| Framing.ServerErrorTexts | csi_http/server/reply.cpp:51-58 | code and reason of the server error lines |
| Framing.OtherStatusText | csi_http/server/reply.cpp:98-99 | any status outside the table is printed as 500 Internal Server Error |
| Framing.LengthOfHeard | csi_http/server/reply.cpp:294-298 | the announced length is the body size if and only if it is below 2^31 and no other header takes part |
| Framing.FieldsParse | csi_http/server/reply.cpp:117-126 | printed headers are read back in order, without the blanks around their values |
| Framing.CloseKeepsFraming | csi_http/server/http_connection.cpp:61-62 | adding the close header keeps a reply framable |
| Replies.CreateKeepsExtraHeaders | csi_http/server/reply.cpp:278-302 | create keeps the first extra headers and puts the length header right behind them |
| Replies.Reply.Create | csi_http/server/reply.cpp:278-302 | the new state of the reply |
| Replies.Reply.Add | csi_http/server/reply.cpp:304-307 | one header more at the end |
| Replies.Reply.Reset | csi_http/server/reply.cpp:309-314 | no headers, an empty stream, no copy; the status stays |
| Replies.Reply.ToBuffers | csi_http/server/reply.cpp:111-147 | the buffers together are the printed reply, whose code and reason Framing.StatusIsRead and the text lemmas fix |
| Decimal.FormattedSizeParses | csi_http/server/reply.cpp:294-298 | the printed size reads back as the size if and only if it is below 2^31 |
| Decimal.CastFitsInt32 | csi_http/server/reply.cpp:294-298 | the cast to int keeps the size modulo 2^32 |
| Base.SameNameExact | csi_http/server/request.cpp:34-34 | two names are the same if and only if they differ in the case of letters at most |
| HttpConnections.HttpConnection.constructor | csi_http/server/connection.h:55-70 | the state before start() |
| HttpConnections.HttpConnection.Start | csi_http/server/http_connection.cpp:52-55 | the object takes the machine's start |
| HttpConnections.Accept | csi_http/server/http_server.cpp:55-60 | a new connection, started, is where every run begins: one read is pending and nothing else |
| Runs.StartBeginsRun | csi_http/server/http_connection.cpp:52-55 | start() takes every freshly constructed connection to the beginning of a run |
| HttpConnections.HttpConnection.SendReply | csi_http/server/http_connection.cpp:57-64 | the flag is cleared, the close header added, the print handed to the socket |
| HttpConnections.HttpConnection.WaitForAsyncReply | csi_http/server/http_connection.cpp:66-72 | the flag is set and the timer re-armed |
| HttpConnections.HttpConnection.NotifyAsyncReplyDone | csi_http/server/http_connection.cpp:74-78 | one reply-done is posted |
| HttpConnections.HttpConnection.HttpParse | csi_http/server/connection.h:39-39 | the callbacks of a chunk, one after the other |
| HttpConnections.HttpConnection.OnMessageBegin | csi_http/server/connection.h:47-47 | reply and request are reset, the complete flag is cleared |
| HttpConnections.HttpConnection.OnHeadersComplete | csi_http/server/connection.h:51-51 | the method is recorded |
| HttpConnections.HttpConnection.OnMessageComplete | csi_http/server/connection.h:53-53 | keep-alive and the complete flag are set |
| HttpConnections.HttpConnection.HandleRead | csi_http/server/http_connection.cpp:80-141 | refines the machine's read step |
| HttpConnections.HttpConnection.HandleWrite | csi_http/server/http_connection.cpp:143-181 | refines the machine's write step |
| HttpConnections.HttpConnection.HandleTimer | csi_http/server/http_connection.cpp:196-207 | refines the machine's timer step |
| HttpConnections.HttpConnection.HandleAsyncReplyDone | csi_http/server/http_connection.cpp:209-214 | refines the machine's reply-done step |
| UriPatterns.MatchDecidesLanguage | csi_http/utils/uri_pattern.cpp:5-43 | the compiled loop-and-length test holds exactly for the URLs of the language read off the pattern's text, where a first segment fits when it is "+" or equal |
| UriPatterns.ContainmentExact | csi_http/utils/uri_pattern.cpp:17-43 | matching q's text against p decides containment, once a final "#" of q is answered by one of p |
| UriPatterns.ContainmentIsMatched | csi_http/server/server.h:84-94 | a pattern that holds every URL of q matches q's text |
| UriPatterns.MatchedButNotContained | csi_http/server/server.h:84-94 | the side condition is needed |
| UriPatterns.SplitOfJoin | csi_http/server/server.h:70-71 | splitting undoes joining |
| UriPatterns.JoinOfSplit | csi_http/utils/uri_pattern.cpp:7-7 | joining undoes splitting |
| UriPatterns.UriPattern.constructor | csi_http/utils/uri_pattern.cpp:5-15 | the compiled pattern |
| UriPatterns.UriPattern.Match | csi_http/utils/uri_pattern.cpp:17-43 | the loop with early exit computes the match |
| Routing.Server.AddHandler | csi_http/server/server.h:61-64 | one route more at the end, the others unchanged |
| Routing.Server.HandleRequest | csi_http/server/server.h:67-82 | the least matching route is called and counted, or the reply has status 404 |
| Routing.Server.GetNoOfRequests | csi_http/server/server.h:84-97 | the counters of the matching routes, added modulo 2^64 |
| Routing.HandlerData.Call | csi_http/server/server.h:113-118 | the counter moves by one and wraps |
| Routing.WrappedIsRemainder | csi_http/server/server.h:113-118 | a wrapped counter is the total modulo 2^64 |
| Routing.DispatchConserves | csi_http/server/server.h:61-82 | over any history each counter moved by the number of requests its route owned, and these and the 404s add up to the requests |
| Routing.FirstMatchIsOwner | csi_http/server/server.h:73-80 | the dispatched route is the first whose language holds the URL |
| Routing.RoutesAreStable | csi_http/server/server.h:61-81 | a URL keeps its route whatever is added or requested later |
| Routing.ShadowedRouteIsDead | csi_http/server/server.h:73-80 | a route behind one that holds its language never counts a request |
| Routing.QueryPredictsDeadRoute | csi_http/server/server.h:84-97 | matching a new pattern's text against the old ones finds such a route |
| Routing.QuerySumsContainingRoutes | csi_http/server/server.h:84-97 | what the query adds up: the routes holding its language, and for a query ending in "#" the accidental ones |
| Routing.SumOverOne | csi_http/server/server.h:84-97 | one chosen route contributes its own counter |
| Requests.Request.Reset | csi_http/server/request.cpp:18-28 | id, uuid and headers are cleared |
| Requests.Request.GetHeader | csi_http/server/request.cpp:30-38 | the search loop finds the first header of the name, and nothing if there is none |
| Requests.LookupFindsFirst | csi_http/server/request.cpp:30-38 | the lookup is the value of the first header with the name, whatever its case |
| Requests.LookupOfAbsent | csi_http/server/request.cpp:30-38 | the lookup of a name that no header has is empty |
| Requests.BlankGetsRandom | csi_http/server/request.cpp:41-98 | a blank request without the header gets the random uuid and its text from either getter |
| Requests.Request.RequestId | csi_http/server/request.cpp:41-70 | a known id is kept, a header gives its own text, and without one the random uuid is printed |
| Requests.Request.RequestUuid | csi_http/server/request.cpp:73-98 | a known uuid is kept, a readable header gives its own, anything else the random one |
| Requests.CallsStayConsistent | csi_http/server/request.cpp:18-98 | after any calls a known uuid is what the cached id reads as |
| Requests.KnownUuidIsFrozen | csi_http/server/request.cpp:41-98 | once the uuid is known neither getter changes anything until a reset |
| Requests.KnownIdIsKept | csi_http/server/request.cpp:41-44 | a known id is kept by further requests for the id |
| Requests.GettersAgree | csi_http/server/request.cpp:41-98 | either getter leaves an id, and asking for the uuid settles the id too |
| Requests.UuidReplacesIdExactly | csi_http/server/request.cpp:72-98 | asking for the uuid keeps an id from a header exactly when it reads as a uuid |
| Requests.UuidIsNilExactly | csi_http/server/request.cpp:73-98 | the uuid handed out is nil exactly when the header spells the nil uuid |

## Left out

- https_connection.cpp: TLS and its asynchronous path, which treats an aborted wait as "reply ready", are not modelled.
- The text of a request (URL, query, headers, body) as connection.cpp collects it, and its fixed-size header buffers.
- http_parser, boost::uuids and the Avro and JSON encoders: chunks, verdicts, uuid texts and bodies are any values. A uuid reader is only known to refuse the empty text and to read what the printer printed, and the random generator never to make the nil uuid.
- Transfer codings: the reference parser refuses a message that announces one.
- Runs.TimeoutQuiesces: takes it that operations started on a shut socket do not succeed; operations started before may still succeed.
- Ledger.AnswersKeepStepExact: takes it that parser callbacks come in order, a begin outside a message and everything else inside one.
- Requests.Request.RequestId: the calls that logging makes to it from the connection are not part of the event machine.
- Request handlers that break their contract (no create, a second notification, touching a reply after the notification), exceptions, wall-clock durations, several io_service threads and the spinlocks.
- `handle_shutdown`, which nothing calls; acceptors, the client half, stock HTML bodies (never printed) and the tables of `to_string`.
- Size arithmetic near 2^64 in `create` (one or two more headers than SIZE_MAX).
