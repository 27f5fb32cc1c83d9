# Verified model of nodepp

nodepp is an event-driven networking library in the style of Node.js. This project models the parts of it that carry
state or algorithms, and proves what they promise. It has five parts. The semaphore, the emitters and the HTTP text
stand alone; streams use the emitters' depth counter and the semaphore's decrement, responses use streams and HTTP
text, and the list of live connections uses the emitters.

* **Semaphore** (`Semaphore.dfy`). The counting semaphore that counts pending writes, as a step relation over the
  program counters of any number of threads. No wake-up is lost while the counter stays non-negative, and a zero
  counter releases every waiter within a bounded number of steps.
* **Event emitters** (`Emitters.dfy`, `EmissionLaws.dfy`, `RunOnce.dfy`, `ListenerScripts.dfy`, `Delegation.dfy`,
  `Rollback.dfy`, `EmitterLimits.dfy`, `EventHub.dfy`). Re-entrant dispatch over listener lists, run-once removal, the
  depth guard, the graph that `delegate_to` wires, and what the calls that listeners make come to. A listener is a
  finite script of actions. Emission is defined once as a function, which is the specification; the class `EventHub`
  performs the source's statements and is proved to compute it.
* **Socket streams** (`SocketStream.dfy`, `StreamLaws.dfy`, `StreamEvents.dfy`, `NetSocketStream.dfy`). The receive
  buffer, the count of writes in flight, and the closed and end flags, under listeners that may read, write, end,
  close, throw, drop the stream, and add or remove listeners. The bytes received, handed out, and accepted for the
  wire are histories beside the fields. Emission is defined here a second time, because a stream's listeners act on
  the stream. Scripts are summed up by what they say, and the handlers by the events they emit.
* **HTTP text** (`Text.dfy`, `UrlCoding.dfy`, `HttpHeaders.dfy`, `HttpMethods.dfy`, `HttpRequest.dfy`,
  `EncodedUrls.dfy`). The printers and the parsers, and exactly when they invert each other (sections 3.1.1 and 3.2 of
  RFC 7230, sections 2.1 and 3.3 to 3.5 of RFC 3986).
* **The server** (`ServerResponse.dfy`, `ResponseContents.dfy`, `HttpServerResponse.dfy`, `Routing.dfy`,
  `Connections.dfy`). Response framing, contents and error pages on a socket stream (section 3.3.2 of RFC 7230), what
  a well-formed wire is, the routing search, and the list of live connections, which rests on run-once dispatch and
  delegation.

Where the code departs from its evident intent the model follows the code. The departure is then a lemma: either the
theorem is an equivalence whose right-hand side is the exact condition, or a lemma gives an input that fails.

* A decrement without an increment strands a waiter on a zero counter (`NegativeCounterStrandsAWaiter`).
* `emit` raises the depth once, but both calls of `emit_impl` lower it when a "_selfdestruct" companion exists
  (`CompanionsDefeatTheGuard`). A run-once listener that emits its own event runs at every level
  (`RunOnceMayFireRepeatedly`); one whose event no listener emits is called at most once per registration, in runs
  that throw too (`RunOnceNeverFiresTwice`). A rollback at the depth limit leaves the listener behind, and a second
  exception replaces the first (`RollbackMayLeaveTheListener`). Mutual delegation is accepted and then throws
  (`MutualDelegationThrows`).
* Run-once data listeners that meet a non-empty receive buffer see the old bytes, and nobody sees the new chunk
  (`CalmArrivalDelivers`).
* A listener of "closed" that throws makes the server erase a list entry twice: exactly if it was there at the first
  close of the socket, and the socket closes again while someone besides the list has owned the connection ever since
  (`ErasingIsSoundExactly`, and a failing run in `ThrowingWatcherErasesTwice`).
* A second `send_status` on a live socket corrupts the message (`StatusGuardIsExact`). An error page resets the
  response and so forgets that a status line was sent, with the same effect (`ErrorPageOnAnyWire`).
* A fragment without a query, a query name without a value, and several query pairs do not survive printing and
  parsing (`RequestRoundTrip`, `QueryRoundTrip`); the parser also loses the first two when a browser sends them
  (`EncodedUrlReadsBack`).
* The host-specific `on_requests_for` registers the host name as the path (`HostRegistrationsNeverMatch`).

## Model

| member | source | states |
|---|---|---|
| Semaphores.LockDiscipline | include/base_semaphore.h:55-103 | The mutex is held only by a thread that is about to notify under it, in every state a step leads to. |
| Semaphores.StepKeepsWakeups | include/base_semaphore.h:55-103 | From a safe state, a step keeps "a zero counter with a sleeper has a thread about to notify or released" exactly when it is not an increment to zero past sleepers nobody will wake. |
| Semaphores.RunsNeverLoseWakeups | include/base_semaphore.h:55-103 | The same over every interleaving in which the counter stays non-negative. |
| Semaphores.ReachableStatesAreSafe | include/base_semaphore.h:45-103 | Every state reachable from rest is safe, for any number of threads. |
| Semaphores.NegativeCounterStrandsAWaiter | include/base_semaphore.h:55-61 | An unmatched decrement has a run that leaves a waiter asleep on a zero counter with nobody to wake it. |
| Semaphores.CounterCounts | include/base_semaphore.h:55-74 | Over every run the counter is its first value plus the increments less the decrements. |
| Semaphores.WaitersStayUntilZero | include/base_semaphore.h:91-103 | No thread leaves `wait` in a run whose counter is never zero, and none leaves `wait_for` unless its deadline passed. |
| Semaphores.NotificationsWake | include/base_semaphore.h:55-89 | `notify_all` wakes every sleeper, `notify_one` one and nobody else. |
| Semaphores.OngoingStepsDecreaseMeasure | include/base_semaphore.h:55-103 | At a zero counter every step of an operation under way strictly lowers a measure over the threads. |
| Semaphores.SomeObligedStep | include/base_semaphore.h:91-103 | At a zero counter, while a thread is in an operation, some step that needs no outside help is enabled. |
| Semaphores.QuiescenceReleasesEveryone | include/base_semaphore.h:91-103 | A run at a zero counter is no longer than the measure, and nothing obliged is left exactly when no thread is left in `wait`, timed waiters included. |
| Semaphores.Semaphore.DecCounter | include/base_semaphore.h:55-61 | One decrement step; the answer is whether the counter has reached zero or less. |
| Semaphores.Semaphore.HasOutstanding | include/base_semaphore.h:63-69 | Answers true for a zero counter too, and owes a notification. |
| Semaphores.Semaphore.BeginWait | include/base_semaphore.h:91-103 | Leaves at once, owing a `notify_all`, exactly when the counter is zero; else sleeps. |
| Semaphores.Semaphore.RecheckWait | include/base_semaphore.h:91-103 | One round of the predicate loop, for plain and timed waits. |
| EmissionLaws.EmissionTerminates | include/base_event_emitter.h:137-176 | On every delegation graph emission ends: it returns with every depth restored, throws, or changes a list under iteration; it throws for nesting exactly when a counter has reached 101. |
| EmissionLaws.BudgetAtRest | include/base_event_emitter.h:164-168 | From rest at most a hundred emissions an emitter can be nested. |
| EmissionLaws.EmissionCallsTheListeners | include/base_event_emitter.h:137-160 | A completed emission calls exactly the registered listeners, in registration order, and leaves exactly the persistent ones, in order. |
| EmissionLaws.IteratedListsAreFrozen | include/base_event_emitter.h:139-158 | No defined run changes a list that a caller is iterating over. |
| EmissionLaws.RegistrationsAreAccountedFor | include/base_event_emitter.h:111-160 | Over a completed run, registrations change by what was added, removed, and, for run-once ones, called. |
| EmissionLaws.ReturningRunsFireOnce | include/base_event_emitter.h:130-133 | In a run that returns, a run-once listener fires at most once even if listeners emit its event, and unless removed exactly if it is gone. |
| RunOnce.RunOnceNeverFiresTwice | include/base_event_emitter.h:137-160 | If no listener, nor any that listeners add, emits a run-once listener's event, it is called at most once per registration, in every run, thrown and undefined ones included. |
| RunOnce.RunOnceListenersFireOnce | include/base_event_emitter.h:130-133 | Under the same condition, neither added nor removed, it is called exactly once if its event completes an emission inside the run, whatever stops the run later. |
| RunOnce.UndisturbedRunOnceListenersFireOnce | include/base_event_emitter.h:130-133 | The same, read off the scripts beforehand: none of them adds the listener, removes its id or clears its list. |
| EmissionLaws.EmissionUsesUpRunOnce | include/base_event_emitter.h:137-160 | After a completed emission no run-once listener of the event is left. |
| ListenerScripts.RunPlays | include/base_event_emitter.h:110-176 | A run that returns has changed every listener list exactly as its calls read, those made by listeners it called included, in order: a plain reading without depths, limits, log or loops. |
| ListenerScripts.CallsTakeEffect | include/base_event_emitter.h:110-160 | Right after each call of such a run: an added listener is the last of its list and in the log, a removed id and a cleared list are gone, an emission is complete. |
| ListenerScripts.SimpleScriptsFold | include/base_event_emitter.h:110-123 | At rest, scripts of additions and removals return exactly if every addition finds room, and then fold over each list: append, take out an id, empty. |
| ListenerScripts.ReturningActionsKeepTheListener | include/base_event_emitter.h:468-479 | A rollback that returns comes to the addition and the action, and undoes nothing. |
| ListenerScripts.KeptListenersAreRegistered | include/base_event_emitter.h:468-473 | If nobody touches it, the listener is then registered once more than before. |
| ListenerScripts.RefusedCallsChangeNothing | include/base_event_emitter.h:110-123 | Unnamed events and self-delegation throw and change nothing; removing an absent id returns and changes no list. |
| ListenerScripts.ExpiredEmittersHearNothing | include/base_event_emitter.h:448-459 | Calls on an expired emitter and delegation to one do nothing. |
| Delegation.CyclesThrow | include/base_event_emitter.h:164-176 | Emitting into a delegation cycle ends in the depth guard's exception, with every list intact. |
| Delegation.RankedEmissionCompletes | include/base_event_emitter.h:448-465 | Without a cycle and with room for the longest path, an emission completes and changes nothing. |
| Delegation.DelegationAddsAnEdge | include/base_event_emitter.h:448-465 | `delegate_to` adds exactly one edge to the graph. |
| Delegation.MutualDelegationThrows | include/base_event_emitter.h:201-212 | Loop detection sees only direct self-delegation: two emitters may delegate to each other, and an emission then throws. |
| Rollback.RollbackUndoesTheListener | include/base_event_emitter.h:468-479 | When the action throws, the listener tables are as the action alone would have left them, exactly unless the emitter's depth counter is left at its limit. |
| EmitterLimits.EmissionIsFuelIndependent | include/base_event_emitter.h:164-176 | The specification's bound on nesting never shows in a result. |
| EmitterLimits.AdditionsRespectTheLimit | include/base_event_emitter.h:111-123 | With observers only, an addition is refused exactly when the list is full, and a list never outgrows the limit. |
| EmitterLimits.CompanionsDefeatTheGuard | include/base_event_emitter.h:159-174 | With a "_selfdestruct" companion an emission can nest without bound. |
| EmitterLimits.RunOnceMayFireRepeatedly | include/base_event_emitter.h:137-160 | A run-once listener that emits its own event is called at every level and is still registered. |
| EmitterLimits.RollbackMayLeaveTheListener | include/base_event_emitter.h:474-477 | An action that runs into the depth guard leaves the temporary listener behind. |
| EventHubs.EventHub.EmitEvent | include/base_event_emitter.h:163-176 | Computes the emission the theorems are about. |
| EventHubs.EventHub.EmitImpl | include/base_event_emitter.h:137-160 | The loop, the erasure of run-once listeners and the lowering of the depth. |
| EventHubs.EventHub.CallListeners | include/base_event_emitter.h:138-156 | Calls the list in order and stops at the first exception. |
| EventHubs.EventHub.AddListener | include/base_event_emitter.h:110-123 | Refuses empty names and full lists, announces, then appends. |
| EventHubs.EventHub.DelegateTo | include/base_event_emitter.h:448-465 | Ignores an expired destination, rejects the source itself, else registers the relay. |
| EventHubs.EventHub.RemoveListener | src/base_event_emitter.cpp:61-71 | Erases every entry with the id and announces each before erasing. |
| EventHubs.EventHub.RemoveAllListeners | src/base_event_emitter.cpp:81-83 | Clears one list. |
| StreamLaws.ArrivalConserves | src/lib_net_socket_stream.cpp:150-192 | An arrival never recovers a lost byte, and keeps the books balanced exactly when the flush and the chunk are both delivered. |
| StreamLaws.RunConserves | src/lib_net_socket_stream.cpp:150-192 | Over a whole run, handed out plus buffered equals received, in order, and `bytes_read` is their number, exactly when every arrival on the way delivers. |
| StreamLaws.CalmArrivalDelivers | src/lib_net_socket_stream.cpp:174-181 | Without exceptions an arrival delivers exactly when no flush comes first or the flush leaves a listener. |
| StreamLaws.SteadyRunsConserve | src/lib_net_socket_stream.cpp:163-187 | Persistent listeners that do not throw, added and removed from outside or by other listeners, and reads anywhere, lose no byte in any run. |
| StreamLaws.CalmStreamsKeepReading | src/lib_net_socket_stream.cpp:188-190 | With listeners that do not throw, run-once ones among them, a live stream goes on reading exactly after error-free chunks and until it is closed. |
| StreamLaws.CompletionAccounts | src/lib_net_socket_stream.cpp:194-236 | The counter stays the number of writes in flight exactly when the completion decrements it once, which depends on exceptions and on who owns stream and semaphore. |
| StreamLaws.RunAccounts | src/lib_net_socket_stream.cpp:194-264 | Over a whole run the counter is off by exactly the decrements missed less those made twice, so it is the number of writes in flight exactly when these balance. |
| StreamLaws.CalmRunsAccount | src/lib_net_socket_stream.cpp:194-264 | While the stream lives, listeners that do not throw, run-once ones among them, keep the counter exact in every run. |
| StreamLaws.DrainedExactlyWhenIdle | src/lib_net_socket_stream.cpp:202-210 | "all_writes_completed" is emitted, once, exactly when nothing is in flight after the completion's listeners, writes they started included. |
| StreamLaws.RunLatches | src/lib_net_socket_stream.cpp:246-276 | Closed implies ended, no flag is ever cleared, and after the end no sequence of calls, arrivals and completions adds a byte to the wire. |
| StreamEvents.ScriptsComeTo | src/lib_net_socket_stream.cpp:246-319 | A listener's script that returns comes to its summary: bytes written before the end on the wire and in flight, an error for each later write, the flags, the reads and the changes of listeners it asks for. |
| StreamEvents.CallsAreOneScript | include/base_event_emitter.h:138-156 | Calling the listeners of a list is running their scripts one after the other. |
| StreamEvents.CompletionsAreAnnounced | src/lib_net_socket_stream.cpp:200-228 | The first event of a completed write is "write_completion" exactly if it succeeded, else "error", whatever listeners do. |
| StreamEvents.FailedWritesCallNobody | src/lib_net_socket_stream.cpp:224-228 | A failed write that is not the last raises the error, is counted off, and changes nothing else. |
| StreamEvents.CompletionsComeTo | src/lib_net_socket_stream.cpp:194-236 | With calm listeners a completion is its event and listeners, the decrement, and the drain exactly when it was the last. |
| StreamEvents.ArrivalsComeTo | src/lib_net_socket_stream.cpp:150-192 | With calm listeners an arrival raises its error, fills the buffer, or delivers buffer and chunk as events of their own, and reads on unless closed or at the end. |
| StreamEvents.ErrorsAndClosesAreAnnounced | src/lib_net_socket_stream.cpp:475-487 | A read error, a refused write and an announced close emit one event and call nobody; on an emitter that is too deep the calls throw. |
| StreamEvents.ThrowingCompletionsAreReported | include/base_event_emitter.h:418-436 | A listener that throws stops the handler before the decrement, and becomes an error event. |
| StreamEvents.ThrowingArrivalsAreReported | include/base_event_emitter.h:418-436 | The same for an arrival, whose chunk is not counted and which does not read on. |
| NetSocketStreams.NetSocketStream.Emit | include/base_event_emitter.h:137-176 | The stream's emitter as a loop, equal to the specification. |
| NetSocketStreams.NetSocketStream.AddListener | include/base_event_emitter.h:110-123 | A full list and a refused announcement throw; else the listener is appended, unless its list is being iterated over. |
| NetSocketStreams.NetSocketStream.RemoveListener | src/base_event_emitter.cpp:61-71 | Announces what it finds before erasing it; finding nothing changes nothing. |
| NetSocketStreams.NetSocketStream.ReadBuffer | src/lib_net_socket_stream.cpp:533-535 | Hands the whole buffer out and empties it. |
| NetSocketStreams.NetSocketStream.WriteData | src/lib_net_socket_stream.cpp:246-319 | Refused, with an error event, exactly when closed or ended; else on the wire, and counted if asynchronous. |
| NetSocketStreams.NetSocketStream.WriteBytes | include/lib_net_socket_stream.h:163-217 | As above, except that an empty range does nothing at all. |
| NetSocketStreams.NetSocketStream.CloseStream | src/lib_net_socket_stream.cpp:475-487 | Sets both flags before the optional "closed" event. |
| NetSocketStreams.NetSocketStream.HandleRead | src/lib_net_socket_stream.cpp:150-192 | Computes the arrival the theorems are about. |
| NetSocketStreams.NetSocketStream.TakeChunk | src/lib_net_socket_stream.cpp:168-187 | Flush then chunk for listeners, else the buffer; counts the chunk only on normal return. |
| NetSocketStreams.NetSocketStream.HandleWrite | src/lib_net_socket_stream.cpp:194-236 | Computes the completion the theorems are about. |
| UrlCoding.DecodeInvertsExactlyTheEscapers | src/lib_http_parser.cpp:90-102 | `url_decode` inverts an encoder, whatever it escapes and in either hex case, exactly when it escapes every '%'. |
| UrlCoding.DecodesExactlyEscapes | src/lib_http_parser.cpp:83-102 | A text is decoded exactly if every '%' is followed by two hex digits. |
| UrlCoding.DecodeUrl | src/lib_http_parser.cpp:90-102 | The loop decodes its input as the recursive definition does, errors included. |
| UrlCoding.QueryRoundTrip | src/lib_http_parser_impl.cpp:51-80 | Encoded pairs joined with '&' are read back, in order, exactly when every value is non-empty. |
| UrlCoding.SplitQuery | src/lib_http_parser_impl.cpp:65-80 | The shrinking-view loop parses what the recursive definition does. |
| HttpHeaders.LinesPartitionTheText | src/lib_http_parser_impl.cpp:231-249 | The pieces joined with CRLF are the text. |
| HttpHeaders.LinesAreWhole | src/lib_http_parser_impl.cpp:231-249 | No piece contains a CRLF. |
| HttpHeaders.SplitInvertsJoin | src/lib_http_parser_impl.cpp:231-249 | Splitting non-empty lines that were joined gives them back. |
| HttpHeaders.SplitHeaders | src/lib_http_parser_impl.cpp:231-249 | Returns exactly the non-empty pieces, in order. |
| HttpHeaders.ReadHeaders | src/lib_http_parser_impl.cpp:251-269 | Reads up to the blank line; fails on the first line without a colon. |
| HttpHeaders.HeaderBlockRoundTrip | src/lib_http_headers.cpp:103-109 | A printed header list and a blank line, whatever follows, is read back in order exactly when no name has a colon, no value starts with white space, and neither does the first name. |
| HttpHeaders.EmptyBlockRoundTrip | src/lib_http_parser_impl.cpp:251-258 | An empty block is read as no headers. |
| HttpHeaders.HeaderLinesRead | src/lib_http_parser_impl.cpp:189-199 | A line is read as the text before its first colon and the text after it without the white space between. |
| HttpHeaders.BlocksNeedColons | src/lib_http_parser_impl.cpp:251-269 | A block is read line by line, and one line without a colon fails all of it. |
| HttpMethods.IsEqualNoCase | include/lib_http_request.h:68-78 | Compares all characters with bit 5 set. |
| HttpMethods.OnlyBitFiveIsIgnored | include/lib_http_request.h:68-78 | Two bytes are equal in it exactly if they differ in bit 5 at most. |
| HttpMethods.ParsesExactlyTheMethodNames | include/lib_http_request.h:80-121 | A text is read as a method exactly when it spells its printed name in letters of either case. |
| HttpRequest.PrintUrl | src/lib_http_url.cpp:71-86 | Path, a '?' before every pair, then the fragment. |
| HttpRequest.ReadUrl | src/lib_http_parser_impl.cpp:114-137 | Path, query and fragment of one URL, and what is left of the line. |
| HttpRequest.ReadRequest | src/lib_http_parser_impl.cpp:271-284 | Request line up to the first CRLF, then the headers, with the error of the first part that fails. |
| HttpRequest.QueryReadBack | src/lib_http_parser_impl.cpp:82-99 | A printed query is read back exactly when it is one pair with a non-empty value. |
| HttpRequest.RequestRoundTrip | src/lib_http_client.cpp:64-70 | The client's message, whatever follows it, is read back as the same method, URL, version 1.1 and one Host header, exactly under the conditions that keep the URL and the host intact. |
| HttpRequest.VersionsAreExact | src/lib_http_parser_impl.cpp:139-158 | A version is read exactly if something follows the first "HTTP/" and all of it is digits and dots. |
| HttpRequest.RefusedRequests | src/lib_http_parser_impl.cpp:271-284 | Empty texts, missing line ends, unknown methods and relative paths are refused. |
| EncodedUrls.EncodedUrlReadsBack | src/lib_http_parser_impl.cpp:40-137 | A percent-encoded URL, in any spelling that escapes what would end its parts, is read as the URL it spells, all pairs joined with '&' included, exactly if its path is from the root, every pair has a value, and a fragment only follows a query. |
| EncodedUrls.EncodedRequestLineReadsBack | src/lib_http_parser_impl.cpp:170-187 | The same inside a request line, for every method. |
| ServerResponse.PhaseIsUnique | src/lib_http_server_response.cpp:119-190 | A text can be read in at most one way as nothing, a status line, or a message: code, reason, headers, length and body are determined by the bytes. |
| ServerResponse.ResponsesAreFramed | src/lib_http_server_response.cpp:119-213 | Under every disciplined run the wire is empty, a status line, or one message with a single Content-Length that is the body length or the declared raw length, and it is well formed exactly if as many bytes follow the head. |
| ServerResponse.FreshResponsesAreFramed | src/lib_http_server_response.cpp:43-52 | The same for every run of a new response on an empty wire, which without a raw body is well formed at every moment. |
| ServerResponse.SentHeadsReadBack | src/lib_http_server_response.cpp:159-190 | After a disciplined run, what follows the status line on the wire is parsed to the headers sent and one Content-Length. |
| ResponseContents.ContentsAreAsWritten | src/lib_http_server_response.cpp:72-213 | The message of a fresh response carries the status asked for or 200, the added headers in order with a date, and the text written since the last `clear_body` up to the first call that sends; with a raw body, the raw bytes the socket took. |
| ResponseContents.BodiesAreAsWritten | src/lib_http_server_response.cpp:72-226 | Without a raw body, the whole wire read off the calls alone. |
| ServerResponse.EndingAndClosing | src/lib_http_server_response.cpp:209-233 | An end that returns has sent everything and ended the stream; a close has closed it, with or without sending. |
| ServerResponse.ExpiredSocketsTakeNothing | src/lib_http_server_response.cpp:119-190 | On a socket that is gone calls write nothing and do not claim to have sent anything. |
| ServerResponse.PartsAreInFlight | src/lib_http_server_response.cpp:119-178 | Status and headers are one asynchronous write each, the body three. |
| ServerResponse.SendingAgainAddsNothing | src/lib_http_server_response.cpp:192-207 | A `send` after one that returned does nothing, after one that threw it puts nothing on the wire, and on a lost socket it is silent. |
| ServerResponse.StatusOnAnyWire | src/lib_http_server_response.cpp:119-139 | Whether a wire in any state is well formed after a status line: a second one never is right on a live socket, unless it fills up a raw body. |
| ServerResponse.StatusGuardIsExact | src/lib_http_server_response.cpp:119-139 | A well-formed wire stays well formed exactly unless the socket is live and a status line was sent before. |
| ServerResponse.MessageHeadReadsBack | src/lib_http_server_response.cpp:159-178 | The head of a message is parsed back as the headers sent, Content-Length last. |
| ServerResponse.EndFreezesEveryResponse | src/lib_http_server_response.cpp:209-242 | After the end no calls on any number of responses, `reset` included, add a byte. |
| ServerResponse.DefaultErrorPageIsOneMessage | src/lib_http_site.cpp:261-276 | A default error page adds exactly one whole message to a live socket, whatever the response held, and closes the stream. |
| ServerResponse.ErrorListenersComeFirst | src/lib_http_site.cpp:261-276 | The listener for the code decides alone, then the one for any error, then the default page; the response is reset first. |
| ServerResponse.ErrorPageOnAnyWire | src/lib_http_site.cpp:255-276 | After a default error page a blank wire is well formed; one that holds a status line only if the page's reason makes its status line read as a header; one that holds a message only if the page fills up a raw body exactly. |
| HttpServerResponses.HttpServerResponse.SendStatus | src/lib_http_server_response.cpp:119-139 | Remembers the status as sent exactly when the socket is alive, and leaves the flag alone when the write throws. |
| HttpServerResponses.HttpServerResponse.SendHeaders | src/lib_http_server_response.cpp:159-168 | Gives the headers a date and writes them. |
| HttpServerResponses.HttpServerResponse.SendBody | src/lib_http_server_response.cpp:170-178 | Writes the Content-Length, the blank line and the body. |
| HttpServerResponses.HttpServerResponse.PrepareRawWrite | src/lib_http_server_response.cpp:180-190 | Drops the buffered body, sends what is missing of the head, and declares the length. |
| HttpServerResponses.HttpServerResponse.Send | src/lib_http_server_response.cpp:192-207 | Sends exactly the parts not yet sent, up to the first exception, and says whether there were any. |
| HttpServerResponses.HttpServerResponse.End | src/lib_http_server_response.cpp:209-213 | Sends, then ends the stream. |
| HttpServerResponses.HttpServerResponse.Close | src/lib_http_server_response.cpp:228-233 | Sends if asked, then ends and closes the stream. |
| HttpServerResponses.HttpServerResponse.ErrorPage | src/lib_http_server_response.cpp:279-291 | Performs the calls of the default error page. |
| Routing.IsParentOf | src/lib_http_site.cpp:183-191 | The loop that stops at the parent's string length decides ancestry. |
| Routing.AncestorIsComponentPrefix | src/lib_http_site.cpp:183-191 | Ancestry of normalised paths is the prefix order on components. |
| Routing.LengthOrderIsDepthOrder | src/lib_http_site.cpp:217-222 | On the ancestors of one path, string length orders as depth does, and equal lengths are equal paths. |
| Routing.RouteIsUnique | src/lib_http_site.cpp:207-225 | At most one registration is the earliest among the deepest matches. |
| Routing.HttpSite.MatchSite | src/lib_http_site.cpp:207-225 | Finds it, and the end exactly when nothing matches. |
| Routing.AppendingIsIncremental | src/lib_http_site.cpp:159-165 | A new registration takes over exactly the requests it matches with a strictly longer path than the previous winner's. |
| Routing.RemovingALoserKeepsTheWinner | src/lib_http_site.cpp:174-176 | Removing a registration that does not win changes no route. |
| Routing.AnyHostAnswersEveryHost | src/lib_http_site.cpp:159-205 | A registration without a host is found for every host, on its path and below, by its method or by any. |
| Routing.OwnHostAnswersOneHost | src/lib_http_site.cpp:193-205 | One with a host is found for that host and for requests for all hosts only. |
| Routing.HostRegistrationsNeverMatch | src/lib_http_site.cpp:167-172 | A registration made through the host overload matches some absolute path exactly if host and method match and the host name is empty or starts with a slash, so never for a real host name. |
| Connections.MildEmit | include/base_event_emitter.h:137-160 | Emitting to listeners that do nothing to emitters or throw throws exactly if one does or the emitter is too deep, and changes only its emitter. |
| Connections.AcceptCompletes | src/lib_http_server.cpp:68-90 | Accepting completes and leaves the eraser and the delegation in place, and every older list as it was. |
| Connections.CloseReachesTheConnection | src/lib_http_connection.cpp:75 | A socket's "closed" reaches its connection's listeners through the delegation unless one of the two emitters is too deep, returns unless one of them throws, and touches no other emitter. |
| Connections.CloseReachesNobody | include/base_event_emitter.h:453-459 | The socket of an expired connection emits "closed" to nobody, and erases nothing. |
| Connections.ErasingIsSoundExactly | src/lib_http_server.cpp:75-89 | In every run from no connections, with owners that come and go, an entry is erased that is not in the list exactly if some connection had a throwing listener of "closed" at its socket's first close and its socket closed again while someone had owned the connection ever since. |
| Connections.LiveConnections | src/lib_http_server.cpp:68-98 | Otherwise the list is the accepted and not yet closed connections in accept order, each erased exactly once if its socket ever closed, and expired exactly if nobody else has owned it since. |
| Connections.ThrowingWatcherErasesTwice | src/lib_http_server.cpp:75-89 | A failing run from no connections: accept, own, add a throwing run-once listener, close, close. Without the owner the same run erases nothing twice. |

## Left out

- asio sockets, TLS, name resolution, accept loops, timers, task scheduling, file access, MIME and JSON support.
- `boost::any` dispatch of listener arguments and the retry without arguments; listener types are taken to match.
- The iteration of a listener list that is changed meanwhile: C++ leaves it undefined, and the model answers `Undefined`.
- Emitters are indices into one store instead of heap objects, and an index outside the store is an expired one.
- `remove_all_listeners()` without an event, and `set_max_listeners`.
- Removing an id that is registered twice: the model announces both entries before it erases either.
- The 64-bit counter of listener ids and the width of the semaphore's counter; both are unbounded here.
- EventHubs.EventHub.EmitEvent: the class is proved for worlds without "_selfdestruct" companions, the only ones in which emission is bound to end; `arm` and the list of self-owning objects are not modelled.
- Rollback.RollbackUndoesTheListener: the temporary listener has no effect of its own and those told of additions and removals only observe, as their effects would be the action's business to undo.
- Listeners of a stream's "closed" and "error" events, and exceptions out of the socket's own calls.
- NetSocketStreams.NetSocketStream.Emit: three listener lists run, the announcements of added and removed listeners have no listeners, and no "_selfdestruct" companion is emitted.
- StreamLaws.SteadyRunsConserve: with a listener limit, calm listeners stay within it and only run-once ones add others.
- The order of bytes on the socket: `wire` lists the accepted bytes in call order; a synchronous write can reach the socket before asynchronous writes that are still pending.
- StreamLaws.CompletionAccounts: `spare`, another owner of the semaphore that outlives the stream, is never true in the source, where the stream owns it alone; without one the counter is gone with the stream, and the books count the write as unsettled.
- EmitterLimits.AdditionsRespectTheLimit: those told of additions only observe; one with state of its own, which scripts lack, could add to the same list after the test and exceed the limit.
- Opening, connecting, read modes, `shutdown` and the socket handle; only whether writes are accepted is kept.
- `m_bytes_written`, which the buffer path adds to both when a write starts and when it completes.
- NetSocketStreams.NetSocketStream.HandleWrite: one thread runs the handlers, so the counter is decremented without the semaphore's interleavings, which `Semaphore.dfy` covers.
- The table of status texts; a status line is given its text. `gmtime` is a parameter.
- Parsing and printing of whole URLs with scheme, user, host and port, and `get_parameters`.
- A '%' with fewer than two characters after it is an error here; the source reads past its view.
- HttpRequest.RequestRoundTrip: URL parts hold no delimiters, percent signs or white space, since the client does not encode them.
- Paths with trailing or doubled slashes, dots and root names, of which `boost::filesystem::path` has its own reading.
- Connections.LiveConnections: the server's list is modelled on values, because its eraser is a callback outside the emitters; other listeners of a connection's "closed" do nothing to emitters or throw at once.
- Connections.ErasingIsSoundExactly: the server outlives its connections; an owner that lets go while listeners of "closed" run is taken to do so afterwards, as the relay owns the connection meanwhile.
- ServerResponse.StatusGuardIsExact: reasons hold no line breaks; headers are single lines that parse back, and none is a Content-Length.
- Host names and encodings beyond bytes; `query_exists`, `has_error_handler` and `operator!=` of key/value pairs.
