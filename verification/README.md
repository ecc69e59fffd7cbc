# LicodeCppClient: a verified model

This project models five components of the Licode C++ client in Dafny and proves what each of them
keeps over every run or every input.

* **URL builder, parser and printer** (`messenger/http_url.cc`, `messenger/http_request.h`): `text.dfy`,
  `url_path.dfy`, `url_query.dfy`, `url.dfy`, `url_roundtrip.dfy`, `url_canonical.dfy`, `url_request.dfy`,
  `url_code.dfy`.
* **Timed scheduler, periodic tasks and pool** (`thread/`): `scheduler.dfy`, `scheduler_safety.dfy`,
  `scheduler_progress.dfy`, `scheduler_timing.dfy`, `scheduler_code.dfy`, `periodic.dfy`, `thread_pool.dfy`.
* **Signalling request/acknowledgement protocol** (`core/licode_room.cc`, `core/licode_signaling.cc`,
  `messenger/websocket_session.cc`): `websocket.dfy`, `signalling.dfy`, `signalling_fifo.dfy`,
  `signalling_routing.dfy`, `signalling_publishing.dfy`, `signalling_hazards.dfy`, `signalling_offers.dfy`,
  `signalling_tasks.dfy`, `signalling_examples.dfy`, `signalling_code.dfy`, `framing.dfy`.
* **Re-entrant callback list** (`third/webrtc/include/base/callback_list.h`): `callback_list.dfy`,
  `callback_list_passes.dfy`.
* **Mutation-tolerant observer list** (`third/webrtc/include/base/observer_list.h`): `observer_list.dfy`,
  `observer_list_passes.dfy`.

Each stateful component appears twice. A step system on values (`State`, `Event`, `Enabled`, `Apply`,
`Exec`) says what one atomic step does, and the theorems quantify over all event sequences that are
enabled step by step: every interleaving of threads, every nesting of callbacks, every hash order. A class
(`SharedQueue`, `WebsocketSession`, `LicodeRoom`, `LicodeSignaling`, `RepeatingCallbackList`,
`ObserverVector`, `Builder`, `HttpRequest`) holds the fields and loops of the source, and each of its
methods is proved to perform exactly the corresponding step. `dafny verify dfyconfig.toml` checks the whole
project.

History fields (everything sent, run, finished, handled, visited) and program counters are part of the
states so that properties of runs can be stated; no modelled client code reads them.

## What holds only under a condition

Several properties one would expect are false of the code as it is. For each of them the project gives a
failing input and the exact condition.

* Printing a URL and parsing it back is the identity exactly for builders with a port and at least one
  segment (`UrlCanonical.RoundTripIff`). Without a segment no slash follows the authority, `npos + 1` is 0,
  and the authority itself becomes a segment (`UrlCanonical.BareHostReparsed`): "http://h/" is canonicalised
  to "http://h:80", which reads back with the segment "h:80". So canonicalisation is idempotent exactly when
  a segment was parsed (`UrlCanonical.CanonicalisationIff`).
* `SetUrl` cuts the request target at the wrong place exactly for hosts with a colon and for https URLs with
  port -1 (`UrlRequest.TargetIff`, `UrlRequest.UnsetHttpsPort`).
* Dot segments are removed as section 5.2.4 of RFC 3986 says, on the path without its empty segments
  (`UrlPath.NormalisesLikeRfc3986`). On the path as it is, builder and algorithm agree at every segment exactly
  if no ".." meets an empty segment that hides a non-empty one (`UrlPath.AgreesWithRfc3986Iff`); t//.. is the
  failing input (`UrlPath.EmptySegmentsMatter`).
* A scheduled function never starts before its time point exactly when there is one service thread
  (`SchedulerTiming.NeverEarlyIffSingleThread`).
* A drain can be completed, everything scheduled run and every thread gone, exactly while a thread is left or
  nothing is queued (`SchedulerProgress.DrainCanCompleteIff`): a function scheduled after the last thread has
  left stays in the queue.
* The pending queue of the room mirrors the requests under way exactly as long as no request task ran while
  not connected (`SignallingFifo.PendingMirrorsFlight`); a dropped request misroutes the next acknowledgement
  (`SignallingExamples.DroppedRequestMisroutes`).
* Handlers do dereference null streams. Three ordinary flows show it: removing a stream whose subscription is
  pending (`SignallingExamples.RemovingPendingStreamFaults`), sending an ICE candidate for a published stream
  (`SignallingExamples.CandidateOfPublishedStreamFaults`), and the readiness of a published stream after any
  remote stream was announced (`SignallingExamples.ReadinessOfPublishedStreamFaults`). A task can fault under
  some hash order exactly when `SignallingHazards.Hazard` holds (`SignallingHazards.FaultIff`), and a sound room
  stays sound under every hash order exactly when the task is guarded (`SignallingHazards.GuardIff`).
* An offer or a readiness event reaches the stream its connection was allocated for exactly if that stream
  still holds the connection (`SignallingOffers.OfferIsExact`, `SignallingOffers.ReadyIsExact`).
* A publish acknowledgement fills in and stores the object at the front of the queue. That is the object whose
  request was answered as long as no publish request was dropped
  (`SignallingPublishing.ConnectionLandsOnPublisher`); after a drop an object gets the id and connection of
  another one (`SignallingExamples.DroppedPublicationMisroutes`). An object that is published twice is shared by
  two entries, and the first one loses its connection (`SignallingExamples.RepublishedObjectIsShared`); an entry
  carries its own id exactly if the last acknowledgement of its object was for that id
  (`SignallingPublishing.OwnIdIff`).
* The five trimming passes of the URL parser strip one character each, so padding is removed exactly if its
  blanks come in the order of the passes (`Text.TrimIff`); a tab before a space makes the parser refuse the
  text (`UrlRoundTrip.ParsePadded`).
* The comment in `callback_list.h` says that a callback added during a nested call can be notified by outer
  calls. The code does so only if the outer cursor has not passed the end: `it++` is evaluated before the
  callback runs, so callbacks added while a frame runs its last entry are missed by that frame
  (`CallbackListSafety.FinishedFrameIsComplete`). The model follows the code.

## Model

| member | source | states |
|---|---|---|
| UrlRoundTrip.ParseWellFormed | messenger/http_url.cc:190-318 | every text of the shape scheme://host[:port][/path][?query][#fragment], with each piece free of the characters that would end it, is accepted and read as exactly those pieces: any letter case of the scheme, default ports, normalised path, query map, fragment |
| UrlRoundTrip.PortRead | messenger/http_url.cc:246-269 | the port read from a well-formed text: 443 for https and 80 for http if none is given, otherwise the number given, whatever it is |
| Text.AtoiStops | messenger/http_url.cc:263-265 | the number of a port text that goes on with other characters is that of its leading digits |
| Text.LowerIff | messenger/http_url.cc:209-223 | a scheme is taken for a lower-case one exactly if it has its length and each character is the same letter in either case |
| UrlRoundTrip.HostReadIff | messenger/http_url.cc:242-256 | every text with delimited pieces is accepted, and its host is read correctly if and only if a port is given or the path has no ':' |
| Text.TrimIff | messenger/http_url.cc:197-207 | trimming a padded text gives its core if and only if the blanks in front come in the order space, tab, newline, form feed, return and those behind in the reverse order; the front, or the end, stays blank otherwise |
| UrlRoundTrip.ParsePadded | messenger/http_url.cc:197-223 | a well-formed text between blanks: with those in front in that order it is accepted and the blanks the passes leave behind it, none exactly for the reverse order, belong to its last piece; with those in front in any other order it is refused |
| Url.ShortTextRefused | messenger/http_url.cc:190-193 | texts of at most seven characters are refused and leave the builder as it was |
| Url.LongTextForgets | messenger/http_url.cc:195-240 | parsing a longer text does not depend on the fields there were, and leaves no host unless the text is accepted |
| UrlCanonical.ReparseIsExact | messenger/http_url.cc:320-377 | for every builder with delimiter-free pieces, parsing its canonical text is accepted and returns the builder, except that an unset port becomes the default one and a missing path becomes the authority |
| UrlCanonical.RoundTripIff | messenger/http_url.cc:320-377 | print then parse is the identity if and only if the port is set and there is a segment |
| UrlCanonical.CanonicalisationIff | messenger/http_url.cc:409-418 | canonicalising a well-formed, blank-free text: the canonical text is accepted again; the fields are the same if and only if a port other than -1 and a segment were read, the canonical text if and only if a segment was read |
| UrlCanonical.BareHostParsed | messenger/http_url.cc:271-276 | "http://h/" is read as host h, port 80, no segment |
| UrlCanonical.BareHostPrinted | messenger/http_url.cc:335-342 | that builder prints as "http://h:80" |
| UrlCanonical.BareIsPrintable | messenger/http_url.cc:320-342 | every builder with only a scheme and a host prints a text that can be read back |
| UrlCanonical.BareHostReparsed | messenger/http_url.cc:271-276 | every printable builder without a segment, with or without query and fragment, prints without a path and is read back with its authority as the only segment and the printed port |
| UrlCanonical.OriginText | messenger/http_url.cc:320-337 | the printed origin: scheme, host (in brackets if it has a colon) and port, 443 or 80 for an unset one |
| UrlCanonical.HttpsParsed | messenger/http_url.cc:242-269 | "https://h/a" is read as https, host h, port 443, segment a |
| UrlCanonical.HttpsPrinted | messenger/http_url.cc:320-342 | that builder prints as "https://h:443/a" |
| UrlPath.AddPathConcat | messenger/http_url.cc:59-72 | adding p + "/" + q is adding p and then q, for all texts and all segments already there |
| UrlPath.NormalisesLikeRfc3986 | messenger/http_url.cc:79-98 | for every text the stored segments are the non-empty segments of remove_dot_segments (section 5.2.4 of RFC 3986) applied to the path without empty segments |
| UrlPath.AgreesWithRfc3986Iff | messenger/http_url.cc:79-98 | for all slash-free segments: builder and remove_dot_segments agree after every segment if and only if no ".." meets an empty segment that hides a non-empty one |
| UrlPath.ClearPathMatchesRfc3986 | messenger/http_url.cc:59-98 | for every path text that meets that condition the stored segments are the non-empty ones of remove_dot_segments on the text itself |
| UrlPath.EmptySegmentsMatter | messenger/http_url.cc:86-98 | the failing input: on t, "", ".." the algorithm of RFC 3986 keeps t, the builder removes it |
| UrlPath.PushAllNormal | messenger/http_url.cc:86-98 | no sequence of pushes stores "", "." or ".." |
| UrlPath.AddPathLikeRfc3986 | messenger/http_url.cc:59-98 | adding a path to normal segments gives the segments that remove_dot_segments leaves of both, for every path text |
| UrlQuery.AddParamMeans | messenger/http_url.cc:134-148 | adding stores exactly one more pair, unless the name is empty |
| UrlQuery.RemoveValueMeans | messenger/http_url.cc:150-163 | removing a value takes out exactly that pair |
| UrlQuery.RemoveNameMeans | messenger/http_url.cc:165-172 | removing a name takes out exactly its pairs |
| UrlQuery.RemoveUndoesAdd | messenger/http_url.cc:134-163 | removing a newly added parameter restores the whole map |
| UrlQuery.TokenMeans | messenger/http_url.cc:296-306 | a token is its name, or its name up to the first "=", that sign and its value |
| UrlQuery.AddTokensMeans | messenger/http_url.cc:290-309 | the parsed query holds exactly the named parameters that the non-empty tokens denote |
| UrlQuery.QueryRoundTrip | messenger/http_url.cc:344-369 | printing a delimiter-free query map and parsing the text gives the same map of value sets |
| UrlQuery.PrintsQueryText | messenger/http_url.cc:344-369 | the nested printing loops with their two counters print exactly the '&'-join of name=value, without a stray separator |
| UrlQuery.ParamsListStoredPairsOnce | messenger/http_url.cc:347-368 | that join lists every stored pair once and nothing else |
| UrlQuery.LessIff | messenger/http_url.cc:347-354 | the order of names and values is the order of the first difference, a proper prefix being smaller |
| UrlQuery.PrintedAscending | messenger/http_url.cc:347-354 | names are printed in strictly ascending order, stated by that difference |
| UrlQuery.ValuesAscending | messenger/http_url.cc:353-362 | and so are the values of each name |
| Url.CallsKeepSound | messenger/http_url.cc:50-172 | no sequence of builder calls and parses stores an abnormal segment, an empty name or an empty value set |
| Url.EveryBuilderPrintsCanonically | messenger/http_url.cc:320-377 | so the printer's empty-set branch is never taken and every reachable builder prints its canonical text |
| Url.AddSegmentMeans | messenger/http_url.cc:50-57 | an ordinary segment is appended, ".." drops the last one if there is one, "" and "." do nothing |
| Url.AddSegmentsMeans | messenger/http_url.cc:59-72 | adding a path changes the segments only, as remove_dot_segments would |
| Url.SetSegmentMeans | messenger/http_url.cc:100-119 | index by index: only the segment at the given index changes, and only to an ordinary one |
| Url.RemoveSegmentMeans | messenger/http_url.cc:121-132 | index by index: segments behind a valid index move up by one, nothing else changes |
| Url.QueryCallsMean | messenger/http_url.cc:134-172 | pair by pair: what the three query calls add and take out, the other fields staying as they are |
| Url.SettersMean | messenger/http_url.cc:13-181 | schemes other than https become http, ports outside 1..65535 become -1, an empty fragment is ignored; all other fields stay |
| UrlRequest.TargetIff | messenger/http_request.h:30-36 | the request target is path, query and fragment of the canonical URL if and only if the host has no colon, and the port is set or the scheme is not https |
| UrlRequest.UnsetHttpsPort | messenger/http_request.h:32-34 | with https and an unset port the target starts with the last digit of 443 |
| UrlRequest.TargetCompletesIff | messenger/http_request.h:32-34 | scheme, "://", host, ":", port and the target make up the canonical URL if and only if the host has no colon, and the port is set or the scheme has no default port |
| UrlRequest.EncodedPathIff | messenger/http_url.cc:441-451 | EncodedPath is the printed path if and only if there is a segment; otherwise it returns query and fragment from their first slash on, and throws if they have none |
| UrlRequest.EncodedQueryIsPrinted | messenger/http_url.cc:453-466 | EncodedQuery is the printed query |
| UrlRequest.SetUrlIff | messenger/http_request.h:38-45 | the same condition for the target over all well-formed texts |
| UrlRequest.SetUrlTarget | messenger/http_request.h:38-45 | for well-formed texts with a segment and a port the target is EncodedPath, "?" EncodedQuery, "#" fragment, and completes the prefix to the canonical URL |
| UrlRequest.RefusedTextThrows | messenger/http_request.h:38-45 | a text the parser does not accept makes SetUrl throw |
| UrlCode.Builder.Scheme | messenger/http_url.cc:13-27 | anything but https becomes http; the builder step |
| UrlCode.Builder.Port | messenger/http_url.cc:40-48 | a port outside 1..65535 becomes -1; the builder step |
| UrlCode.Builder.Push | messenger/http_url.cc:86-98 | the builder step on the segments |
| UrlCode.Builder.Pop | messenger/http_url.cc:79-84 | drops the last segment; an empty list stays empty |
| UrlCode.Builder.AddEncodedPathSegment | messenger/http_url.cc:50-57 | the builder step |
| UrlCode.Builder.AddEncodedPathSegments | messenger/http_url.cc:59-72 | the loop over the pieces is PushAll over Split |
| UrlCode.Builder.SetEncodedPathSegment | messenger/http_url.cc:100-119 | overwrites exactly the segment at a valid index with a normal segment, else nothing |
| UrlCode.Builder.RemovePathSegment | messenger/http_url.cc:121-132 | removes exactly the segment at a valid index, else nothing |
| UrlCode.Builder.AddEncodedQueryParameter | messenger/http_url.cc:134-148 | adds one value to one name; a nameless parameter is ignored |
| UrlCode.Builder.RemoveEncodedQueryValue | messenger/http_url.cc:150-163 | removes one value, and the name with its last value |
| UrlCode.Builder.RemoveEncodedQueryName | messenger/http_url.cc:165-172 | removes a name |
| UrlCode.Builder.AddEncodedFragment | messenger/http_url.cc:174-181 | sets a non-empty fragment |
| UrlCode.Builder.Parse | messenger/http_url.cc:190-240 | outcome (accepted, refused, thrown) and all fields are those of Url.Parse |
| UrlCode.Builder.ReadHostAndPort | messenger/http_url.cc:242-269 | host, and port from digits or default |
| UrlCode.Builder.ReadQuery | messenger/http_url.cc:290-309 | the token loop is AddTokens over Split |
| UrlCode.Builder.ToString | messenger/http_url.cc:320-377 | prints Url.Printed |
| UrlCode.PrintQuery | messenger/http_url.cc:344-369 | the outer loop over names in map order with paramIndex |
| UrlCode.PrintValues | messenger/http_url.cc:353-362 | the inner loop over values in set order with valuesIndex |
| UrlCode.Construct | messenger/http_url.cc:388-418 | HttpUrl(text): empty on refusal, exception if the parser throws |
| UrlCode.HttpRequest.SetHttpUrl | messenger/http_request.h:30-36 | sets URL, host field and target, or throws when the URL is too short |
| UrlCode.HttpRequest.SetUrl | messenger/http_request.h:38-45 | sets URL and host field unless the parser throws, and then the target, or throws when the URL is too short |
| SchedulerSafety.RunsKeepInv | thread/scheduler.cc:57-99 | every run keeps order, numbering, thread count, wake-up, stop and conservation invariants |
| SchedulerSafety.NoWakeupIsLost | thread/scheduler.cc:27-51 | for any number of threads: with a function queued, no stop and no notification owed, some thread is active or in a timed wait that ends no later than the first point; after Stop's notify_all nobody stays in the untimed wait |
| SchedulerSafety.NothingLostOrDuplicated | thread/scheduler.cc:45-51 | every scheduled function is at any time queued, executed by one thread, or finished, and only one of these |
| SchedulerSafety.ExtractsStableMinimum | thread/scheduler.cc:84-85 | an extraction takes the minimal point, first in first out among equal points |
| SchedulerSafety.ThreadCountIsUnexited | thread/scheduler.cc:22-25 | thread_count_ is the number of unexited threads, so 0 after the joins |
| SchedulerSafety.DrainLosesNothing | thread/scheduler.cc:27-43 | with only Stop(true) a thread exits only on an empty queue, and when all have exited every scheduled function has finished exactly once |
| SchedulerProgress.DrainCanCompleteIff | thread/scheduler.cc:27-99 | from every state reachable after Stop(true) and without Stop(false) some continuation runs everything scheduled and lets all threads leave, if and only if a thread is left or nothing is queued |
| SchedulerProgress.RunFirst | thread/scheduler.cc:57-96 | in any state without Stop(false), each thread that has not left can take and finish the first function, the other threads standing still |
| SchedulerProgress.ExpiredWaitStartsFirst | thread/scheduler.cc:71-89 | a thread whose timed wait expired takes and starts the first function, draining or not, unless Stop(false) was called |
| SchedulerProgress.ThreadLeavesIff | thread/scheduler.cc:76-98 | a thread with the lock leaves if and only if Stop(false) was called, or Stop(true) and nothing is queued |
| SchedulerProgress.ThreadWaitsIff | thread/scheduler.cc:63-74 | it waits without a deadline if and only if nothing is queued and no stop was called, and until the first point if and only if something is queued and its wait has not expired |
| SchedulerProgress.StopSetsFlag | thread/scheduler.cc:27-36 | which flag Stop sets, and that it owes a notify_all |
| SchedulerProgress.ScheduleQueues | thread/scheduler.cc:45-51 | a scheduled function joins the queue under the next number and a notification is owed |
| SchedulerProgress.NotificationsWake | thread/scheduler.cc:36-50 | notify_one takes one waiting thread out of its wait, notify_all every one, and no other thread changes |
| SchedulerSafety.StopRequestedStartsNothing | thread/scheduler.cc:76-96 | after Stop(false) no function is taken from the queue, whatever happens |
| SchedulerProgress.AfterStopNothingStarts | thread/scheduler.cc:27-43 | from the call of Stop(false) on, in any continuation, no function starts and none leaves the queue |
| SchedulerTiming.SingleThreadNeverEarly | thread/scheduler.cc:68-85 | with one service thread no function starts before its point |
| SchedulerTiming.SeveralThreadsCanBeEarly | thread/scheduler.cc:71-85 | with two or more threads there is a run that starts a function early |
| SchedulerTiming.NeverEarlyIffSingleThread | thread/scheduler.cc:57-99 | never early in any run if and only if there is one thread |
| SchedulerCode.SharedQueue.constructor | thread/scheduler.cc:13-20 | the initial shared fields |
| SchedulerCode.SharedQueue.RequestStop | thread/scheduler.cc:27-35 | sets exactly one flag |
| SchedulerCode.SharedQueue.Emplace | thread/scheduler.cc:45-49 | inserts behind all entries with a point not later |
| SchedulerCode.SharedQueue.ProcessFunctionQueue | thread/scheduler.cc:57-99 | from lock to release the nested loops do exactly the step Resume |
| Periodic.NoDrift | thread/worker.cc:121-136 | the k-th target is T_0 + k * period plus the gaps between the two clock readings, whatever lateness and durations, also with negative delays |
| Periodic.OneInstance | thread/worker.cc:121-136 | at most one instance is scheduled, posted or running, none exactly once the chain has ended; its point is the arming time plus the delay, 0 for a negative one, short by less than 1 ms, and so later than its target minus 1 ms |
| Periodic.ChainGoesOn | thread/worker.cc:121-136 | a scheduled instance can be posted, a posted one started, a task that returns true is scheduled again one period and one gap after its last target, one that returns false ends the chain |
| Periodic.EndedStaysEnded | thread/worker.cc:125-135 | an ended chain never arms again |
| ThreadPool.GetLessUsedWorker | thread/thread_pool.cc:42-50 | returns the last worker of minimal use count |
| ThreadPool.LastMinimumUnique | thread/thread_pool.cc:42-50 | that worker is unique |
| ThreadPool.StartIsEqual | thread/thread_pool.cc:42-50 | the counts the round robin starts from are all equal |
| ThreadPool.RoundRobin | thread/thread_pool.cc:42-50 | from equal counts with every pick retained, pick i is worker n-1-(i mod n) and counts never differ by more than one |
| Websocket.StepKeepsValid | messenger/websocket_session.cc:224-252 | each step keeps: one write in flight if and only if the queue is non-empty, for its front; completed, queue and posted make up what was sent; a failed session writes nothing |
| Websocket.OutputIsInOrder | messenger/websocket_session.cc:224-252 | over all runs the written messages are a prefix of those sent, in order |
| Websocket.FailureIsFinal | messenger/websocket_session.cc:237-241 | after a write error no write ever starts again and the output is final |
| Websocket.PostSends | messenger/websocket_session.cc:52-62 | posting adds the message to what was sent and waits |
| Websocket.AllCanBeWritten | messenger/websocket_session.cc:224-252 | in every session without a write error some continuation writes everything sent, in order |
| WebsocketCode.WebsocketSession.SendMsg | messenger/websocket_session.cc:52-62 | posts to the executor, or drops the message when not connected |
| WebsocketCode.WebsocketSession.OnSend | messenger/websocket_session.cc:224-235 | the step OnSend |
| WebsocketCode.WebsocketSession.OnWrite | messenger/websocket_session.cc:237-252 | the step OnWrite, with and without error |
| SignallingFifo.RunsKeepInv | core/licode_room.cc:65-95 | every run keeps the ledgers of both kinds in agreement with the ids under way |
| SignallingFifo.PendingMirrorsFlight | core/licode_room.cc:86-95 | in every run the pending queue equals, oldest first, the ids of acks at the worker, acks on the wire, requests at the server, on the wire, in the write queue and posted to it, if and only if no request of that kind was dropped |
| SignallingFifo.AcksFollowOrder | core/licode_room.cc:228-245 | the i-th acknowledgement answers the i-th request sent and is credited to the i-th stream pushed; with nothing dropped these agree |
| SignallingFifo.NeverPopsEmpty | core/licode_room.cc:233-234 | no acknowledgement ever finds its queue empty, dropped requests or not |
| SignallingRouting.ConnectionLandsOnAsker | core/licode_room.cc:241 | as long as every acknowledgement was credited to the stream it answered, in particular without dropped subscriptions, a remote stream's connection id is one the server allocated for that stream |
| SignallingPublishing.ConnectionLandsOnPublisher | core/licode_room.cc:250-262 | in every run a local entry has a connection of a publication and a client's object the id that goes with its connection; with matched publish acknowledgements, in particular with nothing dropped, a client's object stored under an id (one the room made for an announcement may have replaced it) is one whose request was answered with that id, and its connection answers its own request; if no object was published twice, every entry carries its own id and the connection allocated for it |
| SignallingPublishing.ObjectFromOneAnswer | core/licode_room.cc:259-262 | id and connection of a client's object come from one and the same answer |
| SignallingPublishing.OwnIdIff | core/licode_room.cc:260-262 | an entry carries its own id if and only if the last acknowledgement taken for its object was for that id |
| SignallingRouting.HashOrderIrrelevant | core/licode_room.cc:325-337 | with distinct connection ids and no null entry the search result does not depend on the traversal order |
| SignallingHazards.SearchSafeIffNoNulls | core/licode_room.cc:300-337 | the search loops are safe under every traversal order if and only if the map has no null entry |
| SignallingHazards.FaultIff | core/licode_room.cc:228-403 | for every unfaulted room and task: some hash order makes the task dereference null if and only if the acknowledged stream is gone, a search meets a null entry (in the local map only if no remote stream holds the connection), a description is sent for a stream that is not remote, or a candidate for one that is neither remote nor local |
| SignallingHazards.NextTaskFaultsIff | core/licode_room.cc:228-403 | the same for the next task in every reachable state |
| SignallingHazards.GuardIff | core/licode_room.cc:65-403 | a task leaves a sound room (no fault, no null remote entry, every pending stream known) sound under every hash order if and only if it subscribes to a known stream, removes none that is pending, sends candidates and descriptions only for remote streams, and reports readiness only of a connection a remote stream holds or while the local map has no null entry |
| SignallingHazards.GuardedIffStaysSound | core/licode_room.cc:65-403 | over runs: every executed task respected that guard if and only if the room stayed sound whatever the hash orders |
| SignallingHazards.GuardedRunsNeverFault | core/licode_room.cc:65-403 | in a guarded run no handler faults and the room stays sound |
| SignallingOffers.OfferIsExact | core/licode_room.cc:325-337 | in every run with matched acknowledgements an offer is reported for the stream its connection was allocated for if that stream still holds the connection, for none otherwise, or the handler meets a null entry, which it cannot in a guarded run |
| SignallingOffers.ReadyIsExact | core/licode_room.cc:300-323 | likewise a readiness event marks exactly the subscribed remote stream that still holds the connection; for a publication it marks a local object that holds it, which is, if the publish acknowledgements were matched and no announcement replaced it, the object whose request the connection answers, and the one stored under the answered id if no object was published twice; it changes nothing otherwise |
| SignallingOffers.OffersNeverMisdelivered | core/licode_room.cc:325-337 | over whole runs, guarded or not: no offer is ever reported for another stream than the one its connection was allocated for |
| SignallingOffers.OffersReachTheirStream | core/licode_room.cc:325-337 | in careful runs (requests run while connected, a subscribed stream is neither removed nor announced or subscribed to again, and the guard holds) every offer does reach the stream that asked |
| SignallingOffers.ReadinessReachesItsStream | core/licode_room.cc:300-323 | in careful runs no readiness event faults, and one for a subscription finds and marks its stream |
| SignallingTasks.ReadinessConnectsOne | core/licode_room.cc:300-323 | in every run with matched subscriptions, if the handler does not fault: readiness of a published connection in the local map sets the connected mark of one object that is stored with it, readiness of a subscription that of its stream, and nothing else in the room changes |
| SignallingTasks.ListedStreamGetsConnection | core/licode_room.cc:151-245 | over runs: a stream of the join response that is not removed gets its connection from the acknowledgement of a subscription to it, without a fault, provided that no subscribe request was dropped |
| SignallingTasks.ExistingMeans | core/licode_room.cc:151-156 | entry by entry: an absent stream is stored without connection, a present one keeps its entry |
| SignallingTasks.AnnouncedRemote | core/licode_room.cc:185-209 | entry by entry: an announced stream without a local object becomes remote, also when the local map has a null entry for it, and leaves a null local entry |
| SignallingTasks.AnnouncedLocal | core/licode_room.cc:196-199 | an announced stream with a local object gets a new unconnected object with the old connection; no other object and no remote entry changes |
| SignallingTasks.RemovedMeans | core/licode_room.cc:211-226 | entry by entry: the stream is gone, everything else stays |
| SignallingTasks.AskedMeans | core/licode_room.cc:65-95 | a request pushes its id to the queue of its kind and is handed over, whatever the connection |
| SignallingTasks.SubscribedMeans | core/licode_room.cc:228-245 | the stream in front of the queue gets the connection and keeps its mark; every other entry stays |
| SignallingTasks.PublishedMeans | core/licode_room.cc:247-264 | the object in front of the queue gets id and connection, keeps its mark and is stored under the id; every other object and entry stays |
| SignallingTasks.CandidateSentIff | core/licode_room.cc:385-403 | a candidate is sent if and only if the stream is remote or local, else the task faults; null entries are inserted where it was looked for |
| SignallingTasks.DescriptionSentIff | core/licode_room.cc:354-383 | a description is sent if and only if the stream is remote, else the task faults |
| SignallingTasks.TransportMeans | core/licode_room.cc:65-95 | calls and received messages queue up behind the tasks of the worker; a request reaches the socket if and only if the client is connected |
| SignallingTasks.TaskTaken | core/licode_signaling.cc:230-234 | a step of the worker takes its first task, performs it, and posts its message if connected |
| SignallingExamples.RemovingPendingStreamFaults | core/licode_room.cc:211-241 | a run in which removing a pending stream makes the acknowledgement handler dereference null |
| SignallingExamples.CandidateOfPublishedStreamFaults | core/licode_room.cc:392-394 | a run in which a candidate for a published stream inserts a null remote entry that the next search dereferences |
| SignallingExamples.ReadinessOfPublishedStreamFaults | core/licode_room.cc:196-201 | a run in which announcing a remote stream inserts a null local entry that the readiness event of a published stream dereferences |
| SignallingExamples.DroppedRequestMisroutes | core/licode_signaling.cc:230-234 | a run in which a dropped request makes the next acknowledgement land on the wrong stream |
| SignallingExamples.DroppedPublicationMisroutes | core/licode_room.cc:250-262 | a run in which a dropped publish request makes the first object carry the id and connection of the second |
| SignallingExamples.RepublishedObjectIsShared | core/licode_room.cc:250-262 | a run in which one object published twice is stored under both ids with the second connection |
| SignallingCode.LicodeRoom.SubscribeStream | core/licode_room.cc:86-95 | the worker task, as the step Ask |
| SignallingCode.LicodeRoom.PublishStream | core/licode_room.cc:65-75 | the worker task, as the step Ask; the object is named by a number |
| SignallingCode.LicodeRoom.OnSubscribeStream | core/licode_room.cc:228-245 | the worker task, as the step Ack, with its two faults |
| SignallingCode.LicodeRoom.OnPublishStream | core/licode_room.cc:247-264 | the worker task, as the step Ack: the popped object gets id and connection and is stored |
| SignallingCode.LicodeRoom.OnExistingStream | core/licode_room.cc:151-156 | the task for a stream of the join response: emplace keeps what is there |
| SignallingCode.LicodeRoom.OnAddStream | core/licode_room.cc:185-209 | the worker task, including the null entry that operator[] inserts |
| SignallingCode.LicodeRoom.OnRemoveStream | core/licode_room.cc:211-226 | erases exactly the stream |
| SignallingCode.LicodeRoom.Search | core/licode_room.cc:328-333 | the search loop: first match in traversal order, or a null entry before it, or no match |
| SignallingCode.LicodeRoom.SearchLocal | core/licode_room.cc:313-319 | the same loop over the local map, through the shared objects |
| SignallingCode.LicodeRoom.ReceiveOffer | core/licode_room.cc:325-337 | what is reported to the observer |
| SignallingCode.LicodeRoom.OnPeerConnectionConnectErizoReady | core/licode_room.cc:300-323 | remote streams first, then local ones |
| SignallingCode.LicodeRoom.SendIceCandidate | core/licode_room.cc:385-403 | both lookups insert what they do not find |
| SignallingCode.LicodeRoom.SendDescription | core/licode_room.cc:354-383 | SendAnswer and SendOffer: the remote lookup inserts what it does not find |
| Framing.DispatchIff | core/licode_signaling.cc:114-143 | a message reaches handler h with body b if and only if it is h's header followed by b and b does not begin with a digit |
| Framing.HeaderTexts | core/licode_signaling.cc:18-48 | the eight headers as texts |
| Framing.ReactionIsExact | core/licode_signaling.cc:114-143 | each header reaches its own handler with exactly the body, any other digit prefix changes nothing, only the session packets change the state |
| Framing.LicodeSignaling.ExtractNumber | core/licode_signaling.cc:118-121 | the longest digit prefix |
| Framing.LicodeSignaling.OnWebsocketMsg | core/licode_signaling.cc:124-142 | state and action are those of React |
| CallbackListSafety.RunsKeepInv | third/webrtc/include/base/callback_list.h:187-230 | every nesting of Add, Cancel and Notify keeps the list and frame invariants |
| CallbackListSafety.CursorsStayValid | third/webrtc/include/base/callback_list.h:202-206 | every active cursor designates a node of the list or its end |
| CallbackListSafety.NoUnlinkWhileNotifying | third/webrtc/include/base/callback_list.h:244-249 | no node is unlinked while a Notify is active |
| CallbackListSafety.NoNullsOutsideNotify | third/webrtc/include/base/callback_list.h:213-219 | without an active Notify the list has no null entry |
| CallbackListSafety.FrameRunsLiveEntriesInOrder | third/webrtc/include/base/callback_list.h:197-206 | at any time a frame has run, once each and in list order, exactly the entries it passed except those null at that moment |
| CallbackListSafety.FinishedFrameIsComplete | third/webrtc/include/base/callback_list.h:202-206 | when a frame leaves its loop, a live entry was run by it if and only if it was not added while the frame's last callback was running |
| CallbackListPasses.NotifyRunsAllRegistered | third/webrtc/include/base/callback_list.h:187-207 | start a Notify in any reachable state and let anything happen until its loop is about to end: every callback registered at the start and not cancelled has been run since, and whatever is registered then and was not run by this loop was added after its start |
| CallbackListPasses.NotifyStartsIff | third/webrtc/include/base/callback_list.h:187-195 | a Notify starts a loop if and only if a callback is registered |
| CallbackListPasses.RoundRunsOrLeaves | third/webrtc/include/base/callback_list.h:202-207 | a round runs one registered callback, or leaves the loop if none is left |
| CallbackListPasses.OnlyRoundsRun | third/webrtc/include/base/callback_list.h:202-206 | nothing else runs callbacks |
| CallbackListPasses.LoopEnds | third/webrtc/include/base/callback_list.h:197-206 | without further events every loop is about to end after finitely many rounds |
| CallbackListPasses.AddRegisters | third/webrtc/include/base/callback_list.h:139-144 | adding registers a new callback behind all others and changes no entry |
| CallbackListPasses.StaysRegistered | third/webrtc/include/base/callback_list.h:213-219 | no step but its own cancellation takes a callback out |
| CallbackListPasses.CancelStops | third/webrtc/include/base/callback_list.h:240-255 | from the cancellation on the callback is not registered and not run, in any continuation; the other callbacks stay registered |
| CallbackListSafety.CancelledNeverRunsAgain | third/webrtc/include/base/callback_list.h:240-255 | a cancelled callback never runs again in any continuation |
| CallbackListSafety.RemovalCallbackIffUnlinked | third/webrtc/include/base/callback_list.h:218-229 | the removal callback runs exactly when nodes are unlinked |
| CallbackListCode.RepeatingCallbackList.Add | third/webrtc/include/base/callback_list.h:139-144 | the step Add |
| CallbackListCode.RepeatingCallbackList.CancelCallback | third/webrtc/include/base/callback_list.h:240-255 | the step Cancel |
| CallbackListCode.RepeatingCallbackList.IsEmpty | third/webrtc/include/base/callback_list.h:165-168 | whether no live callback remains |
| CallbackListCode.RepeatingCallbackList.BeginNotify | third/webrtc/include/base/callback_list.h:187-192 | the step Notify |
| CallbackListCode.RepeatingCallbackList.FindValid | third/webrtc/include/base/callback_list.h:197-201 | the next live entry from the cursor |
| CallbackListCode.RepeatingCallbackList.Iterate | third/webrtc/include/base/callback_list.h:202-206 | one round of the loop, as the step Iterate |
| CallbackListCode.RepeatingCallbackList.EraseNulls | third/webrtc/include/base/callback_list.h:218-219 | the list without its null entries, in order |
| CallbackListCode.RepeatingCallbackList.LeaveLoop | third/webrtc/include/base/callback_list.h:207-219 | restores the flag; only the outermost frame prunes |
| ObserverListSafety.RunsKeepInv | third/webrtc/include/base/observer_list.h:126-164 | every run keeps the vector and iterator invariants |
| ObserverListSafety.VectorOnlyGrows | third/webrtc/include/base/observer_list.h:280-317 | while some iterator is live at every point, the passes overlapping as they may, the vector only grows and entries only change to removed |
| ObserverListSafety.IteratorKeeps | third/webrtc/include/base/observer_list.h:126-137 | an iterator that stays live keeps its bound, and its visits only grow |
| ObserverListSafety.CompactWithoutIterators | third/webrtc/include/base/observer_list.h:325-331 | with no live iterator the vector holds no removed entry |
| ObserverListSafety.FullPass | third/webrtc/include/base/observer_list.h:209-222 | a pass at its end has visited, once each and in insertion order, every observer still in the list that the caller did not skip by incrementing without reading: all of them under ALL, exactly those within the starting length under EXISTING_ONLY |
| ObserverListPasses.PassVisitsAll | third/webrtc/include/base/observer_list.h:126-222 | begin a pass in any reachable state with observers and let anything happen, every increment following a read, until it is at its end: of the observers then in the list it has visited exactly all under ALL and exactly those there at its beginning under EXISTING_ONLY, each once and in order |
| ObserverListPasses.AttentiveRunsReadAll | third/webrtc/include/base/observer_list.h:173-207 | in runs in which every increment follows a read, no iterator leaves an observer unread |
| ObserverListPasses.BeginMeans | third/webrtc/include/base/observer_list.h:126-137 | a new iterator has visited nobody, stands at the first observer not removed, and has the bound of its policy |
| ObserverListPasses.CopyMeans | third/webrtc/include/base/observer_list.h:144-148 | a copy stands where the original stands and moves on its own |
| ObserverListPasses.VisitsAreReads | third/webrtc/include/base/observer_list.h:202-207 | only a dereference adds a visit, of the live observer at the index, once |
| ObserverListPasses.IncrementMeans | third/webrtc/include/base/observer_list.h:173-179 | an increment passes only removed entries and stops at a live one or at the bound |
| ObserverListSafety.ExistingOnlyIgnoresAdditions | third/webrtc/include/base/observer_list.h:126-137 | under EXISTING_ONLY no visit is to a position added after the pass began |
| ObserverListSafety.RemovedNotVisited | third/webrtc/include/base/observer_list.h:209-216 | an observer removed before its turn is not visited |
| ObserverListSafety.ViewIsAPlainList | third/webrtc/include/base/observer_list.h:269-331 | what a client sees is a plain list: add appends once, remove takes out, clear empties, iterators and compaction change nothing |
| ObserverListCode.ObserverVector.FindObserver | third/webrtc/include/base/observer_list.h:297-306 | the first position of a live observer |
| ObserverListCode.ObserverVector.AddObserver | third/webrtc/include/base/observer_list.h:269-276 | the step Add |
| ObserverListCode.ObserverVector.RemoveObserver | third/webrtc/include/base/observer_list.h:280-294 | the step Remove |
| ObserverListCode.ObserverVector.ClearAll | third/webrtc/include/base/observer_list.h:309-317 | the step Clear |
| ObserverListCode.ObserverVector.EnsureValidIndex | third/webrtc/include/base/observer_list.h:209-216 | the first position from the index that is live or at the bound |
| ObserverListCode.ObserverVector.Compact | third/webrtc/include/base/observer_list.h:325-331 | the vector without removed entries, in order |
| ObserverListCode.ObserverVector.BeginIteration | third/webrtc/include/base/observer_list.h:126-137 | the step Begin; an empty list gives an unattached iterator |
| ObserverListCode.ObserverVector.DestroyIterator | third/webrtc/include/base/observer_list.h:139-142 | the step Destroy; the last iterator compacts |
| ObserverListCode.ObserverVector.GetCurrent | third/webrtc/include/base/observer_list.h:202-207 | the observer at the index |
| ObserverListCode.ObserverVector.IncrementIterator | third/webrtc/include/base/observer_list.h:173-179 | the step Increment |

## Left out

- Network I/O: resolving, connecting, handshakes, reads and closes; only first-in first-out posting to a single-threaded executor is kept, and the server is assumed to answer each kind of request once and in order, with a fresh non-empty connection id for every request, and to send offers and readiness events only for connection ids it has given out, behind the answer that gave them.
- JSON and packet builders, HMAC and base64 of the Nuve API, WebRTC glue, rendering, logging and the demo program.
- Leaving and rejoining a room: one connection is modelled, with signalling going up and down during it. The join response only contributes its list of streams; its clearing of the remote map is not modelled, on the assumption that nothing touched that map before joining. Observer callbacks of the room other than reported offers, and the erizo id, are not modelled; unsubscribing and unpublishing are messages without a reply (`Notice`).
- Task cancellation through `ScheduledTaskReference`: the reference returned on the success path is null, so it cannot be reached.
- Exceptions thrown by scheduled functions: the scheduler aborts the process.
- `HttpUrl::Builder::Host` has no defined result (it writes through `begin()` of a cleared string); hosts come from `Parse`. Hosts with a colon are printed in brackets and never parsed back; they are outside `UrlRoundTrip.WellFormed`.
- `WebsocketSession::ParseUrl`: a weaker copy of the URL parser.
- `OnceCallbackList`, destroying a list during iteration, weak-pointer lifetimes; assignment of observer iterators, which is a destruction followed by a copy.
- Text.Atoi: does not model overflow of int, which is undefined for std::atoi; characters are compared and lowered as in the C locale.
- Text.Split: stands for std::sregex_token_iterator, which yields the same non-empty tokens; empty ones are skipped by all callers.
- Framing.LicodeSignaling.ExtractNumber: takes `^` as the start of the message only, not of a later line.
- UrlRoundTrip.ParseWellFormed: does not say what is read from texts with '#' before '?', or with a ':' in the path and no port (`UrlRoundTrip.HostReadIff` says that the host is then wrong); `Url.Parse` models what the code does with them.
- UrlCanonical.CanonicalisationIff: asks for a text without blanks, and for no '?' in the fragment unless a query parameter was read, because the first '?' ends the path.
- ThreadPool.GetLessUsedWorker: reads all use counts at one moment, while other threads may change them during the loop.
- Sharing of remote stream objects: only the local map stores objects that came from the client, so only those are addressed through references; a client that publishes an object it got for a remote stream is not modelled.
