# A verified model of rtz-server

rtz-server receives driving logs and camera files from comma devices ("dongles"), folds the logs into
route rows, serves the uploaded files and their HLS playlists, and relays RPC calls between a web site
and connected devices. This project models the parts of it where several pieces have to agree, and
proves what they promise. All paths below are files of the repository.

## What is modelled

**The log queue** (`internal/logparser`). `Dispatch` is a transition system with any number of works and
workers; each step is one channel, counter, map or row operation of the code, in the code's order, so a
worker's `Store` comes after its `go` statement. Counting, conservation and the bound on parallel work
hold under every interleaving. `PromptDispatch` adds the schedule the exclusion map relies on (no `Load`
of a dongle while a spawned worker of that dongle has not stored itself) and proves exclusion, that no
update is lost, and that every route row is a sequential fold of exactly the jobs that succeeded.
Without that schedule it exhibits the lost update. `ParserLimit` says exactly which configurations need no
such schedule: those that allow one parser at a time. `LogQueues` is the object itself: the body of the
dispatcher's loop, a rotation of the queue and a whole job as methods over fields, tied to runs of the
transition system. `Decoder` is the event loop of a log, `Routes` the in-place update of a route.

**The RPC correlator** (`internal/server/websocket`). `Sessions` is the life cycle of connections as a
transition system, `RpcWebsockets` the object with its shared channel objects, `Correlator` the whole path
of calls and replies over any number of sessions, calls and device messages, `ChannelWatchers` the
watcher object, `NatsRetry` the request loop of the remote path, and `RemoteCalls` puts the two ends of a
remote call together.

**Uploaded routes** (`internal/server/controllers`). `UploadNames` has the regexes, directory names and
URLs; `UploadIndex` the index and the lookup of a segment's directory; `SegmentMetadata` the merge with
stored segments; `Playlist` the HLS playlist.

**Small algorithms.** `Luhn`, `Int64Arrays` (over `Strconv` and `Text`), the wall-clock arithmetic in
`Routes` (over `MachineInts`), and `MkdirAll`.

## What the code does that one might not expect

- The dispatcher is the only receiver of its queue and also sends to it. Once more than 100 works are
  pending, its re-enqueue can block for ever (`Dispatch.WedgeIffOverfull`, `Dispatch.WedgeIsReachable`).
- A dongle looked up between another worker's `go` and its `Store` is not seen as busy, and then a saved
  segment can be overwritten (`PromptDispatch.LostUpdateRun`). The default of four parallel parsers allows
  this; exactly a limit of one rules it out (`ParserLimit.ExclusionIffOneParser`,
  `ParserLimit.NoUpdateLostIffOneParser`).
- The two clock fields of a route are latched separately, so that they can come from two recordings
  (`Routes.LatchedPairCanMixSegments`), exactly when a recording with untimed clocks events alone comes
  before the first one with a timed one (`Routes.RecordingsLatchTogetherIff`).
- A device that reconnects before its old handler has taken its session out of the map can lose the new
  session (`Sessions.OverlapOrphansNewSession`); after that point it cannot
  (`Sessions.ReconnectIsSafeIff`).
- A call repeated under the same id, as the NATS retry loop does after a timeout, takes the subscriber of
  the earlier one, which is then never answered (`Correlator.RepeatedIdStarvesCall`).
- A reconnect also strands the calls that wait on the old session: `OnMessage` looks the dongle up again, so
  a reply read from then on goes to the new session's watcher, which does not know the call
  (`Correlator.ReconnectStrandsCall`).
- Stored segment numbers count from 1 and uploaded ones from 0, and the playlist indexes the merged times
  with positions in the uploaded list: a file can be given another segment's duration
  (`Playlist.ShiftedIndex`).
- A route name that still has a colon after its last one is cut off yields URLs that do not lead back to
  the listed directory (`UploadNames.ColonHidesDirectory`).
- `MkdirAll` succeeds when a plain file already has the path's name (`MkdirAll.FileIsEnough`), and only then
  leaves something else than a directory (`MkdirAll.SuccessIsDirectoryIff`).

## Model

| member | source | states |
|---|---|---|
| Decoder.DecodeSegmentData | internal/logparser/parser.go:54-197 | The event loop fails with the error of the first unreadable item and otherwise returns the summary of the whole stream: last values, first timed clock pair, all accepted positions, path length, whether a start or end marker occurred |
| Decoder.SummarySnoc | internal/logparser/parser.go:70-193 | The summary, defined over the whole stream, moves by exactly the code's update when one event is appended |
| Decoder.PositionsAreReadings | internal/logparser/parser.go:74-110 | The positions of a readable stream are, one for one and in order, its location events with at least three ECEF values: x, y, z are those, latitude and longitude the two geodetic values in that order, or 0, 0 when there are fewer than two |
| Decoder.EndpointsAreReadings | internal/logparser/parser.go:74-110 | The first and the last position are the readings of the first and the last such event |
| Decoder.FinalCarModelIsLast | internal/logparser/parser.go:177-192 | The car model is that of the last init event with a CarModel parameter, and of its parameters the last one so named; later init events without one do not clear it |
| Decoder.CarModelIsLastParam | internal/logparser/parser.go:177-192 | Within one event the last parameter named CarModel counts, and without one the model stays what it was |
| Decoder.DistanceCoversDisplacement | internal/logparser/parser.go:103-107 | For any metric the accumulated distance is at least the distance between the first and the last position |
| Decoder.ClockPairFromOneEvent | internal/logparser/parser.go:122-131 | When every clocks event has non-zero wall and mono time, the pair is that of the first clocks event, and it is zero only if there is none |
| Routes.UpdateRoute | internal/logparser/queue.go:148-213 | The in-place updates of a route compute one step of the fold, for a stored and for a new row |
| Routes.WallTimeIsExact | internal/db/models/route.go:47-49 | Boot-to-wall conversion gives the true result if and only if that fits in 64 bits, even when the intermediate sum wraps |
| Routes.WallTimeIsMonotone | internal/db/models/route.go:47-49 | It is strictly monotone and keeps differences on boot times whose true result fits |
| MachineInts.ConversionsKeepResidue | internal/db/models/route.go:47-49 | The conversions between signed and unsigned 64-bit values keep the value modulo 2^64, within the range of the type |
| Routes.AppendedSpanIsMonoSpan | internal/logparser/queue.go:190-191 | Each appended end minus start is the segment's mono-time difference modulo 2^64, whatever clocks are latched |
| Routes.FoldFromScratch | internal/logparser/queue.go:150-215 | A row folded from nothing has one entry per job in each array, numbers 1..n, the scaled sum of the distances, and is complete exactly if some job saw the end of the route |
| Routes.MilesAreMiles | internal/logparser/queue.go:197-202 | A positive distance in metres is scaled by 0.000621371, which is the mile to six decimals, and any other counts nothing |
| Routes.IdentityFromFirstJob | internal/logparser/queue.go:148-162 | Git data, platform, version and the initial mono time come from the first job alone |
| Routes.StartsAtFirstPosition | internal/logparser/queue.go:185-188 | The start is the first position of the first job that has one other than 0, 0 |
| Routes.StartsNowhere | internal/logparser/queue.go:185-188 | Without such a job it stays at 0, 0 |
| Routes.EndsAtLastPosition | internal/logparser/queue.go:204-209 | The end is the last position of the last folded job that saw the end of the route and has a position |
| Routes.EndsNowhere | internal/logparser/queue.go:204-209 | Without such a job it stays at 0, 0 |
| Routes.StartIsReading | internal/logparser/queue.go:185-188 | From recordings to the row: start latitude and longitude are the first and second geodetic value of the first measured event of the recording that sets the start |
| Routes.EndIsReading | internal/logparser/queue.go:204-209 | The same for the end, with the last measured event of the recording that sets it |
| Routes.EntriesUseClocksSoFar | internal/logparser/queue.go:190-191 | The i-th entries of the time arrays are the i-th job's mono times, converted with the clocks latched by then; later jobs do not revise them |
| Routes.StartsWithFirstTimedJob | internal/logparser/queue.go:178-183 | The start time is set by the first job whose start fits under the clocks latched by then, is never revised, and is unset before such a job |
| Routes.EndsWithLastEndingJob | internal/logparser/queue.go:204-213 | After any number of jobs the end time is that of the last one that saw the end of the route, under the clocks latched by that job, and unset before such a job |
| Routes.ClocksAreLatchedSeparately | internal/logparser/queue.go:172-177 | Each clock field is the first non-zero value among the jobs, in their order |
| Routes.LatchedPairFromOneSegment | internal/logparser/queue.go:172-177 | When each segment has both clock values or neither, the pair is that of the first segment that has one |
| Routes.LatchedPairFromOneEvent | internal/logparser/queue.go:138-177 | For whole recordings with non-zero clocks events, the latched pair is that of the first clocks event of the first processed recording that has one, and zero exactly if there is none |
| Routes.LatchedTogetherIff | internal/logparser/queue.go:172-177 | Both clock fields are latched by one job, or stay unset, exactly if the first wall time and the first mono time are in the same job, or one of them is in none |
| Routes.LatchedPairIsOwnIff | internal/logparser/queue.go:172-177 | On values, with distinct mono times and no wall time without one: the pair is some job's own exactly if no job before the first wall time has a mono time |
| Routes.RecordingsLatchTogetherIff | internal/logparser/queue.go:138-177 | For whole recordings: exactly if no recording before the first one with a timed clocks event contains any clocks event |
| Routes.LatchedPairCanMixSegments | internal/logparser/queue.go:172-177 | Two recordings of one clocks event each whose values mix in one route |
| Dispatch.ParallelismBound | internal/logparser/queue.go:57-77 | In every state of every interleaving the count is the number of workers not yet Dec'd plus the one being started, lies between 0 and the limit, and bounds the active dongles, each of which belongs to a worker between Store and Delete |
| Dispatch.Conservation | internal/logparser/queue.go:55-93 | In every interleaving the added works are, as a multiset, blocked producers, queue, hand and workers together |
| Dispatch.RequeueNeverBlocks | internal/logparser/queue.go:56-77 | While at most QueueDepth works are pending, the dispatcher's re-enqueue is enabled |
| Dispatch.WedgedForever | internal/logparser/queue.go:56-77 | A dispatcher blocked on its own full queue stays so in every continuation and starts nothing more |
| Dispatch.WedgeIffOverfull | internal/logparser/queue.go:23-93 | From a re-enqueue the dispatcher can block without any further upload if and only if more than QueueDepth works are pending |
| Dispatch.WedgeIsReachable | internal/logparser/queue.go:23-93 | Such a run exists from the start, for every limit of at least one |
| PromptDispatch.Exclusion | internal/logparser/queue.go:57-73 | In every prompt run no two workers of one dongle are between Store and Delete, and the keys of activeJobs are exactly the dongles of the workers that are |
| PromptDispatch.RowSharedIff | internal/logparser/queue.go:147-148 | Logs of registered dongles go into one row exactly if dongle and route id agree, whatever their paths |
| PromptDispatch.WorkerKeepsToItsRow | internal/logparser/queue.go:147-215 | A worker reads the row with its own dongle's device and its own route id; its save folds its segment into what it read there and leaves every other row as it is |
| PromptDispatch.NoLostUpdate | internal/logparser/queue.go:57-73 | In every prompt run each route row is the sequential fold, in the order of the saves, of exactly the successful jobs whose dongle belongs to the row's device and whose route id is the row's |
| PromptDispatch.RouteCountsItsJobs | internal/logparser/queue.go:147-215 | After a prompt run a route, stored before or not, has one more entry per successful job of its device and route id, numbers that count on, and a length grown by the scaled sum of their distances |
| PromptDispatch.UnpromptLoadBreaksExclusion | internal/logparser/queue.go:57-73 | Any Load of an unregistered dongle before a spawned worker's Store can go on to two workers of it between Store and Delete, with a free slot or without, if more than one parser is allowed |
| PromptDispatch.UnpromptLoadLosesUpdate | internal/logparser/queue.go:57-73 | From there, the row being stored, both jobs can succeed while the row keeps only the second segment |
| PromptDispatch.LostUpdateRun | internal/logparser/queue.go:55-84 | A complete run that loses an update, from the initial or any other state at rest in which the row is stored |
| ParserLimit.OneParserKeepsAll | internal/logparser/queue.go:55-84 | With one parser at most every interleaving keeps exclusion, exact keys, and rows that are the fold of exactly the successful jobs |
| ParserLimit.ExclusionIffOneParser | internal/logparser/queue.go:57-73 | With any dongle registered, all interleavings keep per-dongle exclusion if and only if at most one parser is configured |
| ParserLimit.NoUpdateLostIffOneParser | internal/logparser/queue.go:55-84 | For a registered dongle's route, no interleaving loses an update if and only if at most one parser is configured or another device has the route id, so that no save is ever taken |
| ParserLimit.NothingSavedWhenRefused | internal/db/models/route.go:16 | While another device's row has the route id, the unique index lets no run store a row for this device |
| LogQueues.LogQueue.AddLog | internal/logparser/queue.go:91-93 | The send completes exactly if the channel has room; otherwise the producer is left blocked with its work |
| LogQueues.LogQueue.DispatchOne | internal/logparser/queue.go:56-77 | One turn of the loop leaves exactly the specified state: started, or put back at the end |
| LogQueues.DispatchedRun | internal/logparser/queue.go:56-77 | That turn is a prompt run of the transition system |
| LogQueues.LogQueue.Rotate | internal/logparser/queue.go:56-77 | As many turns as works queued |
| LogQueues.RotationRun | internal/logparser/queue.go:56-77 | A rotation is a prompt run, so every invariant of those holds of it |
| LogQueues.RotationIsPass | internal/logparser/queue.go:56-77 | A rotation starts the first list of a pass over the queue and leaves the second one queued |
| LogQueues.PassIsWorkConserving | internal/logparser/queue.go:57-77 | A pass starts exactly min(free slots, distinct inactive queued dongles) works of distinct inactive dongles, keeps the rest in order, loses nothing, and ends at the limit or with every queued dongle active |
| LogQueues.LogQueue.ProcessLog | internal/logparser/queue.go:95-216 | The errors in the code's order; the row is folded once on success and untouched on every error |
| LogQueues.SucceedsIff | internal/logparser/queue.go:95-216 | A job has no error exactly if storage and database answer every question, the dongle is registered, the path ends in .bz2 or .zst, every item can be read, and the row is stored or its route id free; then the summary of all items is what is saved |
| LogQueues.UnsupportedIff | internal/logparser/queue.go:96-140 | A log is refused for its name exactly if it opens, its dongle is registered, and its path ends in neither .bz2 nor .zst |
| LogQueues.JobKeepsToItsRow | internal/logparser/queue.go:147-215 | A job folds its segment into the row of its dongle's device and its route id and leaves every other row as it is; that is taken exactly if the row is stored or no row has the route id |
| LogQueues.LogQueue.Finish | internal/logparser/queue.go:66-74 | A job run without interference reaches the state of a whole worker: saved or not, deleted and counted down |
| LogQueues.FinishedRun | internal/logparser/queue.go:66-74 | That state is reached by a run of the transition system |
| Sessions.SessionLifeCycle | internal/server/websocket/websocket.go:94-222 | In every interleaving of connects and disconnects every registered session is open with unclosed channels, and no channel is ever closed twice |
| Sessions.GaugeCountsConnections | internal/server/websocket/websocket.go:132-205 | The gauge of a dongle is its connects minus its disconnects, which is the number of handlers between the two |
| Sessions.ConnectedIsRegistered | internal/server/websocket/websocket.go:132-206 | When a dongle connects only after its earlier handlers are past their LoadAndDelete, every connected handler's own session is the registered one |
| Sessions.OverlapOrphansNewSession | internal/server/websocket/websocket.go:132-206 | When it connects while any earlier handler is not past it, at whatever point that one is, the new handler can end up connected without its registration |
| Sessions.ReconnectIsSafeIff | internal/server/websocket/websocket.go:132-206 | The two together: a connect keeps the registration in all runs without further overlap if and only if all earlier handlers of the dongle are past their LoadAndDelete |
| RpcWebsockets.RPCWebsocket.OnConnect | internal/server/websocket/websocket.go:94-133 | A fresh open session is registered under the dongle, the gauge goes up by one, and all earlier sessions are as before |
| RpcWebsockets.RPCWebsocket.OnDisconnect | internal/server/websocket/websocket.go:204-222 | The gauge goes down by one; the registered session, if any, is taken out and closed, unless NATS is draining; its channels were not closed before |
| RpcWebsockets.ConnectRun | internal/server/websocket/websocket.go:94-133 | An undisturbed OnConnect is a run of the session transition system |
| RpcWebsockets.DisconnectRun | internal/server/websocket/websocket.go:204-222 | An undisturbed OnDisconnect is one too, in each of its three endings |
| RpcWebsockets.UndisturbedCallsKeepInvariant | internal/server/websocket/websocket.go:94-222 | Both keep the invariant of the session life cycle |
| ChannelWatchers.ChannelWatcher.WatchChannel | internal/utils/channel_watcher.go:19-29 | The receive loop dispatches the messages against the subscriber table and leaves the rest of it |
| ChannelWatchers.SubscribeThenWatch | internal/utils/channel_watcher.go:19-33 | After Subscribe the new subscriber, and no other, is called for its id, exactly once, with the first message that carries it; deliveries under all other ids are unaffected |
| ChannelWatchers.FirstMessageWins | internal/utils/channel_watcher.go:19-29 | Exactly the first message of each subscribed key is delivered, to that key's subscriber, in order of arrival |
| ChannelWatchers.RemainingSubscribers | internal/utils/channel_watcher.go:25-27 | A subscriber remains exactly if no message with its key came |
| NatsRetry.RequestLoop | internal/server/websocket/rpc.go:87-132 | The loop returns what its outcomes mean with NAKs left out, in at most four requests more than there were NAKs |
| NatsRetry.CallRemote | internal/server/websocket/rpc.go:79-135 | The remote path, without NATS or with an unmarshallable call included |
| NatsRetry.GivesUpIffFourFailures | internal/server/websocket/rpc.go:87-132 | It gives up exactly if the first four outcomes that are not NAKs are timeouts or missing responders, and then with the non-nil error of the fourth |
| NatsRetry.RepliesIffFirstDecisive | internal/server/websocket/rpc.go:100-132 | A reply is returned exactly if, NAKs left out, fewer than four outcomes came before it and all of those are timeouts or missing responders |
| NatsRetry.FailsIffFirstDecisive | internal/server/websocket/rpc.go:100-129 | Any other transport error and an unreadable reply end the call at once, each with its own error, exactly if they are the first decisive outcome and fewer than four failures came before |
| RemoteCalls.RemoteReplyMatchesCall | internal/server/websocket/rpc.go:79-132 | Across retries and every interleaving on the other server, a response returned over NATS carries the call's id and was delivered to exactly the handler that answered |
| RemoteCalls.AnswerExists | internal/server/websocket/websocket.go:94-194 | For every dongle, id and payload some run, from the connect on, answers a request over NATS with that response |
| RemoteCalls.LocalAnswerExists | internal/server/websocket/rpc.go:137-157 | And so does some run answer a call made on the server that holds the device |
| Correlator.RepliesMatchCalls | internal/server/websocket/rpc.go:137-157 | In every interleaving, for any ids and any device: a returned response carries its call's id, a call gets at most one response, and is forwarded at most once |
| Correlator.LocalCallIsForwarded | internal/server/websocket/rpc.go:137-150 | A new local call whose dongle is in the map gets through: loading, the look at open, the subscription and the send can follow, and leave it forwarded to the registered session, with the table entry under its id |
| Correlator.RejectedIff | internal/server/websocket/rpc.go:72-147 | In every run a local call ends as not connected exactly if its dongle was not in the map when it loaded it, or the session it loaded was closed when it looked |
| Correlator.NatsCallIsForwarded | internal/server/websocket/websocket.go:135-175 | A call that arrives over NATS for a connected handler with an open session gets through to that session |
| Correlator.AbandonedIff | internal/server/websocket/websocket.go:149-185 | In every run a call is abandoned exactly if it timed out after being forwarded, or came over NATS and found its session closed |
| Correlator.FirstReplyFindsSubscriber | internal/server/websocket/rpc.go:141-157 | With fresh ids, a reply the watcher looks up for a call that was forwarded there and not given up finds its subscriber and is returned from that call |
| Correlator.ForwardLogsAcknowledgesTwice | internal/server/websocket/websocket.go:44-72 | A forwardLogs message can be sent to the session twice; with no subscriber under its id both are taken by the watcher and leave the state as it was |
| Correlator.AnswerableIff | internal/server/websocket/websocket.go:28-86 | In every reachable state and for any ids, with the watcher free: a waiting call can still be answered exactly if the table holds it under its id and either a message with that id is already on its way to the session, or the map still holds the session and a connection of the dongle reads messages or is about to |
| Correlator.ReconnectStrandsCall | internal/server/websocket/websocket.go:28-132 | Once another handler of the dongle has stored its session, a call waiting on the old one with no message on its way is never answered |
| Correlator.RepeatedIdStarvesCall | internal/server/websocket/websocket.go:149-153 | After another call subscribes under the same id, the waiting one is never answered |
| Luhn.Checksum | internal/utils/checksum.go:7-24 | The loop is the recursive digit sum modulo ten, and zero for numbers that are not positive |
| Luhn.LuhnValid | internal/utils/checksum.go:3-5 | A non-negative number passes exactly if its digit sum is divisible by ten; a negative one exactly if its last digit is zero |
| Luhn.SumsDifferInTwoDigits | internal/utils/checksum.go:7-24 | Numbers that agree outside two adjacent digits have sums that differ by the terms of those digits alone |
| Luhn.DetectsSingleDigitErrors | internal/utils/checksum.go:3-24 | Two valid numbers never differ in exactly one digit |
| Luhn.DetectsTranspositions | internal/utils/checksum.go:3-24 | Of the adjacent transpositions of different digits exactly 09 and 90 go unnoticed |
| Luhn.DetectsTwinErrors | internal/utils/checksum.go:3-24 | Of the twin errors exactly 22/55, 33/66 and 44/77 go unnoticed |
| Luhn.ExactlyOneCheckDigit | internal/utils/checksum.go:3-24 | Each prefix has exactly one valid check digit |
| Strconv.ParseFormat | internal/db/models/int64_array.go:42-78 | Every 64-bit integer, the minimum included, is read back from its decimal form |
| Strconv.ParseIntIff | internal/db/models/int64_array.go:78 | A text is a number exactly if it is digits after at most one sign and the value fits in 64 bits |
| Strconv.FormatOfNatValue | internal/db/models/int64_array.go:42 | A digit string without a leading zero is what its number is printed as |
| Text.SplitJoin | internal/db/models/int64_array.go:44-71 | Splitting what was joined gives the parts back when none contains the separator |
| Text.JoinSplit | internal/db/models/int64_array.go:71 | Joining what a text splits into gives it back, and no part contains the separator |
| Text.TrimmedBothEnds | internal/db/models/int64_array.go:48-74 | Trimming takes exactly the unwanted characters off both ends |
| Int64Arrays.Int64Column.Scan | internal/db/models/int64_array.go:13-33 | The receiver is overwritten by the scanned array on success and left alone on an error |
| Int64Arrays.Int64Column.ScanString | internal/db/models/int64_array.go:47-86 | The same for texts, with blanks, braces, empty texts and the JSON branch |
| Int64Arrays.Int64Column.Value | internal/db/models/int64_array.go:35-45 | The written column value; null exactly for nil |
| Int64Arrays.ScanParts | internal/db/models/int64_array.go:71-85 | The loop over the comma-separated elements computes the parsed list or fails |
| Int64Arrays.ScanOfValue | internal/db/models/int64_array.go:13-86 | Scanning a written array gives it back, nil and empty kept apart |
| Int64Arrays.NumberAsText | internal/db/models/int64_array.go:19-32 | A number handed over as such and as text scan to the same one-element array |
| Int64Arrays.ReprintIsStable | internal/db/models/int64_array.go:35-86 | Whatever scans re-prints to something that scans to the same array |
| Int64Arrays.PartsAccepted | internal/db/models/int64_array.go:73-83 | A list is accepted exactly if every element is empty, NULL or a 64-bit number |
| Int64Arrays.ElementIs | internal/db/models/int64_array.go:74 | Of an element the outer quotes come off first and then the blanks within |
| Int64Arrays.FoldsToNullIff | internal/db/models/int64_array.go:75 | NULL is recognised in every mix of cases and nothing else is |
| Int64Arrays.NullsAreIgnored | internal/db/models/int64_array.go:74-77 | Empty and NULL elements change nothing wherever they stand |
| UploadNames.NewRouteInfoFromPath | internal/server/controllers/v1.4/upload.go:58-78 | The loop over the named groups returns the three parts of the match and the full route id |
| UploadNames.FrontIff | internal/server/controllers/v1/route_files.go:24 | The front of both regexes matches exactly the texts of the form run, two dashes, run, two dashes, rest, with those groups |
| UploadNames.RunsAre | internal/server/controllers/v1/route_files.go:24 | The characters of the runs, one by one |
| UploadNames.DirMatchIff | internal/server/controllers/v1/route_files.go:24 | A directory name matches exactly if it is two hexadecimal runs and a run of digits |
| UploadNames.PathMatchIff | internal/server/controllers/v1.4/upload.go:26 | An upload path matches exactly if it begins so and goes on with no digit |
| UploadNames.SegmentOfDigits | internal/server/controllers/v1/route_files.go:219-226 | A run of digits denotes its decimal value if that fits in 64 bits and is refused otherwise |
| UploadNames.UploadMatchesItsDirectory | internal/server/controllers/v1.4/upload.go:26-78 | For an upload m--r--s followed by no digit the route id is m--r, and both m--r and r find its directory as segment s |
| UploadNames.FullIdDirectory | internal/server/controllers/v1/route_files.go:217-230 | A full route id finds exactly the directories that are the id, two dashes and a segment number |
| UploadNames.DirectoryIff | internal/server/controllers/v1/route_files.go:217-230 | For every base and name: a directory is found as segment n exactly if it is the base, two dashes and a text that reads as n, or an upload whose second run is the base and whose digits read as n, and n is not negative |
| UploadNames.FullIdIsUnique | internal/server/controllers/v1/route_files.go:217-230 | No directory is found by two full route ids |
| UploadNames.URLSegmentRoundTrip | internal/server/controllers/v1/route_files.go:192-242 | The segment printed into a file's URL is read back from it, for every backend URL, dongle and route |
| UploadNames.URLSegmentIs | internal/server/controllers/v1/route_files.go:232-242 | From any URL, trailing slashes or not, the second last part is read, or -1 if there is none or it is no number |
| UploadNames.BaseOfBase | internal/server/controllers/v1/route_files.go:210-215 | A route base is its own base exactly if it has no colon |
| UploadNames.BaseBeforeColon | internal/server/controllers/v1/route_files.go:210-215 | Exactly what follows the last colon is cut off, with the colon |
| UploadNames.ColonHidesDirectory | internal/server/controllers/v1/route_files.go:210-230 | A directory found under a base is found the same under that base's own base exactly if the base has no colon |
| Sorting.SortSlice | internal/server/controllers/v1/route_files.go:172-179 | What is relied on of sort.Slice: a permutation, ordered by the key |
| Sorting.SortedDistinct | internal/server/controllers/v1/route_files.go:171 | Sorting distinct numbers gives a strictly increasing list of the same numbers |
| UploadIndex.SummarizeUploadedRoute | internal/server/controllers/v1/route_files.go:100-182 | The summary is the index of exactly the recognised files: lists that are permutations ordered by segment, strictly increasing segments, maxima by type; empty when nothing can be listed |
| UploadIndex.Summary.AddFile | internal/server/controllers/v1/route_files.go:151-167 | One recognised file extends what has been gathered by that file in every field |
| UploadIndex.Summary.SortAll | internal/server/controllers/v1/route_files.go:171-179 | The three sorts turn the gathered fields into the finished index |
| UploadIndex.RecognisedExactly | internal/server/controllers/v1/route_files.go:126-156 | A file is recognised exactly if it is a plain file of a name known for its type, in a readable directory whose name denotes its segment of the route, with the URL of that segment and name |
| UploadIndex.KindNames | internal/server/controllers/v1/route_files.go:25-34 | The file names of each type |
| UploadIndex.RequestURLs | internal/server/controllers/v1/route_files.go:192-201 | A URL is the backend address without trailing slashes, the fixed path, the device, the route base, the segment and the name |
| UploadIndex.MaxByTypeIsMax | internal/server/controllers/v1/route_files.go:104-160 | The greatest recognised segment of each type, or -1 if there is none |
| UploadIndex.FilesOrderedBySegment | internal/server/controllers/v1/route_files.go:175-179 | Sorting URLs by the number parsed back out of them is sorting the files by segment |
| UploadIndex.FindRouteSegmentDir | internal/server/controllers/v1/route_files.go:276-295 | The first directory of the segment, if any |
| UploadIndex.ListedURLResolves | internal/server/controllers/v1/route_files.go:64-295 | A URL in a summary, its base free of colons, takes apart into base, segment and the file's name and kind, and looks up a directory of its segment: the listed one exactly if no earlier one spells the same segment |
| SegmentMetadata.RouteSegmentMetadata | internal/server/controllers/v1/route_files.go:297-341 | Equal, non-zero lengths; the sorted merge of stored and uploaded numbers, or just zero; each with its reported times |
| SegmentMetadata.RouteSegmentIndex | internal/server/controllers/v1/route_files.go:343-353 | The first position of the segment, or -1 when there is none or the arrays differ in length |
| SegmentMetadata.MergedExactly | internal/server/controllers/v1/route_files.go:298-312 | The merged numbers are exactly the stored ones in 32-bit range and the uploaded ones |
| SegmentMetadata.MergedDistinct | internal/server/controllers/v1/route_files.go:298-312 | Repeated numbers come from the stored list alone |
| SegmentMetadata.PositiveIffNoOverflow | internal/server/controllers/v1/route_files.go:320-338 | With Go's wrap-around a reported end exceeds its start exactly if accepted times are stored or the computed start plus a minute does not overflow |
| SegmentMetadata.BoundedTimesArePositive | internal/server/controllers/v1/route_files.go:329-338 | For starts within 2^62 milliseconds of 1970 and 32-bit segment numbers the computed start is exact and every interval positive |
| SegmentMetadata.ComputedTimesTile | internal/server/controllers/v1/route_files.go:329-337 | Computed intervals of neighbouring segments never overlap, and touch unless the route's end falls inside the earlier one, which then ends there |
| SegmentMetadata.HugeSegmentHasNoInterval | internal/server/controllers/v1/route_files.go:329-338 | The uploaded segment number 153722867280912 of a route starting in 1970 is reported with its end before its start |
| SegmentMetadata.NanosecondsBecomeMillis | internal/server/controllers/v1/route_files.go:355-360 | A time in nanoseconds comes out in milliseconds exactly if it is beyond 10^15; milliseconds stay as they are |
| SegmentMetadata.ProcessedRouteIndex | internal/logparser/queue.go:190-195 | In a route built by the log parser segment k is found at position k-1, for every stored k and no other |
| SegmentMetadata.ProcessedSegmentTimes | internal/server/controllers/v1/route_files.go:320-328 | The k-th segment of a route built by the log parser is reported with its own times in milliseconds, if these are wall times and it lasts a millisecond |
| SegmentMetadata.UnprocessedSegmentTimes | internal/server/controllers/v1/route_files.go:329-338 | A segment without an entry starts as many minutes after the route's start as its number says, and ends a minute later or at the route's end if that falls between |
| Playlist.WritePlaylist | internal/server/controllers/v1/me.go:139-174 | Both passes: each file's line, and a target duration that no line's duration, rounded up, exceeds; a file whose times differ by a positive number that fits in 64 bits is printed with exactly that many milliseconds, and one without such times with a minute |
| Playlist.RoutePlaylist | internal/server/controllers/v1/me.go:137-174 | The same with the route's merged times; every index used is within them |
| Playlist.MergedCoversUploaded | internal/server/controllers/v1/route_files.go:298-316 | The merged list contains every uploaded segment and is at least as long |
| Playlist.TargetBoundsDuration | internal/server/controllers/v1/me.go:139-171 | The bound of section 4.3.3.1 of RFC 8216 for every file: neither rounded to the nearest second nor rounded up does its duration exceed the target |
| Playlist.TargetIsAttained | internal/server/controllers/v1/me.go:139-158 | The target is a minute or the difference of some file's times rounded up to the next second |
| Playlist.DurationIsPositiveIff | internal/server/controllers/v1/me.go:161-172 | A printed duration is positive exactly unless the true difference of the file's times exceeds 64 bits |
| Playlist.IndexDenotesOwnSegment | internal/server/controllers/v1/me.go:144-171 | An index denotes the file's own segment exactly if as many merged as uploaded entries lie below it |
| Playlist.IndexDenotesOwnUnlessUnuploadedPrecedes | internal/server/controllers/v1/me.go:144-171 | When no stored number is repeated: exactly if no merged segment that is not uploaded precedes it |
| Playlist.ShiftedIndex | internal/server/controllers/v1/me.go:144-171 | A route and an upload where it denotes another segment |
| Playlist.ProcessedNumbersDistinct | internal/logparser/queue.go:192-195 | A route built by the log parser repeats no number |
| MkdirAll.DirDecreases | internal/storage/filesystem.go:43-54 | Every step to the parent decreases a measure, for every path, Dir("a") = "." included |
| MkdirAll.CleanDenotesTheSame | internal/storage/filesystem.go:54 | filepath.Clean keeps what a path denotes, followed by name from any location |
| MkdirAll.CleanIsIdempotent | internal/storage/filesystem.go:54 | Cleaning twice changes nothing more |
| MkdirAll.DirIsParent | internal/storage/filesystem.go:54 | The last element of a path leads from what filepath.Dir of it denotes to what the path denotes, for every path |
| MkdirAll.WalkIff | internal/storage/filesystem.go:37-39 | A path resolves exactly if every element that is not blank is looked up in a directory and none leaves the root, and then to where its names lead |
| MkdirAll.PlainOutcome | internal/storage/filesystem.go:37-39 | Mkdir of a plain path creates exactly that directory if its parent is one and the system allows it, reports what exists, and fails otherwise |
| MkdirAll.MkdirKeeps | internal/storage/filesystem.go:37-39 | Mkdir of any path keeps the tree well formed, removes and changes nothing, and adds at most a directory |
| MkdirAll.Filesystem.MkdirAll | internal/storage/filesystem.go:41-69 | The recursion terminates for every path and computes the specified success and tree |
| MkdirAll.OnlyAdds | internal/storage/filesystem.go:41-69 | Nothing is removed or changed and only directories are added, on success and on failure |
| MkdirAll.AddsOnlyItsParents | internal/storage/filesystem.go:41-69 | Only locations named by the path or one of its parents are added, on success and on failure |
| MkdirAll.RootedIsRefused | internal/storage/filesystem.go:41-69 | A path that starts with a slash, other than the root itself, fails and creates nothing |
| MkdirAll.SuccessMeansItExists | internal/storage/filesystem.go:41-69 | After success the path exists and everything above it is a directory |
| MkdirAll.SuccessIsDirectoryIff | internal/storage/filesystem.go:41-69 | For every path, what exists after success is a directory exactly if no file stood at that location before |
| MkdirAll.PlainPathIsDirectoryIff | internal/storage/filesystem.go:41-69 | The same for plain paths, on the tree before the call alone |
| MkdirAll.FileIsEnough | internal/storage/filesystem.go:47-51 | With a file named f, a call for f succeeds and leaves it |
| MkdirAll.RepeatChangesNothing | internal/storage/filesystem.go:41-69 | A repeat of a successful call succeeds and changes nothing |
| MkdirAll.PlainPathExactly | internal/storage/filesystem.go:41-69 | For a plain path it succeeds exactly if the path exists, or no file stands above it and no missing prefix is refused; then exactly the missing prefixes have been added |

## Left out

- `LogQueue.Stop`, sends on closed channels and the panics they cause: the code does not guard a reply to
  a timed-out call or a send that races a disconnect. Runs are those up to such an event; a timed-out call
  leaves its subscriber behind in the table, as in the code.
- Routes.UpdateRoute: does not carry the row's primary key, URL, public and preserved flags or its
  database timestamps, none of which `processLog` touches, nor soft deletion of rows.
- Routes.FoldFromScratch: is for at most 2^63 - 1 jobs, the longest a Go slice can get; the same holds of
  `PromptDispatch.RouteCountsItsJobs` and `SegmentMetadata.ProcessedRouteIndex`.
- The database is a map from device and route id to rows with atomic reads and saves. Inserting a row is
  refused when its route id is taken; a save refused for any other reason is the step `FailSave`.
- Cap'n Proto decoding, decompression and storage reads: the decoded items and the answers of storage and
  database are inputs. The conversion of geodetic radians to degrees is part of reading an item.
- Floating point: distances, positions and lengths are reals, the ECEF distance is any function of two
  positions, playlist durations are whole milliseconds and the printed decimals are not modelled.
- Text is a sequence of characters; invalid UTF-8 in column texts and paths does not occur.
- Int64Arrays.Int64Column.ScanString: the branch for texts that start with a bracket delegates to
  encoding/json, which is a parameter.
- NatsRetry.RequestLoop: request timeouts and sleeps have no durations; the outcomes are an input, and the
  loop is followed as far as they go, because it need not end when NAKs never stop.
- RpcWebsockets.RPCWebsocket.OnConnect: covers calls that run undisturbed; interleaved ones are runs of
  `Sessions`. The goroutines it starts are steps of `Correlator`, which is a transition system on values
  and has no shared objects.
- Correlator: timeouts may happen at any moment, message bodies other than the id are opaque, and several
  `OnMessage` invocations of one connection may overlap, though the code reads the next message only
  when the handling of a reply has returned.
- JSON-RPC calls made by the device: only the acknowledgements of `forwardLogs` and the reply that goes
  the same way as a response to a call appear, as messages of turn First and Last.
- Sorting.SortSlice: is an insertion sort; only what Go's sort package promises is used of it.
- MkdirAll.Filesystem.Mkdir: symbolic links and permission bits are left out; what the system refuses to
  create is a set of locations.
- HTTP handlers, authentication, OAuth, proxies, Prometheus registration, configuration, navigation,
  pairing and sharing: plumbing without state of their own worth a proof.
