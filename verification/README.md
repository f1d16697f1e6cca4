# PeerClaw server: verified models of its hard parts

This project models the parts of the PeerClaw server whose correctness is not visible in any one
function, and proves what they promise over whole runs: rate limiters and one-time-code limits as
statements about call histories, the task, run and session stores under every interleaving, chunk
streams and server-sent events, the routing table with its watchers, the reputation score, heartbeat
misses, the hub's connection table, and the CSV export of the web application. `dafny verify
dfyconfig.toml` checks all of it.

| module | what it models |
|---|---|
| `TokenBucket` | the hub's per-connection token bucket, and the window specification it refines |
| `RateLimiterMap` | the map of limiters with eviction of idle keys |
| `OtpQuota`, `OtpLockout` | how many one-time codes are sent, and how many wrong ones are let through |
| `BridgeStore` | counters, entries and creator addresses of the A2A, ACP and MCP bridges, step by atomic step |
| `Snapshots` | the records the A2A and ACP handlers publish, on a heap with aliasing, step by atomic step |
| `Hub` | the signaling hub's connection table, step by locked section |
| `Streams`, `Sse` | chunk producers, the six collecting loops, the event-stream reader and printers |
| `RoutingTable`, `Resolver` | the table, its change log and watchers, and the choice of a route |
| `Reputation`, `Heartbeat` | the moving average and its store, and the timed state machine that feeds it |
| `Csv` | the CSV export, and a decoder written as its inverse |
| `FiniteSets`, `Timestamps` | two facts about set sizes, and how times are kept in tables |

## How it is modelled

- Time is a parameter: a real number of seconds, or whole seconds where the store keeps whole seconds
  (RFC 3339 text without a fraction). Scores and tokens are reals.
- Objects that the program updates in place are classes; each method is proved against a function of
  the old state, and the lemmas about runs are proved of that function.
- Concurrent code is a transition system. Each atomic operation, or each section under a lock, is one
  step, and the theorems hold for every sequence of enabled steps. Fields described as bookkeeping
  record the past and are never tested by a step.
- SQL tables are sequences or maps changed by the cited statements.
- `rate.Limiter` is not in the repository. It is taken to be the same token bucket as the hub's, full
  when new: the one assumption about code outside.
- `BridgeStore` gives identifiers that were never used before, as `uuid.New` is meant to.

## What came out differently from what the code or its comments suggest

- **The hourly quota of one-time codes does not hold with the defaults.** Codes expire after ten
  minutes and the sweep deletes expired rows, so it also forgets sends. The configured number per
  hour is kept in every run if and only if codes live at least an hour or no code may be sent
  (`OtpQuota.QuotaIsHourlyIff`); in general an hour with c sweeps sees up to 1 + c times the quota.
- **The lockout lets one failure through even if none is configured**: the bound on a window shorter
  than the block is max(1, MaxFailedAttempts) (`OtpLockout.LimitIsConfiguredIff`).
- **Eviction of limiters is invisible exactly when five idle minutes earn a whole burst**
  (`RateLimiterMap.EvictionIsInvisibleIff`). The bridge limiter and the default HTTP settings meet
  this, the invoke limiter (10 per hour, burst 3) does not.
- **A store after the sweep makes a counter wrong for good.** At quiescence the counter is exact if and
  only if no swept entry was stored again (`BridgeStore.CounterIsExactIff`). On A2A and ACP the counter
  and the creator addresses add up at quiescence of every run whose handlers store within d seconds of
  creation if and only if d is at most the age limit (`BridgeStore.QuiescentStoreIff`); on MCP, where a
  session is stored once, the counter is exact in every run. A creator address stored after the sweep
  stays forever (`BridgeStore.LateCreatorStays`).
- **The cap plus the subscribed tasks bounds the A2A counter only while subscribers are quick.** The bound
  is the cap, plus the live subscribed tasks, plus one if the sweep has deleted a subscribed task and
  not yet taken it off the counter; without that last term it is false even if every subscriber counts
  at once (`BridgeStore.SweptTaskStillCounts`). It holds in every run in which handlers count their
  task within d seconds of its creation if and only if d is at most the age limit
  (`BridgeStore.CapHoldsIff`). In all other runs it is exceeded by at most the number of tasks swept
  before their subscriber counted them (`BridgeStore.A2AAdmission`).
- **The adapter's own cancel writes the stored task in place**, unlike the server bridges, whose
  published snapshots never change (`Snapshots.AdapterCancelWritesInPlace`).
- **The CSV header is written unquoted.** The file decodes to its contents if and only if no label
  holds a comma, a quote or a line feed (`Csv.ExportDecodesIff`).
- **The bounds with P are tight.** P racing handlers do take ACP and MCP to 9999 + P entries
  (`BridgeStore.CheckThenAddBoundIsReached`) and the hub to maxConns + P - 1 connections
  (`Hub.ConnectionBoundIsReached`).
- **`UpdateFromCard` never removes**: routes for protocols a card no longer names stay.

## Model

| member | source | states |
|---|---|---|
| TokenBucket.BucketTracksWindows | internal/signaling/ws.go:493-506 | a bucket that holds the least headroom of all windows answers exactly as the windows dictate, and holds the least headroom again afterwards; any clock readings, rate and burst |
| TokenBucket.HistoryIsFaithful | internal/signaling/ws.go:484-506 | over any trace from a new bucket, every answer is true if and only if the messages since creation or since any earlier call, plus this one, fit burst + rate * elapsed |
| TokenBucket.FaithfulIsUnique | internal/signaling/ws.go:493-506 | the window specification leaves no other answers possible for the same call times |
| TokenBucket.SlidingWindow | internal/signaling/ws.go:493-506 | between any two times at most burst + rate * length messages are allowed, in the limit's own rate |
| TokenBucket.NewestAllowed | internal/signaling/ws.go:493-506 | an allowed call closes every window that contains it within its bound |
| TokenBucket.MessageLimiter.constructor | internal/signaling/ws.go:484-491 | starts full, at the time of creation, with an empty history |
| TokenBucket.MessageLimiter.Allow | internal/signaling/ws.go:493-506 | answers true if and only if every window permits one more message, and appends the call to the history |
| RateLimiterMap.EvictionIsInvisibleIff | internal/server/ratelimit.go:69-96 | any schedule of Cleanup calls leaves every answer of every time-ordered trace as it is without eviction, if and only if an idle period earns a whole burst |
| RateLimiterMap.EachKeyIsLimited | internal/server/ratelimit.go:69-139 | when an idle period earns a whole burst: in any time-ordered trace of requests of many keys and cleanups, the answers a key gets are exactly those the windows over its own requests dictate |
| RateLimiterMap.AgreeingMapsAnswerAlike | internal/server/ratelimit.go:69-96 | an evicting and a never-evicting map that differ only in full buckets answer every later request alike |
| RateLimiterMap.CleanupAgrees | internal/server/ratelimit.go:85-96 | an eviction drops only entries that are full by now |
| RateLimiterMap.SpendEvictSpendDiffers | internal/server/ratelimit.go:69-96 | otherwise spending a burst, being evicted and spending again is answered differently |
| RateLimiterMap.ConfiguredLimiters | cmd/peerclawd/main.go:369-417 | the bridge limiter's and the default HTTP limiter's settings meet the condition, the invoke limiter's do not |
| RateLimiterMap.IPRateLimiter.GetLimiter | internal/server/ratelimit.go:69-83 | hands out the known bucket or a full one, and marks the key seen now; other keys stay |
| RateLimiterMap.IPRateLimiter.Serve | internal/server/ratelimit.go:118-139 | a request is served if and only if its key's bucket admits it, and only that bucket is charged |
| RateLimiterMap.IPRateLimiter.Cleanup | internal/server/ratelimit.go:85-96 | removes exactly the keys not seen for more than five minutes, and changes no other |
| OtpQuota.HourlyQuota | internal/userauth/service.go:562-590 | in any window of an hour an email gets at most MaxPerHour * (1 + c) codes, c being the sweeps in the window; any table to start from |
| OtpQuota.QuotaDecision | internal/userauth/service.go:562-590 | in any run from an empty table, a request gets a code if and only if fewer than MaxPerHour earlier codes of the email still count: sent at most an hour ago and not expired at any sweep since |
| OtpQuota.CodesByEpoch | internal/userauth/service.go:562-590 | the codes since the last sweep are still counted by the table, so they stay within the quota |
| OtpQuota.SweepsAreInvisible | internal/userauth/sqlite.go:407-422 | when a code lives at least an hour, sweeping changes no decision of any run |
| OtpQuota.SweptRowsAreNotRecent | internal/userauth/sqlite.go:407-422 | then deleting expired rows changes no count a later request can ask for |
| OtpQuota.UnexpiredRows | internal/userauth/sqlite.go:416-422 | a row survives a sweep if and only if its expiry is not before now |
| OtpQuota.SweptQuotaIsSpentTwice | internal/userauth/sqlite.go:416-422 | with a shorter life there is a run in which one hour sees one code more than the quota |
| OtpQuota.QuotaIsHourlyIff | internal/userauth/service.go:562-590 | the documented limit per hour holds in every run if and only if codes live at least an hour or none may be sent |
| OtpQuota.DefaultsExceedTheQuota | internal/userauth/service.go:27-34 | with the defaults the limit does not hold |
| OtpQuota.OtpSender.SendOTP | internal/userauth/service.go:562-598 | sends if and only if fewer than MaxPerHour rows of the email are at most an hour old, and then inserts exactly one row |
| OtpQuota.OtpSender.DeleteExpiredVerifications | internal/userauth/sqlite.go:416-422 | deletes exactly the rows that expired before now |
| OtpLockout.BlockWindow | internal/userauth/service.go:80-102 | with no success in between, a window shorter than the block holds at most max(1, MaxFailedAttempts) recorded failures of an email, verify and reset calls together |
| OtpLockout.LockoutDecision | internal/userauth/service.go:80-102 | the outcome of every attempt of every run by the history alone: blocked if and only if the last failure is within the block and some earlier failure, with no success and no attempt after a lapsed block since, has MaxFailedAttempts failures from it on |
| OtpLockout.FewFailuresDoNotBlock | internal/userauth/service.go:80-91 | with fewer recorded failures than MaxFailedAttempts a good code is accepted |
| OtpLockout.StepTracksWindow | internal/userauth/service.go:80-102 | inside such a window the tracker knows at least every failure of the window, whatever the attempt |
| OtpLockout.FailuresOverTime | internal/userauth/service.go:80-102 | a span T holds at most max(1, MaxFailedAttempts) * (floor(T / BlockDuration) + 1) failures |
| OtpLockout.LimitIsConfiguredIff | internal/userauth/service.go:80-102 | the configured number itself is the bound in every run if and only if it is at least one, or zero with no block |
| OtpLockout.OtpGuard.IsOTPBlocked | internal/userauth/service.go:80-91 | blocked means enough failures, the last one within the block; a tracker gone quiet is dropped |
| OtpLockout.OtpGuard.RecordOTPFailure | internal/userauth/service.go:93-98 | one more failure, dated now, for this email only |
| OtpLockout.OtpGuard.ClearOTPFailures | internal/userauth/service.go:100-102 | forgets this email's failures only |
| OtpLockout.OtpGuard.VerifyEmail | internal/userauth/service.go:440-462 | rejects blank input without touching the tracker; otherwise one attempt of the lockout: an unknown code counts, an expired one does not, a good one clears |
| OtpLockout.OtpGuard.ResetPassword | internal/userauth/service.go:515-540 | the same attempt on the same tracker, after rejecting blank input and short passwords |
| BridgeStore.CounterConservation | internal/server/a2a_bridge.go:142-164 | in every interleaving on each bridge: counter = entries + handlers that counted before storing - handlers that stored before counting + a sweep between delete and decrement - stores that brought a swept entry back |
| BridgeStore.CounterIsExactIff | internal/server/acp_bridge.go:111-116 | at quiescence the counter is the number of entries if and only if no swept entry was stored again |
| BridgeStore.QuiescentStoreIff | internal/server/a2a_bridge.go:696-720 | on A2A and ACP: in all runs whose handlers store creator addresses and newer snapshots at most d seconds after the creation of their entry, the counter is the number of entries and exactly the live entries have a creator address at quiescence, if and only if d is at most the age limit |
| BridgeStore.SessionCounterIsExact | internal/server/mcp_bridge.go:322-344 | on MCP the counter is exact at quiescence of every run, sessions swept before they are counted included |
| BridgeStore.LateStoreMiscounts | internal/server/a2a_bridge.go:646-657 | for any larger d, on A2A and ACP, a run in which a handler stores once more after the sweep: one live entry, counter zero, no creator address |
| BridgeStore.LateCancelMiscounts | internal/server/a2a_bridge.go:455-470 | so does a cancel that loads an entry before the sweep takes it and stores it after: one live entry, counter zero |
| BridgeStore.LateCreatorStays | internal/server/a2a_bridge.go:163-164 | a run in which a creator address is stored after the sweep; in no continuation is it removed or its entry stored again |
| BridgeStore.YoungEntryOutlivesSweep | internal/server/a2a_bridge.go:704-711 | in any run, an entry at most an hour old when a sweep begins is not deleted by it, however long the sweep takes and whatever runs beside it |
| BridgeStore.A2AAdmission | internal/server/a2a_bridge.go:142-153 | in every interleaving the A2A counter is at most the cap, plus the live subscribed tasks and one the sweep has deleted and not yet taken off, plus one for every task swept before its subscriber counted it |
| BridgeStore.AdmittedUpToTheCap | internal/server/acp_bridge.go:100-113 | on each bridge every n up to 10000 is the counter of some run: nothing is refused below the cap |
| BridgeStore.SwapSucceedsIff | internal/server/a2a_bridge.go:142-153 | whatever the others do between load and swap, a send takes its place if and only if the counter is then what it loaded, and starts over otherwise |
| BridgeStore.CapHoldsIff | internal/server/a2a_bridge.go:142-153 | the bound without that last term holds in all runs in which handlers count their task within d seconds of its creation, in every state, if and only if d is at most the age limit |
| BridgeStore.SendOnlyAdmission | internal/server/a2a_bridge.go:142-153 | in runs without subscriptions the compare-and-swap loop never lets it pass the cap, sweeps and late stores included |
| BridgeStore.SlowSubscriberOverfills | internal/server/a2a_bridge.go:303-304 | for any larger d, a run whose counter ends one above the cap with no entry at all and no sweep at work |
| BridgeStore.SweptTaskStillCounts | internal/server/a2a_bridge.go:711-715 | a run whose subscriber counts at once and whose counter, between the sweep's delete and decrement, is one above the cap with no entry |
| BridgeStore.CheckThenAddAdmission | internal/server/acp_bridge.go:100-113 | on ACP and MCP the counter plus the handlers between check and add is at most 9999 + P, P being the most handlers ever between them |
| BridgeStore.CheckThenAddBoundIsReached | internal/server/acp_bridge.go:100-113 | and for every P at least 1 there is a run with exactly 9999 + P entries, all counted |
| BridgeStore.StepKeeps | internal/server/mcp_bridge.go:98-113 | every step of a handler, a cancel or the sweep keeps conservation and the admission bounds |
| BridgeStore.NeverFarBehind | internal/server/a2a_bridge.go:303-304 | the counter falls behind the places reserved by compare-and-swap at most by the tasks swept before they were counted and by stores that brought a swept task back |
| Snapshots.HandlersAreCareful | internal/server/a2a_bridge.go:188-238 | on every path of every handler, whatever the stream delivers, writes go only to a record the handler made itself and has not stored |
| Snapshots.SnapshotsAreImmutable | internal/server/a2a_bridge.go:634-657 | in every interleaving of handlers, cancels and sweeps, a published record and its slice keep their value forever, and the store holds only published records |
| Snapshots.ActIsFine | internal/server/acp_bridge.go:522-545 | one operation of one handler changes nothing published and nothing another handler's variables refer to |
| Snapshots.HandlersStoreTheirHistory | internal/server/a2a_bridge.go:338-403 | whatever runs beside it, what a handler has stored is a prefix of its history (accepted or created, working or in progress, each partial text, completed with the body or failed with the error text and the last partial text), and all of it when it ends |
| Snapshots.HistoryOfStream | internal/server/a2a_bridge.go:338-403 | that history by the chunks of the stream alone: one snapshot per chunk with data where partial texts are stored, each with all the data so far; the last one completed with all the data, or failed with the message of the first chunk that has an error and the data shown before it |
| Snapshots.HistoryWithoutStream | internal/server/acp_bridge.go:149-168 | a stream that cannot be opened fails the task or run with the error text, after its working state |
| Snapshots.HistoryWithoutBridge | internal/server/a2a_bridge.go:188-204 | without a bridge it fails with the fixed message, for A2A send and ACP sync before the working state, for the others after it |
| Snapshots.AloneItFinishes | internal/server/acp_bridge.go:149-205 | after any run, a new handler left alone stores its whole history, and a reader then finds the last snapshot of it |
| Snapshots.LongOutcome | internal/server/acp_bridge.go:224-307 | the operations of a handler that gets to a working state, from the first to the last, store exactly that history |
| Snapshots.ShortOutcome | internal/server/acp_bridge.go:149-155 | without a bridge, A2A send and ACP sync store the new record and the failed one, nothing else |
| Snapshots.ReadersSeeHistory | internal/server/a2a_bridge.go:423-445 | whatever a reader finds under an id has that id and is in the history of a handler that arrived in this run and created it, as it is or with the status of a cancel of that id that arrived in this run; a canceled task loses its message |
| Snapshots.CancelOutcome | internal/server/acp_bridge.go:453-455 | a cancel stores exactly the loaded snapshot with its own status, and for a task without its message |
| Snapshots.LoadTells | internal/server/a2a_bridge.go:455-470 | what a cancel loads was stored by a handler of the run, so what it is going to store comes from one too |
| Snapshots.AdapterCancelWritesInPlace | internal/bridge/a2a/handler.go:121-133 | the adapter's cancel is not careful, and run on a published task it changes it |
| Hub.ConnectionBound | internal/signaling/ws.go:146-161 | in every interleaving connections plus distinct agents in flight without one are at most maxConns + P - 1, and at most maxConns when one agent at a time is in flight |
| Hub.Admission | internal/signaling/ws.go:146-194 | at any point of any run a new connection may go on to insert if and only if it names an agent and that agent is connected, or there is no limit, or there is room below it; inserting makes it its agent's connection, and its exit takes just that away |
| Hub.ConnectionBoundIsReached | internal/signaling/ws.go:146-194 | for every P at least 1 there is a run with peak P that ends with maxConns + P - 1 connections |
| Hub.StepKeepsBound | internal/signaling/ws.go:146-194 | every test, failed upgrade, insertion, cleanup and shutdown keeps the bound, the already-connected exemption included |
| Hub.Ownership | internal/signaling/ws.go:188-240 | over any run an agent's entry is exactly the last connection inserted for it, provided neither its own cleanup nor a shutdown came since; its handler still serves |
| Hub.ExitKeepsNewer | internal/signaling/ws.go:226-240 | a handler's exit removes its own connection or nothing, and leaves none of its own behind |
| Hub.NeverBack | internal/signaling/ws.go:163-240 | a connection whose upgrade or authentication failed, or whose handler exited, is in no later table |
| Hub.ShutdownEmpties | internal/signaling/ws.go:466-474 | a shutdown empties the table, and only a new insertion fills it again |
| Hub.StepKeepsFaith | internal/signaling/ws.go:466-474 | the table stays what its history says after every step, shutdown included |
| Streams.CollectDrains | internal/server/a2a_bridge.go:206-219 | on a disciplined stream a loop takes every chunk, so no producer is left blocked |
| Streams.CollectMeaning | internal/server/a2a_bridge.go:206-219 | the error flag is the last chunk's error, and the body is all data before it |
| Streams.CollectAt | internal/server/a2a_bridge.go:206-219 | the same for any stream at all, by the first chunk that ends it, with the number of chunks taken |
| Streams.PartialsGrow | internal/server/a2a_bridge.go:355-403 | each published partial text is a prefix of every later one and of the body, and the last is the body |
| Streams.PartialsAre | internal/server/acp_bridge.go:258-285 | one text for every chunk with data, up to the end of the stream and not one with an error, each being all the data so far |
| Streams.CollectBody | internal/server/acp_bridge.go:170-183 | the plain collecting loop (A2A send, ACP sync and async, MCP tool call) computes the common flag and body |
| Streams.CollectAndPublish | internal/server/acp_bridge.go:258-285 | the publishing loop (A2A subscribe, ACP stream) computes the same flag and body, and publishes the partial texts |
| Streams.InvokeSSE | internal/server/invoke_handler.go:264-291 | the invoke loop computes the same flag, the same body on success, and sends its client one message for every chunk with data, in order, and a failure for an error |
| Streams.ClientEventsAreTheBody | internal/server/invoke_handler.go:275-283 | those messages together are the body a collecting loop ends with |
| Streams.ClientEventsAre | internal/server/invoke_handler.go:264-291 | one message for every chunk with data, holding just that data, in order, and one failure at the end if and only if the stream ends in an error |
| Streams.FallbackChunks | internal/bridge/manager.go:86-97 | the manager's fallback is disciplined: one terminal chunk, with the send error or the delivery message |
| Streams.ReadBufferedResponse | internal/bridge/a2a/adapter.go:267-283 | the buffered reader is disciplined and fails if and only if reading failed or the status is not 200; else the body comes through whole |
| Sse.RoundTrip | internal/bridge/a2a/adapter.go:224-265 | printing any frames of one-line events and data and reading them back gives their data in order, up to the first error, done or close frame, and one terminal chunk (a subset of section 9.2.6 of the WHATWG HTML Living Standard) |
| Sse.ChunkCount | internal/bridge/a2a/adapter.go:239-264 | if the first ending frame is at i, exactly i + 1 chunks come out, frame by frame, the last terminal; if none ends, one more than the frames |
| Sse.BrokenOff | internal/bridge/a2a/adapter.go:260-263 | a body that breaks off or runs into an over-long line after whole frames gives all their data and then an error, so no collecting loop takes it for a success |
| Sse.NothingAfterTheEnd | internal/bridge/a2a/adapter.go:241-252 | once a frame ends the stream nothing after it matters, not even that the body breaks off |
| Sse.ReadLines | internal/bridge/a2a/adapter.go:224-265 | any lines, not only printed frames: one chunk per data line up to the first whose pending event type ends the stream, else a Done, or an error if the body breaks off or a line is over-long |
| Sse.OtherLineEnds | internal/bridge/a2a/adapter.go:227-230 | a carriage return before the newline is no part of the line, and the last line needs no newline |
| Sse.ReaderIsDisciplined | internal/bridge/a2a/adapter.go:224-265 | whatever the body, even one that is no event stream, over-long or broken off, the reader sends non-terminal chunks and then exactly one terminal one |
| Sse.PrintedThenCollected | internal/server/a2a_bridge.go:665-676 | from the bridges' printed frames to a collecting loop: no failure and exactly the printed data, or the error frame's text |
| Sse.ReadFrame | internal/server/acp_bridge.go:553-560 | one printed frame is read as one chunk, whatever follows it and whatever event type was pending |
| Sse.ReadSSEStream | internal/bridge/a2a/adapter.go:224-265 | the scanning loop sends the chunks the reader specification names |
| RoutingTable.Table.constructor | internal/router/table.go:46-51 | an empty table with an empty log and no watchers |
| RoutingTable.Table.AddRoute | internal/router/table.go:54-74 | replaces the route of the same source and protocol in place or appends one; other routes stay; exactly one update goes out, Modify if the route was there and Add if not |
| RoutingTable.Table.RemoveRoute | internal/router/table.go:77-91 | removes exactly the target's routes and sends one Remove for each, in list order; an unknown target changes nothing |
| RoutingTable.Table.GetRoutes | internal/router/table.go:94-102 | exactly the routes of the target that are in the table, one for each source and protocol, in list order |
| RoutingTable.Table.Watch | internal/router/table.go:124-131 | a new channel that starts from the table and the log as they are now |
| RoutingTable.Table.Unwatch | internal/router/table.go:134-145 | takes exactly this watcher off and closes its channel; an unknown channel changes nothing |
| RoutingTable.Table.Notify | internal/router/table.go:148-156 | every watcher is offered the update, none is waited for, and no send meets a closed channel, even with receives between the sends |
| RoutingTable.Table.WatcherSeesChanges | internal/router/table.go:123-156 | at any time: replaying the updates since Watch over the table of then gives the table of now, each legal where it applies; what a watcher received and has waiting is a subsequence of them, short by exactly the dropped ones; the first 64 are never dropped |
| RoutingTable.ReplaySplit | internal/router/table.go:54-91 | replaying the end of the log over the table as it stood there is replaying all of it |
| RoutingTable.AppendKeepsTable | internal/router/table.go:71-73 | appending keeps each list to its own target, one route per source and protocol, and the table equal to its map |
| RoutingTable.ReplaceKeepsTable | internal/router/table.go:62-69 | so does replacing in place |
| RoutingTable.RemovalKeepsTable | internal/router/table.go:77-91 | so does removing a target |
| RoutingTable.SendKeeps | internal/router/table.go:148-156 | an offer, taken or dropped, keeps a channel's buffer and past in agreement with the log |
| RoutingTable.OfferIsTakenIff | internal/router/table.go:128-156 | an offer is taken if and only if fewer than 64 updates are waiting, and is dropped otherwise |
| Resolver.Engine.Resolve | internal/router/engine.go:34-69 | a route to the target over the protocol asked for, if one is, with the highest priority among all such routes and the lowest latency among those of that priority; an error if and only if the target is empty or there is no such route |
| Resolver.SortedHeadIsUnbeaten | internal/router/engine.go:59-66 | the head of any rearrangement sorted by the comparison is unbeaten, so the sorting algorithm does not matter |
| Resolver.UnbeatenTie | internal/router/engine.go:59-66 | two unbeaten routes have the same priority and latency |
| Resolver.SortRoutes | internal/router/engine.go:59-64 | a sorted rearrangement of the routes |
| Resolver.Engine.UpdateFromCard | internal/router/engine.go:72-83 | one update per protocol of the card, and the table with the card's routes put in |
| Resolver.CardRoutes | internal/router/engine.go:72-83 | those are exactly the gateway routes the card names; every other route, also of a protocol dropped from the card, is what it was |
| Resolver.Engine.RemoveAgent | internal/router/engine.go:86-88 | no route to the agent is left, and every other route stays |
| Reputation.ClampNeverActs | internal/reputation/engine.go:101-103 | with alpha, start and values between 0 and 1 the score stays there and the clamp is a no-op |
| Reputation.ScoreStaysInRange | internal/reputation/engine.go:101-103 | whatever the values and alpha, no score leaves 0 to 1 |
| Reputation.ClampIsNearest | internal/reputation/engine.go:103 | the clamp takes the nearest score in range |
| Reputation.BetterEventsBetterScore | internal/reputation/engine.go:101-103 | a higher start and higher values never give a lower score, over any run |
| Reputation.ClosedForm | internal/reputation/engine.go:86-134 | after n events the score is (1-alpha)^n * start + alpha * the sum of (1-alpha)^(n-1-i) * v_i |
| Reputation.Forgetting | internal/reputation/engine.go:86-134 | two histories with the same last n events differ by exactly (1-alpha)^n times their earlier gap |
| Reputation.FirstEvents | internal/reputation/engine.go:27-40 | the score each event makes of a new agent's 0.5, as ten numbers |
| Reputation.WeightTellsDirection | internal/reputation/engine.go:27-40 | every default weight is twice the distance of the value from 0.5, so exactly five of the ten events raise a new agent's score and the others lower it |
| Reputation.ScoreRange | internal/reputation/engine.go:27-40 | with the defaults, after any events with k verifications the score is above 0.25 and at most 1 - 0.3 * 0.9^k |
| Reputation.TrustNeedsFourPasses | internal/server/public_handlers.go:220 | no sequence with fewer than four verification passes lifts the score above 0.8, and none takes it to 0.25 |
| Reputation.FourPassesSuffice | internal/server/public_handlers.go:220 | a sequence with four passes does |
| Reputation.RecordKeepsRows | internal/reputation/sqlite.go:95-117 | recording keeps every agent's cached score and count equal to the last event of its log and the log's length, and the score the moving average of its values |
| Reputation.EffectiveAlpha | internal/reputation/engine.go:69-72 | the engine's alpha is always in (0, 1]: the given one if it is, else 0.1 |
| Reputation.Engine.constructor | internal/reputation/engine.go:65-83 | the effective alpha, and the default table only without a given one |
| Reputation.Engine.RecordEvent | internal/reputation/engine.go:86-134 | an unknown event type changes nothing; a known one appends one log row and updates one agent's row, or none for an unregistered agent |
| Heartbeat.OneMissPerSign | cmd/peerclawd/main.go:503-515 | in any stretch an agent gets at most one miss per registration or heartbeat, and one more if it was online at its start |
| Heartbeat.MissesOverARun | cmd/peerclawd/main.go:503-515 | over a run never more misses than registrations and heartbeats |
| Heartbeat.NoMissWhileBeating | internal/reputation/sqlite.go:197-217 | a tick at most five minutes after a heartbeat records no miss for that agent |
| Heartbeat.MissMeansSilence | internal/reputation/sqlite.go:197-217 | a miss comes more than five minutes after every earlier sign of life |
| Heartbeat.SilenceIsNoticed | internal/reputation/sqlite.go:197-217 | an agent still online 301 seconds after its last sign of life gets a miss at the tick |
| Heartbeat.MissDecision | cmd/peerclawd/main.go:503-515 | every miss by the history: a tick records one if and only if the latest sign of life said online, no tick has recorded one since, and the time stored with it is before the cutoff |
| Heartbeat.RowTellsHistory | internal/registry/service.go:111-119 | the row by the history: the time of the latest sign of life, and the status it said (online for a registration or an empty status) until a tick records a miss |
| Heartbeat.KnownIffRegistered | internal/registry/service.go:111-119 | an agent is in the table if and only if it registered; heartbeats of others put nothing in |
| Heartbeat.Registry.RegisterAgent | internal/registry/service.go:66-84 | a registered agent is online with its heartbeat at the registration |
| Heartbeat.Registry.Heartbeat | internal/registry/service.go:111-119 | moves the heartbeat of a known agent, with status online unless one is given; an unknown agent is an error |
| Heartbeat.Registry.SetStatus | internal/registry/sqlite.go:291-304 | changes the status and leaves the heartbeat |
| Heartbeat.Registry.CheckTimeouts | cmd/peerclawd/main.go:503-515 | a tick marks exactly the stale agents offline and records exactly one miss for each |
| Csv.FieldRoundTrip | web/app/src/lib/export.ts:9-15 | any text, quoted where needed, decodes to itself at the next comma, line feed or end |
| Csv.ExportRoundTrip | web/app/src/lib/export.ts:6-18 | with plain labels the file decodes to its titles and, row by row and column by column, the text under the column's key, nothing where it is missing or null (section 2 of RFC 4180, line feed between records, carriage return as data) |
| Csv.PlainExport | web/app/src/lib/export.ts:6-18 | nothing is quoted that need not be: with no comma, quote or line feed in any text the file is a byte order mark, then labels and texts as they are |
| Csv.ExportDecodesIff | web/app/src/lib/export.ts:6-18 | for any rows and at least one column it does so if and only if no label holds a comma, a quote or a line feed |
| Csv.OnlyPlainFieldsComeBack | web/app/src/lib/export.ts:6 | a text written as it is that decodes to itself needed no quotes |
| Csv.ExportIsInjective | web/app/src/lib/export.ts:6-18 | with plain labels, equal files have equal headers and equal texts |
| Csv.CommaInLabelSplitsHeader | web/app/src/lib/export.ts:6 | the label `a,b` decodes as two columns |

## Left out

- RateLimiterMap.IPRateLimiter.Serve: looks the limiter up and asks it at one instant; a Cleanup between the two calls of one request is not modelled.
- OtpQuota.OtpSender.SendOTP: one call is one step, so two sends racing between count and insert are not modelled; the two clock readings of a call are taken as one, and errors of the store or the mail server are left out.
- OtpLockout.OtpGuard.VerifyEmail: one call is one step; two calls racing on the tracker, which the code does not lock, are not modelled. Trimming and lower-casing of the input come before it, and what happens after an accepted code is not part of it.
- Snapshots.HandlersStoreTheirHistory: compares id, status, message or error text, and texts; time stamps are not compared, nor an error's code, which is the failed status; slices other than artifacts and output, which no handler writes, are not modelled.
- Snapshots: the ACP stream handler that returns at once because the response cannot be flushed, leaving its run created; append to a slice with room left, since every appended slice is a fresh clone of exactly its length; nil slices count as empty.
- Snapshots and BridgeStore: push notification configurations.
- Streams.ReadBufferedResponse: the limit on the body's size.
- Sse: characters stand for bytes, a reader error has one fixed text, and the JSON inside the data lines is not modelled.
- RoutingTable: the order in which Go runs receivers beyond taking any number of updates between two sends; `AllRoutes` and `UpdatedAt`; the copying of `GetRoutes` shows only as a value.
- Reputation: floating-point rounding; scores of agents that are not registered, which always start from the default; pruning of old events; two records of one agent racing.
- Heartbeat: a tick is one step; deregistration, and notification of owners.
- Hub: forwarding, authentication (it either fails or gives the id of the query), and the sockets themselves.
- Concurrency in cancel: that a canceled status stays is not claimed; a handler's later store may replace it.
- Federation, storage dialects other than the cited SQLite statements, HTTP plumbing, cryptography and the user interface.
