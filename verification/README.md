# Pelican client: a verified model

This project models the concurrent and stateful core of the Pelican client and proves
what its comments and design promise. `dafny verify dfyconfig.toml` checks all of it.

The client moves objects between a user and a federation of caches and origins. The parts
modelled here are the ones whose correctness spans several functions or goroutines:

* **The fair scheduler** (`SchedulerBooks`, `SchedulerRuns`, `SchedulerSafety`,
  `SchedulerTheorems`, `SchedulerGates`, `SchedulerUse`, `SchedulerFirstBytes`,
  `SchedulerProgress`, `SchedulerBuffer`, `SchedulerBlocking`, `TagScheduler`). Files queue per tag and are
  dispatched under two per-tag caps. The scheduler hears of progress only through events,
  and claiming an event and enqueuing it are two steps. The invariant is a ledger: each
  counter equals the decrements still owed to it, by transfers, by claims not yet sent and
  by queued events.
* **The transfer engine** (`EngineState`, `EngineSafety`, `EngineTheorems`,
  `EngineOrder`, `EngineProgress`, `TransferEngine`). A file is counted before it is submitted and
  uncounted when its result is delivered; the ledger of outstanding files decides when a
  job retires and when a channel may close.
* **The director-response cache** (`PathNames`, `DirRespCache`, `CacheLoads`,
  `LoadingCache`). A walk over parent directories against a longest-prefix specification,
  the substitution of paths in server URLs, and the protocol for concurrent misses.
* **Choosing and ordering endpoints** (`ServerChoice`, `AttemptOrdering`). Preferred
  servers, host de-duplication, caps, probe replies in any order and a stable sort.
* **Resuming a download** (`ResumeDownload`). A retry loop over endpoints that appends to
  one sink, with the size and ETag checks of each response.
* **Job-event streams** (`JobEvents`, `JobEventTheorems`, `JobEventAgreement`,
  `JobEventWaiting`, `JobEventHub`). Bounded, lossy subscriber buffers, and streams that
  must still report the end of a job.
* **The remote file** (`PelicanFiles`). A pipe and range requests behind one cursor.
* **The Digest header** (`Encodings`, `Digests`). Names, hexadecimal and base64.

`Collections` and `Strings` hold the shared facts about sequences.

Code that updates state in place is a class whose methods are proved against a function on
values (`Contents()` or `State()`); the protocols are step relations over those same
functions, and the theorems hold for every run. A select becomes a choice among the
enabled steps. Clocks, random draws, loaders, servers and probe replies are parameters.

## Where the code and its comments differ

* "Exactly once per objectPath" (client/dir_resp_cache.go:233-235): a caller that misses
  before the store and reaches the table after the removal runs a second loader. A caller
  that missed loads exactly when every earlier load of its key is forgotten
  (`LoadsAgainExactlyWhen`); `PathMayBeLoadedTwice` is a run in which one path is loaded
  twice.
* reconstitutePaths "is the inverse of stripFederationPaths"
  (client/dir_resp_cache.go:119-122): only where server paths end in the object path.
* `starving <= active` suggests itself for the scheduler's counters. It holds exactly when
  the first-byte decrements still on their way are no more than the active transfers past
  their first byte (`StarvingWithinActiveExactlyWhen`), and so throughout every run, up to
  `stop`, in which no done event overtakes its own transfer's first byte
  (`OrderedHooksKeepStarvingWithinActive`). The code does not force that order, since
  claiming a first byte and sending it are two steps: `StarvingMayExceedActive`.
* Hooks "never block" because the event buffer has twice the size of the pool, at least 256
  (client/tag_scheduler.go:272-276): each transfer in flight produces at most two events,
  but a worker takes its next transfer while the events of its last ones are still queued.
  What bounds them is the number of tags: a hook can meet a full buffer, and then
  waits for the scheduler, exactly when the peak for the tags in use exceeds it
  (`HooksBlockExactlyWhen`). One tag always fits; a pool of one
  worker overflows with 129 tags (`OneTagFitsManyDoNot`).
* The size on disk is compared with the end of a range, not with its length. So a complete
  answer to a range that does not start at 0 is failed by the size check when the
  destination is a file and anything says how long the range is
  (`CompleteAnswerSucceedsExactlyWhen`); an ordinary 206 does (`OrdinaryRangeFailsIntoFile`).
* A bounded range that fully arrived in a failed attempt is asked for again, from behind
  its end. A server that ignores that range sends the object, which is appended
  (`IgnoredRangeIsAppended`); without a length it ends as a success
  (`IgnoredRangeSpoilsSink`).
* A first read of a remote file takes the file's mutex twice when the pipe ends before its
  first byte: for an empty object, and for any object whose transfer fails before then,
  because downloadObject closes the writer on every exit (client/handle_http.go:3517-3523).
  When the lookup fails or the file is shed nobody closes the pipe, and the read waits for
  ever. Nothing else hangs (`HangsOnlyThere`). A transfer that broke off later is reported
  as an end of file (`EarlyEndComesFromThePipe`).
* A cancellation takes hold of a job's status only after the job announced its own outcome
  (client_agent/transfer_manager.go:734-784). So the streams of one job agree on its last
  status unless the job failed and was cancelled after that announcement (`StreamsAgree`),
  and always if it was not cancelled (`UncancelledStreamsAgree`); `StreamsMayDisagree` is a
  run in which one reports the failure and another the cancellation.
* A finished job may be evicted between the lookup that finds it for a new stream and the
  count that would keep it in memory (client_agent/job_events.go:95-117). Such a stream waits
  on ticks until its client leaves: `RaceStrandsStream`, and `WaitsForEverExactlyWhen` for
  the exact condition.

## Hypotheses

* Servers: a request with a Range header that can be satisfied is answered with 206 and
  bytes of exactly that part of the object, in order (section 15.3.7 of RFC 9110); one that
  cannot be satisfied is answered without a body of the object (section 15.5.17); lengths,
  where declared, are right; a body without a length ends cleanly only when complete.
  Answers with another ETag than the recorded one may be anything.
* The size of a remote file, where known, is the object's; its transfer writes a prefix of
  the object, as `SinkHoldsTheRange` says.
* Federations contain no newline. `alpha` lies strictly between 0 and 1.
* The engine runs without cancellation of its context, every job is submitted once, and no
  client is added after the engine is closed.

## Model

| member | source | states |
|---|---|---|
| `SchedulerBooks.LimitsOf` | client/tag_scheduler.go:404-418 | Each per-tag cap is its percentage of the worker count rounded up, kept between 1 and the worker count for a pool of at least one worker, and the admission limits are those of the configuration. |
| `TagScheduling.TagScheduler.constructor` | client/tag_scheduler.go:268-290 | A new scheduler has no tags, nothing pending and zero totals. |
| `TagScheduling.TagScheduler.TagFor` | client/tag_scheduler.go:299-309 | The tag's state is the stored one or a fresh one with zero counters and full weight, which is then stored. |
| `TagScheduling.TagScheduler.HandleAdmit` | client/tag_scheduler.go:523-562 | A file is queued at the end of its tag or shed with a reason; every field of the books after it, in place. |
| `SchedulerGates.ShedExactlyWhen` | client/tag_scheduler.go:523-562 | In every reachable state a file is shed if and only if its tag has its full number of files waiting, or has some waiting while the pool has its full number, counted from admissions and dispatches; a tag with nothing waiting is always admitted; the reject counters tell the two apart. |
| `SchedulerGates.RefusedExactlyWhen` | client/tag_scheduler.go:345-370 | A submitted file is refused by a shed or because its submitter gave up, and by nothing else. |
| `TagScheduling.TagScheduler.HandleEvent` | client/tag_scheduler.go:564-580 | The books after one first-byte or done event, with the guards against going below zero. |
| `TagScheduling.TagScheduler.GatherCandidates` | client/tag_scheduler.go:591-613 | Exactly the tags with queued work and room under both caps, once each, with their weights and the total. |
| `SchedulerGates.DispatchableExactlyWhen` | client/tag_scheduler.go:591-613 | In every reachable state the head of a tag can be dispatched if and only if a file of it waits and fewer transfers than each cap allows still owe it an event. |
| `TagScheduling.WeightedDraw` | client/tag_scheduler.go:613-623 | The scan stops at the candidate whose weight interval holds the draw; the return after the loop is reached only by a draw beyond the total. |
| `TagScheduling.IntervalsAreDisjoint` | client/tag_scheduler.go:613-623 | A draw falls in the interval of one candidate only, so the choice is unique. |
| `TagScheduling.TagScheduler.PickForDispatch` | client/tag_scheduler.go:591-624 | A tag is picked exactly when one is eligible, and it is the one whose interval of the total weight holds the draw; the fallback is never used. |
| `TagScheduling.WeightsArePositive` | client/tag_scheduler.go:591-624 | In reachable books every tag has a positive share of the draw. |
| `SchedulerUse.DrawIsProportional` | client/tag_scheduler.go:613-624 | Among the candidates each is picked for exactly the draws of one interval of [0, 1], whose length is its share of the total weight. |
| `TagScheduling.TagScheduler.OnDispatched` | client/tag_scheduler.go:626-638 | The books after the head of a tag's queue went to a worker. |
| `TagScheduling.TagScheduler.TickEMA` | client/tag_scheduler.go:640-666 | The books after a tick, in place: `Tick` of every tag, which `TickFollowsUse` ties to the use; nothing at all for a disabled window or no elapsed time. |
| `SchedulerUse.TickFollowsUse` | client/tag_scheduler.go:640-666 | A tick moves an active tag's average by alpha times its distance from the number of active transfers; an idle one's shrinks and is dropped below a millionth; the weight is the reciprocal of one plus the average; nothing else changes. |
| `SchedulerUse.RunningTickFollowsUse` | client/tag_scheduler.go:640-666 | The same for the tick of every reachable state, with the transfers that still owe the tag their done event as its use. |
| `SchedulerUse.AverageApproachesUse` | client/tag_scheduler.go:640-666 | Under constant use every tick leaves the fraction 1 - alpha of the average's distance from it, over any number of ticks. |
| `SchedulerUse.ShrunkIsPower` | client/tag_scheduler.go:640-666 | After n ticks with one alpha, the n-th power of 1 - alpha of the first distance is left. |
| `SchedulerUse.MoreUseWeighsLess` | client/tag_scheduler.go:642-658 | Of two tags with the same average, the one with more active transfers has the strictly smaller weight after a tick. |
| `SchedulerUse.WeightsAreAtMostOne` | client/tag_scheduler.go:642-658 | In every reachable state a tag's weight is positive and at most one. |
| `SchedulerUse.NewTagWeighsMost` | client/tag_scheduler.go:299-309 | A tag comes onto the books with nothing averaged and weight one, whichever step brings it. |
| `TagScheduling.TagScheduler.EvictIdleTags` | client/tag_scheduler.go:682-702 | Exactly the tags that are idle, empty and past the grace period are removed; the others are untouched. |
| `SchedulerGates.EvictedExactlyWhen` | client/tag_scheduler.go:682-702 | In every reachable state an eviction removes a tag if and only if it was untouched for ten seconds and for the averaging window, no file of it waits, no event is owed to it and its average is below a millionth; the others stay as they are. |
| `SchedulerGates.LastSeenIsLastTouch` | client/tag_scheduler.go:684-695 | The time an eviction goes by is that of the last admission, dispatch or event of the tag in the run. |
| `TagScheduling.TagScheduler.DrainOnExit` | client/tag_scheduler.go:435-445 | Every queued file is handed to onDrop once, tag by tag and in queue order, and the queues are empty. |
| `SchedulerGates.StoppedExactlyWhen` | client/tag_scheduler.go:422-475 | The loop has ended if and only if it left, and hooks may give events up from the first request to stop on, in every run. |
| `SchedulerSafety.RunKeepsInvariant` | client/tag_scheduler.go:422-497 | Every interleaving of submissions, claims, events, dispatches, ticks, evictions, stop and exit keeps the ledger, the order of each tag, the totals and the bounds. |
| `SchedulerTheorems.CountersAreOwed` | client/tag_scheduler.go:372-398 | In every reachable state `active` and `starving` of a tag equal the decrements still owed to it, hence no guard of the event handler suppresses one. |
| `SchedulerTheorems.FairShare` | client/tag_scheduler.go:404-418 | No tag exceeds its caps, and it occupies at most `activeCap` of the workers. |
| `SchedulerTheorems.NoTagIsWedged` | client/tag_scheduler.go:455-475 | A tag with queued work is eligible, or a transfer or event still owes it the slot that blocks it. |
| `SchedulerProgress.BlockedTagIsFreed` | client/tag_scheduler.go:455-475 | From every reachable state before stop, a continuation of hook steps and event handling alone makes a tag with queued work eligible, its queue unchanged, and its head can be dispatched. |
| `SchedulerProgress.DebtsCanBePaid` | client/tag_scheduler.go:372-398 | Such a continuation pays everything owed to every tag at once and leaves every queue as it was. |
| `SchedulerProgress.PayingFreesEveryTag` | client/tag_scheduler.go:455-475 | In whatever order hooks send and events are handled before stop, there are no more such steps than the debt, no queue changes, and where none is left every tag with queued work can dispatch its head. |
| `SchedulerTheorems.EvictionIsSafe` | client/tag_scheduler.go:682-702 | A tag that an eviction removes has no queued file, no file in flight and no event owed, so zeroed counters are right when it returns. |
| `SchedulerTheorems.ExactlyOneFate` | client/tag_scheduler.go:345-370 | Each submitted file is refused and never queued, or is queued, dispatched or dropped, exactly one of them and exactly once. |
| `SchedulerTheorems.DispatchFollowsAdmission` | client/tag_scheduler.go:626-632 | On every tag the dispatches are a prefix of the admissions, in order, through evictions and returns. |
| `SchedulerTheorems.AdmissionBound` | client/tag_scheduler.go:523-562 | `pending` is the sum of the queue lengths; admissions equal dispatched plus pending plus dropped; the pool and per-tag bounds hold. |
| `SchedulerTheorems.WeightsFollowUse` | client/tag_scheduler.go:642-658 | In every reachable state the average lies between 0 and the active cap, weight times (1 + average) is 1, and the next tick is defined; how the average follows the use is `RunningTickFollowsUse`. |
| `SchedulerBooks.IdleTagForgets` | client/tag_scheduler.go:642-658 | With a positive lower bound on alpha an idle tag's average is exactly zero after finitely many ticks. |
| `SchedulerTheorems.ShedBlamesTheRightParty` | client/tag_scheduler.go:509-521 | The reason of a shed names the origin exactly when the tag holds its full share, unresponsive or slow as the caps say. |
| `SchedulerFirstBytes.StarvingWithinActiveExactlyWhen` | client/tag_scheduler.go:372-398 | In every reachable state a tag has no more starving than active transfers if and only if the first-byte decrements on their way are no more than the active transfers already past their first byte. |
| `SchedulerFirstBytes.OrderedHooksKeepStarvingWithinActive` | client/tag_scheduler.go:372-398 | Before stop, in every run in which no done event is sent while its transfer still holds a first byte, no more transfers of a tag starve than are active, in every state. |
| `SchedulerTheorems.StarvingMayExceedActive` | client/tag_scheduler.go:379-390 | Without that order it fails: a run in which a done event overtakes its own first byte and `starving` exceeds `active`. |
| `SchedulerBuffer.EventsWithinCaps` | client/tag_scheduler.go:272-276 | In every run no more events are held by hooks or queued than both caps allow for every tag with an entry. |
| `SchedulerBuffer.EventsWithinPeak` | client/tag_scheduler.go:272-276 | In every run that uses no more workers than there are, and before stop, they are no more than the peak: each tag's starving cap and, as far as the pool allows, its active cap. |
| `SchedulerBlocking.HooksFindRoom` | client/tag_scheduler.go:395-400 | While the peak for the tags with entries fits into the channel, a hook that has an event to send finds room for it. |
| `SchedulerBlocking.PeakIsReached` | client/tag_scheduler.go:272-276 | For any caps, pool and tags there is a run within the pool that brings exactly the peak of events into the queue. |
| `SchedulerBlocking.HooksBlockExactlyWhen` | client/tag_scheduler.go:272-280 | With files on at most n tags a hook can find the channel of max(256, 2 x workers) events full, in a run that keeps to the pool and to that capacity, if and only if the peak for n tags exceeds both numbers. |
| `SchedulerBlocking.OneTagFitsManyDoNot` | client/tag_scheduler.go:272-280 | One tag always fits, as the comment promises; with more tags than workers, and more than 128, hooks can block under any caps, with one worker exactly from 129 tags on. |
| `TransferEngines.TransferEngine.constructor` | client/handle_http.go:1602-1625 | The engine's initial state. |
| `TransferEngines.TransferEngine.Finish` | client/handle_http.go:1564-1597 | finishJob: the client's list without the job, or no entry and, for a client that left, its results channel closed. |
| `TransferEngines.TransferEngine.ListWithout` | client/handle_http.go:1589-1596 | The scan keeps every other job of the client, in order. |
| `TransferEngines.TransferEngine.OnJob` | client/handle_http.go:1712-1719 | A job from a client channel becomes the buffered job and the last of the client's active ones. |
| `TransferEngines.TransferEngine.OnWorkClosed` | client/handle_http.go:1699-1711 | A closed client channel is noted; without active jobs the client's results channel closes. |
| `TransferEngines.TransferEngine.OnDelivered` | client/handle_http.go:1720-1737 | A delivered result is taken off the client's buffer and the job's count, and the job retires if it was the last. |
| `TransferEngines.TransferEngine.OnResult` | client/handle_http.go:1743-1759 | A result joins its client's buffer; a nil one counts a worker off, and the last ends the multiplexer. |
| `TransferEngines.TransferEngine.OnWorkSent` | client/handle_http.go:1760-1763 | The buffered job moves to te.work, a send that a closed te.work would turn into a panic. |
| `TransferEngines.TransferEngine.OnLookupDone` | client/handle_http.go:1769-1789 | The lookup is marked done and the job retires if nothing of it is outstanding. |
| `TransferEngines.TransferEngine.OnClose` | client/handle_http.go:1790-1808 | Every open client work channel is closed once. |
| `TransferEngines.TransferEngine.CloseWorkIfIdle` | client/handle_http.go:1688-1693 | te.work is closed once, when closing and no client channel is left. |
| `TransferEngines.TransferEngine.CountFile` | client/handle_http.go:2885-2925 | The job handler counts a file before it submits it. |
| `TransferEngines.TransferEngine.SubmitTaken` | client/handle_http.go:946-972 | A counted file goes to the scheduler or to te.files. |
| `TransferEngines.TransferEngine.SubmitShed` | client/handle_http.go:946-972 | A shed file is answered by a synthetic result. |
| `TransferEngines.TransferEngine.SubmitFailed` | client/handle_http.go:1003-1005 | A submission that failed otherwise is uncounted. |
| `EngineSafety.RunKeepsInvariant` | client/handle_http.go:1602-1810 | Every interleaving of clients, multiplexer, job handler, scheduler and workers keeps the ledger of counted files and the order of channel closings. |
| `EngineTheorems.JobsRetireExactlyOnce` | client/handle_http.go:1564-1597 | `activeXfer` equals the files counted and not delivered; finishJob has run exactly once if the lookup is done and none is left, and not at all otherwise. |
| `EngineTheorems.RetirementIsTheLastEvent` | client/handle_http.go:1720-1789 | A job retires in the step that delivers its last result or ends its lookup, whichever comes last, and never twice. |
| `EngineTheorems.NoChannelPanics` | client/handle_http.go:1574-1584 | No channel is closed twice or sent on after its close, over every run. |
| `EngineTheorems.ClosedMeansDelivered` | client/handle_http.go:1697-1711 | A results channel is closed exactly when its client left and has no unfinished job, and then nothing of it is still buffered or outstanding. |
| `EngineTheorems.ChannelsCloseInOrder` | client/handle_http.go:1828-1840 | A buffered job implies an open client channel and an open te.work; te.files closes only after te.work is drained and the scheduler is gone. |
| `EngineTheorems.OrderlyEndLosesNothing` | client/handle_http.go:1743-1752 | When the last worker is counted off, every counted file is delivered or waits in its client's buffer. |
| `EngineOrder.JobsPassInOrder` | client/handle_http.go:1712-1789 | In every run jobs pass through multiplexer, te.work, lookup and te.jobLookupDone in the order they were received: of two jobs the earlier is never behind. |
| `EngineOrder.ResultsArriveInOrder` | client/handle_http.go:1720-1759 | In every run what a client was sent, followed by its buffer and its part of te.results, is everything reported for it, in the order reported. |
| `EngineOrder.OpenExactlyWhen` | client/handle_http.go:1790-1808 | In every run a client's work channel is open exactly from its registration until the client or the engine is closed. |
| `EngineProgress.ClosedEngineCanBeDrained` | client/handle_http.go:1602-1815 | From every reachable state of a closed engine whose multiplexer runs, a continuation of draining steps alone ends it in order, and at that end every file counted so far is delivered. |
| `EngineProgress.DrainingEndsInOrder` | client/handle_http.go:1602-1815 | In whatever order a closed engine is drained, there are no more steps than the work left, and where none is possible any more the multiplexer has ended and every counted file is delivered or in its client's buffer. |
| `PathNames.CleanIsIdempotent` | client/dir_resp_cache.go:193 | Cleaning keeps a path rooted or not, and cleaning again changes nothing. |
| `PathNames.CleanSkips` | client/dir_resp_cache.go:193 | A slash or a dot element at the end of a path changes nothing. |
| `PathNames.CleanAddsName` | client/dir_resp_cache.go:193 | A name behind a path is added, and dot-dot behind it takes it off again. |
| `PathNames.CleanStaysAtTheTop` | client/dir_resp_cache.go:193 | Dot-dot at the root stays at the root. |
| `PathNames.CleanKeepsUps` | client/dir_resp_cache.go:193 | A relative path keeps the dot-dots that lead out of it. |
| `PathNames.TopIsNameless` | client/dir_resp_cache.go:193 | A cleaned path is the root or a dot exactly when it has no names. |
| `PathNames.NextCandidate` | client/dir_resp_cache.go:213-221 | The parent of a cleaned path drops its last name, and only the top is its own parent, so the walk ends. |
| `PathNames.MatchesPrefixIsAncestor` | client/dir_resp_cache.go:367-375 | On cleaned absolute paths, matching a prefix is naming an ancestor. |
| `DirRespCaching.StripFederationPaths` | client/dir_resp_cache.go:101-117 | Exactly the path suffix is trimmed from every server that is there; nothing for a trivial path, which `TrivialIsNameless` says is one without names. |
| `DirRespCaching.TrivialIsNameless` | client/dir_resp_cache.go:101-139 | The paths for which nothing is stripped or put back are exactly those without a name. |
| `DirRespCaching.PathsComeOffAndOn` | client/dir_resp_cache.go:101-139 | What a response says of a path with names, the base of each server with that path, becomes for another such path the base with the other path; for a path without names nothing is taken off or put on. |
| `DirRespCaching.ReconstitutePaths` | client/dir_resp_cache.go:123-139 | The path is appended to every server that is there; nothing for a path without names. |
| `DirRespCaching.StripUndoesReconstitute` | client/dir_resp_cache.go:101-139 | Stripping undoes reconstituting, always. |
| `DirRespCaching.ReconstituteUndoesStrip` | client/dir_resp_cache.go:119-122 | Reconstituting undoes stripping if and only if every server path ends in the object path, or the object path has no names: the comment's unconditional inverse is false. |
| `DirRespCaching.CacheKeyInjective` | client/dir_resp_cache.go:141-146 | Keys of newline-free federations never collide. |
| `DirRespCaching.DirRespCache.Store` | client/dir_resp_cache.go:162-181 | The entry stored under the cleaned prefix, or nothing for a relative prefix or no federation. |
| `DirRespCaching.DirRespCache.Lookup` | client/dir_resp_cache.go:192-226 | The walk up the path answers with the first live entry. |
| `DirRespCaching.DirRespCache.Invalidate` | client/dir_resp_cache.go:330-335 | Exactly the one entry is removed. |
| `DirRespCaching.DirRespCache.CleanExpired` | client/dir_resp_cache.go:354-363 | Exactly the expired entries are removed. |
| `DirRespCaching.LookupIsLongestPrefix` | client/dir_resp_cache.go:192-226 | For an absolute path the answer is the live entry of the federation with the longest matching prefix, and a miss if and only if none matches. |
| `DirRespCaching.RelativePathMisses` | client/dir_resp_cache.go:162-200 | A relative path, or no federation, never hits. |
| `DirRespCaching.FederationsAreIsolated` | client/dir_resp_cache.go:149-157 | What one federation stores changes no answer of another. |
| `DirRespCaching.LearnedEntryServes` | client/dir_resp_cache.go:162-210 | An entry learned from `p` with servers base + p answers any `q` under its prefix with base + q, for all paths with a name, while it lives and no longer prefix does. |
| `DirRespCaching.EntryServesUntilExpiry` | client/dir_resp_cache.go:162-226 | Where no other entry matches, a path under a stored prefix hits if and only if it is asked for before the time to live is over; a relative prefix or no federation stores nothing. |
| `DirRespCaching.CleaningChangesNoAnswer` | client/dir_resp_cache.go:354-363 | The periodic clean-up changes no answer, then or later, and leaves nothing that is past. |
| `DirRespCaching.InvalidationIsLocal` | client/dir_resp_cache.go:330-335 | Invalidating a prefix changes no answer of another federation or of a path outside the prefix, and the entry answers nothing any more. |
| `LoadingCaches.LoadingCache.LookUpFirst` | client/dir_resp_cache.go:245-248 | The fast path: a hit, or a miss that remembers when it looked. |
| `LoadingCaches.LoadingCache.Join` | client/dir_resp_cache.go:255-274 | One critical section joins the load in flight for the key or registers a new one. |
| `LoadingCaches.LoadingCache.StoreLoaded` | client/dir_resp_cache.go:281-287 | A successful reply with a prefix is stored before it is published. |
| `LoadingCaches.LoadingCache.Forget` | client/dir_resp_cache.go:294-298 | The record leaves the table after the reply was published. |
| `LoadingCaches.LoadingCache.TakeOutcome` | client/dir_resp_cache.go:301-325 | A waiter gets the load's error, or its stripped response with the waiter's own path put back. |
| `CacheLoads.RunKeepsInvariant` | client/dir_resp_cache.go:244-327 | Every interleaving of callers, loads, invalidations and time keeps the table, the callers and the freshness of what was stored. |
| `CacheLoads.OneLoaderAtATime` | client/dir_resp_cache.go:255-274 | At most one load per federation and cleaned path is in flight; a later one starts only after the earlier was stored, published and forgotten. |
| `CacheLoads.WaitersGetTheirOwnReply` | client/dir_resp_cache.go:301-325 | A caller that missed gets the reply of one load of its own key; exactly what the loader brought if the servers end in the path. |
| `CacheLoads.StoredBeforeForgotten` | client/dir_resp_cache.go:281-298 | Once a load that brought a response with an absolute prefix is forgotten, every lookup under that prefix hits until the response expires or entries are invalidated. |
| `CacheLoads.OnlyAnswersAreStored` | client/dir_resp_cache.go:281-287 | A load stores what it brought, stripped of its own path, for the time to live, under the cleaned prefix of the reply; an error or a reply without an absolute prefix is not stored. |
| `CacheLoads.InvalidationForgets` | client/dir_resp_cache.go:330-345 | In a run an invalidation takes away one prefix of one federation, or everything, and no other answer. |
| `CacheLoads.StoredElsewhereServes` | client/dir_resp_cache.go:162-181 | What another part of the client stores answers like a load of its own, as long as it lives. |
| `CacheLoads.CleaningUpIsUnseen` | client/dir_resp_cache.go:354-363 | Callers see nothing of the clean-up, whenever it runs. |
| `CacheLoads.CheckingAsksTheCache` | client/dir_resp_cache.go:245-248 | A caller hits exactly when the cache answers its path, and with that answer. |
| `CacheLoads.LoadsAgainExactlyWhen` | client/dir_resp_cache.go:250-274 | A caller that missed starts a new load if and only if every earlier load of its key was forgotten, which is when the table has no entry for it; otherwise it waits for the one in flight. |
| `CacheLoads.MissedCallerLoadsAgain` | client/dir_resp_cache.go:233-274 | Every caller that missed, before the store of an earlier load of its key or after the expiry, and reaches the table when all loads of the key are forgotten loads the path again. |
| `CacheLoads.SecondLoaderLookedInVain` | client/dir_resp_cache.go:233-235 | With nothing invalidated, a path that a load has answered is loaded again only by a caller that looked before that load stored or after its answer expired. |
| `CacheLoads.PathMayBeLoadedTwice` | client/dir_resp_cache.go:233-235 | For every path, federation and response there is a run in which the path is loaded twice with nothing expired or invalidated: "exactly once per objectPath" is false. |
| `CacheLoads.CancellingCommutes` | client/dir_resp_cache.go:310-327 | Cancelling a waiter commutes with every step that is not its own. |
| `CacheLoads.CancelledIsDone` | client/dir_resp_cache.go:310-327 | The cancelled waiter takes no step any more, and the load, the table and the entries stay. |
| `CacheLoads.WaiterIsAnswered` | client/dir_resp_cache.go:276-299 | Once a loader is back, its waiters are answered by at most three more steps of the load's goroutine and their own. |
| `ServerChoice.GenerateSortedObjServers` | client/main.go:445-498 | The first preference that is empty, or a plus that is not the last, is the error; otherwise the chosen servers, which `ChosenServers` describes. |
| `ServerChoice.ChosenServers` | client/main.go:445-498 | Without preferences every host of the director, once; with preferences the named ones in order, duplicates kept, and after a final plus also every host of the director that is not among them, once. |
| `ServerChoice.UnseenKeepsFirsts` | client/main.go:486-498 | The director's servers that are kept stand in its order, each the first with its host. |
| `ServerChoice.UnseenIsDistinct` | client/main.go:486-498 | They share a host neither with each other nor with a preferred server. |
| `ServerChoice.UnseenLosesNoHost` | client/main.go:486-498 | No host the director named is lost. |
| `ServerChoice.GetObjectServersToTry` | client/handle_http.go:2647-2675 | Attempts for every preferred server, then for at most the capped number of director servers, marked accordingly. |
| `ServerChoice.BuildDownloadTransfers` | client/handle_http.go:2712-2731 | The attempts of a download, which `DownloadTriesTheChosen` describes, or an error when there are none. |
| `ServerChoice.DownloadTriesTheChosen` | client/handle_http.go:2647-2731 | The attempts are those at the chosen servers in order: all the named ones, marked preferred, then as many of the director's as the cap allows. |
| `ServerChoice.AttemptsStandInOrder` | client/handle_http.go:2662-2675 | Every endpoint of every server is an attempt, server after server and endpoint after endpoint. |
| `ServerChoice.NothingToTryExactlyWhen` | client/handle_http.go:2713-2731 | There are none exactly when a preference is ill formed, which by itself is not an error here, or no chosen server has an endpoint. |
| `ServerChoice.DirectorPartIsApart` | client/handle_http.go:2643-2646 | At most the capped number of director servers is used, on distinct hosts, none of them a preferred one. |
| `AttemptOrdering.CompareIsTierOrder` | client/handle_http.go:3036-3052 | The comparison is the order of six tiers. |
| `AttemptOrdering.SortStable` | client/handle_http.go:3223-3236 | The sort leaves the tiers one after another, each in its original order. |
| `AttemptOrdering.TieredIsPermutation` | client/handle_http.go:3223-3236 | No attempt is lost, added or doubled. |
| `AttemptOrdering.TiersAreSorted` | client/handle_http.go:3034-3052 | Preferred before director's, and in each live before unknown before failed. |
| `AttemptOrdering.TiersAreStable` | client/handle_http.go:3223-3236 | Attempts of one tier keep their order. |
| `AttemptOrdering.GatherReplies` | client/handle_http.go:3163-3222 | For any order of replies: the scores, the largest size, the answer about collections and the ages; what the scores mean for the order is `SortedByReplies`. |
| `AttemptOrdering.SortAttempts` | client/handle_http.go:3073-3240 | Each attempt once, in an order that is right by the replies: preferred first, and in each group those alive before those refused, a cut-off one before the refused and, unless the first endpoint was good enough in time, after those alive, otherwise in their own order; unsorted and unprobed when there is nothing to decide. |
| `AttemptOrdering.SortedByReplies` | client/handle_http.go:3173-3236 | That order, stated on the replies and their arrival alone, for every result of the sort. |
| `AttemptOrdering.LiveFirstStaysFirst` | client/handle_http.go:3199-3217 | A live first endpoint is tried first. |
| `AttemptOrdering.DownloadOrder` | client/handle_http.go:3223-3240 | From servers to attempts: exactly the attempts built are tried, all preferred ones first, and each group is sorted by itself. |
| `ResumeDownload.DownloadHttp` | client/handle_http.go:4066-4700 | One request: what is written, counted and recorded, and whether the sizes allow success. |
| `ResumeDownload.SuccessIsCompleteness` | client/handle_http.go:4330-4365 | Against an honest answer an attempt succeeds if and only if the whole rest of the range arrives in order, the range ends inside the object, no needed HEAD fails, and a file on disk has the right size. |
| `ResumeDownload.Attempt` | client/handle_http.go:3590-3689 | One turn of the loop, with its three ways to leave it. |
| `ResumeDownload.HeadersDecide` | client/handle_http.go:4318-4365 | The size an answer is held against: the end of a bounded range, the length behind the start of an open one, the total of its Content-Range, or its own Content-Length. |
| `ResumeDownload.HeadDecides` | client/handle_http.go:4366-4410 | Without a declared size the HEAD decides: failing it fails the attempt with nothing written, its length counts unless it speaks of another version, and without one the attempt succeeds with what came. |
| `ResumeDownload.AttemptKeepsWhatCame` | client/handle_http.go:3590-3660 | What came is kept, and counted unless it is of another version; the recorded ETag is the first seen; an attempt that breaks off or has no body is no success. |
| `ResumeDownload.LoopStops` | client/handle_http.go:3590-3689 | The loop ends with a success, another version, or as many bytes as the object is long, and goes on otherwise. |
| `ResumeDownload.DownloadObject` | client/handle_http.go:3546-3691 | The loop over the attempts, each resuming at the range start plus what was downloaded. |
| `ResumeDownload.SinkHoldsTheRange` | client/handle_http.go:3546-3691 | After any attempts the sink holds the object from the range start on, each byte once, unless a change of version was detected; success means the whole requested range. |
| `ResumeDownload.SuccessHasOneVersion` | client/handle_http.go:3631-3650 | In a success every answer with a body that was tried had the same ETag or none. |
| `ResumeDownload.DifferentVersionsNeverSucceed` | client/handle_http.go:3631-3650 | Two attempts with different ETags never end in success. |
| `ResumeDownload.RangeIntoFileFails` | client/handle_http.go:3969-3997 | A range that does not begin at 0 never succeeds into a file once an answer says how long it is: the size on disk is compared with the end of the range. |
| `ResumeDownload.CompleteAnswerSucceedsExactlyWhen` | client/handle_http.go:4330-4365 | A complete and honest answer always succeeds into a stream, and into a file if and only if the range begins at 0 or nothing says how long it is. |
| `ResumeDownload.OrdinaryRangeFailsIntoFile` | client/handle_http.go:4330-4365 | Every range of every object that begins later has such an answer, an ordinary 206 with its Content-Length, which succeeds into a stream and fails into a file. |
| `ResumeDownload.IgnoredRangeIsAppended` | client/handle_http.go:3590-3689 | When a bounded range has fully arrived in a failed attempt and the next server ignores the empty range it is asked for, the whole object is appended, and taken for a success exactly when nothing says how long it is. |
| `ResumeDownload.IgnoredRangeSpoilsSink` | client/handle_http.go:3590-3689 | Every bounded range of every object, short of the whole, has such a download that ends as a success. |
| `JobEventHubs.JobEventHub.SubscribeJob` | client_agent/job_events.go:92-117 | A fresh channel is registered for the job. |
| `JobEventHubs.JobEventHub.UnsubscribeOnce` | client_agent/job_events.go:119-135 | The channel is removed and closed, once however often it is called. |
| `JobEventHubs.JobEventHub.PublishJobEvent` | client_agent/job_events.go:142-151 | Every subscriber of the job gets the event unless its buffer is full; nobody else is touched. |
| `JobEventTheorems.PublishDelivers` | client_agent/job_events.go:138-151 | An event goes behind what waits for each subscriber of its job with fewer than eight events waiting, is lost for the others, and touches nobody else. |
| `JobEventTheorems.SubscribeAddsOne` | client_agent/job_events.go:92-117 | Subscribing adds one subscriber under a number never used, with nothing waiting. |
| `JobEventTheorems.UnsubscribeTakesOne` | client_agent/job_events.go:119-135 | Unsubscribing takes one subscriber away and closes its channel, if it was there; the job's entry goes with the last. |
| `JobEventTheorems.BuffersChange` | client_agent/job_events.go:138-195 | In a run a subscriber's events leave from the front, and only the start of its job, its progress while a stream of it is counted, and its outcome come behind them. |
| `JobEventTheorems.StatusBeforeTheOutcome` | client_agent/transfer_manager.go:466-480 | In every run a job is pending while it waits and running from its start to its outcome. |
| `JobEventTheorems.LeavingEndsStream` | client_agent/job_events.go:119-135 | A client that goes away ends its stream at what is written, and a stream that ended leaves the hub with its channel closed. |
| `JobEventTheorems.StreamsWriteTheirOwn` | client_agent/job_events.go:225-292 | Every event a stream writes is of its own job, and a status or progress event. |
| `JobEventTheorems.RunKeepsInvariant` | client_agent/job_events.go:76-151 | Every interleaving of jobs, publishers, streams and evictions keeps channels, buffers, watchers and written events consistent. |
| `JobEventTheorems.ChannelsAreSafe` | client_agent/job_events.go:138-151 | No send and no close meets a closed channel. |
| `JobEventTheorems.TerminalEventIsLast` | client_agent/job_events.go:225-292 | A stream whose client stays writes exactly one terminal event, as its last; otherwise none. |
| `JobEventTheorems.TerminalEventIsTheOutcome` | client_agent/job_events.go:225-292 | That event carries the outcome of the job; the cancelled status for a failed job only after the failure was announced and a cancellation relabelled it; or, as the only event, the fallback for a job that was not in memory. |
| `JobEventTheorems.OutcomeIsForGood` | client_agent/transfer_manager.go:714-803 | A job has a terminal status exactly when its outcome is set, and no later step, a cancellation included, makes it run again or changes the outcome. |
| `JobEventTheorems.NothingAfterTheEnd` | client_agent/job_events.go:225-292 | After its end a stream writes nothing more. |
| `JobEventAgreement.StreamsAgree` | client_agent/transfer_manager.go:714-803 | Two streams of one job that reported it to clients that stayed end with the same status; if not, the statuses are failed and cancelled, the job failed, and it was cancelled after its failure was announced. |
| `JobEventAgreement.UncancelledStreamsAgree` | client_agent/job_events.go:225-292 | All streams of a job that is never cancelled report its outcome. |
| `JobEventAgreement.StreamsMayDisagree` | client_agent/transfer_manager.go:734-784 | A run in which one stream ends with failed and another stream of the job with cancelled. |
| `JobEventTheorems.WatchedJobStaysInMemory` | client_agent/transfer_manager.go:1081-1102 | Without a store, a job that a stream is counted for is not evicted. |
| `JobEventTheorems.StreamEndsInTime` | client_agent/job_events.go:253-291 | Once the outcome of its job is set, a stream that was counted while the job was in memory ends within ten turns, its first report included, whatever its buffer lost. |
| `JobEventTheorems.NeverStuck` | client_agent/job_events.go:253-286 | Until then it can always take a turn, and its first report, or later a tick, ends it with the job's terminal status. |
| `JobEventWaiting.WaitsForEverExactlyWhen` | client_agent/job_events.go:259-291 | A stream in its loop, for a job whose outcome is set, waits until its client leaves, whatever else happens, if and only if the job is out of memory and announced and no terminal event is in the stream's buffer. |
| `JobEventWaiting.RaceStrandsStream` | client_agent/job_events.go:95-117 | A run in which a stream finds its job, which is evicted before the stream is counted, and then waits so. |
| `PelicanFiles.PelicanFile.Read` | client/pelican_fs.go:265-303 | One read, from a new transfer, its pipe or a range request, with the new position and the outcome, which `ReadEnds` describes. |
| `PelicanFiles.ReadEnds` | client/pelican_fs.go:265-303 | With bytes left in the pipe at the cursor a read takes some and is done; with none left, or at or behind a known end outside the pipe, it reports the end of the file; otherwise the servers decide. |
| `PelicanFiles.EndIsReported` | client/pelican_fs.go:265-303 | In any session a read with room that returns no byte did not succeed unless a server answered it with nothing, and at the end of the pipe or of a known size the end of the file is reported. |
| `PelicanFiles.ReadingOnGetsEverything` | client/pelican_fs.go:265-345 | A reader that goes on reading gets the whole object, each byte once and in order, at least one a read, and then the end of the file at every read. |
| `PelicanFiles.FailedStartIsFinal` | client/pelican_fs.go:306-327 | A transfer that could not be submitted is not tried again: reading in place then reports the end of the file. |
| `PelicanFiles.RefusedReads` | client/pelican_fs.go:265-280 | A file that is a collection or not open for reading fails every read and changes nothing. |
| `PelicanFiles.PelicanFile.StartTransferRead` | client/pelican_fs.go:306-358 | The first read starts the transfer; it fails if the transfer cannot be submitted, and hangs if the pipe ends without a byte or nobody closes it. |
| `PelicanFiles.PelicanFile.DoRangeRead` | client/pelican_fs.go:381-479 | The first useful answer in the order tried, each server asked at most once, and the server to stay with. |
| `PelicanFiles.RangeReadAsksInTurn` | client/pelican_fs.go:381-479 | A range request asks the server it stayed with first and then the others for no more than is left, takes the first answer that does not fail, and stays with the server that gave it; it fails only if all do. |
| `PelicanFiles.RequestsKeepTheRest` | client/pelican_fs.go:360-379 | It moves the cursor of a read by what it brought, leaves that of a positioned read, and changes nothing else but the server to ask first. |
| `PelicanFiles.PelicanFile.ReadAt` | client/pelican_fs.go:483-507 | A positioned read; the cursor stays. |
| `PelicanFiles.PelicanFile.Seek` | client/pelican_fs.go:579-610 | The new position, or an error that leaves it. |
| `PelicanFiles.SeekFailsExactlyWhen` | client/pelican_fs.go:579-610 | A seek fails exactly when it would end before the file or counts from an end that is not known. |
| `PelicanFiles.TryOrderIsPermutation` | client/pelican_fs.go:396-405 | The order tried is a permutation of the servers. |
| `PelicanFiles.OperationRefinesArray` | client/pelican_fs.go:265-375 | Every operation moves and reads like an array with a cursor, perhaps short, and keeps the pipe's next byte at the transfer offset. |
| `PelicanFiles.SessionReadsTheObject` | client/pelican_fs.go:265-610 | In any session of reads, positioned reads and seeks every result has the bytes and the position an array with a cursor would give, perhaps short; how reads end is `EndIsReported`. |
| `PelicanFiles.EarlyEndComesFromThePipe` | client/pelican_fs.go:293-299 | An end of file is reported early exactly when the pipe carried only part of the object. |
| `PelicanFiles.EmptyTransferHangs` | client/pelican_fs.go:328-337 | Whatever the object, a first read never returns when the transfer ends before its first byte. |
| `PelicanFiles.EmptyObjectHangs` | client/pelican_fs.go:328-337 | The first read of an empty object never returns, whatever becomes of the transfer, unless it cannot be submitted. |
| `PelicanFiles.HangsOnlyThere` | client/pelican_fs.go:265-345 | A session has hung if and only if one of its reads started the transfer at position 0 and the pipe ended without a byte or was never closed. |
| `PelicanFiles.HangingStays` | client/pelican_fs.go:265-303 | From then on reads and seeks hang too; positioned reads do not. |
| `Encodings.HexRoundTrip` | client/handle_http.go:3931-3945 | Four bytes in hexadecimal are read back as the same four bytes. |
| `Encodings.Base64RoundTrip` | client/handle_http.go:583-595 | Decoding undoes encoding, for every sequence of bytes. |
| `Encodings.DigitsInOrder` | client/handle_http.go:583-595 | The digits are capital letters, small letters, figures, plus and slash, in that order, and nothing else is one. |
| `Encodings.QuadIsOneNumber` | client/handle_http.go:583-595 | Four digits write three bytes as one number of 24 bits, the highest first. |
| `Encodings.ReadBase64RoundTrip` | client/handle_http.go:3946-3956 | One read of the decoder gives back at most thirty of the bytes encoded, and fails only on none. |
| `Encodings.LeftoversAreIgnored` | client/handle_http.go:3946-3956 | What follows the first forty characters is not read, and before them a group that is not whole does not count. |
| `Encodings.SignsCount` | client/handle_http.go:3931-3945 | A sign may stand in front of hexadecimal digits and counts; there must be digits. |
| `Digests.ParseDigestHeader` | client/handle_http.go:3880-3965 | Every element of every header value that can be read, in order; the others are passed over. |
| `Digests.ValueRoundTrips` | client/handle_http.go:583-595 | A value is read back if and only if it has four bytes for a CRC, one to thirty otherwise. |
| `Digests.EntryRoundTrips` | client/handle_http.go:3891-3902 | The same for a whole element, with any white space before it. |
| `Digests.NamesOnTheWire` | client/handle_http.go:3891-3930 | The names are crc32, crc32c, md5 and sha, and each has its own form of value. |
| `Digests.SpaceAroundIsIgnored` | client/handle_http.go:3886-3892 | White space before and behind an element does not count. |
| `Digests.OthersArePassedOver` | client/handle_http.go:3891-3930 | Elements without an equals sign, and those of other algorithms, are passed over. |
| `Digests.CrcForms` | client/handle_http.go:3931-3945 | A CRC has at most eight digits; fewer stand for leading zeros, and capitals count as small letters. |
| `Digests.OnlyPaddedCrcIsBase64` | client/handle_http.go:3905-3918 | Only eight characters that end in two equals signs make a crc32c base64. |
| `Digests.ListRoundTrips` | client/handle_http.go:3880-3965 | Parsing a printed list gives back the list, in order. |
| `Digests.HeaderRoundTrips` | client/handle_http.go:3880-3965 | The same over any number of headers. |
| `Digests.DigestRoundTrip` | client/handle_http.go:3880-3965 | Every list of checksums of correct lengths survives printing and parsing. |
| `Digests.Base64CrcIsRead` | client/handle_http.go:3905-3918 | A crc32c sent in base64 is read as the same four bytes. |

## Left out

* Cancellation of the engine's context, panics caught by the engine, and results left in
  client buffers when the engine is shut down before its clients.
* Goroutines, mutexes and `reflect.Select` as such: atomic sections are steps, channels of
  the engine and the scheduler are sequences without a capacity, and the sending sides that
  would wait for room are always able to go on; when a hook would have to wait for the
  scheduler is a theorem (`HooksBlockExactlyWhen`).
* Pointer aliasing: the scheduler's tag states are values of a map, and the engine's jobs
  and files are entries of sequences named by their index.
* Integer widths: sizes, counters and times are unbounded integers, averages and weights
  are reals; `alpha` stands for one minus an exponential.
* Parsing of server URLs and proxies (`generateTransferDetails`) is a function from a
  server's text to its endpoints; the probes themselves are replies given in any order.
* Director queries, tokens and token hints, checksum fetching and comparison, the prestage
  API, packing and unpacking, temporary files, progress reports and speed limits.
* Collection refusal: the probe's answer about collections is computed, what a download
  does with it is not part of this model.
* Closing a remote file, writing to it and reading directories.
* The archiving of finished jobs into a store, which takes jobs out of memory although
  streams watch them.
* Line breaks inside base64 text, which header values cannot contain.
* Upload and third-party-copy attempts, recursive walks, the database of the client agent,
  and throttling of progress events by time.
* Snapshots of the scheduler and the log output of every component.
- TransferEngines.TransferEngine.SubmitTaken: does not model a wait for room in te.files, because channels have no capacity here.
- JobEventTheorems.StreamEndsInTime: does not cover a stream whose job was out of memory when the stream was counted; `WaitsForEverExactlyWhen` says which of these wait until their client leaves.
- PelicanFiles.PelicanFile.Read: does not model a closed file or the refusal to read after a write, because closing and writing are not part of this model.
- JobEventTheorems.WatchedJobStaysInMemory: does not cover a client agent with a store, because archiving is not part of this model.
- AttemptOrdering.SortStable: models the library's stable sort by the insertion sort it uses for up to twenty elements.
