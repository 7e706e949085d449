# Durable feeds, drafts and queues: a verified model

This project models the client side of a system whose work is recorded as *runs*: each run
has a durable, append-only log of updates that a server hands out at least once, over
streams that break. The Go SDK, the Desktop application, the VS Code extension and the
control-plane client each rebuild an exact picture from that log in spite of
reconnections, replays, stale replies and bounded memory. The models follow that code
branch by branch, and the theorems say what it is for.

| file | what it models |
|---|---|
| `RunWatcher.dfy` | the Go watcher: a feed read exactly once from an at-least-once stream |
| `TargetRoutes.dfy`, `DurableWatch.dfy` | the Desktop watch: the route registry, and the protocol of the watch with its loops |
| `WatchGuarantees.dfy` | what that protocol guarantees: contiguous feed, generation fence, recovery budget, reasons, completion |
| `WatchOutcomes.dfy` | when exactly its calls are made and its results given, and where a watch, a failure and a summary lead |
| `RunViews.dfy`, `ChatState.dfy`, `RecentRuns.dfy` | the Desktop reducer: run views, cache, recent runs |
| `ViewHistory.dfy` | every field of a cached view as a function of what the view has been told |
| `Convergence.dfy`, `EndToEnd.dfy` | whole runs of the reducer, alone and driven by the watch |
| `ComposerPaste.dfy` | the draft editor that hides large pastes behind placeholders |
| `SlotEdits.dfy` | when an edit that replaces a stretch of such a draft keeps what is hidden around it |
| `Dictation.dfy`, `DictationController.dfy` | speech written into a draft, across a send |
| `PrivateFrames.dfy` | length-prefixed frames over arbitrary chunks |
| `Conversation.dfy` | the conversation projected from messages, tasks and updates |
| `MessageQueue.dfy`, `UsageTotals.dfy` | the delivery queue and the usage cache |
| `OrderedMaps.dfy`, `StableSort.dfy`, `Utf16.dfy`, `Wrappers.dfy` | JavaScript's ordered map, stable sort and strings; options and results |

How the outside world enters. What a stream, a server, a clock or a user does is an
argument: the Go watcher runs against a script of turns; the Desktop watch against a
script of watches and an environment that answers the question asked at each tick; the
reducer, the dictation controller, the registry and the queue against a list of
operations. A theorem for all arguments is a theorem for all interleavings, because between
two awaits the original is not interrupted. Objects that update their fields are classes
whose methods are proved to take exactly the steps of a function on their state; loops are
loops; the theorems about whole runs are about those functions. The Desktop watch takes one
tick for each question it asks and each call it makes, so the n-th entry of its trace is
what happens at tick n.

Findings, where the code does not do what one might expect:

- A listener that goes on pushing bytes after a frame with bad JSON delivers values that
  depend on the chunking (`PrivateFrames.BadThenGood`).
  `PrivateFrames.PushingOnIsChunkingInvariant` says exactly when they do not: no good frame
  follows a bad one. The final overflow check of the parser can never fire.
- A speech revision can lose the hidden text of a large paste behind it. Dictation writes
  through the edit of the composer, which finds the changed stretch by comparing displays:
  when the old text of the slot and the new one differ by a piece that begins like what
  stands behind the slot, the stretch reaches into it. In an empty draft, say: a blank
  first revision opens an empty slot at 0, a paste of more than 1000 characters goes behind
  it, and the next revision is `[]`. The draft then displays `[][Pasted Content ...]`, and
  the pasted text is gone (`Dictation.HiddenTextIsLost`).
  `Dictation.SpeechReplacesItsSlotExactlyWhen` says exactly when a revision replaces what
  its slot means and nothing else: every placeholder behind the slot starts beyond the
  reach of the change, which `SlotEdits.ReachesExactlyWhen` reads off the old text of the
  slot, the new one and what follows the slot.
- A view can lose text for good when its run is opened. Opening hydrates the view and starts
  the watch at the last sequence of the details (apps/desktop/src/App.tsx:4747-4753 and
  4043-4047), while a view that was not cached has consumed nothing. For the log `"a"`,
  `"b"`, cancelled, opened at sequence 1, the view ends with the output `b`
  (`EndToEnd.OpeningLateLosesText`). `Convergence.ViewsShowWhatTheyAccepted` says what a
  view shows whatever its feed skips, `Convergence.GapShowsExactlyWhen` exactly when that is
  the canonical text, and `EndToEnd.WatchedRunConverges` covers every start of the watch.
- An answer to an interaction that arrives after the run has ended, and is still pending,
  leaves a terminal view with a pending interaction (`Convergence.LateAnswerStays`); nothing
  else does (`Convergence.PendingExactlyWhen`).
- A task id given twice can let one bucket of updates mix two runs
  (`Conversation.RepeatedTaskIdsMixRuns`); `Conversation.BucketsRise` says exactly when one
  does not: the tasks of the id that can own updates have one run.
- Messages that tie in time, role and locale order are shown in the order of arrival
  (`Conversation.TiesShowArrival`); the conversation is independent of that order exactly
  when no two different messages received tie (`Conversation.ProjectionIgnoresOrder`).

## Model

| member | source | states |
|---|---|---|
| RunWatcher.ExactlyOnce | sdk/go/watch.go:182-249 | for every script of open failures, stream errors, replays and ends of stream from an honest server, the values returned are the log between the first cursor and the present one, and a finished watch has reached the end of the log |
| RunWatcher.OffersAreDelivered | sdk/go/watch.go:182-249 | progress: a script that offers the log in order up to some update, among any replays and any interruptions slept over, has had exactly that delivered, and the watch is done if and only if that ends the run |
| RunWatcher.OutcomesExactlyWhen | sdk/go/watch.go:182-249 | for each outcome - delivered, gap, wrong run, end, unproved end, no stream, cancelled, failed, interrupted sleep - exactly which turn and state give it, when Recv goes on, and when the stream is open afterwards |
| RunWatcher.RunsGiveExactlyWhen | sdk/go/watch.go:182-249 | the same of the turn after any script |
| RunWatcher.CallsKnowTheCursor | sdk/go/watch.go:166-221 | every stream is opened and every end reconciled for the watched run after exactly what has been delivered, and every sleep lasts the capped, doubled backoff |
| RunWatcher.CallsExactlyWhen | sdk/go/watch.go:166-221 | a stream is opened exactly when there is none, a clean end is reconciled, only a retryable error is slept over |
| RunWatcher.RunIsContiguous | sdk/go/watch.go:182-249 | whatever any server does, the items returned are of the watched run and numbered without gap or repetition from the exclusive cursor, and after k reconnections the backoff is the initial one doubled k times, capped |
| RunWatcher.ReplaysAreInvisible | sdk/go/watch.go:236-238 | replays taken out of the streams, also those that come first on a reopened one, change nothing that is returned, and nothing of the state but whether a stream opened for replays alone is open |
| RunWatcher.InsertedReplayIsInvisible | sdk/go/watch.go:236-238 | a replay put in front of anything a watcher receives, on an open or a new stream, changes nothing at all |
| RunWatcher.DoneExactlyWhen | sdk/go/watch.go:184-248 | a watch is done if and only if it was, has just delivered a terminal item, or has proof that the same run is terminal at the exact cursor |
| RunWatcher.BackoffDoubles | sdk/go/watch.go:173-177 | the comparison with half the maximum computes the capped double, and the doubling stays within 64 bits |
| RunWatcher.Configure | sdk/go/watch.go:120-152 | accepted exactly for a run id, all functions and backoff bounds that are in order once zero has become the default |
| RunWatcher.RunWatcher.Reconnect | sdk/go/watch.go:165-179 | the method takes the retry step of the specification, on all its fields; it returns an error that is not retryable, sleeps for the backoff over any other, and goes on only after a whole sleep |
| RunWatcher.RunWatcher.Once | sdk/go/watch.go:188-249 | one turn of the receive loop is the step of the specification; what it returns it returns for its reason, it makes the calls that are due, and it goes on exactly after a repetition or an interruption slept over |
| RunWatcher.RunWatcher.Recv | sdk/go/watch.go:182-250 | one call consumes turns up to the first outcome, makes their calls in order and leaves the state those turns lead to; a finished watch returns the end at once |
| TargetRoutes.NeverCurrentAgain | apps/desktop/src/target-routing.ts:36-71 | a route that has stopped being current is never current again, whatever the registry is asked to do |
| TargetRoutes.GenerationsRise | apps/desktop/src/target-routing.ts:36-52 | generations never go back, and an unchanged generation means an unchanged route |
| TargetRoutes.RegistryIsRecency | apps/desktop/src/target-routing.ts:31-102 | in every reachable state the map is exactly the last 512 distinct runs bound since the target was activated, in the order of their last binding, each to a route that is still current |
| TargetRoutes.RoutesAreCurrent | apps/desktop/src/target-routing.ts:73-101 | a run that has a route has the current one |
| TargetRoutes.TargetRouteRegistry.RouteForRun | apps/desktop/src/target-routing.ts:99-101 | in a reachable state the route found for a run is the current one |
| TargetRoutes.TargetRouteRegistry.Activate | apps/desktop/src/target-routing.ts:36-46 | a new generation, the new route current, no bindings |
| TargetRoutes.TargetRouteRegistry.Invalidate | apps/desktop/src/target-routing.ts:48-52 | a new generation, no route, no bindings |
| TargetRoutes.TargetRouteRegistry.BindRun | apps/desktop/src/target-routing.ts:73-87 | the delete, set and drop loop leaves the last 512 entries, the new one last; a stale route binds nothing |
| TargetRoutes.TargetRouteRegistry.BindRuns | apps/desktop/src/target-routing.ts:89-97 | binds all of the runs in order, or none |
| DurableWatch.Configure | apps/desktop/src/target-routing.ts:224-234 | missing or non-finite numbers mean the defaults of 16 attempts and 45 seconds; finite ones and the first cursor lose their fraction, and are zero if they are negative |
| DurableWatch.WatchDurableRun | apps/desktop/src/target-routing.ts:221-393 | the nested loops ask and call, tick by tick, exactly what the protocol does, and return the result it reaches; they terminate |
| DurableWatch.OnEvent | apps/desktop/src/target-routing.ts:246-284 | one event takes the callback exactly where the protocol goes: at most the update after the cursor is passed on |
| DurableWatch.Listen | apps/desktop/src/target-routing.ts:240-287 | one watch: its events in order, and how it settles, leave the cursor, failure and activity of the protocol |
| DurableWatch.Wait | apps/desktop/src/target-routing.ts:327-335 | the sliced delay schedules exactly the time asked for, unless a route check between two slices fails |
| DurableWatch.Reconcile | apps/desktop/src/target-routing.ts:343-384 | a summary stops the watch, has it watch again, or fails and is retried, exactly as the protocol decides |
| DurableWatch.Retry | apps/desktop/src/target-routing.ts:322-384 | an attempt waits, re-checks deadline and route, and reconciles |
| DurableWatch.Recover | apps/desktop/src/target-routing.ts:312-389 | the retry loop follows the protocol to a result or to a reconciled run |
| DurableWatch.WatchOnce | apps/desktop/src/target-routing.ts:237-303 | one watch follows the protocol to a result or to a failure to recover from |
| WatchGuarantees.FeedIsContiguous | apps/desktop/src/target-routing.ts:264-282 | the updates passed on are those after the first cursor, each once, in order, and were offered by a watch; the cursor and every result count them |
| WatchGuarantees.WatchesResume | apps/desktop/src/target-routing.ts:242-246 | every watch is opened after exactly what has been passed on |
| WatchGuarantees.FeedIsExactlyOnce | apps/desktop/src/target-routing.ts:264-282 | if the watches offer updates of a log, what is passed on is the log between the first cursor and the present one |
| WatchGuarantees.CallsFollowChecks | apps/desktop/src/target-routing.ts:343-370 | an update is passed on right after the event whose route check held, a summary right after a route check that held and of the summary just read, of the watched run and not behind the cursor |
| WatchGuarantees.StaleFence | apps/desktop/src/target-routing.ts:246-249 | with the registry as route check, from the tick at which it has moved on no update and no summary is passed on at any later tick |
| WatchGuarantees.WindowClosesOnEvidence | apps/desktop/src/target-routing.ts:292-298 | the recovery window closes only after a watch that passed on an update, reported the run complete, or lasted five seconds by the clock |
| WatchGuarantees.LivelyWatchesClose | apps/desktop/src/target-routing.ts:292-298 | conversely an active or stable watch that ends on a current route leaves no window open |
| WatchGuarantees.BudgetHolds | apps/desktop/src/target-routing.ts:312-341 | at every moment the window has no more attempts than allowed, and no more delay scheduled or due than the deadline |
| WatchGuarantees.ReconnectionsAreBounded | apps/desktop/src/target-routing.ts:292-341 | while no watch shows activity or stability, the watches opened are at most one more than the attempts allowed and the delays scheduled within the deadline |
| WatchGuarantees.AttemptsWait | apps/desktop/src/target-routing.ts:322-335 | each attempt waits the next delay of the list or what is left of the deadline, unless a route check fails on the way |
| WatchGuarantees.ResultsHaveReasons | apps/desktop/src/target-routing.ts:289-392 | a result is given only for its reason, with the answer that shows it: a failed route check, a clean end or the terminal summary just read, an unrecoverable failure, spent attempts, a deadline counted from the clock reading that opened the window, or the wrong summary just read |
| WatchGuarantees.WatchesDigest | apps/desktop/src/target-routing.ts:246-287 | on a current route a watch leads to the cursor and first failure that its events give |
| WatchGuarantees.CleanEnds | apps/desktop/src/target-routing.ts:299-301 | a watch that ends without a failure was not rejected and its events led to the cursor without a violation |
| WatchGuarantees.ReplaysAreInvisible | apps/desktop/src/target-routing.ts:271-273 | replays put into a watch or taken out change neither where its events lead nor the updates passed on |
| WatchGuarantees.ReplaysAreTolerated | apps/desktop/src/target-routing.ts:271-282 | a watch that offers the log in order, with any replays, gives no failure and leads to the last update offered, having passed on each once |
| WatchGuarantees.WatchesPassOn | apps/desktop/src/target-routing.ts:264-282 | what a watch on a current route passes on is exactly what its events give |
| WatchGuarantees.CompleteIsTheEnd | apps/desktop/src/target-routing.ts:299-379 | when clean ends are proved and summaries honest, complete is reported only at the end of the log |
| WatchGuarantees.CompleteIsDelivered | apps/desktop/src/target-routing.ts:299-379 | and then the whole log after the first cursor has been passed on |
| WatchOutcomes.FaultIsRecorded | apps/desktop/src/target-routing.ts:246-289 | the failure on record is the first complaint of the last watch on a current route, else its rejection, and after that the error of the last summary asked for |
| WatchOutcomes.UpdatesExactlyWhen | apps/desktop/src/target-routing.ts:246-284 | an update is passed on if and only if the event before it brings the next one of the run on a current route before anything has gone wrong |
| WatchOutcomes.SummariesExactlyWhen | apps/desktop/src/target-routing.ts:343-370 | a summary is passed on if and only if it has just been read, is of the run, not behind the cursor, and the route is current |
| WatchOutcomes.ActivityExactlyWhen | apps/desktop/src/target-routing.ts:254-282 | a watch counts as active if and only if it has passed on an update or reported the run complete |
| WatchOutcomes.WindowClosesExactlyWhen | apps/desktop/src/target-routing.ts:289-298 | the recovery window closes if and only if a watch that was active, or lasted five seconds by the clock, settles on a current route |
| WatchOutcomes.StagesExactlyWhen | apps/desktop/src/target-routing.ts:289-389 | which check, reading of the clock or question this is, told from the two calls before it |
| WatchOutcomes.ResultsExactlyWhen | apps/desktop/src/target-routing.ts:289-393 | stale, complete, error with its failure: each result is given if and only if its reason holds at that tick |
| WatchOutcomes.WatchesLead | apps/desktop/src/target-routing.ts:242-305 | on a route that stays current a watch without complaint or rejection completes the run at the cursor its events lead to; any other has its first failure classified there |
| WatchOutcomes.UnrecoverableEnds | apps/desktop/src/target-routing.ts:305-389 | a failure that is not recoverable is the result, at the cursor |
| WatchOutcomes.RecoverableOpensAWindow | apps/desktop/src/target-routing.ts:305-312 | a recoverable one opens a window at a reading of the clock, without attempts or delays, unless one is open |
| WatchOutcomes.AttemptsAreMade | apps/desktop/src/target-routing.ts:312-345 | within attempts and deadline a recoverable failure is one more attempt: the summary is asked for after its delay, unless the delay has used up the deadline |
| WatchOutcomes.DelaysDouble | apps/desktop/src/target-routing.ts:207-214 | the delays double from a quarter of a second to four and then are five |
| WatchOutcomes.FailedReadsAskAgain | apps/desktop/src/target-routing.ts:382-384 | a summary that cannot be read is the next failure to be classified |
| WatchOutcomes.TerminalSummaryCompletes | apps/desktop/src/target-routing.ts:371-380 | a terminal summary at the cursor, passed on over a current route, completes the run |
| WatchOutcomes.ReconciledRunsAreWatched | apps/desktop/src/target-routing.ts:380-393 | after any other summary the run is watched again from the same cursor with the same window |
| WatchOutcomes.FirstWatchOpens | apps/desktop/src/target-routing.ts:237-246 | the first watch is opened after the first cursor |
| RunViews.BoundingIsExact | apps/desktop/src/state.ts:183-191 | bounding after every delta equals bounding the whole output once |
| RunViews.ApplyKeepsFaithful | apps/desktop/src/state.ts:493-612 | accepting a new update keeps both cursors, the feed and the tracked sequences in agreement with what has been accepted |
| RunViews.FaithfulViewsAreBounded | apps/desktop/src/state.ts:304-314 | the feed holds at most 200 strictly rising updates, at most 513 sequences are tracked, and the check of tracked sequences is redundant beyond the cursor |
| RunViews.FeedGrows | apps/desktop/src/state.ts:304-314 | an accepted update is always appended: the sorting branch of insertOrdered is never taken |
| RunViews.UpsertReplaces | apps/desktop/src/state.ts:256-266 | a pending interaction replaces its earlier version, a settled one removes it, and every other one stays |
| RunViews.ShortUpdatesAreShown | apps/desktop/src/state.ts:354-491 | the feed shows an update with short texts as it is, but for the text of a result |
| RunViews.LongTextsAreCut | apps/desktop/src/state.ts:118-129 | a longer text is cut at its end and says so |
| RecentRuns.MergeRuns | apps/desktop/src/state.ts:614-626 | the result is distinct by id, newest first, at most 200, and each run kept is its furthest version |
| RecentRuns.MergedIsBest | apps/desktop/src/state.ts:614-622 | a run that is kept is kept in the furthest version seen, the latest such one |
| RecentRuns.BestIsLatest | apps/desktop/src/state.ts:616-622 | that version is at least as far as the one known and as every incoming one, and is one of them |
| RecentRuns.MergeIsIdempotent | apps/desktop/src/state.ts:614-626 | merging the same page again changes nothing, given one creation time for each run |
| RecentRuns.RefreshNeverRegresses | apps/desktop/src/state.ts:628-639 | replacing the list shows only runs of the new page, none behind what was shown |
| RecentRuns.RefreshShowsThePage | apps/desktop/src/state.ts:628-639 | every run of the page is shown at least as far as the page has it, unless two hundred are shown |
| RecentRuns.NewestAreKept | apps/desktop/src/state.ts:614-626 | creation times fall along the list, and a run is missing only if two hundred others at least as new are kept |
| RecentRuns.LaterVersionsWin | apps/desktop/src/state.ts:614-623 | of several versions equally far the last that comes in is kept |
| RecentRuns.ByIdIsLast | apps/desktop/src/state.ts:615 | the known version of a run is the last one listed |
| ChatState.TrimViewCache | apps/desktop/src/state.ts:225-248 | deleting while iterating drops the first evictable views, as many as there are too many |
| ChatState.TrimKeepsWhatMatters | apps/desktop/src/state.ts:225-248 | only terminal, unselected, unprotected views go, every other is unchanged, and more than twelve stay only if none of them may go |
| ChatState.ReduceView | apps/desktop/src/state.ts:645-829 | an action touches no view but that of its own run, and the selected view survives every action that keeps it selected, other than a reset and the removal of a session |
| Convergence.ViewsMoveForward | apps/desktop/src/state.ts:655-749 | while a view is cached its two cursors never go back and its local prompt is written once |
| ViewHistory.ViewsTellTheirStory | apps/desktop/src/state.ts:493-829 | in every reachable state the status, end, times, extent, pending interactions and their number, usage, output, prompt, plan and stream state of a cached view are what the snapshots, updates, answers and notes it has taken say last |
| ViewHistory.ActionTells | apps/desktop/src/state.ts:645-829 | a view takes a snapshot behind neither cursor, an update beyond its feed, and notes; whatever it does not take leaves it as it was |
| ViewHistory.TakenIsCached | apps/desktop/src/state.ts:655-679 | a snapshot that is taken caches the view of its run |
| ViewHistory.SessionsAreRemoved | apps/desktop/src/state.ts:807-831 | removing a session removes exactly its views, and the selection with its view |
| ViewHistory.SelectionIsTheLast | apps/desktop/src/state.ts:647-654 | the selection is the last one made, the page token the last one received, and a reset forgets everything |
| ViewHistory.CacheIsBounded | apps/desktop/src/state.ts:225-248 | more than twelve views stay cached only if each is selected, has just been touched or has not ended |
| ViewHistory.RecentRunsFollow | apps/desktop/src/state.ts:641-643 | a run that a view is told of is listed as far as it was told, unless two hundred as new are listed, and nothing else but a page or a removal touches the list |
| ViewHistory.PagesAreListed | apps/desktop/src/state.ts:795-831 | a page replaces or extends the list by its runs; removing a session removes exactly its runs |
| Convergence.ReachableViewsAreFaithful | apps/desktop/src/state.ts:493-612 | in every reachable state the feed of a view is the last 200 projections of all updates accepted since it was cached |
| Convergence.RecentRunsStayInOrder | apps/desktop/src/state.ts:614-643 | in every reachable state the recent runs are distinct, newest first, and at most 200 |
| Convergence.PendingExactlyWhen | apps/desktop/src/state.ts:777-794 | a terminal view keeps no pending interaction, if and only if the action is not a late pending answer |
| Convergence.LateAnswerStays | apps/desktop/src/state.ts:777-794 | such an answer to a run hydrated after its end stays in the terminal view |
| Convergence.ViewsShowWhatTheyAccepted | apps/desktop/src/state.ts:645-829 | for snapshots and updates of a log in any order and with any gaps, every cached view shows the bounded result text once a snapshot has brought it, and otherwise the bounded text streamed by the updates it has accepted; at the end of the log its status is terminal and nothing is pending |
| Convergence.GapShowsExactlyWhen | apps/desktop/src/state.ts:105-116 | a view that skipped the updates between its cursor and the start of its feed shows the canonical output at the end if and only if a snapshot has brought the result, nothing but the skipped text was streamed and the log ends in its result, or the skipped text is empty or beyond what the bounded output shows |
| Convergence.SnapshotAgrees | apps/desktop/src/state.ts:105-116 | a snapshot of the log that is not stale loses no delta and doubles none |
| Convergence.UpdateAgrees | apps/desktop/src/state.ts:493-612 | the next update of the log keeps the output, cursors and end of the view in agreement with it, before or after a snapshot |
| Convergence.RunsAgree | apps/desktop/src/state.ts:645-829 | agreement is kept by every interleaving of snapshots of the log, its feed, and anything about other runs |
| Convergence.ViewsConverge | apps/desktop/src/state.ts:645-829 | a view whose feed has reached the end of a finished log shows the bounded result text, a terminal status and nothing pending, however snapshots and feed were interleaved |
| EndToEnd.WatchedRunShows | apps/desktop/src/App.tsx:1687-1712 | a watch started behind any cursor, over any honest watches and interruptions, feeding the reducer among other actions, leaves the view with what it showed before and exactly the updates delivered beyond its own cursor |
| EndToEnd.WatchedRunConverges | apps/desktop/src/App.tsx:1687-1712 | for a view that agrees with its log and a watch started behind any cursor: at the end of the log the view shows the canonical output if the watch began no further than the cursor of the view, and if it began further exactly when a snapshot has brought the result or what was skipped is unseen |
| EndToEnd.CompleteWatchShowsResult | apps/desktop/src/App.tsx:1714-1722 | a watch that reports completion, over proved clean ends and honest summaries, has brought the view to the end of the log with that output, unless it began at the end and the view was behind: then the view is as it was |
| EndToEnd.OpenedRunDrives | apps/desktop/src/App.tsx:4747-4753 | hydrating and selecting a run, cached or not, from any state, keeps the cursor of its view and what it has consumed, whatever the cursor of the details |
| EndToEnd.OpeningLateLosesText | apps/desktop/src/App.tsx:4747-4753 | an uncached run opened at its first update and watched from there to its cancellation shows the second text alone, for any two texts of which the first is not empty |
| EndToEnd.FirstSnapshotDrives | apps/desktop/src/state.ts:655-679 | selecting a run and receiving any snapshot of its log is a state such a watch can start from |
| EndToEnd.ReplayShowsTheRun | apps/desktop/src/state.ts:731-749 | every finished log, replayed after any first snapshot of it, ends in the canonical view |
| OrderedMaps.WithBoundedEntry | apps/desktop/src/state.ts:846-864 | delete, set and drop the oldest leaves the newest entries, the new one last, for every limit |
| OrderedMaps.PutKeepsOrder | apps/desktop/src/state.ts:846-864 | setting a known key keeps its place, a new one comes last |
| OrderedMaps.BoundedMapIsRecency | apps/desktop/src/state.ts:846-864 | after any history the bounded map holds the last distinct keys at their last values, in order |
| ComposerPaste.PasteRefinesPlainText | apps/desktop/src/composer-paste.ts:123-150 | for every selection, condensed or not, the plain text after a paste is the text before the selection, the normalised paste and the text after it |
| ComposerPaste.PasteEndsAtTheCaret | apps/desktop/src/composer-paste.ts:123-150 | the caret is right behind what was pasted, display and placeholders around it are kept; a paste is condensed exactly beyond a thousand characters, under a new placeholder |
| ComposerPaste.CaretFollowsThePaste | apps/desktop/src/composer-paste.ts:123-150 | up to the caret the text means what was before the selection and then the paste, behind it what was behind the selection |
| ComposerPaste.SelectionOfPlainText | apps/desktop/src/composer-paste.ts:123-150 | when the selection cuts no placeholder, the plain text before the paste is the same two parts around what was selected |
| ComposerPaste.EditKeepsUntouched | apps/desktop/src/composer-paste.ts:73-120 | an edit ends with exactly the requested display, keeps the draft well formed, and keeps exactly the placeholders that neither the hunk nor the intent touches |
| ComposerPaste.SparesExactlyWhen | apps/desktop/src/composer-paste.ts:73-96 | an edit touches a placeholder by itself if and only if the selection, the unit deleted or the place typed at is not before or behind it |
| ComposerPaste.EditRefinesPlainText | apps/desktop/src/composer-paste.ts:73-120 | on the plain text an edit replaces what the hunk means by what was typed |
| ComposerPaste.HunkIsTheDifference | apps/desktop/src/composer-paste.ts:97-112 | outside the hunk the two displays are equal, and the hunk cannot be made smaller at either end |
| ComposerPaste.ReplaceMeans | apps/desktop/src/composer-paste.ts:48-70 | replacing a range leaves the meaning before and behind it unchanged and keeps the draft well formed |
| ComposerPaste.PlaceholderIsNew | apps/desktop/src/composer-paste.ts:31-46 | a new placeholder differs from every placeholder of the draft |
| ComposerPaste.PlaceholderIsNumbered | apps/desktop/src/composer-paste.ts:31-46 | a new placeholder takes the number after the greatest in use for its size, and none if it is the first |
| ComposerPaste.ReachableDrafts | apps/desktop/src/composer-paste.ts:73-150 | every draft that edits and pastes can make has placeholders in bounds, disjoint, matching the display, and distinct |
| ComposerPaste.PastePlaceholder | apps/desktop/src/composer-paste.ts:31-46 | the loop over the pastes finds the greatest number in use |
| ComposerPaste.MeasurePrefix | apps/desktop/src/composer-paste.ts:97-104 | the loop measures the longest common prefix |
| ComposerPaste.MeasureSuffix | apps/desktop/src/composer-paste.ts:105-112 | the loop measures the longest common suffix behind it |
| ComposerPaste.EditComposerDraft | apps/desktop/src/composer-paste.ts:73-120 | the method computes the edit the theorems are about |
| ComposerPaste.ExpandComposerDraft | apps/desktop/src/composer-paste.ts:153-168 | the sort and splice loop gives the left-to-right reading of every well-formed draft |
| ComposerPaste.ExpandIsPlainText | apps/desktop/src/composer-paste.ts:153-168 | expansion and reading agree: nothing hidden is lost, doubled or moved |
| Utf16.CodePointCount | apps/desktop/src/composer-paste.ts:25-29 | the loop counts code points, a surrogate pair as one |
| Utf16.CodePointsAreEncoded | apps/desktop/src/composer-paste.ts:25-29 | the characters counted are those that UTF-8 writes |
| Utf16.Utf8LengthIsExact | apps/desktop/src/dictation.ts:89 | the byte length is that of the UTF-8 encoding of RFC 3629, an unpaired surrogate being written as U+FFFD |
| Utf16.TrimTakesSpaces | apps/desktop/src/dictation.ts:127-130 | trimming takes away spaces at both ends and nothing else |
| Utf16.NormalizeNewlines | apps/desktop/src/composer-paste.ts:129 | no carriage return is left |
| Utf16.NormalizingKeepsLines | apps/desktop/src/composer-paste.ts:129 | the lines of the text, however they end, are kept one for one |
| Utf16.DecimalRoundTrip | apps/desktop/src/composer-paste.ts:38-45 | a written suffix reads back as the same number |
| SlotEdits.ReachesExactlyWhen | apps/desktop/src/composer-paste.ts:97-112 | the changed stretch reaches beyond a replaced slot if and only if its old and new text continue each other with the unit that follows the slot |
| SlotEdits.HunkOfSlot | apps/desktop/src/composer-paste.ts:97-112 | the changed stretch never begins before the slot, and ends behind it by exactly that reach |
| SlotEdits.SameTextExactlyWhen | apps/desktop/src/composer-paste.ts:48-70 | two replacements that give the same display leave the same plain text, whatever is hidden, if and only if they treat every placeholder alike |
| SlotEdits.SlotMeansExactlyWhen | apps/desktop/src/composer-paste.ts:73-120 | an edit that replaces a slot of the display replaces in the plain text what the slot means and nothing else, whatever is hidden, if and only if every placeholder lies before the slot or beyond the reach, or meets both the slot and the changed stretch |
| Dictation.SpeakOwnsItsSlot | apps/desktop/src/dictation.ts:78-163 | an update changes nothing of the display outside its slot, leaves both slots in place, and moves the segment and revision forward - or is outdated and changes nothing; the draft is never found changed under it |
| Dictation.RefusedExactlyWhen | apps/desktop/src/dictation.ts:84-121 | an update is invalid, out of date, ahead of an open segment or over a changed draft exactly under these conditions, and is written otherwise |
| Dictation.SpeechIsAppended | apps/desktop/src/dictation.ts:106-139 | new speech, trimmed, goes behind the draft or the punctuation tail it continues, after one space unless there is none before it, one is there, or it begins with a line feed or one of six marks; blank speech writes nothing; the slot left open is exactly that |
| Dictation.RevisionIsReplaced | apps/desktop/src/dictation.ts:106-151 | a revision replaces its slot by the speech in its new form, with the separator the slot began with, and the slot stays where it began |
| Dictation.TailIsLeft | apps/desktop/src/dictation.ts:145-161 | a final update with punctuation leaves its tail to be continued, at its place |
| Dictation.SpeechReplacesItsSlotExactlyWhen | apps/desktop/src/dictation.ts:77-141 | every update that is written replaces in the plain text what its slot means by what was recognised and keeps all else, whatever is hidden, if and only if every placeholder is safe from the reach of the change |
| Dictation.SpeechReplacesItsSlot | apps/desktop/src/dictation.ts:77-141 | in particular for what the placeholders do hide: when all of them are safe, settled text and condensed pastes around the slot are kept |
| Dictation.PlaceholderStaysExactlyWhen | apps/desktop/src/dictation.ts:136-141 | a condensed paste in front of the slot or behind it keeps its hidden text at its place if it is safe from the reach, and only then when placeholders are distinct |
| Dictation.HiddenTextIsLost | apps/desktop/src/dictation.ts:136-141 | a blank revision, any large paste behind it and a revision that begins like a placeholder: the placeholder is still displayed and its text is lost |
| Dictation.RevisionIsInvisible | apps/desktop/src/dictation.ts:95-162 | a revision leaves no trace once a later revision of its segment is written |
| Dictation.PartialsAreInvisible | apps/desktop/src/dictation.ts:95-162 | for any formatter, all partial revisions of a segment and then its last one leave the display and cursor of the last one alone |
| Dictation.RebaseKeepsSlots | apps/desktop/src/dictation.ts:445-486 | after the send boundary both slots are where the cursor says, in the joined draft |
| Dictation.JoinedIsSpaced | apps/desktop/src/dictation.ts:435-455 | speech is joined to a draft after a send as it is appended while speaking |
| Dictation.EndSendCommutesWithSpeech | apps/desktop/src/dictation.ts:435-490 | ending the send before an update is written or after it gives the same draft and cursor |
| DictationController.DictationController.Apply | apps/desktop/src/dictation.ts:281-341 | the loop handles events in order up to the first that throws, with the draft and every field as specified |
| DictationController.FailsExactlyWhen | apps/desktop/src/dictation.ts:281-341 | which event fails with which problem, exactly |
| DictationController.EventsInSequence | apps/desktop/src/dictation.ts:281-341 | events that all go through have levels in range, no failure, boundaries in turn and transcripts of the present turn; they leave the turn, phase and session they report |
| DictationController.SpeechGoesToTheDraft | apps/desktop/src/dictation.ts:305-341 | without a send the transcripts write the draft one by one, with a fresh cursor after each boundary |
| DictationController.DictationController.Receive | apps/desktop/src/dictation.ts:385-415 | a reply of the present generation is applied and a failure recorded; any other is dropped |
| DictationController.RepliesFailSafely | apps/desktop/src/dictation.ts:264-280 | a reply that fails ends the session, keeps what was written before the failure, and one of another generation does nothing |
| DictationController.DictationController.Ask | apps/desktop/src/dictation.ts:365-404 | a start or a control goes out only when none is under way |
| DictationController.DictationController.Started | apps/desktop/src/dictation.ts:371-383 | a start reply of the present generation begins a fresh turn |
| DictationController.DictationController.BeginSend | apps/desktop/src/dictation.ts:416-421 | marks the turn being sent and opens an empty buffer, once |
| DictationController.DictationController.EndSend | apps/desktop/src/dictation.ts:435-490 | joins the buffer to the draft and rebases the cursor, field by field |
| DictationController.DictationController.Reset | apps/desktop/src/dictation.ts:492-506 | a new generation and fresh state |
| DictationController.ControlsExactlyWhen | apps/desktop/src/dictation.ts:365-506 | when a request goes out and a send begins, and what a start, a send and a reset leave, field by field |
| DictationController.EndSendJoins | apps/desktop/src/dictation.ts:435-490 | ending a send joins the buffered speech, spaced, and empties the buffer; without one it does nothing |
| DictationController.StaleRepliesAreIgnored | apps/desktop/src/dictation.ts:385-415 | after a reset and whatever follows it, a reply asked for before changes neither the draft nor any state |
| DictationController.BufferStaysIntact | apps/desktop/src/dictation.ts:317-338 | in every reachable state the buffer is plain speech with its slots at its end |
| DictationController.CursorStaysOrdered | apps/desktop/src/dictation.ts:281-506 | in every reachable state no slot of the cursor ends before its start |
| DictationController.SendSplitsSpeech | apps/desktop/src/dictation.ts:312-338 | while a turn is sent, the events handled, all or those before one that throws, write its own speech to the draft, and later speech to the buffer and nowhere else |
| DictationController.BufferingIsInvisible | apps/desktop/src/dictation.ts:435-490 | later speech, buffered and then appended, reads and goes on as if spoken into the draft itself |
| DictationController.EndSendConserves | apps/desktop/src/dictation.ts:435-490 | all buffered speech is appended, nothing of the draft is lost, hidden or visible, and both slots are in place |
| PrivateFrames.PrivateFrames.Push | apps/vscode/src/managed.ts:115-133 | one push delivers exactly what parsing all bytes seen gives, and ends as that ends; the final overflow check is unreachable |
| PrivateFrames.ChunkingInvariance | apps/vscode/src/managed.ts:118-132 | up to the first throw every chunking gives the values, the leftover and the error of the whole stream |
| PrivateFrames.DeliveryIsConserved | apps/vscode/src/managed.ts:322-328 | pushing on after a throw loses and repeats nothing |
| PrivateFrames.PushingOnIsChunkingInvariant | apps/vscode/src/managed.ts:322-328 | with a listener that pushes on, any two chunkings deliver the same values if and only if no good frame of the stream follows a bad one |
| PrivateFrames.BadThenGood | apps/vscode/src/managed.ts:322-328 | a bad frame and then a good one: nothing is delivered from one chunk, the value from two |
| PrivateFrames.BytesDeliverAll | apps/vscode/src/managed.ts:118-132 | byte by byte every value of the stream is delivered |
| PrivateFrames.PushAllAfterBadHeader | apps/vscode/src/managed.ts:120-123 | a bad header is never consumed: every later push fails on it and delivers nothing |
| PrivateFrames.RoundTrip | apps/vscode/src/managed.ts:341-345 | parsing encoded payloads gives back their values and goes on with what follows |
| PrivateFrames.ParsedBytesWereEncoded | apps/vscode/src/managed.ts:118-132 | conversely, bytes that parse are the encoding of the payloads found, followed by the leftover |
| PrivateFrames.WriteUInt32BE | apps/vscode/src/managed.ts:341-342 | the header is four bytes that read back as the length |
| PrivateFrames.HeaderBytes | apps/vscode/src/managed.ts:341-342 | the length is written most significant byte first |
| PrivateFrames.HeaderValue | apps/vscode/src/managed.ts:119-120 | and read so |
| PrivateFrames.HeadsExactlyWhen | apps/vscode/src/managed.ts:118-125 | a header is bad exactly when it announces nothing or more than two megabytes, and a frame is whole exactly when all it announces has come |
| Conversation.BoundRunUpdates | apps/control-plane-client/src/conversation.ts:23-57 | the loops and in-place sorts give each task its bucket, and there are no other buckets |
| Conversation.BucketsPartition | apps/control-plane-client/src/conversation.ts:36-53 | an update in a bucket belongs to the run of its task, none is in two buckets or twice in one, and every update with an owner is represented |
| Conversation.OwnedExactlyWhen | apps/control-plane-client/src/conversation.ts:28-48 | an update belongs to the last task with the id it names, or to the only task of its run, if and only if the runs agree and its sequence is a positive safe integer |
| Conversation.SharedRunsHaveNoOwner | apps/control-plane-client/src/conversation.ts:32-34 | an update that names only a run that two tasks claim belongs to neither |
| Conversation.FirstIsReleased | apps/control-plane-client/src/conversation.ts:49-51 | of the updates of one run and sequence the first that has an owner is released |
| Conversation.BucketsRise | apps/control-plane-client/src/conversation.ts:36-55 | the bucket of an id is one run in strictly rising order for all updates if and only if the tasks of that id that can own updates have one run |
| Conversation.RepeatedTaskIdsMixRuns | apps/control-plane-client/src/conversation.ts:28-34 | with a task id given to two runs it is not: the concrete bucket |
| Conversation.AddedSpeakForTasks | apps/control-plane-client/src/conversation.ts:73-117 | a message is added only for a task and role that no message speaks for, once, with the text of the input or the visible output; afterwards every task with something to show is shown |
| Conversation.TurnsPartition | apps/control-plane-client/src/conversation.ts:128-151 | every message is in exactly one turn, in order, every task has exactly one turn with its released updates, and there are no others |
| Conversation.TogetherExactlyWhen | apps/control-plane-client/src/conversation.ts:128-141 | two messages share a turn if and only if they name one task, or neither names one and they have one id |
| Conversation.ShownTurns | apps/control-plane-client/src/conversation.ts:152-159 | the turns shown are those of the partition, each once, sorted |
| Conversation.MessagesAreInOrder | apps/control-plane-client/src/conversation.ts:118-127 | messages are shown by the time of their task, then their own, those of the user first, then by id; each once |
| Conversation.TurnsAreInOrder | apps/control-plane-client/src/conversation.ts:152-159 | turns are shown by the time of their task or of their first message, then by key |
| Conversation.ProjectionIgnoresOrder | apps/control-plane-client/src/conversation.ts:60-160 | every permutation of the messages received gives the same conversation if and only if no two different ones tie in task time, time, role and locale order |
| Conversation.TiesShowArrival | apps/control-plane-client/src/conversation.ts:120-127 | two messages that tie are shown side by side in the order of arrival, among any others |
| Conversation.ConversationProjection | apps/control-plane-client/src/conversation.ts:60-160 | the method computes the projection the theorems are about |
| MessageQueue.EnqueueRefines | apps/desktop/src/message-queue.ts:54-89 | a message goes to the front or back of its own thread's queue and touches no other; it is refused exactly when that queue or the list is full |
| MessageQueue.RemoveRefines | apps/desktop/src/message-queue.ts:101-106 | removing acts on each thread's queue by itself |
| MessageQueue.UpdateRefines | apps/desktop/src/message-queue.ts:91-99 | updating acts on each thread's queue by itself |
| MessageQueue.NextIsOfOwnQueue | apps/desktop/src/message-queue.ts:108-119 | the next message of a thread is the first pending one of its own queue |
| MessageQueue.NextIsTheFirst | apps/desktop/src/message-queue.ts:108-119 | the first pending message of the thread is the next |
| MessageQueue.NextUnlessNone | apps/desktop/src/message-queue.ts:108-119 | there is none only if no message of the thread is pending |
| MessageQueue.StepByMessage | apps/desktop/src/App.tsx:3132-3287 | what each step makes of every message, in place, and that a request is sent exactly for the message a delivery marks |
| MessageQueue.StepKeepsInv | apps/desktop/src/App.tsx:3132-3287 | every step of the protocol keeps names distinct, one payload per key, one message sending, and the caps |
| MessageQueue.QueueIsSafe | apps/desktop/src/App.tsx:3132-3287 | over every run at most one message is sending, two requests under one idempotency key carry the same payload across retries and edits, and the caps of 8 and 32 hold |
| UsageTotals.UsageCache.RecordUsage | apps/vscode/src/controller.ts:865-885 | a report is recorded at most once per sequence and drops the cached total |
| UsageTotals.UsageCache.RunUsage | apps/vscode/src/controller.ts:887-911 | the total, cached or not, is the sum over the distinct sequences recorded |
| UsageTotals.SumIsOfFields | apps/vscode/src/controller.ts:887-911 | each count of the total is the sum of that count over the reports; an optional one is shown if and only if every report has it |
| UsageTotals.FirstReportCounts | apps/vscode/src/controller.ts:865-885 | of several reports of one sequence the first counts |
| UsageTotals.UsageCache.Prune | apps/vscode/src/controller.ts:983-990 | pruning leaves exactly what the retained runs alone would have left |
| UsageTotals.UsageCache.Clear | apps/vscode/src/controller.ts:128-129 | both caches are empty |
| UsageTotals.ReplaysCountOnce | apps/vscode/src/controller.ts:874 | reading a feed again, as far as it had been read, leaves every total as it was |
| UsageTotals.RecordedIsDistinct | apps/vscode/src/controller.ts:872-884 | recorded sequences are distinct, positive, at most 2000, and below that cap none that was reported is missing |

## Left out

- JSON and UTF-8 decoding of frames are a parameter of `PrivateFrames`; zeroing the bytes of a consumed frame is not modelled, nor is a callback that throws when it is given a value (apps/vscode/src/managed.ts:128).
- gRPC, Tauri calls, React, timers and promises: their answers are arguments, and code between two awaits is one step.
- WatchGuarantees.CompleteIsTheEnd: that clean ends are proved and summaries honest is a premise; the native stream that proves them (crates/colossus-sdk/src/stream.rs:93-140) is not part of this model.
- `watchDurableRun`: events that arrive after the promise of their watch has settled, callbacks that throw, and a first cursor that is not a number.
- Numbers: JavaScript numbers are exact integers or reals, so precision beyond 2^53 (cursors, placeholder numbers) and rounding of times are not modelled; the Go integers have their width.
- Locale collation is a rank of each string, and parsed dates are integers.
- Convergence.ViewsConverge: does not claim that the status only moves forward, because replaying an older state update after a terminal snapshot takes it back for a while; it says nothing of logs whose deltas contradict their result text.
- Convergence.PendingExactlyWhen: interaction answers in the converging runs are those that are no longer pending.
- RecentRuns.MergeIsIdempotent: needs one creation time for each run, which the code does not check.
- Update kinds that only reach the feed (notices, tool activity and the like) are one kind with one text; the field-by-field copying of `feedProjection` and `compactRun` is modelled as bounding that text.
- The rules of the spoken-punctuation formatter: it is any function whose tail lies within its text.
- Level listeners, model choice and error texts of the dictation controller; the abort sent to the native side.
- `performRunSubmission` and plugin resolution: a submission is accepted, fails or goes stale; one that threw would leave its message marked as sending. A refused edit or a paused queue is an action that is not taken.
- `listSessionRuns` and the rendering parts of the VS Code controller; setup, pinning, presenters and fixtures.
