# Verified models of the privacy operations console

This project models the parts of the admin API and of the DROP name standard whose
behaviour is hard to see from any one function: protocols interleaved at statement or
`await` granularity, tables written by several modules, rewriting passes that have to
compose, and progress arithmetic. Each file is one module; `dafny verify dfyconfig.toml`
checks them all.

| file | component |
|---|---|
| `MatchingRows.dfy`, `GateProtocol.dfy`, `StoredDecisions.dfy` | the matching-review gate: rows, SQL statements, any number of interleaved promote and decline calls, and what their context updates lose |
| `ReviewFlow.dfy`, `ReviewDesk.dfy`, `ReviewResults.dfy` | the same calls run alone: as functions, as methods over the tables of many requests, and what sequences of them leave |
| `RollupBridge.dfy`, `RollupFanout.dfy` | the live rollup bridge: inbox, dirty set, consumer and flush tasks; last-payload table and subscriber queues |
| `PipelineProgress.dfy`, `ProcessCard.dfy` | weighted progress, and the card that derives it from ledger rows and rollup counters |
| `ProgressCache.dfy` | the stale-while-revalidate caches |
| `NameTables.dfy`, `CanonicalOrder.dfy`, `NameNormalize.dfy`, `NameResults.dfy` | name normalisation |
| `FulfillmentKickoff.dfy`, `AttemptRows.dfy`, `FulfillmentLedger.dfy`, `RemainingEnqueue.dfy` | the kickoff gate, and the attempt ledgers |
| `OpsLogs.dfy`, `CutoverRun.dfy`, `ConnectorWizard.dfy` | log paging, the production confirm run, the connector wizard |

How the models are built:

- A SQL statement, or a stretch of code between two `await`s, is one atomic step. What the
  environment decides (whether a fetch succeeds, whether a cached entry is still recent,
  what a worker replies, how a file parses) is an argument of the step and unconstrained.
- Where the source updates state, the model has a class or a loop of the same form whose
  `ensures` gives its whole new state as a function of the old; the lemmas are about that
  function, over all inputs, all interleavings or all runs.
- History variables (decisions ever written, notifications accepted, results fetched) are
  part of the state machine, never of the modelled tables.
- Results that turn out false of the code are stated with the exact condition under which
  the code does meet them, next to a concrete input or run that shows the failure.

What the proofs say about the code that its own comments do not:

- Stored review context can lose a decision when two calls overlap
  (`StoredDecisions.StoredContextCanLose`), exactly when a write misses what was stored
  since its read (`StoredDecisions.StoredExactly`); the gate nevertheless closes only when
  every pair was decided at some time (`GateProtocol.ClosedRunsAreCovered`).
- A DROP response status that is set is final for promote, decline and triage, but not for
  the console: a Data disposition edit overwrites it and a rematch clears an opted-out one
  (`GateProtocol.ResponseChangesExactly`), and such an edit sets it before any review
  (`GateProtocol.DataEditAloneSetsResponse`).
- A flush takes its ids out of the dirty set before it reads and nothing puts them back, so
  a failed read, or a stop during one, loses the notifications it was serving
  (`RollupBridge.FailedReadLosesNotification`, `RollupBridge.StopLosesNotification`), and
  nothing else does (`RollupBridge.LostExactly`).
- Name normalisation distributes over concatenation exactly when the marks it keeps meet in
  canonical order (`NameResults.NormalizeDistributes`); a shadda before a fatha does not
  (`NameResults.MarksCanSwap`).
- Normalising a name twice differs from normalising it once exactly for names holding
  ǣ, ǽ or ǿ (`NameResults.IdempotentExactly`).
- A process card can read complete with one request in twenty still unfulfilled, and the
  bound is exact (`ProcessCard.CardCompleteExactly`).
- `data_fulfillment_attempts` carries a trigger that forbids changing terminal rows, so
  once an interim attempt is abandoned every later interim upload of that request fails
  (`FulfillmentLedger.FailedInterimBlocksUploads`); without the trigger uploads would
  rewrite abandoned rows (`FulfillmentLedger.UploadRewritesExactly`).
- An approved kickoff locks its disposition against later calls, but not against an edit
  that checked the lock before the approval (`FulfillmentKickoff.EditCanSlipPastTheLock`,
  `FulfillmentKickoff.LockHoldsExactly`).
- The attempts tables of the remaining verticals have a unique attempt number but no
  unique index on attempts under way, and two callers can leave two of them
  (`RemainingEnqueue.WithoutOpenIndexTwoOpen`), exactly by an insert with a free number
  while one is open (`RemainingEnqueue.StepDoublesExactly`); with such an index they cannot.
- An empty severity set pushes no SQL condition (`OpsLogs.PushdownIsExact`), and a source
  or text filter can make a page shorter than the feed warrants
  (`OpsLogs.SourceFilterEmptiesPage`); `OpsLogs.PageIsExactWhen` says exactly when.
- A stale answer's background refresh can end without fetching, because the flag is still
  held by a refresh that has already stored its result (`ProgressCache.SupersededRun`);
  `ProgressCache.StaleAnswerIsRenewed` lists every way a stale answer stays unrenewed.
- The wizard can stamp a live connection whose credentials were never stored, because a
  successful upload counts as a passed test (`ConnectorWizard.LiveWithoutCredentials`,
  `ConnectorWizard.BareStampExactly`).

Assumptions that stand for code outside the model: the catalog of review bindings is an
arbitrary finite set; whether an approval already covers the latest match result, whether
the review rule is configured and whether a kickoff locks the disposition are free choices
of every step; lower-casing, final-sigma context, and the decomposition and combining class
of a character in NFKD (Unicode Standard Annex #15) are functions, constrained only where a
lemma names the constraint (`NameResults.DotVanishes`, `NameResults.Standard`); the
canonical ordering of NFKD is modelled.

## Model

| member | source | states |
|---|---|---|
| MatchingRows.LatestPending | app/admin_api/src/admin_api/approvals.py:419-462 | the gate whose context is read is the newest pending one; none is pending when it finds none |
| GateProtocol.StepKeepsInv | app/admin_api/src/admin_api/approvals.py:508-581 | every statement of every call, and every outside writer, keeps stored context inside the history of decisions, and lets a call reach mirror or decide only once the catalog is covered |
| GateProtocol.NoneLeftMeansCovered | app/admin_api/src/admin_api/approvals.py:401-462 | an empty undecided set computed from possibly outdated reads still means every catalog pair was decided at some time, or its single-system vertical disposed |
| GateProtocol.ClosesOnlyWhenCovered | app/admin_api/src/admin_api/approvals.py:706-928 | after any interleaving of any number of calls, a statement that changes a gate's status or the DROP response finds every catalog pair covered by the history |
| GateProtocol.ClosedRunsAreCovered | app/admin_api/src/admin_api/approvals.py:706-928 | over every run, a gate that pends at its start or is opened in it, is never hit from outside, and ends up decided means that every catalog pair was decided at some time or its single-system vertical disposed; so does a response status that changes though no triage, synchronisation or rematch of the run sets it |
| GateProtocol.StepClosesExactly | app/admin_api/src/admin_api/approvals.py:706-928 | while the catalog is uncovered a step decides a gate exactly when it is pending and hit by an outside decision or by the rematch of an opted-out DROP request, and changes the response exactly by a legal triage of a null one, a synchronisation to another status or such a rematch |
| GateProtocol.UncoveredGateExactly | app/admin_api/src/admin_api/approvals.py:706-928 | in every run that leaves the catalog uncovered a gate is newly decided exactly when some action of the run hits it |
| GateProtocol.UncoveredResponseExactly | app/admin_api/src/admin_api/approvals.py:334-361 | in every run that leaves the catalog uncovered the response stays the same, at every moment, exactly when none of the actions sets it |
| GateProtocol.DecisionsWereAsked | app/admin_api/src/admin_api/approvals.py:508-542 | the history holds only pairs that some call of the run named |
| GateProtocol.VerdictsAreFinal | app/admin_api/src/admin_api/approvals.py:111-155 | over every run, whatever the actions, no gate disappears and a decided gate keeps its verdict |
| GateProtocol.StepSettles | app/admin_api/src/admin_api/approvals.py:111-155 | no single step of promote, decline, triage or an outside writer undoes a verdict |
| GateProtocol.ResponseChangesExactly | app/admin_api/src/admin_api/vertical_dispositions.py:457-481 | a DROP response that is set changes in exactly two cases: another module synchronises it to a different status, or a rematch clears an opted-out one; promote, decline and triage never change it |
| GateProtocol.ResponseIsFinalExactly | app/admin_api/src/admin_api/approvals.py:334-361 | over every run a response that is set stays exactly when none of the actions is such a rewrite |
| GateProtocol.DataEditOverwrites | app/admin_api/src/admin_api/vertical_dispositions.py:578-579 | a Data disposition edit with status 4 turns a response of 3 into 4 |
| GateProtocol.DataEditAloneSetsResponse | app/admin_api/src/admin_api/vertical_dispositions.py:578-579 | a Data disposition edit sets a null response although no pair has been reviewed and the catalog is not covered |
| StoredDecisions.StoredContextCanLose | app/admin_api/src/admin_api/approvals.py:520-541 | from a fresh request, a run of two overlapping declines of different pairs after which the first is missing from the stored context and kept by the history |
| StoredDecisions.StoredExactly | app/admin_api/src/admin_api/approvals.py:508-581 | in every run from a fresh request, a gate stores exactly the decisions written to it, at every moment, exactly when no write to it carried a snapshot that missed a decision stored between its read and its write |
| StoredDecisions.StepStays | app/admin_api/src/admin_api/approvals.py:520-581 | while nothing is missing, one write keeps it so exactly when its snapshot with its own pair contains everything stored |
| StoredDecisions.LostDecisionCanReturn | app/admin_api/src/admin_api/approvals.py:520-541 | a later call for the lost pair restores it, so the end state alone does not tell whether a write missed a decision |
| ReviewFlow.StatementsComposeToCall | app/admin_api/src/admin_api/approvals.py:706-928 | the statements of one call, run without interference, have exactly the effect and outcome of the sequential call |
| ReviewFlow.DeclineAlone | app/admin_api/src/admin_api/approvals.py:888-928 | the decline's vertical note, catalog check, mirror and decision, statement by statement, equal the sequential form |
| ReviewFlow.CheckAlone | app/admin_api/src/admin_api/approvals.py:781-841 | the closing statements return pending while a pair is left, otherwise mirror once and decide once |
| ReviewDesk.Desk.EnsurePending | libs/habeas-privacy-core/src/habeas_privacy_core/workflow/approval.py:457-505 | a gate is opened only without approval, without a pending gate and with a configured rule; other requests are untouched |
| ReviewDesk.Desk.DecideApproval | app/admin_api/src/admin_api/approvals.py:111-155 | compare-and-set: decides exactly when the gate is pending and reports whether it did |
| ReviewDesk.Desk.SetDropResponseStatus | app/admin_api/src/admin_api/approvals.py:334-361 | refuses codes outside the allowed set, writes a null DROP status once, and reports whether it wrote |
| ReviewDesk.Desk.RecordSystemDecision | app/admin_api/src/admin_api/approvals.py:508-542 | adds the pair to the confirmed or declined set of that gate and changes nothing else |
| ReviewDesk.Desk.RecordDeclinedVertical | app/admin_api/src/admin_api/approvals.py:545-581 | adds the vertical to that gate's declined verticals and changes nothing else |
| ReviewDesk.Desk.UndecidedKeys | app/admin_api/src/admin_api/approvals.py:419-462 | the loop returns exactly the listed pairs that are not decided, with the test vertical left out of unscoped listings |
| ReviewDesk.Desk.MirrorWhenGateCloses | app/admin_api/src/admin_api/approvals.py:676-703 | mirrors the caller's own Data status or the stored Data disposition, only codes 3, 4 and 5, only once; `ReviewResults.CallMirrorsData` says when it writes and what |
| ReviewDesk.Desk.Promote | app/admin_api/src/admin_api/approvals.py:706-841 | an unknown pair or a status other than 3, 4, 5 changes nothing and raises; otherwise the call equals the specification the protocol refines, whose outcome, dispositions, gates and response the results of `ReviewResults` state |
| ReviewDesk.Desk.Decline | app/admin_api/src/admin_api/approvals.py:844-928 | an unknown pair changes nothing and raises; otherwise the call equals the specification the protocol refines, whose outcome, gates and response the results of `ReviewResults` state |
| ReviewDesk.Desk.RejectTriage | app/admin_api/src/admin_api/approvals.py:1073-1115 | triage sets only the DROP status, to one of four codes, only when it is null |
| ReviewDesk.Desk.BulkApprove | app/admin_api/src/admin_api/approvals.py:272-325 | an unconfigured rule raises at the first gate to be opened and changes nothing; otherwise the batch does per request what one confirm does, in order, stops at the first exception leaving earlier requests done, and sorts ids by whether their gate closed |
| ReviewDesk.BatchLists | app/admin_api/src/admin_api/approvals.py:299-325 | the approved ids are exactly the requests whose gate the confirm closed, and the pending ids those it left open without raising |
| ReviewResults.OneCall | app/admin_api/src/admin_api/approvals.py:706-928 | one call adds exactly its own key, removes its pair from the open ones and no pair is reopened; the gate closes, with this call's verdict, exactly when nothing is left |
| ReviewResults.CallMirrorsData | app/admin_api/src/admin_api/approvals.py:676-703 | the promote or decline that closes the gate of a DROP request with a null response sets it to n exactly when n is 3, 4 or 5 and is the Data disposition stored then, whichever pair it was about; a promote that finds everything approved does the same; a call that leaves its gate open, and any call on another request, leaves the response alone |
| ReviewResults.DispositionsAfter | app/admin_api/src/admin_api/approvals.py:584-673 | a promote stores its status for its vertical exactly when the vertical is live and unlocked and the status is 3 or 4 with a selection or 5 without one; no other call touches a disposition |
| ReviewResults.OutcomeExactly | app/admin_api/src/admin_api/approvals.py:781-841 | on the only pending gate a call raises exactly when its disposition is refused, closes exactly when every binding outside the test vertical is then decided or the settled only one of its vertical, and otherwise leaves it pending |
| ReviewResults.VerticalNotedExactly | app/admin_api/src/admin_api/approvals.py:888-902 | a decline notes its vertical exactly when no pair of it is left to decide; a promote never does |
| ReviewResults.GateOpensExactly | app/admin_api/src/admin_api/approvals.py:733-841 | without a pending gate a call opens one exactly when no approval stands and the rule is configured, and goes on as with that gate; otherwise no gate changes, a decline raises, and a promote answers already approved, pending or raises by the stated condition |
| ReviewResults.StoredKeys | app/admin_api/src/admin_api/approvals.py:481-542 | on a pending gate the stored confirmed and declined sets are exactly the keys of the calls made, in whatever order |
| ReviewResults.ClosesWhenEmptied | app/admin_api/src/admin_api/approvals.py:781-841 | over any sequence of calls the gate stays pending exactly until the call that leaves every binding decided, and that call closes it with its verdict |
| ReviewResults.DeclinedVerticalsAreHonest | app/admin_api/src/admin_api/approvals.py:545-581 | in every sequential run a declined vertical has a decision of its own for each pair, and a pair of a vertical with several systems is closed only by its own decision |
| RollupBridge.StepKeepsInv | app/admin_api/src/admin_api/live_rollup_notify.py:155-297 | every stretch between awaits keeps: the event is set exactly when something is dirty, the inbox is the untaken tail of the accepted notifications, each taken one is dirty or covered |
| RollupBridge.NoLostNotification | app/admin_api/src/admin_api/live_rollup_notify.py:155-171 | in every run each accepted id waits in the inbox or the dirty set, was in the snapshot of a flush whose read succeeded or of the one being read now, each taken after its acceptance, or every read that covered it failed or was interrupted by a stop |
| RollupBridge.NothingLostUnlessBroken | app/admin_api/src/admin_api/live_rollup_notify.py:299-322 | in every run where each read succeeds and no stop falls into one, no accepted notification is lost |
| RollupBridge.LostExactly | app/admin_api/src/admin_api/live_rollup_notify.py:286-322 | a step makes a notification lost exactly when it breaks, by failure or stop, the read that is serving it while its id waits nowhere and no earlier read served it |
| RollupBridge.SafeExactly | app/admin_api/src/admin_api/live_rollup_notify.py:286-322 | from a state where nothing is lost, no accepted notification is lost at any moment of a run exactly when none of its actions is such a step |
| RollupBridge.FailedReadLosesNotification | app/admin_api/src/admin_api/live_rollup_notify.py:299-322 | a run without any stop in which a failed read loses the id it was serving, and the tasks have nothing left to do |
| RollupBridge.StopLosesNotification | app/admin_api/src/admin_api/live_rollup_notify.py:102-135 | a run in which a stop during the read loses the id it was serving: after a new start it waits nowhere and the tasks have nothing left to do |
| RollupBridge.SnapshotNeverEmpty | app/admin_api/src/admin_api/live_rollup_notify.py:275-297 | the event mirrors the dirty set at every await point and the empty-snapshot branch is never taken |
| RollupBridge.InboxDrains | app/admin_api/src/admin_api/live_rollup_notify.py:238-259 | from every reachable running state the consumer alone empties the inbox without losing a notification |
| RollupBridge.DirtyDrains | app/admin_api/src/admin_api/live_rollup_notify.py:275-297 | from every reachable running state, wherever the flush task is suspended, it alone, its reads succeeding, empties the dirty set |
| RollupBridge.TasksServeEverything | app/admin_api/src/admin_api/live_rollup_notify.py:238-297 | no wake-up is missed: after any run the two tasks' own steps, with reads that succeed, bring every accepted notification into a flush whose read succeeded, except those lost to reads broken before; in a run without a broken read, every one |
| RollupBridge.FlushNowExactly | app/admin_api/src/admin_api/live_rollup_notify.py:238-288 | in every run the flush is asked to cut its window short exactly while a completed check waits for the next snapshot |
| RollupBridge.CheckStartsExactly | app/admin_api/src/admin_api/live_rollup_notify.py:238-251 | a completion check begins exactly when an id becomes dirty, and for that id; one that is dirty already gets none |
| RollupBridge.NotificationsConserved | app/admin_api/src/admin_api/live_rollup_notify.py:155-179 | in every run each notification is accepted or counted as dropped, and it is dropped exactly when 10000 are waiting |
| RollupBridge.Bridge.OnNotify | app/admin_api/src/admin_api/live_rollup_notify.py:155-179 | a full inbox drops and counts, a malformed payload changes nothing, otherwise the id is appended |
| RollupBridge.Bridge.ConsumerTurn | app/admin_api/src/admin_api/live_rollup_notify.py:238-259 | the head moves from inbox to dirty set; the event is raised only on the empty-to-nonempty change |
| RollupBridge.Bridge.FlusherSnapshot | app/admin_api/src/admin_api/live_rollup_notify.py:275-297 | both events are cleared and the whole dirty set is taken in one stretch |
| RollupFanout.Broadcaster.EmitEvent | app/admin_api/src/admin_api/live_rollup_notify.py:374-405 | broadcasts exactly when the payload differs from the table's, moves the id to the newest end, evicts the oldest beyond 128, and offers the event to every queue |
| RollupFanout.Broadcaster.FanOut | app/admin_api/src/admin_api/live_rollup_notify.py:374-405 | every queue with room gets the event, every full one drops it, and the drop count grows by the number of full queues |
| RollupFanout.Broadcaster.SubscribeQueue | app/admin_api/src/admin_api/live_rollup_notify.py:137-148 | a new queue starts with the table's payload of the latest process, if it is there; `RollupFanout.ReplayExactly` says which payload that is |
| RollupFanout.Broadcaster.RefreshLatest | app/admin_api/src/admin_api/live_rollup_notify.py:346-370 | the backstop read makes its process the latest and broadcasts it if it changed |
| RollupFanout.TrimCommutes | app/admin_api/src/admin_api/live_rollup_notify.py:374-398 | trimming to 128 before or after the next change gives the same table |
| RollupFanout.TailMembership | app/admin_api/src/admin_api/live_rollup_notify.py:374-398 | among entries ordered by last change, the newest n are exactly those with fewer than n distinct ids changed after them |
| RollupFanout.TableHoldsMostRecent | app/admin_api/src/admin_api/live_rollup_notify.py:374-398 | in every run the table answers for an id exactly when fewer than 128 other ids changed after it, with its last broadcast; an emit is broadcast exactly when it differs from that answer |
| RollupFanout.LastBroadcastIsLastPayload | app/admin_api/src/admin_api/live_rollup_notify.py:374-398 | in every run, whatever was evicted or skipped in between, the last broadcast of an id is the last payload computed for it |
| RollupFanout.ReplayExactly | app/admin_api/src/admin_api/live_rollup_notify.py:137-148 | in every run a new subscriber's queue is exactly the last payload of the process last refreshed when fewer than 128 other ids were broadcast after it, and empty otherwise |
| RollupFanout.DeliveredExactly | app/admin_api/src/admin_api/live_rollup_notify.py:374-405 | in every run an emit or refresh puts its event at the end of exactly the queues that hold fewer than 100, unless the payload is the one the table answers with, and counts the full ones |
| RollupFanout.OverflowsExactly | app/admin_api/src/admin_api/live_rollup_notify.py:386-397 | a subscription counts as overflowed exactly after a broadcast that found its queue at 100 |
| RollupFanout.UnsubscribedStaysGone | app/admin_api/src/admin_api/live_rollup_notify.py:150-151 | over every run an unsubscribed queue is gone until a new subscription, and no other queue goes with it |
| RollupFanout.ReaderGetsEverything | app/admin_api/src/admin_api/live_rollup_notify.py:137-151 | a subscriber that never overflowed and reads its queue out has received its replay and then every broadcast since it subscribed, in order |
| RollupFanout.SubscriberIsCurrent | app/admin_api/src/admin_api/live_rollup_notify.py:137-151 | a subscriber that never overflowed was last told, for each id it heard of, the last payload computed for it, and heard of every id broadcast since it subscribed |
| PipelineProgress.EarnedAndCurrent | app/admin_api/src/admin_api/drop_pipeline.py:1827-1846 | the loop earns the points up to and including the first blocking stage and names that stage |
| PipelineProgress.DeriveOverall | app/admin_api/src/admin_api/drop_pipeline.py:1812-1863 | the loop and the status branches compute the derivation whose status, stage and percentage `PipelineProgress.StatusExactly`, `CurrentExactly`, `PointsWithinStage` and `PercentIsNearest` state |
| PipelineProgress.CompleteExactly | app/admin_api/src/admin_api/drop_pipeline.py:1847-1858 | with successes within totals the status is complete exactly when nothing is open or failed, the first five stages are non-empty and fully successful, and fulfilment is non-empty and at least 95% successful |
| PipelineProgress.StatusExactly | app/admin_api/src/admin_api/drop_pipeline.py:1848-1858 | with successes within totals the status is needs_attention exactly when some stage has failed work and none has open work, in_progress exactly when some work is open, or none failed and one of the conditions of complete is missing, and complete otherwise |
| PipelineProgress.CurrentExactly | app/admin_api/src/admin_api/drop_pipeline.py:1828-1852 | the current stage is the first that has open, failed or missing work, or has not happened though it must; fulfilment when the first five have passed |
| PipelineProgress.PointsWithinStage | app/admin_api/src/admin_api/drop_pipeline.py:1818-1846 | with the first n stages full and quiet the points lie between the milestones 0, 10, 25, 45, 75, 90, 100 of that stage and the next, as far along as its successes among its total |
| PipelineProgress.NearlyAllPoints | app/admin_api/src/admin_api/drop_pipeline.py:1818-1846 | all but half a point is earned exactly when no stage before fulfilment falls short and fulfilment by at most 5% |
| PipelineProgress.PercentOnEntering | app/admin_api/src/admin_api/drop_pipeline.py:1818-1847 | entering a stage with the earlier ones done shows 0, 10, 25, 45, 75 or 90 percent |
| PipelineProgress.PercentIsNearest | app/admin_api/src/admin_api/drop_pipeline.py:1847 | with successes within totals the limits 0 and 100 never cut in, and the percentage is the integer nearest to the earned points, the even one on a tie |
| PipelineProgress.ProgressNeverGoesBack | app/admin_api/src/admin_api/drop_pipeline.py:1812-1863 | with fixed totals, more successes and less open or failed work never lower the percentage, move the current stage earlier or leave complete; the percentage stays in 0..100 |
| PipelineProgress.CurrentAdvances | app/admin_api/src/admin_api/drop_pipeline.py:1828-1846 | the first blocking stage never moves earlier under such progress |
| ProcessCard.AccumulateIngestLedgerRows | app/admin_api/src/admin_api/drop_pipeline.py:2352-2380 | the loop's land and promote counts are the sums over the rows of that step by bucket, and other steps are ignored |
| ProcessCard.LedgerFull | app/admin_api/src/admin_api/drop_pipeline.py:1528-1535 | a ledger stage is full with nothing open or failed exactly when some attempt is counted and all counted attempts succeeded |
| ProcessCard.RollupConserves | app/admin_api/src/admin_api/drop_pipeline.py:1553-1706 | matching and fulfilment count every unit in exactly one bucket, no stage has more successes than units, and open, successful and failed units are those of the rollup counters |
| ProcessCard.ReviewFullExactly | app/admin_api/src/admin_api/drop_pipeline.py:1653-1683 | review is settled exactly when no review waits and at least every row is approved |
| ProcessCard.FulfillmentFullExactly | app/admin_api/src/admin_api/drop_pipeline.py:1686-1706 | fulfilment passes exactly when nothing is unset and at least 95% of the rows are done |
| ProcessCard.MatchingStageFromLiveVerticals | app/admin_api/src/admin_api/drop_pipeline.py:1614-1650 | the headline is the first of the live counted verticals with the smallest success ratio, or the fallback when there is none |
| ProcessCard.HeadlineFullMeansAll | app/admin_api/src/admin_api/drop_pipeline.py:1614-1650 | the headline is full exactly when every live counted vertical is |
| ProcessCard.AssembleCard | app/admin_api/src/admin_api/drop_pipeline.py:2401-2434 | the card derives its progress from the six stages built this way; `ProcessCard.CardStatusExactly` says what it reads |
| ProcessCard.CardCompleteExactly | app/admin_api/src/admin_api/drop_pipeline.py:2401-2434 | a card reads complete exactly when the download succeeded, all counted land and promote attempts did, the headline is settled, review is settled and at most one request in twenty is unfulfilled |
| ProcessCard.CardStatusExactly | app/admin_api/src/admin_api/drop_pipeline.py:1848-1858 | a card reads needs_attention exactly when the download, a counted land or promote attempt or a unit of the headline failed and nothing is open, neither download, attempt, headline, waiting or missing review nor unset request; in_progress exactly when something is open, or nothing failed and a condition of complete is missing |
| ProcessCard.MatchingOpenAndFailed | app/admin_api/src/admin_api/drop_pipeline.py:1553-1611 | which rollup counters make the matching stage open or failed |
| ProcessCard.CardCompleteByCounters | app/admin_api/src/admin_api/drop_pipeline.py:1553-1706 | without a live counted vertical a card reads complete exactly when each ledger and rollup counter it is built from is settled |
| ProgressCache.StepKeepsInv | app/admin_api/src/admin_api/drop_pipeline.py:839-885 | every step keeps: the lock holder is the one cold fetch and the cache is empty, at most one refresh is active and the flag says so, the cache is the last completed result |
| ProgressCache.SingleFlight | app/admin_api/src/admin_api/drop_pipeline.py:967-1021 | in every run at most one fetch is in flight; a cold one holds the lock with an empty cache, a background one finds it filled |
| ProgressCache.CacheStaysFilled | app/admin_api/src/admin_api/drop_pipeline.py:967-992 | once filled the cache is never empty again |
| ProgressCache.AnswersAreCurrent | app/admin_api/src/admin_api/drop_pipeline.py:967-992 | every answer is the result of a completed fetch, never of one older than the last that completed before the call |
| ProgressCache.RaisedExactly | app/admin_api/src/admin_api/drop_pipeline.py:980-992 | in every run a call has raised exactly when its own wait or fetch failed; background failures and other calls' failures never reach it |
| ProgressCache.NobodyIsStuck | app/admin_api/src/admin_api/drop_pipeline.py:848-865 | a waiting caller can enter or the lock holder can finish, and the refreshing flag always has a task that can clear it, failures included |
| ProgressCache.OneTaskPerStaleAnswer | app/admin_api/src/admin_api/drop_pipeline.py:973-987 | in every run the number of background refreshes scheduled is exactly the number of answers given from a filled cache past its lifetime |
| ProgressCache.AnsweredExactly | app/admin_api/src/admin_api/drop_pipeline.py:967-992 | in every run a call made or let in under the lock after a fetch has completed is answered at once with the last result; before that it waits, and fetches once it has the lock |
| ProgressCache.StaleAnswerIsRenewed | app/admin_api/src/admin_api/drop_pipeline.py:839-865 | from the state after a stale answer at most three steps of the background tasks, with a fetch that succeeds, put a new result in the cache; at every later moment a result has been completed since, or they still can, or a background fetch failed, or the scheduled task found the flag held by one that had already fetched |
| ProgressCache.SupersededRun | app/admin_api/src/admin_api/drop_pipeline.py:848-865 | a run of nine steps for that last case: no task is left and nothing has been fetched since the stale answer |
| ProgressCache.Cache.CollectProgress | app/admin_api/src/admin_api/drop_pipeline.py:967-979 | a filled cache answers at once and a stale answer schedules one refresh; `ProgressCache.OneTaskPerStaleAnswer` counts them |
| ProgressCache.Cache.EnterLocked | app/admin_api/src/admin_api/drop_pipeline.py:980-987 | under the lock the cache is looked at again before fetching, and a stale answer schedules one refresh there too |
| ProgressCache.Cache.FinishCold | app/admin_api/src/admin_api/drop_pipeline.py:988-992 | a cold result fills the cache and answers; a failure raises; both release the lock |
| ProgressCache.Cache.StartBackground | app/admin_api/src/admin_api/drop_pipeline.py:848-852 | a refresh ends at once when another is active |
| ProgressCache.Cache.FinishBackground | app/admin_api/src/admin_api/drop_pipeline.py:853-865 | a refresh replaces the cached result, or leaves it and clears the flag on failure |
| NameNormalize.SplitJoin | transform/drop_hash/udf/normalize_name.js:239-248 | splitting at a key and joining with it restores the text |
| NameNormalize.ApplyCharMap | transform/drop_hash/udf/normalize_name.js:239-248 | the loop applies every key once, longer keys first, ties in any order |
| NameNormalize.OrderIrrelevant | transform/drop_hash/udf/normalize_name.js:239-248 | key-by-key rewriting in any such order equals one simultaneous substitution that prefers the two-character key |
| NameNormalize.StableTables | transform/drop_hash/udf/normalize_name.js:7-236 | no replacement of the four tables contains a key of the same table and at most one key has two characters |
| NameNormalize.StripCombiningMarks | transform/drop_hash/udf/normalize_name.js:250-266 | the loop drops exactly the marks of the range from the NFKD text, its marks in canonical order; `NameResults.OutputShape` and `NameResults.PlainCharacter` give the range by code point |
| NameNormalize.FilterAlnum | transform/drop_hash/udf/normalize_name.js:292-298 | the loop keeps exactly the accepted characters, in order |
| NameNormalize.NormalizeName | transform/drop_hash/udf/normalize_name.js:282-302 | the function equals the composition of the passes, null for null and for an empty result |
| CanonicalOrder.ReorderIsStableSort | transform/drop_hash/udf/normalize_name.js:250-256 | the canonical order of NFKD: ordered by class in every run of marks, the same characters, starters in place, and the order within a class kept |
| CanonicalOrder.ReorderConcatExactly | transform/drop_hash/udf/normalize_name.js:250-256 | ordering a concatenation orders its parts exactly when no mark that begins the second is of a lower class than one that ends the first |
| CanonicalOrder.KeptReorderExactly | transform/drop_hash/udf/normalize_name.js:250-266 | ordering changes nothing a later filter keeps exactly when the kept marks of every run are in order |
| CanonicalOrder.KeptConcatExactly | transform/drop_hash/udf/normalize_name.js:250-266 | ordering and then filtering a concatenation gives the parts exactly when their kept marks meet in order, whatever marks the filter drops between them |
| NameResults.NormalizeIsOrderedExpansion | transform/drop_hash/udf/normalize_name.js:282-302 | although each pass rewrites the whole text and lower-casing looks at context, the result is what each letter alone expands to, put together, its marks ordered once, and filtered |
| NameResults.NormalizeIsLetterwise | transform/drop_hash/udf/normalize_name.js:282-302 | normalisation is the concatenation of what each letter alone contributes exactly when the marks it keeps are spelled in canonical order |
| NameResults.LetterwiseFor | transform/drop_hash/udf/normalize_name.js:282-302 | the same for any tables with the properties the four tables share |
| NameResults.SigmaForms | transform/drop_hash/udf/normalize_name.js:52-53 | both lower-case sigmas give the same text |
| NameResults.PairInvisible | transform/drop_hash/udf/normalize_name.js:103-104 | the two-character key makes no difference once marks are stripped, and none to the order of the other marks |
| NameResults.NormalizeDistributes | transform/drop_hash/udf/normalize_name.js:282-302 | with null as empty, normalising a concatenation concatenates the normalised parts exactly when no kept mark that begins the second belongs before one that ends the first |
| NameResults.DistributesFor | transform/drop_hash/udf/normalize_name.js:282-302 | the same for any such tables |
| NameResults.StrippedMarksDistribute | transform/drop_hash/udf/normalize_name.js:257-264 | that condition holds whenever every mark of one part is stripped, as for Latin, Greek and Cyrillic names |
| NameResults.MarksCanSwap | transform/drop_hash/udf/normalize_name.js:250-266 | a shadda followed by a fatha: normalisation neither distributes nor acts letter by letter |
| NameResults.OutputShape | transform/drop_hash/udf/normalize_name.js:268-302 | for any tables and any Unicode data the output is non-empty, holds no character of U+0300 to U+036F, and of ASCII only a to z and 0 to 9 |
| NameResults.PlainCharacter | transform/drop_hash/udf/normalize_name.js:257-302 | a character that is in no table and its own lower case and decomposition is kept exactly when it is 0 to 9, a to z, or above U+007F outside U+0300 to U+036F; otherwise the result is null |
| NameResults.PlainNameIsFiltered | transform/drop_hash/udf/normalize_name.js:257-302 | a name of such characters loses exactly those outside that range, when none it keeps is a mark |
| NameResults.FirstTableWins | transform/drop_hash/udf/normalize_name.js:282-290 | a name of one table letter becomes its replacement in the first of the four tables, in the order of the passes, that has it |
| NameResults.IdempotentExactly | transform/drop_hash/udf/normalize_name.js:199-215 | over ASCII, the mapped letters and U+0307, a second normalisation changes nothing exactly when the name holds none of ǣ, ǽ, ǿ |
| NameResults.IdempotentFor | transform/drop_hash/udf/normalize_name.js:199-215 | the same for any such tables |
| NameResults.RelapseExample | transform/drop_hash/udf/normalize_name.js:199-215 | the one-letter name ǣ is changed by a second normalisation |
| NameTables.LatinExtendedEntries | transform/drop_hash/udf/normalize_name.js:103-236 | every entry of the extended Latin table replaces a key outside the other tables by settled letters, or relapses |
| NameTables.GreekEntries | transform/drop_hash/udf/normalize_name.js:23-60 | every Greek entry replaces one foreign character by ASCII letters |
| NameTables.CyrillicEntries | transform/drop_hash/udf/normalize_name.js:62-101 | every Cyrillic entry replaces one foreign character by ASCII letters |
| AttemptRows.TakenExactly | app/admin_api/src/admin_api/fulfillment_kickoff.py:682-692 | rows of a key numbered by their place use exactly the numbers 1..n |
| AttemptRows.MaxIsCount | app/admin_api/src/admin_api/fulfillment_kickoff.py:682-692 | for such rows the largest number is how many there are, so MAX + 1 is the next place |
| FulfillmentLedger.StepKeepsNumbers | app/admin_api/src/admin_api/fulfillment_kickoff.py:682-739 | initiation, owner status, upload, reopen and the workers keep interim attempts numbered by their place |
| FulfillmentLedger.StepKeepsOneOpen | app/admin_api/src/admin_api/fulfillment_kickoff.py:659-679 | none of them gives a vertical a second open attempt |
| FulfillmentLedger.NumbersAreOneToN | app/admin_api/src/admin_api/fulfillment_kickoff.py:659-787 | in every run interim attempt numbers are exactly 1..n, each once, and each vertical has at most one open attempt |
| FulfillmentLedger.TerminalForever | db/migrations/20260528000001_core_queue_primitives.sql:2-12 | success stays success in every run; under the trigger every terminal attempt stays as it is |
| FulfillmentLedger.ReopenLeavesNothingOpen | app/admin_api/src/admin_api/fulfillment_kickoff.py:342-363 | a reopen abandons each pending, claimed and in-flight attempt and changes no other |
| FulfillmentLedger.OwnerStatusLeaves | app/admin_api/src/admin_api/fulfillment_kickoff.py:832-850 | completing a vertical leaves it a successful attempt and none open; any other owner status leaves it one in flight |
| FulfillmentLedger.OwnerStatusExactly | app/admin_api/src/admin_api/fulfillment_kickoff.py:694-850 | an open attempt of the vertical is the one attempt rewritten; without one the next interim number is added, without a location |
| FulfillmentLedger.InitiateExactly | app/admin_api/src/admin_api/fulfillment_ops.py:311-329 | an initiation adds one pending attempt with a location, numbered after the interim attempts there are |
| FulfillmentLedger.InitiationProvisions | app/admin_api/src/admin_api/fulfillment_ops.py:386-429 | after it an upload is refused only by the trigger, for an interim attempt that failed or was abandoned |
| FulfillmentLedger.UploadExactly | app/admin_api/src/admin_api/fulfillment_ops.py:416-429 | an accepted upload leaves every interim attempt successful with a location and no other attempt touched |
| FulfillmentLedger.UploadRewritesExactly | app/admin_api/src/admin_api/fulfillment_ops.py:416-429 | an upload rewrites a terminal attempt exactly when the trigger is missing and an interim attempt failed or was abandoned |
| FulfillmentLedger.FailedInterimBlocksUploads | app/admin_api/src/admin_api/fulfillment_ops.py:416-429 | under the trigger one failed or abandoned interim attempt makes every later upload change nothing |
| FulfillmentLedger.ReopenThenUploadFails | app/admin_api/src/admin_api/fulfillment_ops.py:416-429 | initiate, reopen, initiate is a run after which an upload is refused under the trigger and accepted without it |
| FulfillmentLedger.OwnerStatusHidesInitiation | app/admin_api/src/admin_api/fulfillment_ops.py:386-400 | after an owner status an upload location is found exactly when it was before and the vertical had an open attempt to update |
| FulfillmentLedger.Ledger.InitiateInterimAccess | app/admin_api/src/admin_api/fulfillment_ops.py:311-329 | appends one pending attempt with an upload location, numbered after the largest |
| FulfillmentLedger.Ledger.ApplyOwnerStatus | app/admin_api/src/admin_api/fulfillment_kickoff.py:810-850 | updates the vertical's latest open attempt or appends one; the attempt returned is successful exactly on completion and in flight otherwise |
| FulfillmentLedger.Ledger.UploadInterimFiles | app/admin_api/src/admin_api/fulfillment_ops.py:370-446 | refused exactly without an upload location or when the statement would touch a terminal row; empty files are skipped and change nothing |
| FulfillmentLedger.Ledger.ReopenFulfillment | app/admin_api/src/admin_api/fulfillment_kickoff.py:342-363 | abandons every open attempt and no other |
| FulfillmentKickoff.StepKeepsInv | app/admin_api/src/admin_api/fulfillment_kickoff.py:247-338 | every statement of every kickoff or disposition call, every reopen and every outside decision keeps: each gate, and each call about to open or approve one, has a disposition behind it |
| FulfillmentKickoff.KickedOffHasDisposition | app/admin_api/src/admin_api/fulfillment_kickoff.py:266-288 | in every interleaved run a kicked-off vertical has a disposition |
| FulfillmentKickoff.StoredAreSound | app/admin_api/src/admin_api/vertical_dispositions.py:484-523 | in every interleaved run each stored deletion or opt-out has a selection and each stored not-found has none |
| FulfillmentKickoff.EditStoresExactly | app/admin_api/src/admin_api/fulfillment_kickoff.py:266-284 | an edit stores the caller's status and selection, or the latest match for a kickoff that needs one and gives none; it is refused exactly when the result is not sound or would change a kicked-off vertical |
| FulfillmentKickoff.KickoffExactly | app/admin_api/src/admin_api/fulfillment_kickoff.py:285-338 | a kickoff approves the newest pending gate, or a new one where the rule allows, and changes nothing on a vertical already kicked off |
| FulfillmentKickoff.GatesOnlyMoveOn | libs/habeas-privacy-core/src/habeas_privacy_core/workflow/approval.py:879-914 | over every run a kickoff gate is approved only from pending, keeps its vertical, and once rejected or superseded stays rejected |
| FulfillmentKickoff.StatementsComposeToAnswer | app/admin_api/src/admin_api/fulfillment_kickoff.py:247-338 | the statements of one call, run without interference, equal the sequential operation |
| FulfillmentKickoff.LockedUntilReopen | app/admin_api/src/admin_api/vertical_dispositions.py:525-548 | with calls one at a time a kicked-off vertical keeps its status and selection until it is reopened itself; other verticals' calls and reopens do not matter |
| FulfillmentKickoff.ReopenUnlocks | app/admin_api/src/admin_api/fulfillment_kickoff.py:410-444 | after a reopen an edit with a selection where one is needed, the caller's or else the latest match, is accepted, stored as it is, and a kickoff starts on it |
| FulfillmentKickoff.EditCanSlipPastTheLock | app/admin_api/src/admin_api/vertical_dispositions.py:525-572 | an interleaving in which an edit that passed its lock check before a kickoff changes the disposition after it |
| FulfillmentKickoff.OnlyOverlapChanges | app/admin_api/src/admin_api/vertical_dispositions.py:525-572 | per step: while a vertical is kicked off, only its reopen or a call already at its write changes the disposition, and no further call gets there with another one |
| FulfillmentKickoff.LockedThroughInterleaving | app/admin_api/src/admin_api/vertical_dispositions.py:525-572 | over every interleaved run without its reopen, a vertical kicked off while no call stands at its write of another disposition keeps its disposition |
| FulfillmentKickoff.LockHoldsExactly | app/admin_api/src/admin_api/vertical_dispositions.py:525-572 | a kicked-off vertical keeps its disposition in all interleaved runs without its reopen exactly when no call stands at its write of another disposition |
| FulfillmentKickoff.Kickoffs.UpsertDisposition | app/admin_api/src/admin_api/vertical_dispositions.py:484-556 | refused exactly for an invalid status and selection or a change to a kicked-off vertical; otherwise recorded |
| FulfillmentKickoff.Kickoffs.KickoffVertical | app/admin_api/src/admin_api/fulfillment_kickoff.py:247-338 | an edit that needs a selection and gives none takes the latest match; then edits first, needs a disposition, answers an approved vertical as such, otherwise approves the newest pending gate or one it opens |
| FulfillmentKickoff.Kickoffs.ReopenKickoff | libs/habeas-privacy-core/src/habeas_privacy_core/workflow/approval.py:879-914 | rejects the vertical's pending and approved gates and no others, and reports whether there were any |
| RemainingEnqueue.NumbersHaveNoGap | app/admin_api/src/admin_api/remaining_vertical_ops.py:277-291 | however callers interleave between reading the maximum and inserting, the numbers of a key are 1..n without gap or repetition |
| RemainingEnqueue.AtMostOneOpen | app/admin_api/src/admin_api/remaining_vertical_ops.py:243-309 | with a unique index on attempts under way no key ever has two |
| RemainingEnqueue.WithoutOpenIndexTwoOpen | app/admin_api/src/admin_api/remaining_vertical_ops.py:259-291 | with unique numbers alone, two callers that both found nothing leave two attempts under way |
| RemainingEnqueue.StepDoublesExactly | app/admin_api/src/admin_api/remaining_vertical_ops.py:276-291 | with unique numbers alone, a step leaves a key with a second attempt under way exactly when it is an insert whose number is free while an attempt of its key is open |
| RemainingEnqueue.OneOpenExactly | app/admin_api/src/admin_api/remaining_vertical_ops.py:243-309 | with unique numbers alone, a run never has two attempts of a key under way exactly when none of its inserts is such a one |
| RemainingEnqueue.ReturnedWasOpen | app/admin_api/src/admin_api/remaining_vertical_ops.py:243-309 | every id returned names an attempt of the caller's key that was under way at some moment of the call |
| RemainingEnqueue.CallKeepsKey | app/admin_api/src/admin_api/remaining_vertical_ops.py:174-188 | in every run a call is refused exactly for a system outside the six known names and otherwise works to its end on its own request and system, the alias resolved |
| RemainingEnqueue.StepKeepsNumbers | app/admin_api/src/admin_api/remaining_vertical_ops.py:276-309 | check, number read, insert, re-read and worker moves keep every key's attempts numbered in order |
| RemainingEnqueue.Attempts.EnqueueRemainingMatching | app/admin_api/src/admin_api/remaining_vertical_ops.py:243-309 | alone, a call returns the attempt under way or adds exactly one pending attempt numbered next, and an unknown system changes nothing |
| OpsLogs.SeveritySqlPredicate | app/admin_api/src/admin_api/runs.py:609-640 | the appended parts are joined in order; none is pushed for a missing, complete or empty set |
| OpsLogs.PushdownIsExact | app/admin_api/src/admin_api/runs.py:589-640 | under three-valued SQL logic the pushed condition lets a row through exactly when its severity is in the set, for every non-empty set and only for those |
| OpsLogs.QuietIsNotFailed | app/admin_api/src/admin_api/runs.py:540-546 | no informational status is a failed one or contains `error` or `fail`, so the two conditions never overlap |
| OpsLogs.AuditPartsAccept | app/admin_api/src/admin_api/runs.py:549-556 | the audit conditions, NULL included, accept exactly the asked-for severities |
| OpsLogs.SeverityExactly | app/admin_api/src/admin_api/runs.py:540-556 | which statuses and response codes make an entry an error, a warning or informational |
| OpsLogs.SearchExactly | app/admin_api/src/admin_api/runs.py:714-782 | a text search, unless blank, keeps an attempt exactly when the trimmed lower-case text occurs in its message or job, and an audit entry when it occurs in message, command, caller and actor joined by blanks |
| OpsLogs.WantedSplits | app/admin_api/src/admin_api/runs.py:655-680 | a row is wanted exactly when SQL lets it through and the service keeps it |
| OpsLogs.FetchOpsLogs | app/admin_api/src/admin_api/runs.py:643-798 | the loop returns the slice of the refined window of at most 600 rows |
| OpsLogs.PageIsPrefix | app/admin_api/src/admin_api/runs.py:682-798 | the page is always a beginning of the exact page of the fully filtered feed |
| OpsLogs.PageIsExactWhen | app/admin_api/src/admin_api/runs.py:682-798 | it is the exact page exactly when the wanted rows it reaches down to lie within the first rows that pass the pushed conditions: three times the end of the page, at most 600 |
| OpsLogs.SourceFilterEmptiesPage | app/admin_api/src/admin_api/runs.py:682-724 | three audit rows newer than the only attempt make a page of one attempt come back empty |
| OpsLogs.PageIsExact | app/admin_api/src/admin_api/runs.py:682-798 | without source and text filters it is the exact page whenever limit plus offset is at most 600 |
| CutoverRun.ProcessIdFromDownload | app/admin_api/src/admin_api/drop_prod_cutover.py:230-241 | the first of the three keys, in order, that holds an integer or a string of digits |
| CutoverRun.LandAttemptIdsFromDownload | app/admin_api/src/admin_api/drop_prod_cutover.py:244-257 | the integers of the list in order, booleans and junk skipped, nothing for any other shape |
| CutoverRun.IntsOfParts | app/admin_api/src/admin_api/drop_prod_cutover.py:244-257 | reading a list in parts gives the ids of the parts: order and repetition are kept |
| CutoverRun.IntsOfIds | app/admin_api/src/admin_api/drop_prod_cutover.py:244-257 | a list of ids reads back as itself |
| CutoverRun.SchemeIsRead | app/admin_api/src/admin_api/drop_prod_cutover.py:283-290 | the scheme is what stands before the first colon, or the whole text without one |
| CutoverRun.LandableExactly | app/admin_api/src/admin_api/drop_prod_cutover.py:283-338 | a location is refused exactly when it is blank or what stands before its first colon is `file` in any case |
| CutoverRun.IdsRead | app/admin_api/src/admin_api/drop_prod_cutover.py:230-241 | a number and its decimal digits read as that number; a boolean, any other text and anything else as none |
| CutoverRun.IntsOfOne | app/admin_api/src/admin_api/drop_prod_cutover.py:251-257 | an integer of the list is an id; a boolean and anything else is not |
| CutoverRun.LandBoundAttempts | app/admin_api/src/admin_api/drop_prod_cutover.py:357-372 | lands the ids in order, stops at the first reply that fails, and needs at least one id |
| CutoverRun.ProxyOnceMustWork | app/admin_api/src/admin_api/drop_prod_cutover.py:341-354 | posts once and works exactly on a 200 that is not idle |
| CutoverRun.RunConfirmSteps | app/admin_api/src/admin_api/drop_prod_cutover.py:375-421 | the posts follow download, land of each id, promote, dispatch, ensure-drain and stop at the first failing reply; ok exactly when all were posted and every reply passed |
| CutoverRun.ConversationIsUnique | app/admin_api/src/admin_api/drop_prod_cutover.py:375-421 | that description determines the posts: the same replies never give two different runs |
| CutoverRun.SucceedsExactly | app/admin_api/src/admin_api/drop_prod_cutover.py:341-421 | the whole plan passes exactly when the download gives a readable archive and at least one id, each land answers ok, promote and dispatch do not answer idle and the drain answers; the posts are then download, a land for each id, a promote of 5000, a dispatch of 50000 that drains all, and the drain |
| CutoverRun.PromotedAfterLanding | app/admin_api/src/admin_api/drop_prod_cutover.py:357-421 | nothing is promoted before every downloaded attempt has landed, and no attempt lands that was not downloaded |
| ConnectorWizard.StampsLeaveSettled | app/admin_api/src/admin_api/owner_connectors.py:1748-1813 | in every run, with tests by an administrator in between, a stamp is written exactly when the wizard is ready and leaves the connection live with credentials ready or in upload mode with a recorded upload; credentials were stored or a file uploaded before; otherwise only the cadence changes |
| ConnectorWizard.CompletedExactly | app/admin_api/src/admin_api/owner_connectors.py:1748-1813 | a connection carries the stamp exactly when some earlier completion was ready |
| ConnectorWizard.NothingIsLost | app/admin_api/src/admin_api/owner_connectors.py:987-1015 | over every stretch of a run the upload marker, credentials, cadence and stamp are never lost |
| ConnectorWizard.ModeChangesExactly | app/admin_api/src/admin_api/owner_connectors.py:1048-1094 | in every run the mode becomes live exactly by the owner's choice, a passed test, a redeemed sheet or a completion without upload, becomes upload exactly by choice or by a file that parses while no live connection works, and every other step, a failed live test among them, keeps it |
| ConnectorWizard.FailedTestKeeps | app/admin_api/src/admin_api/owner_connectors.py:1048-1094 | a failed live test records the failure and keeps everything else; a passed one also rotates the credentials and sets live mode; after a failure an upload is accepted |
| ConnectorWizard.StampsExactly | app/admin_api/src/admin_api/owner_connectors.py:1748-1813 | the stamp is written exactly with a cadence and, in upload mode, a file or proven credentials of auth0, paylocity or lever; in live mode, proven credentials |
| ConnectorWizard.FileExactly | app/admin_api/src/admin_api/owner_connectors.py:910-1033 | a good file leaves the marker and a passed test, an unusable one a failed test, an unclear one nothing; a plain upload is taken exactly when no working live connection is there |
| ConnectorWizard.RedeemAndAdminExactly | app/admin_api/src/admin_api/connections_admin.py:900-945 | redeeming a shared sheet stores credentials without a test; an administrator's test records its result only |
| ConnectorWizard.LiveWithoutCredentials | app/admin_api/src/admin_api/owner_connectors.py:1105-1109 | a run after which a live connection is stamped although no credentials were ever stored |
| ConnectorWizard.BareStampExactly | app/admin_api/src/admin_api/owner_connectors.py:1105-1153 | in every run a stamp leaves a live connection without stored credentials exactly when it was live, had an upload behind it and no stored credentials |
| ConnectorWizard.Connection.IngestOwnerCsv | app/admin_api/src/admin_api/owner_connectors.py:910-1033 | the ingest branches, including the test result a bad file records, give the specified new row |
| ConnectorWizard.Connection.ApplyLiveTestOutcome | app/admin_api/src/admin_api/owner_connectors.py:1048-1094 | a passed test rotates credentials and sets live mode; a failed one only records the failure |
| ConnectorWizard.Connection.CompleteSystemWizard | app/admin_api/src/admin_api/owner_connectors.py:1748-1813 | stamps exactly when ready, after the cadence of the same request is stored |

## Left out

- HTTP routes, role checks, OAuth, Secret Manager, BigQuery, GCS, audit writing and logging: I/O around the modelled logic.
- Strings behind review keys: a pair stands for the `vertical::system` key, so trimming, lower-casing and the JSON form of the context are not modelled.
- Other writers of the review rows: decisions, disposition edits, response writes and rematches elsewhere are outside steps of the gate protocol that may happen at any time with any status.
- The bulk-decline helper and its route, which never names a pair and therefore always raises.
- Gate expiry, leases and Postgres transactions: a statement is atomic and commits at once.
- Real time: the flush window, the listen reconnects, cache lifetimes and the statement timeout are steps that may happen at any time; a zero window is one step more than the code has.
- The contents read by a flush, and the order in which a flush and a backstop read finish: no version order is claimed. The backstop, which re-reads the latest process only, is not counted as serving a notification.
- The `success` count carried over inside the cached matching progress, and `as_of`, which a console snapshot removes from the cached summary.
- Floating point: weights are percent points and ratios exact, so a sum a rounding error away from a half is not modelled.
- Lone surrogates: text is a sequence of code points.
- NameResults.NormalizeDistributes: asks of the Unicode data that U+0307 decomposes into stripped marks of non-zero class, which holds of NFKD.
- NameResults.IdempotentExactly: speaks about names over ASCII, the table keys and U+0307, with lower-case and decomposition as in the Unicode data for those characters.
- CutoverRun.ProcessIdFromDownload: digits are the ASCII digits where the source takes any Unicode digit (and fails on one that is no decimal digit), and a blank location is one of ASCII white space.
- Concurrency of the fulfilment ledger: its numbers are read and written without a lock, so its results are about operations one after another; attempt order is insertion order.
- FulfillmentLedger.NumbersAreOneToN: rows of other workers carry no vertical, as their own payloads do not name one.
- Kickoff aliases and the notice gates a reopen supersedes; the DROP response status a Data disposition is synchronised to is a step of the gate protocol, not of the kickoff module.
- Normalisation of selected record ids: a selection is the list that reaches the upsert.
- FulfillmentKickoff.OnlyOverlapChanges: the library's `persist_confirmed_vendor_record_ids` rewrites a selection without looking at the lock; no module of the console calls it, and it is not among the steps.
- The hash refresh enqueued by uploads and completions, column mappings and list capabilities.
- Other writers of the connection row: invitations, their redemption, metadata edits and deletion in the administrator's connection routes; only the administrator's connection test is an operation of the wizard model.
- Concurrency of the wizard: it merges metadata without a lock; its results are about operations one after another.
- Search and link parsing, portfolio SQL, match-quality sums, settings forms and serialisers: single functions without state or a second one to agree with.
