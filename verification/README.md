# Verification of the review queue

Rabbit Maximizer keeps a persistent queue of pull requests that wait for a CodeRabbit review. Three interval loops (poll
detector, review detector, scheduler) and the dashboard write the same tables. This project models the tables, the
transactions that write them and the algorithms around them, and proves what they keep over every run.

`dafny verify dfyconfig.toml` checks the whole project with Dafny 4.11.

## How the model is organised

| part | files |
|---|---|
| rows, events and tables as values; how single rows change | `Domain`, `Transitions`, `QueueInvariant` |
| the enqueue cascade, the trigger decision and the handler of detected comments as functions of the tables, with their laws | `EnqueueSpec`, `TriggerSpec`, `DetectionSpec` |
| what these operations must do and exactly when, read off rows, deliveries and answers | `EnqueueOutcomes`, `TriggerOutcomes`, `DetectionOutcomes` |
| the state machine, its invariant, the theorems over whole runs, and runs on which documented properties fail | `Steps`, `SystemInvariant`, `Runs`, `Gates`, `Witnesses` |
| the mutable store and the repositories, services and loops that work on it | `Database`, `QueueRepository`, `PullRequestRepository`, `CommentRepository`, `ReviewTrigger`, `EnqueueService`, `EditDetector`, `Ticks`, `Pruner`, `SelectionSpec`, `Scheduler`, `ReviewTick`, `ReviewDetector` |
| the comment register and the direct scan | `CommentLog`, `DirectScanSpec`, `ScanOutcomes`, `DirectCommentChecker` |
| the queue order | `OrderAlgebra`, `QueueOrder`, `QueueOrderRepository` |
| the account cooldown as ISO text | `IsoText`, `CooldownText`, `SystemStateRepository` |
| the interval loops | `IntervalService` |
| comment URLs | `CommentUrl` |

The imperative methods are proved against functions of the tables that follow the branches of the code. The outcome
modules say, over rows, deliveries and answers alone, what each of these functions leaves and exactly when. The other
theorems are proved about these functions and about runs: sequences of any enabled steps of all components, in any
order, under a clock that does not go back. `Enabled` in `Steps` lists what a step assumes. `Scheduler.TickIsARun` and
`ReviewTick.TickIsARun` tie the loops to the runs, the latter with arbitrary steps of the other components between load,
look and write.

## Assumptions

- The unique indexes of `prisma/migrations` hold: `source_comment_id`, and (`repo_full_name`, `pr_number`) among the
  pending rows. They are enforced by `Database.UpdateRow` and `Database.InsertRow`, with refusal as an outcome.
- A comment belongs to one pull request (`CommentOf`, `CommentHome`). `src/StalePrRecoverer.ts` stores comments under ids
  made of the negated clock; two of them in the same millisecond would break this. New rows start with no attempts.
- A scheduler tick reads the clock once before it posts, and a post is recorded at a later instant. A tick's trigger and
  a dashboard trigger run from row read to last write without another component in between, as do the edit detection
  of one item and one pass of the direct scan; detector writes do not.
- The handler of one comment, the walkthrough note and its comment, and the edit detection are single steps of a run.
- The account cooldown is an instant in `Database`. Where the code compares it as text, so does the step that offers a
  next review (`CooldownText.KeptByText`, which `SystemStateRepository` proves of the stored texts).
- The clock leaves room for the account cooldown: the instant up to which a post blocks the next one is a valid date.
- JavaScript numbers are mathematical integers here; GitHub answers, generated identifiers and configuration values are
  arbitrary, the latter positive.

## Where code and documentation disagree

The model follows the code.

- `docs/business-rules.md:134` says that reopening a row resets its attempts. It does not
  (`EnqueueSpec.EnqueueKeepsAttempts`): `Witnesses.ReopeningKeepsAttempts` gives, for every number, a run in which a failed
  row comes back with that many attempts. A row that failed at the cap and is reopened fails again after its next
  successful post (`TriggerSpec.SpentRowFailsAtItsNextPost`).
- `docs/business-rules.md:176` says that attempts grow with every outcome, so that a row always reaches the cap. Outcomes
  that resolve the row leave them, and a reschedule ignores the cap: `Witnesses.ReschedulesAreNotCapped` gives, for every
  number, a run in which a row is selected that often and is still pending, and `TriggerSpec.OnlyReschedulesPassTheCap`
  says exactly which answers of GitHub let a row survive with its attempts used up.
- The conditional update of the account cooldown compares ISO text. `IsoText.TextOrder` gives the years for which that
  agrees with time. Outside of them the cooldown can move back (`SystemInvariant.CooldownMovesBackExactly` says exactly
  when), and `Witnesses.SpacingFailsAfterYear9999` is a run in which a post then comes too early. In the years 0 to 9999
  neither happens (`Runs.SchedulerPostsAreSpaced`).
- The freshness gate compares GitHub's edit time with the local `last_seen_at`; `CommentLog.SeenIffClockNotBehind` says
  exactly when a delivered revision counts as seen.

## Model

| member | source | states |
|---|---|---|
| `QueueInvariant.RowWriteKeepsInv` | src/db/queueRepository.ts:303-323 | storing a well shaped row keeps the queue invariant when no other row carries its comment and no other active row belongs to its pull request |
| `QueueInvariant.LegalRewriteKeepsInv` | src/db/queueRepository.ts:400-411 | a write that wakes no resolved row and takes over no foreign comment breaks no unique index, keeps the invariant and lets the row only progress |
| `QueueInvariant.SweepKeepsInv` | src/db/queueRepository.ts:571-586 | the age sweep leaves no retriggered row older than the maximum age, touches no other row and keeps the invariant |
| `Transitions.RowIn` | src/db/queueRepository.ts:58-67 | the lookup finds a row of the pull request in the status exactly when there is one |
| `Transitions.ByComment` | src/db/queueRepository.ts:316-322 | the lookup by source comment finds a row exactly when there is one |
| `Database.Database.UpdateRow` | prisma/migrations/20260731120101_recreate_review_queue_pending_unique_index/migration.sql:1-5 | an update is stored exactly when it breaks neither unique index of the queue |
| `Database.Database.InsertRow` | prisma/migrations/20260720_add_source_comment_id_unique/migration.sql:1-1 | an insert is stored under the next id exactly when it breaks neither unique index |
| `Database.Database.EnsureOrder` | src/db/queueRepository.ts:129-132 | a queue item without an order row gets one, without a position |
| `EnqueueSpec.ReopenableOf` | src/db/queueRepository.ts:104-111 | only a resolved row of the comment, resolved as completed, failed or skipped, is offered for reopening |
| `EnqueueSpec.EnqueueKeepsInv` | src/db/queueRepository.ts:41-50 | the four-stage cascade, on every path, keeps at most one active row for each pull request, unique comments, and resolution data exactly on resolved rows |
| `EnqueueSpec.SwapKeepsInv` | src/db/queueRepository.ts:112-142 | reopening the resolved row of an edited comment while resolving the retriggered row of the same pull request breaks no unique index and leaves one active row |
| `EnqueueSpec.CreatedMeansNewlyPending` | src/db/queueRepository.ts:41-355 | `created` is reported exactly when the pull request goes from no pending row to one, and the returned row is then that row and carries the delivered comment |
| `EnqueueSpec.EnqueueIsIdempotent` | src/db/queueRepository.ts:41-355 | enqueueing the same data again at the same instant changes no table, returns the same row and reports `created: false` |
| `EnqueueSpec.PendingAbsorbs` | src/db/queueRepository.ts:227-314 | while the pull request has a pending row, an enqueue writes nothing and reports `created: false`; it returns that row, or the resolved row of the delivered comment while this one is within its guard window or the comment is cooling down |
| `EnqueueSpec.EnqueueAdvances` | src/db/queueRepository.ts:41-355 | an enqueue writes only queue, order and at most one event; it loses no row, leaves attempts and terminal rows alone, moves no foreign comment, and reopens only the row of a comment edited after its reopenable resolution |
| `EnqueueSpec.EnqueueKeepsAttempts` | src/db/queueRepository.ts:114-127 | reopening a row does not reset its attempts, against `docs/business-rules.md:134` |
| `EnqueueSpec.CreatePathWaits` | src/db/queueRepository.ts:218-262 | on the create path a resolved row comes back only after the five-minute guard window and after any given cooldown |
| `EnqueueOutcomes.SameCommentSettles` | src/db/queueRepository.ts:68-103 | for the comment the retriggered row waits on: a push since reopens a stale trigger as pending, with the delivery's title, run and cooldown; a new run is adopted with a fresh clock; anything else changes nothing |
| `EnqueueOutcomes.EditTakesTheTriggersPlace` | src/db/queueRepository.ts:104-145 | for another comment with a row that may return: an edit since that row was resolved, and nothing else, makes it pending again and resolves the retriggered row as skipped |
| `EnqueueOutcomes.NewCommentIsTakenOver` | src/db/queueRepository.ts:146-170 | the retriggered row takes over a comment exactly when no row carries it; one whose row may not return is refused |
| `EnqueueOutcomes.EditReturnsTheRow` | src/db/queueRepository.ts:218-355 | without an active row of the pull request, the comment's own row returns exactly when it may, was edited since its resolution and is not held back by a cooldown or the five minutes |
| `EnqueueOutcomes.NewCommentGetsARow` | src/db/queueRepository.ts:264-289 | without an active row, a comment nobody carries gets a pending row with these fields, an order row and an event |
| `EnqueueOutcomes.PendingRowAnswers` | src/db/queueRepository.ts:295-314 | the pending row answers, unless the comment's own resolved row is held back, which then answers |
| `EnqueueOutcomes.CreatedExactlyWhen` | src/db/queueRepository.ts:41-355 | `created` is reported exactly when a push reopens the stale trigger, an edited comment takes a trigger's place, or nothing is active and the comment is new or its row returns; the enqueue throws exactly when another row carries the comment and may not return |
| `EnqueueOutcomes.EnteringRowIsItsOwn` | src/db/queueRepository.ts:41-355 | the row that enters is the only one that becomes pending, waits for the delivered revision, title, run and cooldown, and keeps its attempts |
| `QueueRepository.QueueRepository.Enqueue` | src/db/queueRepository.ts:41-50 | the imperative cascade has exactly the outcome of its specification, which `EnqueueOutcomes` pins for every delivery; a rethrown conflict leaves the store as it was |
| `QueueRepository.QueueRepository.AdoptRetriggered` | src/db/queueRepository.ts:52-170 | stage one: adopt, swap or recycle the retriggered row |
| `QueueRepository.QueueRepository.AdoptSameComment` | src/db/queueRepository.ts:68-103 | the same comment reopens a stale trigger, adopts a new run or changes nothing |
| `QueueRepository.QueueRepository.SwapWithResolved` | src/db/queueRepository.ts:112-145 | the resolved row of the delivered comment becomes pending and the retriggered one is resolved as skipped exactly when the comment was edited since that row was resolved (`EnqueueOutcomes.EditTakesTheTriggersPlace`); otherwise nothing changes |
| `QueueRepository.QueueRepository.CreateQueueRow` | src/db/queueRepository.ts:264-293 | inserts a pending row with an order row and an event, or recovers from the conflict |
| `QueueRepository.QueueRepository.HandleEnqueueConflict` | src/db/queueRepository.ts:295-355 | recovers with the pending row, reopens the edited resolved row, keeps an unedited one, or rethrows |
| `QueueRepository.QueueRepository.FindActive` | src/db/queueRepository.ts:58-67 | returns the row of the pull request in that status |
| `QueueRepository.QueueRepository.FindReopenable` | src/db/queueRepository.ts:104-111 | finds the reopenable resolved row of the comment exactly when there is one |
| `QueueRepository.QueueRepository.FindResolvedOf` | src/db/queueRepository.ts:227-234 | finds the resolved row of this comment on this pull request exactly when there is one |
| `QueueRepository.QueueRepository.GetActiveQueue` | src/db/queueRepository.ts:613-622 | lists exactly the active rows by ascending id |
| `QueueRepository.QueueRepository.GetRetriggeredQueue` | src/db/queueRepository.ts:601-610 | lists exactly the retriggered rows, without repetition, the longest retriggered first |
| `QueueRepository.QueueRepository.MarkRetriggered` | src/db/queueRepository.ts:357-384 | the row becomes retriggered with a fresh clock; an absent source run keeps the stored one; nothing else changes |
| `QueueRepository.QueueRepository.MarkRetriggerSkipped` | src/db/queueRepository.ts:386-398 | marks and counts the skip only while the row is pending, and reports whether it did |
| `QueueRepository.QueueRepository.MarkResolved` | src/db/queueRepository.ts:400-411 | resolves the row whatever its status; an unknown id is reported |
| `QueueRepository.QueueRepository.MarkResolvedIfStillRetriggered` | src/db/queueRepository.ts:413-421 | resolves the row exactly when it is still retriggered, and reports it |
| `QueueRepository.QueueRepository.AdoptRunIfStillRetriggered` | src/db/queueRepository.ts:423-433 | replaces the run exactly when the row is still retriggered under the run that was loaded |
| `QueueRepository.QueueRepository.ReopenStaleRetriggered` | src/db/queueRepository.ts:435-462 | reopens the row exactly when it is still retriggered, with an order row |
| `QueueRepository.QueueRepository.Reschedule` | src/db/queueRepository.ts:490-533 | moves the row to the replacement comment; a collision with a resolved row resolves it instead, any other collision is thrown |
| `QueueRepository.QueueRepository.BackOff` | src/db/queueRepository.ts:535-551 | one more attempt, parked as retriggered with a fresh clock |
| `QueueRepository.QueueRepository.StoreAttempts` | src/db/queueRepository.ts:696-701 | stores the computed attempts and nothing else |
| `QueueRepository.QueueRepository.ResolveStaleRetriggered` | src/db/queueRepository.ts:571-586 | resolves every retriggered row older than the age as failed, and no other |
| `TriggerSpec.SelectionSettles` | src/scheduler.ts:122-191 | a tick that selects a row either resolves it, keeping its attempts, or leaves it active with exactly one more; unless rescheduled it stays active only as retriggered, with a fresh clock, below the cap; no other row changes |
| `TriggerSpec.PostsExactlyWhenAsked` | src/ReviewTrigger.ts:70-133 | a trigger posts exactly when the source comment still asks, in reply to it, or when it is gone and no limit comment is left, without a reply; its own comments are never answered |
| `TriggerSpec.RescheduledExactlyWhen` | src/ReviewTrigger.ts:97-173 | a row is rescheduled exactly when its source was fetched or is gone, does not ask any more, and there is a latest limit comment that could be fetched; to that comment, with its stated wait or the fallback and the buffer |
| `TriggerSpec.SpentRowFailsAtItsNextPost` | src/scheduler.ts:151-159 | a row one attempt short of the cap is resolved as failed by its next successful post |
| `TriggerSpec.OnlyReschedulesPassTheCap` | src/scheduler.ts:128-147 | with the attempts used up, a selection leaves the row unresolved exactly when GitHub's answers move it to a comment no other row carries with a wait that leads to a valid date, against `docs/business-rules.md:176` |
| `Witnesses.ReschedulesAreNotCapped` | src/scheduler.ts:128-134 | for every number there is a run from empty tables in which one row is selected that often and is still pending with as many attempts, against `docs/business-rules.md:176` |
| `Witnesses.ReopeningKeepsAttempts` | src/db/queueRepository.ts:323-345 | for every number there is a run from empty tables that ends with the reopening of a failed row with that many attempts, against `docs/business-rules.md:134` |
| `TriggerSpec.RescheduleSettles` | src/db/queueRepository.ts:490-533 | rescheduling onto a free, a resolved or a foreign comment settles the row in each case |
| `TriggerOutcomes.AnswersAreOneOfSeven` | src/ReviewTrigger.ts:57-173 | GitHub's answers fall into exactly one of seven kinds: posted, refused for good, failed for the time being, outdated, and a move to a free, a resolved or an unusable comment |
| `TriggerOutcomes.PostSucceeds` | src/scheduler.ts:151-164 | a successful post leaves the row retriggered with one more attempt and no failure event exactly while that stays below the cap, and otherwise failed; post, counter, events and account cooldown are exactly these |
| `TriggerOutcomes.FailureBacksOff` | src/scheduler.ts:138-191 | a failure for the time being leaves the row retriggered with one more attempt and a fresh clock exactly while its attempts are below the cap, otherwise failed; nothing else happens |
| `TriggerOutcomes.RefusalEnds` | src/scheduler.ts:171-179 | a terminal answer resolves the row as failed whatever its attempts, and dismisses it |
| `TriggerOutcomes.OutdatedEnds` | src/scheduler.ts:135-137 | an outdated comment resolves the row as stale |
| `TriggerOutcomes.MoveKeepsPending` | src/scheduler.ts:128-134 | a move to a free comment keeps the row pending, counts the attempt, remembers the first comment and moves the account cooldown to where the new comment allows, never back |
| `TriggerOutcomes.MoveMeetsResolved` | src/db/queueRepository.ts:509-526 | a move to a comment whose row is resolved resolves this one as reviewed |
| `TriggerOutcomes.SelectionLeavesExactly` | src/scheduler.ts:122-191 | a selection leaves the row retriggered, pending, failed, stale or reviewed exactly for these answers and attempts, over the fields of the row and the answers of GitHub |
| `TriggerOutcomes.DashboardPostsExactly` | src/ReviewTrigger.ts:255-292 | the dashboard's trigger posts exactly when a retrigger is called for and GitHub takes it; the row then waits for its review with unchanged attempts, and otherwise nothing changes |
| `TriggerOutcomes.PostClosesTheGate` | src/scheduler.ts:91-98 | when nobody else waits, a post holds later ticks for the spacing, and its acknowledgement releases them |
| `TriggerSpec.RecordPostRewrites` | src/ReviewTrigger.ts:281-288 | recording a post makes the row retriggered with a fresh clock and unchanged attempts, and rewrites no other row |
| `TriggerSpec.SelectionEffects` | src/scheduler.ts:122-163 | a selection posts at most once; a post is counted, recorded and followed by the full account cooldown; otherwise only uncounted events and a later cooldown are left |
| `TriggerSpec.DashboardEffects` | src/ReviewTrigger.ts:255-292 | the same for the dashboard's trigger |
| `ReviewTrigger.ReviewTrigger.Trigger` | src/ReviewTrigger.ts:57-173 | follows the decision tree over the source comment and the latest limit comment; a row that is not pending, a refusal or an exception writes nothing |
| `ReviewTrigger.ReviewTrigger.PostAndRecord` | src/ReviewTrigger.ts:255-292 | a successful post updates row, counter, events and account cooldown together; a failed one writes nothing |
| `PullRequestRepository.PullRequestRepository.IncrementRetriggerCount` | src/db/pullRequestRepository.ts:157-170 | one more retrigger on a known pull request; an unknown id is reported |
| `PullRequestRepository.PullRequestRepository.RecordReview` | src/db/pullRequestRepository.ts:172-196 | one more review; without a commit the known head counts as reviewed |
| `PullRequestRepository.PullRequestRepository.RecordWalkthroughReview` | src/db/pullRequestRepository.ts:198-209 | stamps the last review and counts nothing |
| `PullRequestRepository.PullRequestRepository.RecordReviewLimitDetection` | src/db/pullRequestRepository.ts:313-325 | stamps the last detection always and the first one once |
| `PullRequestRepository.PullRequestRepository.FindPendingAcknowledgement` | src/db/pullRequestRepository.ts:211-226 | returns an oldest request that waits for an acknowledgement, or none when none waits |
| `PullRequestRepository.OldestDecidesTheHold` | src/scheduler.ts:91-98 | the oldest waiting request holds the tick exactly when every waiting request is younger than the spacing |
| `SelectionSpec.WorthFetchingIsRipe` | src/scheduler.ts:205-213 | an item is worth a fetch exactly when it is pending, past its own cooldown and older than the spacing |
| `SelectionSpec.PassedOverExactly` | src/scheduler.ts:205-236 | a skip is recorded, with its reason, exactly for a pending item still cooling down or still settling; a ripe item is resolved exactly when it is fetched as merged or closed |
| `SelectionSpec.FetchesAreTheRipe` | src/scheduler.ts:214-220 | one fetch is made for each ripe item |
| `SelectionSpec.SelectionAnswers` | src/scheduler.ts:201-240 | the selection's answer over the fields of the rows: the first takeable item, the exhausted budget, none, or an error |
| `SelectionSpec.OnlyOneAnswerFits` | src/scheduler.ts:201-240 | rows, order and fetched states determine the answer |
| `SelectionSpec.TakeableIsTaken` | src/scheduler.ts:201-240 | a takeable item is taken when it is the first and the fetches before it leave it room; none is due only if no listed item is takeable |
| `SelectionSpec.PassingRecordsDismissals` | src/scheduler.ts:251-256 | the loop records exactly the dismissals of the items it resolves, in their order |
| `Scheduler.Scheduler.SelectNextEligibleItem` | src/scheduler.ts:201-240 | takes exactly the first listed item that is pending, past its own cooldown, older than the spacing and fetched as open, if the fetches before it leave room; `deferred` means that they do not, and `none` that there is no such item (`AnswersAt`, over the fields of the rows) |
| `Scheduler.Scheduler.Consider` | src/scheduler.ts:205-236 | one turn of the selection loop rewrites only the considered item, as `SelectionSpec.PassedOverExactly` says over its fields |
| `Scheduler.Scheduler.SkipCandidate` | src/scheduler.ts:242-249 | a skip is recorded only while the item is pending |
| `Scheduler.Scheduler.ResolveTerminalCandidate` | src/scheduler.ts:251-256 | a merged or closed candidate is resolved with a dismissal event |
| `Scheduler.Scheduler.ExecuteTick` | src/scheduler.ts:68-199 | prune, sweep, gates, selection and trigger in that order, also when an error ends the tick before an item is selected: a closed gate selects nothing, at most one item is triggered, and unless pruning or sweeping threw no retriggered row older than the maximum age remains, paused or not |
| `Scheduler.Scheduler.PruneAndSweep` | src/scheduler.ts:76-84 | every active row fetched as merged or closed is resolved and every stale row swept, as far as no error comes between |
| `Scheduler.Scheduler.SelectAndTrigger` | src/scheduler.ts:106-119 | behind open gates, the selected item is triggered and nothing else |
| `Scheduler.Scheduler.TriggerAndSettle` | src/scheduler.ts:119-191 | from the selected row to the last write the tick does what its specification says, for every outcome of the trigger; what that leaves is said by `TriggerOutcomes.SelectionLeavesExactly` |
| `Scheduler.Scheduler.SettleReschedule` | src/scheduler.ts:128-134 | a reschedule moves the account cooldown only forwards; a colliding one is handled as an exception |
| `Scheduler.Scheduler.SettleSuccess` | src/scheduler.ts:151-164 | one more attempt and retriggered while that is below the cap, failed otherwise (`TriggerOutcomes.PostSucceeds`) |
| `Scheduler.Scheduler.SettleRefusal` | src/scheduler.ts:121-149 | a refusal reschedules, resolves as stale or backs off |
| `Scheduler.Scheduler.SettleException` | src/scheduler.ts:165-191 | a terminal HTTP status resolves the row, any other exception backs off or fails |
| `Scheduler.Scheduler.BackOffOrFail` | src/scheduler.ts:139-145 | backs off below the cap and fails at it |
| `SelectionSpec.TurnDecides` | src/scheduler.ts:205-236 | one turn of the loop keeps the account of fetches and passed items, or decides the selection: an eligible item, the exhausted budget, or an error |
| `Scheduler.CandidateIsTriggerable` | src/scheduler.ts:112-119 | a selected item is pending, due and registered behind open gates |
| `Scheduler.GatesDecide` | src/scheduler.ts:86-104 | behind the sweep the queue is scanned exactly when the scheduler is not paused, no request waits or one of the waiting is as old as the spacing, and no account cooldown runs; a closed gate changes nothing |
| `Scheduler.CleanedUpExactly` | src/scheduler.ts:76-84 | an active row whose pull request is merged or closed is resolved as such, any other retriggered row older than the maximum age has failed, and the rest is as it was |
| `Scheduler.TriggerKeepsNoneStale` | src/db/queueRepository.ts:535-545 | a settled selection restarts the clock of the row it leaves retriggered, so that no stale row appears |
| `Scheduler.TickIsARun` | src/scheduler.ts:68-199 | a whole tick is a run of the state machine with at most one trigger at its end, so ticks keep what runs keep |
| `SelectionSpec.PassedOnly` | src/scheduler.ts:205-236 | passing over items rewrites each of them once, from the state it was loaded in, and nothing else but events |
| `Scheduler.Scheduler.RunGatesAndTrigger` | src/scheduler.ts:85-119 | the gates in their order, each of which ends the tick without a write; behind them selection and trigger |
| `Scheduler.Scheduler.TakeTurn` | src/scheduler.ts:205-236 | one turn of the loop, which an error may end, writes the considered item only and counts its fetch |
| `Pruner.Pruner.Prune` | src/Pruner.ts:24-56 | exactly the active rows whose pull request is fetched as merged or closed are resolved; an unfetchable one is left alone |
| `Pruner.Pruner.ResolvePruned` | src/Pruner.ts:39-52 | one pruning transaction resolves the row and records the dismissal |
| `Pruner.PruningResolvesTheGone` | src/Pruner.ts:24-56 | pruning resolves exactly the active rows that were fetched as merged or closed |
| `Pruner.PruningRecordsDismissals` | src/Pruner.ts:39-52 | pruning records exactly the dismissals of the rows it resolves, in the order of the listing |
| `SystemInvariant.StepKeepsQueue` | src/db/queueRepository.ts:41-462 | every step of every component keeps the queue invariant and lets no row go backwards |
| `SystemInvariant.DetectKeepsQueue` | src/EnqueueService.ts:57-127 | the same for the handler of detected comments |
| `SystemInvariant.StepKeepsLedger` | src/ReviewDetector.ts:83-89 | every step keeps each pull request's counters equal to the numbers of its events |
| `SystemInvariant.CountingStepKeepsCounted` | src/db/pullRequestRepository.ts:157-196 | one more count with one more event of the same pull request keeps all counters true |
| `SystemInvariant.PlainStepKeepsCounted` | src/probes/ReviewDetectorProbe.ts:68-112 | events that count nothing, among them the last-review-at fallback, keep all counters true |
| `SystemInvariant.StepKeepsCooldown` | src/db/systemStateRepository.ts:173-194 | as long as no earlier instant is offered out of text order, no step moves the account cooldown back, and a scheduler post waits for it |
| `SystemInvariant.CooldownMovesBackExactly` | src/db/systemStateRepository.ts:173-194 | a step moves the account cooldown back exactly when it offers an earlier instant out of text order |
| `SystemInvariant.StepKeepsOrders` | src/db/queueOrderRepository.ts:140-178 | every step keeps the order rows numbered in increasing order and tied to queue rows |
| `SystemInvariant.StepKeepsLog` | src/db/coderabbitCommentRepository.ts:43-63 | no step makes a seen revision unseen while the clock is not behind GitHub's |
| `Runs.StepKeepsInv` | src/scheduler.ts:68-199 | the whole invariant is kept by every step, and nothing monotone goes back |
| `Runs.RunKeepsInv` | src/scheduler.ts:68-199 | the invariant holds in every state of every run |
| `Runs.RunGoesOnward` | src/db/queueRepository.ts:22-24 | between any two states of a run no row is lost, attempts never decrease and terminal rows stay terminal |
| `Runs.AtMostOneActiveRow` | src/db/queueRepository.ts:41-50 | in every reachable state each pull request has at most one pending or retriggered row |
| `Runs.RowsAreWellShaped` | src/db/queueRepository.ts:400-411 | a row is resolved exactly when its resolution and its resolution time are both set, and a retriggered row has its clock |
| `Runs.RowsOnlyProgress` | src/db/queueRepository.ts:22-24 | attempts never decrease, even across reopenings, and no step leaves the merged, closed, manual and stale-comment resolutions |
| `Runs.ReopeningIsLegal` | src/db/queueRepository.ts:104-142 | a resolved row becomes active only as pending, by its own comment edited after a reopenable resolution; on the create path also after guard window and cooldown |
| `Runs.SchedulerPostsAreSpaced` | src/scheduler.ts:100-104 | in a run whose instants all lie in the years 0 to 9999 the account cooldown never moves back, and every scheduler post begins at least the account cooldown after every earlier recorded post, whoever made it |
| `Gates.SchedulerPostsBehindGates` | src/scheduler.ts:86-119 | a scheduler's trigger runs only while nothing is paused, no request waits or one of the waiting is as old as the spacing, no account cooldown runs, and for a row that is ripe |
| `Gates.PauseHolds` | src/db/systemStateRepository.ts:145-156 | whoever paused or resumed the scheduler last decides, whatever else happens since |
| `Gates.PausedPostsNothing` | src/scheduler.ts:86-89 | between a pause and the next resumption no step is a scheduler's trigger |
| `Gates.StepStamps` | src/db/pullRequestRepository.ts:157-262 | a request is stamped by a post on its pull request, an acknowledgement by its record, and neither by anything else |
| `Gates.AcknowledgedUntilNextPost` | src/db/pullRequestRepository.ts:211-262 | in a run from empty tables an acknowledged pull request waits for nothing until the next post on it |
| `Gates.PostsWait` | src/db/pullRequestRepository.ts:157-226 | a post makes its pull request wait, unless it was acknowledged at that very instant |
| `Runs.HandResolutionIsFinal` | src/db/queueRepository.ts:465-488 | a row resolved by hand is resolved as a manual review and never active again |
| `Runs.FourDigitsKeepOrder` | src/db/systemStateRepository.ts:178-194 | in a run whose instants all lie in the years 0 to 9999 no offer is out of text order |
| `Runs.CooldownGoesOnward` | src/db/systemStateRepository.ts:173-194 | as long as no offer is out of text order the account cooldown never moves back between any two states of a run |
| `Witnesses.SpacingFailsAfterYear9999` | src/db/systemStateRepository.ts:178-194 | a run from empty tables, under the default configuration, in which a reschedule moves the cooldown beyond the year 9999, an offer moves it back, and a scheduler post begins before the account cooldown of an earlier post |
| `Runs.CountersAreConserved` | src/EnqueueService.ts:97-101 | in every reachable state the retrigger and review counts equal the numbers of their events |
| `Runs.SurvivalsAreCapped` | src/scheduler.ts:138-191 | over a whole run at most the maximum number of attempts many selections of a row, reschedules aside, leave it unresolved |
| `Runs.SurvivalCostsAnAttempt` | src/scheduler.ts:122-191 | a selection that leaves the row retriggered costs exactly one attempt below the cap; one that leaves it pending was a reschedule |
| `Runs.SweepResolvesTheStale` | src/scheduler.ts:76-83 | a sweep resolves a retriggered row as failed exactly when its clock is older than the maximum age |
| `Runs.SnapshotsKeepTheirIdentity` | src/ReviewDetector.ts:62-72 | an item loaded earlier in a run keeps its pull request, on which the guarded writes rely |
| `Runs.SeenStaysSeen` | src/db/coderabbitCommentRepository.ts:43-63 | over a run a seen revision stays seen and every row was touched no earlier than the revision it holds |
| `Runs.ReachableTables` | src/scheduler.ts:68-199 | what holds of every state reached from empty tables: one active row for each pull request, well shaped rows linked to their pull requests, true counters, numbered order rows, capped survivals, and spaced posts between the years 0 and 9999 |
| `Runs.ReachableLogs` | src/db/coderabbitCommentRepository.ts:43-63 | in every timely run from empty tables a seen revision stays seen and no row was touched in the future |
| `CommentLog.NewestWins` | src/db/coderabbitCommentRepository.ts:33-119 | after any non-empty sequence of deliveries of one comment the stored content is that of the newest |
| `CommentLog.DeliveryOrderIsIrrelevant` | src/db/coderabbitCommentRepository.ts:33-119 | two histories with the same revisions, in any order and with any repetitions, leave the same content |
| `CommentLog.OnlyOwnDeliveriesMatter` | src/db/coderabbitCommentRepository.ts:43-63 | what is stored of a comment depends on the deliveries of that comment only |
| `CommentLog.EveryCommentConverges` | src/db/coderabbitCommentRepository.ts:33-119 | in any history of all comments, whatever its order and repetitions, each comment ends with the content of the newest delivery of its own |
| `CommentLog.DeliveredInParts` | src/db/coderabbitCommentRepository.ts:87-115 | a delivery that lost the creation race counts as the later of two deliveries |
| `CommentLog.UpsertMarksSeen` | src/db/coderabbitCommentRepository.ts:43-63 | a delivery by a clock not behind it is seen afterwards, and nothing seen becomes unseen |
| `CommentRepository.CommentRepository.Upsert` | src/db/coderabbitCommentRepository.ts:33-119 | overwrites unless the stored revision is newer, creates otherwise, and after a lost creation race ends as if the two deliveries had come in turn |
| `CommentRepository.CommentRepository.UpdateUnlessNewer` | src/db/coderabbitCommentRepository.ts:43-58 | the guarded update refuses a revision older than the stored one |
| `CommentRepository.CommentRepository.FindByCommentId` | src/db/coderabbitCommentRepository.ts:140-147 | finds the row of the comment exactly when it belongs to the pull request |
| `CommentRepository.CommentRepository.FindCompletedReview` | src/db/coderabbitCommentRepository.ts:161-173 | returns a latest created approval or change request of the pull request, or none when there is none |
| `EnqueueService.EnqueueService.Handle` | src/EnqueueService.ts:29-128 | a comment not newer than the recorded review is only stored; otherwise the detection is noted and a verdict recorded or the comment enqueued, in one transaction that leaves nothing behind when it throws |
| `EnqueueService.EnqueueService.HandleInTransaction` | src/EnqueueService.ts:68-127 | the transaction follows its specification and is undone when it throws |
| `EnqueueService.EnqueueService.EnqueueComment` | src/EnqueueService.ts:72-127 | enqueues with the stated or the fallback wait and records what was created or skipped |
| `DetectionOutcomes.LastVerdictDecides` | src/EnqueueService.ts:54-66 | the review that decides is the last created verdict of the pull request; without a verdict none does |
| `DetectionOutcomes.OutreviewedIsOnlyStored` | src/EnqueueService.ts:57-66 | a comment not newer than the recorded review is stored, and nothing else happens |
| `DetectionOutcomes.VerdictIsCounted` | src/EnqueueService.ts:68-101 | a newer verdict is counted and recorded with its url, the known head counts as reviewed, and the detection is stamped |
| `DetectionOutcomes.CommentEntersExactlyWhen` | src/EnqueueService.ts:68-127 | handling any other newer comment fails exactly when the cascade refuses it, and brings a row to the queue exactly when a trigger is reopened or replaced or the comment enters freely; with the stamps and events that belong to it |
| `DetectionOutcomes.EnteringRowWaits` | src/EnqueueService.ts:103-106 | the row that enters waits not at all for a skipped review, otherwise until the edit time plus the stated wait, and plus the configured one exactly when none is stated |
| `DirectCommentChecker.DirectCommentChecker.CheckComment` | src/DirectCommentChecker.ts:66-133 | one turn of the inner loop: ignored, already seen, walkthrough noted, or handed over with its run id event and its candidate, each exactly when `ScanOutcomes.CheckedExactly` says |
| `DirectCommentChecker.DirectCommentChecker.HandOver` | src/DirectCommentChecker.ts:104-133 | records what is new about the run id, collects the candidate and hands the comment to the handler, whose exception is reported |
| `DirectCommentChecker.DirectCommentChecker.CheckPr` | src/DirectCommentChecker.ts:60-140 | scans the comments of one pull request in turn, up to the first that throws and no further; `ok` is reported exactly when it was listed, every comment was reached and none threw |
| `DirectCommentChecker.DirectCommentChecker.Check` | src/DirectCommentChecker.ts:47-148 | scans at most 125 pull requests, each up to the first comment that throws, and keeps the system's invariant; for distinct comments it returns exactly the limit comments that were news before the scan, in the order of the listing, and counts the news; `ok` is reported exactly when nothing threw, and then, by a clock not behind the comments, every scanned comment is quiet |
| `ScanOutcomes.CheckedExactly` | src/DirectCommentChecker.ts:77-133 | a comment is handed over exactly when it is the bot's, of a known kind, no limit with the own marker, and its revision was not seen; a walkthrough is noted exactly when it carries its marker, nothing was ever queued for the pull request and it was not seen; a candidate is exactly a limit handed over |
| `ScanOutcomes.ScanMovesTheReached` | src/DirectCommentChecker.ts:60-140 | checking one comment decides nothing about another, so each is judged by the tables before the scan |
| `ScanOutcomes.PrReportsItsLimits` | src/DirectCommentChecker.ts:60-140 | the candidates of a pull request are exactly its limits that were news before the scan, as far as it got, in the order of the listing |
| `ScanOutcomes.ScanReportsTheLimits` | src/DirectCommentChecker.ts:47-148 | the same for the whole scan, whose count is that of the news |
| `DirectScanSpec.CheckingKeeps` | src/EnqueueService.ts:57-70 | every branch of handler and walkthrough stores the revision, so that the comment is quiet afterwards |
| `DirectScanSpec.CheckingKeepsHomes` | src/db/queueRepository.ts:146-154 | checking one comment moves no other comment to a foreign pull request |
| `DirectScanSpec.QuietStays` | src/DirectCommentChecker.ts:77-108 | a comment that needed nothing needs nothing later |
| `DirectScanSpec.ScannedStaysQuiet` | src/DirectCommentChecker.ts:77-108 | once a scan needed nothing of a revision or dealt with it, no later scan needs anything of it, whatever runs in between |
| `DirectScanSpec.SuccessLeavesQuiet` | src/DirectCommentChecker.ts:47-148 | a scan in which nothing threw, by a clock not behind the comments, keeps the system's invariant and leaves every comment of its listing quiet |
| `DirectScanSpec.ScanPrKeeps` | src/DirectCommentChecker.ts:60-140 | however far the scan of a pull request gets, it keeps the system's invariant and leaves what it reached without a throw quiet |
| `DirectScanSpec.SecondScanDoesNothing` | src/DirectCommentChecker.ts:47-148 | after a scan in which nothing threw, by a clock not behind the comments, and after whatever timely run follows it, a scan of the same listing writes nothing, hands nothing over and returns no candidates |
| `EditDetector.EditDetector.DetectEdit` | src/EditDetector.ts:23-91 | looking at the source comment has exactly the specified outcome, and stores a fresh edit, and only a fresh edit |
| `EditDetector.OnlyFreshEditsDecide` | src/EditDetector.ts:34-79 | an item is resolved, adopted or skipped by its comment exactly for a fresh edit to a verdict, to a skip under a new run, or to a skip under the stored run or none |
| `EditDetector.OtherLooksLeaveItToReviews` | src/EditDetector.ts:23-91 | an edit is fresh exactly when the comment is stored and fetched and was updated after it was last seen; a look fails exactly when the stored comment cannot be fetched; anything not decisive is left to the reviews |
| `EditDetector.EditReplacesContent` | src/EditDetector.ts:43-57 | a fresh edit replaces the stored content but for the url, unless a newer revision is stored; nothing else is stored |
| `EditDetector.EditIsDecisiveOnce` | src/EditDetector.ts:34-41 | a stored edit is never fresh again |
| `DetectionSpec.DetectorWriteIsGuarded` | src/db/queueRepository.ts:413-462 | a detector write changes nothing unless the row is still retriggered, and then only that row; an adoption overwrites only the run that was loaded |
| `DetectionSpec.ReviewRecordedIffResolved` | src/ReviewDetector.ts:83-89 | a review is counted and recorded exactly when the same write resolves the row |
| `DetectionSpec.KnownRunsWaitForTheirReview` | src/ReviewDetector.ts:160-181 | without a decisive edit an item is left alone exactly when the lookup failed or found nothing and the fallback does not apply; a known run never falls back |
| `DetectionSpec.ReopensExactlyTheStale` | src/ReviewDetector.ts:106-124 | the detector reopens a row exactly for a fresh run of a stale trigger whose head is not reviewed |
| `DetectionOutcomes.FoundReviewIsRecorded` | src/ReviewDetector.ts:181-193 | a found approval is recorded as approved and a change request as changes suggested, with its url and its commit, or the known head without one, one count, one event and the row resolved |
| `DetectionOutcomes.EditedVerdictIsRecorded` | src/ReviewDetector.ts:81-95 | an edit to a verdict is recorded in the same way, with the known head |
| `DetectionOutcomes.GoneAndSkippedAreResolved` | src/ReviewDetector.ts:61-104 | a merged or closed pull request resolves the row as such, and a terminal skip as skipped, with nothing else written |
| `DetectionOutcomes.NewRunReopensOrIsAdopted` | src/ReviewDetector.ts:105-132 | a new run reopens the row exactly when the trigger is stale and the head unreviewed, and is adopted otherwise unless another run came between |
| `DetectionOutcomes.RecentReviewStandsIn` | src/ReviewDetector.ts:160-179 | without a review, one recorded since the trigger stands in exactly when no run is known |
| `DetectionOutcomes.OtherwiseNothingIsWritten` | src/ReviewDetector.ts:61-197 | everything else leaves the tables as they are |
| `DetectionOutcomes.SettlingLeavesExactly` | src/ReviewDetector.ts:61-197 | the detector leaves the row merged, closed, skipped, reviewed, pending or retriggered, each exactly for these columns, edits and reviews |
| `ReviewDetector.ReviewDetector.Settle` | src/ReviewDetector.ts:65-194 | the branches of the loop body carry out the decision on the tables as they are by then; what that leaves is said over view and tables by `DetectionOutcomes` |
| `ReviewDetector.ReviewDetector.ResolveReviewed` | src/ReviewDetector.ts:183-189 | resolves the row and records the review in one transaction, or loses the race and does neither |
| `ReviewDetector.ReviewDetector.SettleAdopted` | src/ReviewDetector.ts:105-132 | a fresh run reopens a stale trigger with an unreviewed head and is adopted otherwise |
| `ReviewDetector.ReviewDetector.SettleFallback` | src/ReviewDetector.ts:144-193 | reviews decide, an approval as approved and a change request as changes suggested (`DetectionOutcomes.FoundReviewIsRecorded`); without one, the last-review-at fallback applies only when no run is known |
| `ReviewDetector.ReviewDetector.ResolveQuietly` | src/ReviewDetector.ts:62-71 | resolves a row that is still retriggered, and only such a row |
| `ReviewDetector.ReviewDetector.LookAtItem` | src/ReviewDetector.ts:61-78 | unless what was loaded settles the item, its source comment is looked at, with the other components running before and after |
| `ReviewDetector.ReviewDetector.ProcessItem` | src/ReviewDetector.ts:61-197 | one item: the view rests on the comment as it was looked at in between, and the decision on it is carried out on the tables as they are by then |
| `ReviewDetector.ReviewDetector.ExecuteTick` | src/ReviewDetector.ts:42-200 | every row that was retriggered when the tick began is dealt with once, the longest retriggered first: decided on what was loaded then and on what its comment said when it was looked at since, while the other components run in between |
| `ReviewTick.TickIsARun` | src/ReviewDetector.ts:42-200 | a tick, with the other components running in between, is a run of the state machine: each item is looked at before it is written, a fresh edit is stored by a step of its own, and the items follow the listing |
| `ReviewTick.WritesAreGuarded` | src/ReviewDetector.ts:62-130 | race safety of these writes, whatever ran between load and write |
| `ReviewTick.ReviewsAreRecordedByTheWinner` | src/ReviewDetector.ts:160-193 | a review is counted and recorded exactly when that same write flips the row to resolved |
| `ReviewTick.ViewsAreAsLoaded` | src/ReviewDetector.ts:42-62 | what a tick knows of an item is what its pull request was when the tick loaded it, what GitHub answered, and what its comment said when it was looked at |
| `ReviewTick.FreshVerdictIsRecorded` | src/ReviewDetector.ts:73-95 | when the source comment was edited to a verdict since it was seen, and no other component settled the row meanwhile, the tick records that verdict |
| `ReviewTick.ReviewOfUneditedIsRecorded` | src/ReviewDetector.ts:147-193 | when it was not edited and the reviews hold one for the trigger, the tick records that review |
| `OrderAlgebra.MoveUpMovesUp` | src/db/queueOrderRepository.ts:57-82 | moving up permutes, keeps the order of selected and of unselected items, and lowers each selected item's count of unselected items above it by one down to zero |
| `OrderAlgebra.ProfileDeterminesOrder` | src/db/queueOrderRepository.ts:57-82 | these facts determine the result uniquely |
| `OrderAlgebra.MoveDownMovesDown` | src/db/queueOrderRepository.ts:57-82 | the same downwards |
| `OrderAlgebra.DownIsUpReversed` | src/db/queueOrderRepository.ts:64-72 | moving down is moving up in the reversed order |
| `OrderAlgebra.DownUndoesUp` | src/db/queueOrderRepository.ts:68-82 | moving down undoes moving up exactly when the upward move does not meet the top edge |
| `OrderAlgebra.RepeatedUpPartitions` | src/db/queueOrderRepository.ts:68-82 | repeating the move once for each unselected item puts the selected items first, stably |
| `OrderAlgebra.ToTopIsRepeatedUp` | src/db/queueOrderRepository.ts:127-131 | moving to the top is moving the single item up as often as its index |
| `QueueOrder.EffectiveOrderExists` | src/db/queueOrderRepository.ts:37-55 | the listing query always has an answer |
| `QueueOrder.ListingShows` | src/db/queueOrderRepository.ts:37-55 | a listing shows exactly the pending and retriggered rows with a pull request, those with a position first and by their positions, the others by the age of their order rows |
| `QueueOrder.AssignedPositions` | src/db/queueOrderRepository.ts:140-178 | after each write the items so far hold the positions from 1, every other active row none, and inactive rows keep theirs |
| `QueueOrder.NoIntermediateClash` | src/db/queueOrderRepository.ts:140-178 | at no point of the rewriting do two active rows share a position |
| `QueueOrder.ReadBack` | src/db/queueOrderRepository.ts:140-178 | after writing an order, reading back yields exactly that order, also for rows that had no order row |
| `QueueOrder.CreatedItemIsLast` | src/db/queueRepository.ts:285-285 | a new item stands behind everything already listed, in every state that keeps the order rows numbered, as all reachable states do |
| `QueueOrderRepository.FindByUuid` | src/utils/uuidLookup.ts:21-21 | finds the first listed item with the uuid, or none when there is none |
| `QueueOrderRepository.Nudge` | src/db/queueOrderRepository.ts:73-82 | one turn of the swap loop passes the neighbour unless it is at the edge or the neighbour is selected |
| `QueueOrderRepository.SwapUp` | src/db/queueOrderRepository.ts:72-82 | the in-place loop from the top computes the upward move |
| `QueueOrderRepository.SwapDown` | src/db/queueOrderRepository.ts:67-82 | the in-place loop from the bottom computes the downward move |
| `QueueOrderRepository.SwapNextUp` | src/db/queueOrderRepository.ts:72-82 | one turn upwards deals with the next selected item |
| `QueueOrderRepository.SwapNextDown` | src/db/queueOrderRepository.ts:72-82 | one turn downwards deals with the next selected item from below |
| `QueueOrderRepository.QueueOrderRepository.ReadEffectiveOrder` | src/db/queueOrderRepository.ts:37-55 | returns the active rows sorted by position, missing ones last |
| `QueueOrderRepository.QueueOrderRepository.ClearPositions` | src/db/queueOrderRepository.ts:146-152 | every position of an active row is cleared, no other |
| `QueueOrderRepository.QueueOrderRepository.AssignPosition` | src/db/queueOrderRepository.ts:154-175 | an active item gets its position, in its order row or a new one |
| `QueueOrderRepository.QueueOrderRepository.NormalizePositionsToOrder` | src/db/queueOrderRepository.ts:140-178 | writes the positions one by one without an intermediate clash |
| `QueueOrderRepository.QueueOrderRepository.MoveItems` | src/db/queueOrderRepository.ts:57-91 | the selected items are exactly the listed ones with a given uuid; the order read back is the moved order, and the only order any reader can see; without a selected item nothing is written |
| `QueueOrderRepository.QueueOrderRepository.MoveToTop` | src/db/queueOrderRepository.ts:93-138 | the item becomes first and the others keep their order; an unknown item is refused without a write, and a resolved one as resolved |
| `IsoText.IsoRoundTrip` | src/db/systemStateRepository.ts:60-74 | reading a printed instant gives it back, for every valid time value |
| `IsoText.TextOrder` | src/db/systemStateRepository.ts:178-194 | texts of an earlier and a later instant are in the same order exactly for the same year, two four-digit years, a negative and a four-digit year, or two years after 9999 |
| `IsoText.TextComparison` | src/db/systemStateRepository.ts:178-194 | the outcome of the text comparison for any two instants |
| `IsoText.TextOrderFailsAfterYear9999` | src/db/systemStateRepository.ts:178-194 | the last instant of the year 9999 and the next one have texts in the wrong order |
| `CooldownText.TextKeepsTheLater` | src/db/systemStateRepository.ts:178-194 | the conditional update keeps the later instant exactly when the texts are in the order of time, and otherwise the earlier one |
| `CooldownText.CooldownNeverMovesBack` | src/db/systemStateRepository.ts:178-194 | within the years 0 to 9999 it never moves the cooldown back |
| `CooldownText.MovesBackExactly` | src/db/systemStateRepository.ts:178-194 | the conditional update moves the cooldown back exactly when an earlier instant is offered whose text does not come in the order of time |
| `CooldownText.FourDigitInstantsAre` | src/db/systemStateRepository.ts:178-194 | the instants with four-digit years are those from the first of the year 0 to the last of the year 9999 |
| `CooldownText.FarCooldownGivesWay` | src/db/systemStateRepository.ts:178-194 | a stored instant of the year 11533 gives way to one of the year 2027 |
| `SystemStateRepository.SystemStateRepository.GetNextReviewAvailableAt` | src/db/systemStateRepository.ts:69-94 | reads back the instant that was stored |
| `SystemStateRepository.SystemStateRepository.SetNextReviewAvailableAt` | src/db/systemStateRepository.ts:173-176 | stores any valid instant |
| `SystemStateRepository.SystemStateRepository.SetNextReviewAvailableAtIfLater` | src/db/systemStateRepository.ts:178-198 | inserts the row or lets the text comparison decide, exactly as the offer step of the state machine does |
| `SystemStateRepository.SystemStateRepository.SetPaused` | src/db/systemStateRepository.ts:145-156 | pausing and resuming are read back by the gate |
| `IntervalService.AtMostOneInFlight` | src/IntervalService.ts:53-70 | under every interleaving at most one execution is in flight |
| `IntervalService.StopStops` | src/IntervalService.ts:38-48 | after `stop` is called no execution begins, and once it settled none is in flight ever after |
| `IntervalService.GuardIsExact` | src/IntervalService.ts:22-24 | a tick begins an execution exactly when not stopped and no tick is suspended |
| `IntervalService.BeginsExactlyWhen` | src/IntervalService.ts:22-24 | a firing of the timer or a bootstrap call begins an execution exactly when the service was not stopped, no tick is suspended and the subclass agrees; nothing else does |
| `IntervalService.TimerRunsExactlyWhen` | src/IntervalService.ts:26-43 | the service is stopped exactly when `stop` was called, and the timer runs exactly when it was set and no `stop` came after |
| `IntervalService.InFlightExactlyWhen` | src/IntervalService.ts:53-64 | an execution is in flight exactly from its begin until it settles |
| `IntervalService.SuspendedExactlyWhen` | src/IntervalService.ts:64-70 | its tick is suspended exactly from then until it resumes |
| `IntervalService.StopAwaitsExactly` | src/IntervalService.ts:38-48 | a `stop` awaits exactly the execution of the tick that was suspended when it was called |
| `IntervalService.StopSettledExactlyWhen` | src/IntervalService.ts:38-48 | a `stop` has settled exactly when one was called while no tick was suspended, or one resumed after the execution it awaited |
| `IntervalService.EventKeepsInv` | src/IntervalService.ts:22-83 | every event keeps the link between promise, suspended ticks, pending stops and executions |
| `IntervalService.IntervalService.Tick` | src/IntervalService.ts:53-64 | starts at most one execution and awaits it |
| `IntervalService.IntervalService.ResumeTick` | src/IntervalService.ts:64-70 | a settled execution frees the service for the next tick |
| `IntervalService.IntervalService.SetInterval` | src/IntervalService.ts:26-33 | the timer starts after the first tick |
| `IntervalService.IntervalService.BootstrapTick` | src/IntervalService.ts:77-83 | awaits the execution in flight instead of starting a second one |
| `IntervalService.IntervalService.Stop` | src/IntervalService.ts:38-48 | stops the timer and awaits the execution in flight |
| `CommentUrl.SplitRepo` | src/github/splitRepo.ts:3-15 | what is split off are two non-empty halves without a slash that make up the full name |
| `CommentUrl.SplitsExactly` | src/github/splitRepo.ts:3-15 | a full name splits exactly into the two segments around its only slash |
| `CommentUrl.MatchesParse` | src/github/parseCommentUrl.ts:3-8 | everything the regular expression matches is parsed, with exactly the captured groups |
| `CommentUrl.ParsedMatches` | src/github/parseCommentUrl.ts:3-8 | whatever is parsed matches the regular expression, with the parsed groups |
| `CommentUrl.UrlRoundTrip` | src/github/buildCommentUrl.ts:1-2 | parsing a printed URL succeeds exactly for a full name that splits and numbers that are not negative, and gives back owner, repository and comment id |
| `Decimal.ValueOfPrint` | src/github/parseCommentUrl.ts:7-7 | a printed number is read back |

## Left out

- GitHub, Express, Prisma, logging, execution context, dependency injection and configuration loading: input and output.
- The dashboard and the response mappers: user interface and copying of fields.
- Markdown and regular expressions behind classification, wait seconds and run ids: these are fields of a comment.
- Diagnosis and comment text, trigger source column, heartbeat and scan timestamps, soft deletion, `computeSchedulerBackoff`,
  formatting and other helpers: no effect on what is proved, or only easy members.
- Pull request discovery and recovery (`prScanner`, `StalePrRecoverer`): a step registers or updates a pull request.
- The poll's search pass and its rate-limit pause: `Detect`, `OfferNextReview` and the `guard` of `IntervalService`
  stand for them.
- Dates outside the range of valid time values are refused by `SystemStateRepository`; the parser of `IsoText` reads only
  the shape that `toISOString` prints.
- Loss of precision of integers beyond 2^53 in printing and `parseInt`.
- A stated wait so long that the `cooldown_until` of an enqueued row is no valid date, which the database would refuse.
- Interleavings that split a scheduler trigger or a dashboard trigger between row read and id-keyed write.
- That no edit is ever missed is not claimed: an edit older than `last_seen_at` is ignored by the code.
