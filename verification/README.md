# DiplomaFlow workflow model

DiplomaFlow moves diploma projects through a department workflow. This project models the state machines behind it and
proves what every run of them keeps. Database rows are maps and sequences, a transaction is one atomic step, and each
imperative operation is a class method proved equal to a function on those tables; the laws are then lemmas about the
functions and about arbitrary runs of steps.

| file | what it holds |
|---|---|
| `Ledger.dfy`, `LedgerRuns.dfy`, `LedgerWrites.dfy`, `Deadlines.dfy` | project rows, state history and outbox, with every writer of a project's state: creation, `CommitTransition`, `AdvanceProjectByWorkflowEvent`, the repair in `GetProjectSubmitContext`, the deadline scheduler; runs that mix them |
| `Reviews.dfy`, `ReviewRuns.dfy`, `ReviewOutcomes.dfy`, `ReviewRights.dfy` | norm control and antiplagiat review as one machine with a `Kind`; approval is a saga whose calls are kept in the state, so that any number of them interleave; who may do what |
| `PreDefense.dfy`, `PreDefenseRuns.dfy`, `PreDefenseVerdicts.dfy` | scheduling, grading and completion; `Faults` says which of a call's separate writes fail; which verdict reaches the workflow |
| `PreDefenseCalls.dfy`, `PreDefenseWhole.dfy` | the same calls taken apart into their separate reads and writes, with anything in between; taken in one go they are the whole calls, faults included |
| `PreDefenseRaces.dfy` | which of several interleaved calls move a project |
| `PreDefenseSeeded.dfy`, `PreDefenseHazards.dfy`, `PreDefenseDoubleClick.dfy` | where each verdict leads on the seeded workflow; lost final saves, in general and on it; two interleaved completions on it |
| `Kanban.dfy`, `KanbanOrder.dfy`, `KanbanRuns.dfy` | task positions under `MoveTask`, `DeleteTask`, `ReorderTasks`, and columns as lists |
| `JsonMerge.dfy` | `deepMerge` and its laws |
| `Supervision.dfy`, `SupervisionRuns.dfy`, `SupervisionFates.dfy` | supervisor requests, assignment rows and team limits |
| `TokenCodec.dfy`, `Sessions.dfy`, `SessionRules.dfy` | the refresh-token format; login, rotation, reuse, revocation |
| `Membership.dfy` | the member sync of a team update |
| `Admission.dfy`, `AdmissionList.dfy`, `AdmissionPages.dfy` | admission in SQL and in Go, the tally, the paginated list |
| `Wrappers.dfy`, `Text.dfy`, `Cardinality.dfy` | absent values, string folding, counting |

`dafny verify dfyconfig.toml` checks everything.

## Hypotheses

`Ledger.WellFormed` is the workflow hypothesis: unique positive state ids, live states with a name, live names of one
workflow that differ by more than case and surrounding spaces, edges between live states of their own workflow, one edge
for each workflow, event and source state. `LedgerRuns.Allowed` restricts requests only as their senders do: a creation
uses an unused id and a live initial state, a commit names a live target state of the project's workflow by its name.
Single theorems add `SubmissionsLeadToReview`, `PassesLeaveReview` or `LeavesReview`, each a property of the workflow
definition.

## What the proofs found

- `NormApprove` and `AntiplagApprove` return without compensating when the approved row cannot be read back after the
  approve transaction, and they ignore a compensation that does not commit. Such a check stays approved although no workflow
  event was fired: `UnreadApprovalStands` is a run that ends so, `AbandonedExactly` says that a run leaves such a check exactly
  when one of its calls gives up in one of these two ways, and `AbandonedStands` that it stays so for good.
- The compensation writes constants over the submission row. It restores the check row, but it restores the submission
  row only if that row was pending with no reviewer, comment and review time (`CompensationRestores`); after an ordinary
  start of review it is not, because starting records the reviewer (`CompensationLosesReviewer`).
- The comment on `CompletePreDefense` says the row and the workflow can no longer diverge, and the one on
  `advancePreDefenseCurrentPhase` that a phase cannot be skipped. Both fail, in two ways, and the model follows the code.
  - A write is lost: the workflow moves, the final save of the row does not. A retry moves the project again exactly when
    the state reached is a pre-defense state with an edge for its next event (`LostSaveRetry`, `LostGradeSaveComplete`); on
    the seeded workflow it does (`SecondPreDefenseSkipped`).
  - No write is lost, but two calls read the row before either saves it: on the seeded workflow an ordinary double click
    takes the project from the first review to norm control, the second pre-defense never held (`DoubleClickSkips`). Over
    every run a call moves the project exactly when one of its event steps meets a state with an edge for its next event,
    and of two calls that both move it the later one read its phase after the other's first row, in a state its first
    event leaves, or a row since then led back to such a state (`TwoCallsMoveExactly`); otherwise at most one does
    (`AtMostOneMoves`). The second alternative is real: `EarlyReadMovesAgain`.
- A final pre-defense row is not final for calls that read it earlier: `FinalRowOverwritten` shows two interleaved completions.
  Along a run it changes exactly where such a call saves something else (`FinalRowChanges`, `FinalRowAbsorbsExactly`); in
  particular it stays when no open call may still save it (`SettledRowsAbsorb`).
- An approval of a supervisor request tests capacity twice with the creation of a project in between. As one step it never
  strands a project (`ApprovalNeverStrands`); interleaved with another approval it can (`InterleavedApprovalsStrand`). Its
  second half also writes the request as the first half read it: a request cancelled in between is approved all the same, and
  its team may then have two open requests (`SecondHalfOverwrites`, `CancelledRequestRevived`).
- A deadline outlives the state it was set in: a commit without a deadline of its own leaves it armed, and its event names the
  later state (`OldDeadlineNamesNewState`).
- `deepMerge` of two patches in turn is not always the merge of their merge: `PatchesFoldExactly` gives the exact
  condition, `FoldingCanDiffer` three objects for which it differs.
- A move to a position beyond the ends of a dense column leaves a gap (`DenseWithinExactly`, `DenseAcrossExactly`).
  A reorder that names only some tasks of a column can give two tasks one position (`ReorderKeepsDistinctExactly`).
- The SQL CASE and its Go twin differ on a NULL passing score; the COALESCE around both queries is what makes them agree
  (`CaseAgreesExactly`).
- `ParseRefreshToken` accepts ids with leading zeros, which formatting does not give back (`FormatUndoesParse`).

## Model

| member | source | states |
|---|---|---|
| LedgerRuns.HistoryIsAPath | internal/project/service.go:210-334 | over every allowed run of creations, commits, advances, submit contexts and scheduler steps, each project's history rows chain from its initial state to its current state, and the state name is that of the state id |
| LedgerRuns.StepKeepsInv | internal/admin/repository.go:1732-1908 | each single step of any writer keeps that invariant |
| LedgerRuns.EmptyIsSound | internal/project/repository.go:127-155 | the empty tables satisfy it, so it holds from the start |
| LedgerRuns.CommitsNeedAReturn | internal/project/service.go:219-221 | two successful commits that expect the same state are separated by a history row leading back to that state: the compare-and-set lets only one client leave each visit |
| LedgerRuns.RowsNeedAReturn | internal/project/service.go:236-283 | the same for any two rows of a project's history, whoever wrote them |
| LedgerRuns.CommitStays | internal/project/service.go:267-287 | a committed history row keeps its index for the rest of the run |
| LedgerRuns.EdgeLeavesNamed | internal/admin/repository.go:1771-1802 | the edge query finds exactly the edge of the event that leaves the state of the stored name, if the stored id is that state's or no live state of the workflow |
| LedgerRuns.AdvanceFollowsEdge | internal/admin/repository.go:1760-1908 | on a sound project an advance succeeds exactly when an edge of the event leaves the current state, and then takes that edge to its live target; otherwise nothing changes; what it writes is `AdvanceWrites` |
| LedgerWrites.AdvanceWrites | internal/admin/repository.go:1821-1908 | every field any successful advance writes: id, name and status of the edge's target, the registration time on a first topic approval, one history row with both states, actor and trimmed texts; the deadline and its flag, the workflow, the outbox and all other projects stay; a refused advance writes nothing |
| LedgerWrites.CommitWrites | internal/project/service.go:219-283 | a commit goes through exactly on the expected state, and every field it writes: the deadline waits again exactly when the request has one, and no other project changes |
| LedgerWrites.CreateWrites | internal/project/service.go:49-108 | every field of a new project: the deadline waits, so many days of 86400 seconds from now or the state's fixed date |
| LedgerWrites.HistoryRowsNamed | internal/admin/repository.go:1859-1904 | over any run each history row names the two live states of the project's workflow that it joins |
| LedgerWrites.RegisteredAtFirstApproval | internal/admin/repository.go:1828-1832 | over any run a project gets its registration time exactly at its first successful topic approval by event |
| LedgerRuns.SubmitReads | internal/admin/repository.go:2038-2172 | on a sound project the submit context repairs nothing and returns the stored state |
| LedgerRuns.FallbacksAreLive | internal/admin/repository.go:2061-2107 | both fallback queries find a live state of the project's workflow exactly when one qualifies |
| LedgerRuns.SubmitIsLive | internal/admin/repository.go:2061-2172 | exactly when a submit context is returned, and that it always names a live state of the project's own workflow |
| LedgerWrites.EmptyIdPrefersName | internal/admin/repository.go:2061-2107 | for an empty id the lowest state matching by name, display name or status is returned, and the lowest antiplagiat state only when there is none; nothing is written |
| LedgerRuns.RepairWritesIt | internal/admin/repository.go:2125-2160 | for a dead or foreign id and one state matching by its name the repair writes that state's id and nothing else |
| LedgerRuns.AdvanceAgreesWithRepair | internal/admin/repository.go:1771-1802 | for such a project an advance succeeds without the repair exactly when it does after it, and both leave the same tables |
| Deadlines.DeadlinesFireOnce | internal/project/deadline_scheduler.go:40-97 | over any run, schedulers with stale lists included, deadline events plus waiting deadlines never exceed those waiting at the start plus those armed since |
| Deadlines.DeadlinesConserved | internal/project/deadline_scheduler.go:40-97 | over any run, as an equation: every deadline that waited or was armed has fired, still waits, or was replaced while it waited |
| Deadlines.WaitingDeadlineStays | internal/admin/repository.go:1821-1850 | over any run a deadline no commit replaces waits, with its own date, exactly until the scheduler transaction that fires it: advances by event never silence it |
| Deadlines.FireWrites | internal/project/deadline_scheduler.go:48-92 | a scheduler transaction acts exactly on a due project, sets its flag and changes nothing else of any project |
| Deadlines.ListedAreDue | internal/project/repository.go:224-232 | the scheduler lists the due projects whose deadline is strictly past |
| Deadlines.EventsOnlyWhileActive | internal/project/deadline_scheduler.go:48-92 | over any run a project's deadline events grow at a step exactly when that step is a scheduler transaction on a project that is then active with an unprocessed deadline that has come, and the event names its state and deadline: never a completed, cancelled or archived project |
| Deadlines.NeverEarly | internal/project/deadline_scheduler.go:40-97 | no event in any run carries a time before its deadline |
| Deadlines.SweepProcesses | internal/project/repository.go:224-232 | an undisturbed pass removes exactly the listed projects from the expired set |
| Deadlines.SweepEmptiesTheList | internal/project/deadline_scheduler.go:40-97 | a pass over the whole expired list leaves that list empty |
| LedgerRuns.RunGrows | internal/admin/repository.go:1821-1831 | over any run history is append-only, a project's workflow never changes, and its topic registration time, once set, stays |
| Deadlines.ArmedDeadlineFires | internal/project/service.go:237-241 | a commit that sets a deadline re-arms it whatever fired before: once it has passed the project is listed, the next scheduler transaction emits its event for the state entered, and the project leaves the list |
| Deadlines.EventNamesLaterState | internal/project/service.go:233-246 | a deadline not replaced fires with its own date for the state that the history since its arming leads to: the state it was armed in exactly when that history leads back there |
| Deadlines.OldDeadlineNamesNewState | internal/project/service.go:237-241 | an instance: a commit without a deadline leaves the old one armed, which fires for the state the commit entered |
| LedgerRuns.PostEventsExactly | internal/project/service.go:292-316 | a commit's outbox events are exactly its groups that name an action |
| LedgerRuns.PostEventsInOrder | internal/project/service.go:292-316 | and they come in the order of the groups |
| Ledger.InitialState | internal/project/service.go:49-62 | the first state marked initial, with none marked before it, or the first state when none is marked |
| Ledger.Store.Create | internal/project/service.go:37-108 | creation stores the first state marked initial, or the first one, with its deadline, and the creation event, or fails without states |
| Ledger.Store.CommitTransition | internal/project/service.go:210-334 | the loop over post-actions and the row update do what `Commit` says, and a stale or missing project changes nothing |
| Ledger.Store.AdvanceByEvent | internal/admin/repository.go:1732-1908 | the transaction does what `Advance` says, in every error case too; what that stores is `AdvanceWrites` |
| Ledger.Store.GetSubmitContext | internal/admin/repository.go:2038-2172 | the step-by-step repair does what `Submit` says |
| Ledger.Store.Check | internal/project/deadline_scheduler.go:40-97 | the scheduler's loop over its list does what `Sweep` says |
| ReviewRuns.RunKeepsInv | internal/admin/service_norm_control.go:282-462 | over every interleaving of calls of both machines and ledger steps: approvals are deserved, at most one call is in flight for a check, an open call's rows are the ones it wrote, receipts name history rows of the approve event |
| ReviewRuns.ApprovedMeansAdvanced | internal/admin/service_norm_control.go:311-433 | with no approve call in flight a check is approved exactly when its own call advanced the project or gave up, never both; nothing is abandoned exactly when no call gave up |
| ReviewRuns.AbandonedExactly | internal/admin/service_norm_control.go:369-430 | a run abandons an approval exactly when one of its calls gives up: a read back fails or a compensation does not commit |
| ReviewRuns.AbandonedStands | internal/admin/service_norm_control.go:369-372 | an abandoned approval stays approved in every later run and never advances its project |
| ReviewOutcomes.UnreadApprovalStands | internal/admin/service_norm_control.go:369-372 | the run that shows it, from the initial tables for any submitted document: start, approve, failed read back; the check is approved, no receipt exists and the ledger is unchanged |
| ReviewOutcomes.InitialIsSound | internal/admin/service_norm_control.go:282-462 | the tables before any call satisfy the saga invariant, over any submissions and any sound ledger |
| ReviewOutcomes.ReachableApprovalsAreDeserved | internal/admin/service_norm_control.go:328-342 | in every reachable state an approved norm check has no unresolved critical issue, an approved antiplagiat check has originality in 70..100 and an AI score in 0..70, and checks have a checker exactly from review start on |
| ReviewRuns.ApprovalsMatchRows | internal/admin/service_norm_control.go:403-434 | a project's standing approvals and the history rows their calls wrote match one to one, with the event of the check's kind |
| ReviewRuns.ApprovalsNeedAReturn | internal/admin/service_norm_control.go:408 | two approvals of one project need the project to return to the review state between them |
| ReviewRuns.RunSettles | internal/admin/service_norm_control.go:282-462 | between any two states of a run: an approval that advanced is never undone, the checker is fixed from review start, a returned check never changes, history only grows |
| ReviewRuns.CompensationRestores | internal/admin/service_norm_control.go:410-430 | a compensation puts back the check row it found, update time aside, and no other check; the submission row exactly when it was pending without reviewer, comment and review time |
| ReviewRuns.CompensationLosesReviewer | internal/admin/service_norm_control.go:420-428 | starting a review, approving and failing to advance restores the started check and loses the reviewer of the submission |
| ReviewRuns.TxDeserves | internal/admin/service_norm_control.go:322-342 | after an approve transaction every approved norm check has no unresolved critical issue and every approved antiplagiat check has originality in 70..100 and an AI score in 0..70 |
| ReviewRuns.AdvanceCrosses | internal/admin/repository.go:1859-1904 | a successful advance appends one row, of its event, that crosses an edge of the workflow |
| ReviewOutcomes.ScoredApproval | internal/admin/service_antiplagiat.go:331-342 | a started antiplagiat review whose two scores are given in either order is approved exactly with originality at least 70 and AI score at most 70, and otherwise refused for the right reason |
| ReviewOutcomes.CriticalBlocks | internal/admin/service_norm_control.go:328-337 | a critical issue blocks approval until it is resolved, deleted or made less severe |
| ReviewOutcomes.IssuesStayDated | internal/admin/service_norm_control.go:214-224 | over any run an issue has a resolution time exactly while it is resolved |
| Reviews.Tables.Start | internal/admin/service_norm_control.go:39-118 | start of review on both machines, with every refusal |
| ReviewOutcomes.ReviewsOnlyInTheirState | internal/admin/service_norm_control.go:630-683 | starting, adding issues, scoring, returning and beginning an approval change nothing at all unless the submission belongs to the kind's step and its project is in that state |
| ReviewRights.OnlyTheCheckerActs | internal/admin/service_antiplagiat.go:321-329 | over any run a check in review, and the issues of any check, are changed by nobody but that check's checker, while it is in review; a status moves only by start, return, approval and compensation of that very check |
| ReviewRights.RowsStayInAgreement | internal/admin/service_norm_control.go:344-365 | over any run a submission row says what its check says: approved by the checker with the checker's comment and time, returned with them, under review for the checker or, after a compensation, for nobody |
| ReviewRights.ApprovalsAreSigned | internal/admin/service_norm_control.go:403-408 | over any run the history row of an advanced approval has the kind's own event and carries the checker and the comment of the check |
| ReviewRights.ReachableReviewsAgree | internal/admin/service_norm_control.go:282-462 | both hold in every state reachable from the initial tables |
| ReviewRights.GuardExactly | internal/admin/service_norm_control.go:630-683 | the guard passes exactly for a document of the kind's step whose project stands in that state |
| ReviewRights.StrangersAreRefused | internal/admin/service_norm_control.go:324-326 | an actor other than the checker is answered so by return and approval, and nothing changes |
| ReviewRights.ApproveExactly | internal/admin/service_norm_control.go:311-365 | the approve transaction goes through exactly for the checker of a check in review whose findings allow it, and what it writes to both rows; refused, it touches no row |
| ReviewRights.StartExactly | internal/admin/service_norm_control.go:39-118 | exactly when a review starts, and that the starter becomes its checker |
| ReviewRights.AddIssueExactly | internal/admin/service_norm_control.go:120-176 | exactly when an issue is added: by the checker of a check in review |
| ReviewRights.UpdateIssueExactly | internal/admin/service_norm_control.go:178-241 | exactly when an issue changes, and to what: only by the checker of its check in review |
| ReviewRights.DeleteIssueExactly | internal/admin/service_norm_control.go:243-281 | exactly when an issue is deleted: by that checker |
| ReviewRights.ScoresExactly | internal/admin/service_antiplagiat.go:112-175 | exactly when scores are stored: by the checker of a check in review, within 0..100; a score not given stays |
| ReviewRights.ReturnExactly | internal/admin/service_antiplagiat.go:420-513 | exactly when a check is returned, by its checker, and the two submission rows the kinds leave |
| ReviewRights.BeginExactly | internal/admin/service_antiplagiat.go:290-318 | exactly when an approval is begun; it registers the call and changes no row that was there |
| Reviews.Tables.Add | internal/admin/service_norm_control.go:120-176 | the steps do what `AddIssue` says; `AddIssueExactly` and `OnlyTheCheckerActs` say what that is |
| Reviews.Tables.Update | internal/admin/service_norm_control.go:178-241 | the field-by-field update does what `UpdateIssue` says; see `UpdateIssueExactly` |
| Reviews.Tables.Delete | internal/admin/service_norm_control.go:243-281 | the deletion does what `DeleteIssue` says; see `DeleteIssueExactly` |
| Reviews.Tables.Score | internal/admin/service_antiplagiat.go:112-175 | the steps do what `SetScores` says; see `ScoresExactly` |
| Reviews.Tables.SendBack | internal/admin/service_norm_control.go:464-581 | both returns do what `Return` says, antiplagiat at internal/admin/service_antiplagiat.go:420-513; see `ReturnExactly` |
| Reviews.Tables.Begin | internal/admin/service_antiplagiat.go:290-318 | the guards and reads before the approve transaction |
| Reviews.Tables.Transact | internal/admin/service_norm_control.go:311-365 | the transaction does what `ApproveTx` says; see `ApproveExactly` |
| Reviews.Tables.AdvanceWorkflow | internal/admin/service_norm_control.go:374-434 | the advance of an approved call and its outcome |
| Reviews.Tables.ReadBack | internal/admin/service_antiplagiat.go:366-369 | a call that cannot read its approved row back is over, and the row stays |
| Reviews.Tables.Undo | internal/admin/service_antiplagiat.go:524-546 | the compensation, one transaction whose failure is ignored: it restores both rows or leaves the approval |
| PreDefenseRuns.FinalRowsAbsorb | internal/admin/service_pre_defense.go:333-394 | over any run a row with a final status never changes again |
| PreDefenseRuns.GradesStand | internal/admin/service_pre_defense.go:196-458 | over any run a row has a grade exactly from its grading on and a completion time exactly when final, its result matches its final status, and a grade once given stands |
| PreDefenseRuns.RowsLiveInOrder | internal/admin/service_pre_defense.go:104-627 | over any run a row changes only by scheduling while it waits, rescheduling or grading while scheduled, and completing while graded, each with the values of its call; its project never changes |
| PreDefenseRuns.CallsFireOnePhase | internal/admin/service_pre_defense.go:511-557 | one grade or completion fires events of one phase only, and gate events of one verdict; which literal names these are is `CallFitsItsVerdict` |
| PreDefenseRuns.FireAllFires | internal/admin/service_pre_defense.go:545-557 | the history rows a call adds are a prefix of its planned events, all of them exactly when it reports an advance |
| PreDefenseRuns.AdvancePhaseIsOnePhase | internal/admin/service_pre_defense.go:511-557 | a phase advance never mixes phases or verdicts; the literal names are fixed by `CallFitsItsVerdict` |
| PreDefenseRuns.RepeatedCompleteFires | internal/admin/service_pre_defense.go:333-394 | a repeated completion adds at most one row, the gate event of a review state with the verdict asked for, whose name is fixed by the contract of `GateEvent` |
| PreDefenseVerdicts.VerdictsReachTheWorkflow | internal/admin/service_pre_defense.go:487-498 | over any run, in the literal event names: a PASSED row comes from a grade, a passed or a conditional completion, a FAILED row from a failed completion, or else from another writer of the ledger |
| PreDefenseVerdicts.CallFitsItsVerdict | internal/admin/service_pre_defense.go:511-557 | the rows of one call are submissions and gates of its own verdict, in the literal names |
| PreDefenseVerdicts.RecoveryFitsTheRow | internal/admin/service_pre_defense.go:333-361 | a call on a final row fires for the row's own result, and for any other result nothing |
| PreDefenseVerdicts.NoEventIsTwo | internal/admin/service_pre_defense.go:487-509 | the literal names of the three kinds of events are different |
| PreDefenseVerdicts.InterleavedVerdicts | internal/admin/service_pre_defense.go:545-557 | the same with the calls taken apart and anything interleaved: no row of a failing call is a PASSED gate, none of a passing call a FAILED one |
| PreDefenseSeeded.CompletionLeads | db/migrations/000016_review_config_and_transitions.up.sql:151-207 | on the seeded workflow, from each of the four pre-defense states and for each result: the state the project ends in, the literal events on the way and the final row; a failed completion leaves the project in the materials state of its own phase |
| PreDefenseSeeded.GradeLeads | db/migrations/000016_review_config_and_transitions.up.sql:151-207 | the same for a grade |
| PreDefenseSeeded.RecoveryLeads | db/migrations/000016_review_config_and_transitions.up.sql:151-207 | the same for a repeated completion of a final row whose project is stuck in review |
| PreDefenseSeeded.PhaseLeads | internal/admin/service_pre_defense.go:511-557 | the phase advance behind them |
| PreDefenseRuns.MaterialsSplit | internal/admin/service_pre_defense.go:523-543 | from a materials state, both events in one call equal the submission event followed by the review's call |
| PreDefenseRuns.RetryEqualsSingleCall | internal/admin/service_pre_defense.go:400-416 | a completion that fails after its submission event changes no row, and its retry leaves the rows, project state and history of one successful call |
| PreDefenseRuns.PassingEndsOutsideReview | internal/admin/service_pre_defense.go:487-498 | a call that fired a passing gate leaves the project outside review |
| PreDefenseRuns.CompletesOutsideReview | internal/admin/service_pre_defense.go:343-361 | completions of a final row change nothing while the project is outside review |
| PreDefenseRuns.GradeThenCompletes | internal/admin/service_pre_defense.go:266-305 | after a grade that advanced the project any number of completions leave everything as the grade left it |
| PreDefenseRuns.PhaseMovesExactly | internal/admin/service_pre_defense.go:511-557 | a phase advance moves the project exactly when an edge for its first planned event leaves the current state |
| PreDefenseHazards.LostSaveRetry | internal/admin/service_pre_defense.go:402-418 | after a completion's lost final save the retry moves the project again exactly when the state reached has an edge for its next pre-defense event |
| PreDefenseHazards.LostGradeSaveComplete | internal/admin/service_pre_defense.go:266-287 | the same exact condition for a grade whose final save is lost, followed by a completion of any result |
| PreDefenseHazards.SecondPreDefenseSkipped | db/migrations/000016_review_config_and_transitions.up.sql:151-195 | on the seeded workflow: a passed completion with a lost save and its retry take the project from the first review to norm control, with the gate events of both phases |
| PreDefenseHazards.SeededIsWellFormed | db/migrations/000016_review_config_and_transitions.up.sql:151-207 | the seeded workflow satisfies the workflow hypothesis |
| PreDefenseCalls.CallsKeepToOnePhase | internal/admin/service_pre_defense.go:511-557 | over every interleaving of calls, taken apart into reads, single events and saves, with each other and every ledger writer: the history rows a call wrote are its planned events in order, of one phase and verdict, and no row belongs to two calls; their literal names are `InterleavedVerdicts` |
| PreDefenseCalls.FinalRowChanges | internal/admin/service_pre_defense.go:404-418 | under that interleaving a final row changes at a step exactly when a call that is ready to save it saves something else |
| PreDefenseCalls.FinalRowAbsorbsExactly | internal/admin/service_pre_defense.go:333-418 | along any run a final row is never changed exactly when no step is such a save |
| PreDefenseCalls.SettledRowsAbsorb | internal/admin/service_pre_defense.go:333-394 | in particular a final row that no open call may still save never changes again, whatever interleaves |
| PreDefenseCalls.LaterSaveWins | internal/admin/service_pre_defense.go:404-418 | of two calls ready to save one row the later one overwrites the row, its result included |
| PreDefenseCalls.FinalRowOverwritten | internal/admin/service_pre_defense.go:396-418 | the input that shows the condition is needed: two interleaved completions leave a row final as passed and then as failed |
| PreDefenseWhole.CompletionInOneGo | internal/admin/service_pre_defense.go:317-458 | a completion whose steps nothing interrupts, on a graded or a final row and with any events or its save lost, leaves the board the whole call leaves |
| PreDefenseWhole.GradeInOneGo | internal/admin/service_pre_defense.go:196-308 | the same for a grade |
| PreDefenseRaces.MovesExactly | internal/admin/service_pre_defense.go:545-557 | over any run a call writes history rows exactly when one of its event steps finds the project in a state that its next planned event leaves |
| PreDefenseRaces.ReadThenFireExactly | internal/admin/service_pre_defense.go:518-557 | a call that reads its phase and fires at once moves the project exactly when the state it read has an edge for its first planned event |
| PreDefenseRaces.TwoCallsMoveExactly | internal/admin/service_pre_defense.go:320-402 | over every run, when two calls on one project both move it; and then the later one read its phase after the other's first row in a state its first event leaves, or a row since then led back to such a state |
| PreDefenseRaces.AtMostOneMoves | internal/admin/service_pre_defense.go:501-510 | otherwise at most one of the two moves the project |
| PreDefenseDoubleClick.DoubleClickSkips | internal/admin/service_pre_defense.go:320-402 | on the seeded workflow two completions that both read the graded row, no write lost: the project ends in norm control with the gate events of both phases |
| PreDefenseDoubleClick.EarlyReadMovesAgain | internal/admin/service_pre_defense.go:518-557 | on the seeded workflow two failing completions that both read their phase before either fires, and both move the project |
| PreDefense.Service.GradePreDefense | internal/admin/service_pre_defense.go:196-308 | the grade is stored first, and the row completed only if the project moved |
| PreDefense.Service.CompletePreDefense | internal/admin/service_pre_defense.go:317-458 | the workflow moves before the row; a final row is only recovered; where it leads is `CompletionLeads` |
| PreDefense.Service.AdvanceCurrentPhase | internal/admin/service_pre_defense.go:511-557 | the phase is read off the submit context and its events fired; where they lead is `PhaseLeads` |
| PreDefense.Service.FireEvents | internal/admin/service_pre_defense.go:545-557 | the event loop stops at the first failure and keeps what was fired |
| KanbanOrder.MoveWithin | internal/task/repository.go:421-438 | on any column with distinct positions, gaps allowed, a move within it is "remove, then insert at the position's cut", in both directions |
| KanbanOrder.MoveAcross | internal/task/repository.go:439-447 | a move between columns removes the task from one list and inserts it in the other |
| KanbanOrder.DenseWithin | internal/task/repository.go:421-438 | on a dense column with a target in range the move inserts at exactly that index and the column stays dense |
| KanbanOrder.DenseAcross | internal/task/repository.go:439-447 | the same for both columns of a cross-column move |
| KanbanOrder.DenseWithinExactly | internal/task/repository.go:421-438 | a move within a dense column keeps it dense exactly when the target is one of its positions |
| KanbanOrder.DenseAcrossExactly | internal/task/repository.go:439-447 | a move between dense columns leaves the source dense, and the target exactly when it was empty or the position is one of its own or the next |
| KanbanOrder.MoveByRow | internal/task/repository.go:449-466 | what a move does to each row; the moved task's status, start and completion times are those its column asks for |
| KanbanOrder.MoveFrame | internal/task/repository.go:390-468 | other columns and deleted rows are untouched |
| KanbanOrder.MoveSucceedsExactly | internal/task/repository.go:404-468 | on 32-bit positions a move to an existing column of the same board goes through exactly when no row it shifts up holds the largest position; a refused move changes nothing |
| KanbanOrder.MoveKeepsOrder | internal/task/repository.go:421-447 | a move keeps the order of all tasks it does not name |
| KanbanOrder.MoveKeepsDistinct | internal/task/repository.go:421-447 | and leaves no two live tasks of a column on one position |
| KanbanOrder.ListingUnique | internal/task/repository.go:335-387 | the order of a column is determined by its positions |
| KanbanOrder.ListingExists | internal/task/repository.go:335-387 | with distinct positions every column has its order |
| KanbanOrder.CutExists | internal/task/repository.go:421-447 | every target position cuts a column somewhere, so the surgery lemmas always apply |
| KanbanRuns.ReorderPlaces | internal/task/repository.go:470-481 | for any list, repeated and foreign ids included: each live task of the column ends at its last index in the list, all other rows stay |
| KanbanRuns.DeleteLeaves | internal/task/repository.go:331-333 | a deletion takes the task out of its column's order, closes no gap, and leaves all other rows and columns alone |
| KanbanRuns.ReorderKeepsDistinctExactly | internal/task/repository.go:470-481 | for any list a reorder keeps positions distinct exactly when no live task it leaves out holds the last index of one it names |
| KanbanRuns.FullReorderIsDense | internal/task/repository.go:470-481 | naming every live task once makes the column dense in that order |
| KanbanRuns.PositionsStayDistinct | internal/task/repository.go:331-333 | over any run of creations, moves, deletions and full reorders no two live tasks of a column share a position |
| Kanban.Tables.MoveTask | internal/task/repository.go:390-468 | the bulk updates and the row update do what `Move` says, and an overflowing update rolls everything back |
| Kanban.Tables.ShiftRange | internal/task/repository.go:427-445 | one bulk update, failing exactly on a 32-bit overflow |
| Kanban.Tables.ReorderTasks | internal/task/repository.go:470-481 | the loop over the ids does what `Reorder` says |
| JsonMerge.DeepMerge | internal/project/service.go:346-359 | the recursive loop, over the patch keys in any order, terminates and computes `Merge` |
| JsonMerge.MergeByPath | internal/project/service.go:346-359 | for every path: kept where the patch is silent, the patch's value at its leaves, a merge where objects meet |
| JsonMerge.EmptyIsIdentity | internal/project/service.go:336-344 | the empty object is a two-sided identity |
| JsonMerge.MergeIdempotent | internal/project/service.go:346-359 | applying a patch twice equals once |
| JsonMerge.CoveredMeansReplaced | internal/project/service.go:346-359 | a patch replaces an object outright exactly when it covers it recursively |
| JsonMerge.MergeAssociatesExactly | internal/project/service.go:346-359 | for which stored objects two patches in turn equal their merge |
| JsonMerge.PatchesFoldExactly | internal/project/service.go:346-359 | they do for all stored objects exactly when every object of the second that meets a value of the first meets an object, recursively |
| JsonMerge.LeafBetween | internal/project/service.go:346-359 | a leaf between two objects: the two ways agree exactly when the last patch covers what is stored |
| JsonMerge.FoldingCanDiffer | internal/project/service.go:346-359 | three concrete objects for which the two ways differ |
| SupervisionRuns.LimitHolds | internal/admin/service.go:1930-1954 | over any run a supervisor within a limit that holds in every department never exceeds it |
| SupervisionRuns.AssignCounts | internal/admin/service.go:765-790 | the lookup by team and the update or insert take the team's row from its old supervisor's count to the new one's, add a row only for a team without one, and touch no other row |
| SupervisionRuns.RowsStayUnique | internal/admin/service.go:765-790 | over any run no team gets a second assignment row, by the lookup alone, without the unique index |
| SupervisionRuns.SumIsTeamsExactly | internal/admin/repository.go:745-752 | the per-supervisor row counts sum to the number of assigned teams exactly when no team has two rows |
| SupervisionRuns.CountsSumToTeams | internal/admin/repository.go:745-752 | so after any run of assignments and responses they do |
| SupervisionRuns.AssignConserves | internal/admin/service.go:757-790 | assigning a new team adds one to the sum and to the teams; reassigning conserves both |
| SupervisionRuns.ApprovalNeverStrands | internal/admin/service.go:1364-1430 | exactly which requests an approval succeeds for, from its inputs; any other answer leaves everything, projects included, as it was |
| SupervisionRuns.ApprovalWrites | internal/admin/service.go:1386-1419 | a successful approval creates the project for the request's team, approves the row and gives the supervisor the team |
| SupervisionRuns.SplitApproval | internal/admin/service.go:1386-1419 | with any run between its two capacity tests an approval fails the second exactly when the supervisor has no capacity left by then, and a project its first half created is still there |
| SupervisionRuns.SecondHalfOverwrites | internal/admin/service.go:1412-1430 | the second half overturns a request closed in between exactly when it goes through on one that is no longer pending, and keeps one open request per team exactly when the team has no other open one by then |
| SupervisionRuns.CancelledRequestRevived | internal/admin/service.go:1412-1430 | the input: a cancelled request is approved and its team has two open ones |
| SupervisionRuns.InterleavedApprovalsStrand | internal/admin/service.go:1386-1419 | the input: two interleaved approvals for one free place leave a project whose request stays pending |
| SupervisionRuns.RequestsStayExclusive | internal/admin/service.go:1146-1179 | over any run a team has at most one pending or approved request, and a request leaves pending at most once, for good |
| SupervisionFates.FateExactly | internal/admin/service.go:1364-1430 | over any run a request is approved exactly when its own supervisor's approval went through, rejected exactly when its own supervisor rejected it while pending, cancelled exactly when it was cancelled while pending |
| SupervisionFates.ResponsesExactly | internal/admin/service.go:1369-1430 | only the request's supervisor responds, while it is pending; a rejection then always succeeds, marks the row rejected and touches nothing else |
| SupervisionFates.CancelsExactly | internal/admin/service.go:1484-1500 | only a pending request is cancelled, and nothing else changes |
| SupervisionFates.CreatesExactly | internal/admin/service.go:1084-1179 | exactly when a request is created: known team, capacity, entitled caller, no open request of the team |
| SupervisionFates.AssignsExactly | internal/admin/service.go:757-790 | exactly when a team is assigned, and that refusals write nothing |
| SupervisionFates.CapacityExactly | internal/admin/service.go:1930-1979 | the three cases of the limit: a positive one of the supervisor's own, else a positive department default, else none |
| Supervision.Tables.CheckCapacity | internal/admin/service.go:1930-1979 | the limit is the supervisor's own positive one, else the department default; zero means none |
| Supervision.Tables.AssignSupervisor | internal/admin/service.go:757-790 | a team is assigned or reassigned only with capacity left |
| Supervision.Tables.CreateSupervisorRequest | internal/admin/service.go:1084-1179 | creation with its refusals in their order |
| Supervision.Tables.RespondToRequest | internal/admin/service.go:1364-1430 | approval with both capacity tests, rejection and the refusals do what `Respond` says; see `ResponsesExactly` and `ApprovalWrites` |
| TokenCodec.ParseUndoesFormat | internal/auth/utils.go:114-128 | for every 64-bit id parsing undoes formatting exactly when the secret has no dot, and otherwise fails |
| TokenCodec.FormatInjective | internal/auth/utils.go:114-116 | distinct tokens have distinct client forms |
| TokenCodec.FormatUndoesParse | internal/auth/utils.go:118-128 | what parses is a 64-bit id and a dot-free secret; formatting gives the input back exactly without superfluous zeros |
| TokenCodec.ValueOfPrint | internal/auth/utils.go:115 | decimal parse undoes decimal print |
| TokenCodec.PrintOfValue | internal/auth/utils.go:123 | decimal print undoes parse exactly without a superfluous leading zero |
| TokenCodec.SplitParts | internal/auth/utils.go:119 | what the parts of a split are |
| Sessions.TokensNeverOutnumberLogins | internal/auth/service.go:127-194 | over any run a user's unrevoked tokens never outnumber those at the start plus the logins since |
| Sessions.ReuseEndsAllSessions | internal/auth/service.go:142-149 | presenting a revoked token with its secret leaves the user without unrevoked tokens until the next login, whatever else runs |
| Sessions.RedeemedOnce | internal/auth/service.go:127-194 | no token is exchanged twice in a run |
| Sessions.IssuedTokenRedeems | internal/auth/service.go:111-149 | a login's token presented in time is exchanged exactly when its secret has no dot, and presented again ends every session of the user |
| Sessions.RevokedStays | internal/auth/repository.go:120-132 | a revoked token stays revoked |
| SessionRules.RefreshExactly | internal/auth/service.go:127-194 | a refresh issues exactly for a token proved by its own secret, unrevoked, not past its expiry, of an active user; the old token is spent, the new one is the same user's, and nothing else changes |
| SessionRules.RefusalsExactly | internal/auth/service.go:127-173 | a refused refresh ends the user's sessions exactly on a proved revoked token, spends the token of a deactivated user, and otherwise, a wrong secret and an expired token included, changes nothing |
| SessionRules.LoginExactly | internal/auth/service.go:82-125 | a login issues exactly with the password of an active account |
| SessionRules.RevokesExactly | internal/auth/service.go:237-246 | a session is ended exactly by its owner, and no other with it |
| SessionRules.SessionEndsExactly | internal/auth/service.go:127-246 | over any run a session keeps its user, secret and expiry, and is revoked exactly when its owner ended it, it was exchanged in time with its secret, or a spent token of its user was presented |
| SessionRules.SessionIssuedExactly | internal/auth/service.go:82-194 | over any run a session comes into being exactly by an active user's password or the exchange of a current token proved by its secret |
| Sessions.Service.LogIn | internal/auth/service.go:82-125 | a login adds one token or nothing |
| Sessions.Service.RefreshToken | internal/auth/service.go:127-194 | the steps do what `Refresh` says, with every refusal and the reuse branch; see `RefreshExactly` and `RefusalsExactly` |
| Sessions.Service.EndSession | internal/auth/service.go:237-246 | only the owner revokes a session |
| Membership.SyncedMembers | internal/admin/repository.go:1076-1143 | after a sync a team's members are the positive requested ids and the leader; surviving rows are unchanged, new rows are plain members, the leader row stays, other teams keep their rows, the unique indexes hold |
| Membership.SyncSucceedsExactly | internal/admin/repository.go:1123-1143 | a sync succeeds exactly when every new id is a known user, in no other team and requested once |
| Membership.SyncTwice | internal/admin/repository.go:1076-1143 | repeating a sync succeeds and changes nothing |
| Membership.Table.SyncMembers | internal/admin/repository.go:1076-1143 | the loops do what `Sync` says, and a failed insert rolls back the deletions |
| Membership.Table.DeleteRemoved | internal/admin/repository.go:1109-1122 | the delete loop removes exactly the members not wanted |
| Membership.Table.AddNew | internal/admin/repository.go:1123-1143 | the insert loop adds the ids not in the old membership, until one fails |
| Membership.Pluck | internal/admin/repository.go:1086-1096 | the current ids as a list and as a set |
| Membership.Requested | internal/admin/repository.go:1098-1107 | the wanted ids: positive requested ones and the leader |
| Admission.CaseAgreesExactly | internal/admin/service_department_progress.go:19-35 | the SQL CASE with NULLs equals `normalizeAdmission` on every row but an undecided one with a grade and a NULL passing score |
| Admission.Tally | internal/admin/repository_department_progress.go:600-613 | whatever order GROUP BY returns, each counter is its class's count as an int32 |
| Admission.TallyIsListTotal | internal/admin/repository_department_progress.go:571-613 | each class's count equals the list's total under the filter for that class, though the two queries join different tables |
| AdmissionList.StatusExactly | internal/admin/service_department_progress.go:19-35 | for which project rows the list says admitted, not admitted, revision or undecided, and that it is what the Go function says |
| AdmissionList.ListedExactly | internal/admin/repository_department_progress.go:99-103 | a row is listed exactly when it matches the filter and shows a live team of the department with a project and a supervisor it has, or with none |
| AdmissionList.FilterOfProject | internal/admin/repository_department_progress.go:114-155 | what each condition of the filter asks of a row with a project, for a search without wildcards |
| AdmissionList.FilterWithoutProject | internal/admin/repository_department_progress.go:114-155 | a team without a project is found only by name and supervisor, and as undecided |
| Admission.ClassTotalsSum | internal/admin/repository_department_progress.go:22-30 | the totals of the four classes sum to all rows of the list |
| Admission.SearchIsContains | internal/admin/repository_department_progress.go:114-118 | a search without wildcards finds exactly the texts that contain it, up to case |
| AdmissionPages.PagesPartition | internal/admin/repository_department_progress.go:161-188 | pages that reach the total, each its own query over its own sort, together are the sorted list: every matching row once and no team twice |
| AdmissionPages.ListedOnePerTeam | internal/admin/repository_department_progress.go:99-103 | with one project and one supervisor per team the joins give one row per team |
| AdmissionPages.SortIsUnique | internal/admin/repository_department_progress.go:170 | the order with the team id as last key leaves one arrangement |
| AdmissionPages.TiedRowsCanRepeat | internal/admin/repository_department_progress.go:170-188 | with two rows for one team the pages may repeat one and lose the other |

## Left out

- JSON text: `deepMerge` works on values already decoded, nested objects are merged as values without the aliasing of Go maps, and a stored JSON null, which would make the source write into a nil map, is not a value of the model.
- Ledger.Store.CommitTransition: the merge of the data patch into the `data` column is not part of the transaction here (`deepMerge` itself is proved in `JsonMerge.dfy`), nor are timestamps, roles, directions, metadata and the transition id of history rows; none of them is read by the modelled logic.
- Ledger.Store.AdvanceByEvent: its `jsonb_set` stamp in the `data` column and its history metadata are left out in the same way.
- `UpdateProject`, `ArchiveProject` and `DeleteProject`: other writers of project rows, outside the ledger runs.
- The workflow engine and the outbox poller: a commit request's target state, name and deadline are inputs, restricted by `LedgerRuns.Allowed`.
- Row order without a full ORDER BY: where a query may return any of several rows, the model takes the first; workflow uniqueness makes the choice irrelevant for edges and live states.
- Case folding beyond ASCII letters, and locale-dependent trimming.
- Ledger.Store.Create: the task board, its columns and the insert's own failure are not modelled.
- Reviews.Tables.Add: one atomic step, although the source reads the check and saves the issue without a row lock, so an issue saved after a concurrent approval is outside the model.
- Reviews.Tables.Update: one atomic step, with the same unlocked read and save in the source.
- Reviews.Tables.Delete: one atomic step, with the same unlocked read and delete in the source.
- Reviews.Tables.Score: one atomic step; in the source its save could overwrite a concurrent approval.
- ReviewRights.OnlyTheCheckerActs: its issue and score calls are the single steps just named.
- Antiplagiat comments, checklists, statistics, reviews and histories of submissions, page and line numbers of issues: they feed no guard.
- The engine's own best-effort transitions (`tryPerformIfAvailable`): they reach a project only as commit steps of the ledger.
- PreDefense.Service.GradePreDefense: one step, with its separate writes only in `Faults`; `PreDefenseCalls` takes it apart. The sync of the ordinary submission, commission members and notifications are dropped, and the first save of a grade is taken to succeed.
- PreDefense.Service.CompletePreDefense: one step in the same way; failing to write its own history after the final save is not modelled.
- PreDefenseHazards.LostSaveRetry: single calls only, as is `LostGradeSaveComplete`; interleaved calls are the subject of `PreDefenseRaces`.
- PreDefenseRuns.FinalRowsAbsorb: its calls are single steps; the interleaved form is `PreDefenseCalls.FinalRowAbsorbsExactly`, which still takes the read of a grade and its first save as one step.
- `SubmitPreDefense` and the automatic creation path: only as the source of a pending or scheduled row.
- Kanban.Tables.MoveTask: a transaction is one atomic step, although the source reads the task without a row lock, so two concurrent moves could work from the same positions.
- Choosing the position of a new task, and `BulkUpdateTasks`: a creation is assumed to take a free position.
- Supervision.Tables.RespondToRequest: one atomic step; its two halves with steps in between are `SupervisionRuns.SplitApproval`.
- SupervisionRuns.RequestsStayExclusive: its responses are single steps; what the two halves of an approval do to it is `SupervisionRuns.SecondHalfOverwrites`.
- Supervision.Tables.AssignSupervisor: one atomic step; two concurrent ones could both pass the unlocked capacity test.
- SupervisionRuns.LimitHolds: limits are fixed during a run and each call is one step; `UpdateSupervisorMaxTeams` and the supervisor write inside `UpdateTeamByAdmin`, which tests no capacity, stay outside it.
- Expiry of supervisor requests, which no modelled call tests.
- Sessions.Service.RefreshToken: one atomic step, although the source revokes the old token and stores the new one separately and without a lock; the hash comparison is equality of secrets, access tokens and registration are left out.
- The name and supervisor parts of `UpdateTeamByAdmin`, and its timestamps.
- AdmissionPages.PagesPartition: the sort column is any ranking with NULLs last, so the whitelist of column names is absent; two LATERAL subqueries of one project are taken to read the same latest row in both queries.
- Admission.Tally: the int32 conversion is kept, so the equality with the int64 list total holds below 2^31 rows.
- Floating-point progress percentages, dashboards, handlers, the gateway, file, chat, form and university services, notifications and logging: plumbing or simple storage.
