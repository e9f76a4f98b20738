# Aether core protocols, modelled and proved in Dafny

This project models the stateful protocols at the heart of Aether and proves what
holds over all of their runs. `dafny verify dfyconfig.toml` checks everything.

| area | modules | form of the model |
|---|---|---|
| trusted approval inbox | `Timestamps`, `Proposals`, `ApprovalStore`, `ApprovalInbox`, `ApprovalRuns` | each SQLite transaction is one atomic step, each caller a program counter, a crash possible anywhere |
| APCB bridge | `Receipts`, `Dispatcher`, `DispatcherRuns`, `DispatcherAttempts`, `DispatcherGate`, `DispatcherAnswers`, `MissionIsolation`, `Bridge` | a crash-restart machine over an append-only receipt log |
| inbox and path together | `ActionEndings`, `ApprovedExecution`, `ApprovedResults`, `ApprovedRun` | the two machines joined where the inbox resumes an approved action |
| governed action path | `Failures`, `ActionPath`, `ActionRaces`, `ActionRetries`, `ActionControls`, `ActionAnswers`, `GovernedPath` | a step is the code between two awaits; executions and cancels overlap freely |
| capability lifecycle | `Lifecycle` | a gated stage machine with log replay |
| capability router | `Schemas`, `Router` | ranking, fallback loop, recursive schema checker |
| bounded structures | `Sessions`, `Quarantine` | windows proved against the unbounded history |
| shared vocabulary | `Prelude`, `OrderedDict` | text order, blank text, Python's insertion-ordered `dict` |

Machines are total: `Step(state, label)` leaves the state alone when the label does
not apply, `Run` folds any sequence of labels, and a main theorem quantifies over
all of them. Answers of the outside world (adapters, governor, clocks, mission
observer, backends) are carried by the labels and are arbitrary. Objects that the
source updates in place are classes whose methods are proved equal to the machine's
transactions or steps, so that the run theorems speak about them.

## Where the code does less than one might expect

Each of these is proved, together with the condition under which the code does meet
the expectation.

- `reconcile` trusts a snapshot handed in by its caller. `DispatcherRuns.StaleSnapshotBreaks`
  gives a run in which a stale one closes a key and loses its execution ref. Whatever the
  world answers, the protocol survives exactly when the snapshot is settled, or carries the
  execution ref of a current, unsettled snapshot and no outcome of its own
  (`DispatcherRuns.SnapshotSafeIff`). Finality and trace shape are proved for all runs that
  meet this condition; prompting, attestation, restart and attempt discipline hold for all
  runs, whatever is handed in.
- A snapshot of another mission writes into that mission's log
  (`MissionIsolation.ForeignSnapshotLeaks`). Missions stay apart under every answer exactly
  when the snapshot is of the caller's own mission or settled (`MissionIsolation.KeepsApartIff`).
- Attempt discipline fails with two principals: `DispatcherAttempts.RivalsEscapeTheGate`
  gives the run, `DispatcherAttempts.DisciplinedIffNoRival` the exact condition.
- An action that is refused again under its old id after CANCELED hides that CANCELED
  from `_terminal_event`; a late result then counts (`ActionRaces.ResubmissionHidesCanceled`).
  An action submitted once has at most one outcome exactly unless such a refusal lies between
  its CANCELED and a later outcome (`ActionRaces.AtMostOneOutcome`); while it runs, the state
  in which the backend's answer makes a second outcome is given by `ActionRaces.SecondOutcomeIff`.
- The waiter of a cancelled execution gets a bare CancelledError instead of the "canceled" result
  when the execution had not taken its first step (`ActionRaces.CanceledBeforeStart`), and also
  when the action was refused once more in the meantime (`ActionRaces.RefusalHidesCanceled`). It is
  told "canceled" exactly when the body had been entered and no such refusal came
  (`ActionRaces.WaiterSeesCanceledIff`); a late result is discarded under the same condition
  (`ActionRaces.LateResultIsDiscardedIff`).
- The lifecycle gate's comment lets the first principal advance freely, but two principals that
  have begun on a surface block each other for ever (`Lifecycle.TwoBeginnersStall`). As long as
  nobody there is active, someone can still become so exactly when the surface is not stalled in
  this way (`Lifecycle.ActivationPossibleIff`).
- With no quarantine section in the configuration the trigger check raises KeyError after
  it has read "enabled" as true, so nothing is ever quarantined (`Quarantine.NoSectionNoQuarantine`).
  A window over its limit leads to quarantine exactly with a section that is enabled
  (`Quarantine.OverLimitQuarantinesIff`).
- The class comment of the receipt store names work, attempt and principal as the key;
  the code's key has the mission too, and the model follows the code.
- A capability that active skills provide is reported NOT_FOUND, not BLOCKED, when there
  is no runtime profile at all (`Router.Route`).

## Model

| member | source | states |
|---|---|---|
| `Timestamps.IsoOrder` | aether-core/src/aether/actions/approval.py:58-59 | comparing two stored texts as SQL does is comparing the instants truncated to the second |
| `Timestamps.IsoShape` | aether-core/src/aether/actions/approval.py:58-59 | a stored text is `YYYY-MM-DDTHH:MM:SSZ`, each field standing at its place with its number |
| `Timestamps.ParseIso` | aether-core/src/aether/actions/approval.py:58-63 | parsing a written text gives back the instant up to the second |
| `Timestamps.ExpiryAgreement` | aether-core/src/aether/actions/approval.py:255-306 | for every deadline written, the sweep's text test and the decision's datetime test agree at every instant, sub-second ones included |
| `Proposals.SafeIsJson` | aether-core/src/aether/contracts/actions.py:69-78 | `_json_safe` of any value is a JSON value: string keys without duplicates, lists only, no enums or foreign objects |
| `Proposals.JsonSafeIdempotent` | aether-core/src/aether/contracts/actions.py:69-78 | `_json_safe` changes nothing the second time |
| `Proposals.CanonicalIsJson` | aether-core/src/aether/contracts/actions.py:97-106 | dumping with sorted keys and reading back keeps a value JSON and is idempotent |
| `Proposals.RoundTrip` | aether-core/src/aether/contracts/actions.py:81-122 | rebuilding a proposal from its stored payload gives the same payload, the same hash and correlation id, and a proposal that agrees with the original field by field, arguments and metadata as the same JSON value |
| `Proposals.HashBinds` | aether-core/src/aether/contracts/actions.py:97-106 | two hashes are equal if and only if action id, target, operation, scopes, reason, risk, reversibility and retry reason are equal and arguments and metadata denote the same JSON value |
| `Proposals.SameIff` | aether-core/src/aether/contracts/actions.py:69-106 | what `_json_safe` and the sorted dump make of two values is equal if and only if the values denote the same JSON value, entry by entry and item by item |
| `ApprovalStore.RecordedTwice` | aether-core/src/aether/actions/approval.py:79-92 | a result that went through the database keeps action id, ok, status, error and fingerprint, its output and metadata denote the same JSON values, and a second passage changes nothing |
| `ApprovalStore.CreateKeeps` | aether-core/src/aether/actions/approval.py:168-217 | inserting a pending row keeps the database invariant: genuine hash, readable expiry, one row per action, records exactly for decided rows |
| `ApprovalStore.SweepKeeps` | aether-core/src/aether/actions/approval.py:255-272 | the sweep keeps the invariant |
| `ApprovalStore.DecideKeeps` | aether-core/src/aether/actions/approval.py:274-338 | a decision keeps the invariant and never meets an unreadable expiry |
| `ApprovalStore.ClaimKeeps` | aether-core/src/aether/actions/approval.py:340-375 | a claim keeps the invariant |
| `ApprovalStore.FinalizeKeeps` | aether-core/src/aether/actions/approval.py:377-400 | a finalization keeps the invariant |
| `ApprovalStore.SweepAgreesWithDecide` | aether-core/src/aether/actions/approval.py:255-306 | a sweep expires exactly the pending rows that a decision at the same instant would expire, with the same resulting row |
| `ApprovalStore.PendingActionStore.CreateOrGet` | aether-core/src/aether/actions/approval.py:168-217 | one transaction; the answer is a loadable row of the proposal's own action, new if and only if neither action id nor hash was known |
| `ApprovalStore.PendingActionStore.ExpireDue` | aether-core/src/aether/actions/approval.py:255-272 | exactly the due pending rows expire and are reported |
| `ApprovalStore.PendingActionStore.Decide` | aether-core/src/aether/actions/approval.py:274-338 | one transaction and, unless it raised, a re-read of the row |
| `ApprovalStore.PendingActionStore.Claim` | aether-core/src/aether/actions/approval.py:340-375 | takes an approved row, replays a consumed one, refuses every other status |
| `ApprovalStore.PendingActionStore.Finalize` | aether-core/src/aether/actions/approval.py:377-400 | consumes a row under execution with its result, and nothing else |
| `ApprovalInbox.StepKeeps` | aether-core/src/aether/actions/approval.py:479-616 | every step of every caller, sweep, creation or crash keeps the system invariant |
| `ApprovalRuns.ExactOnce` | aether-core/src/aether/actions/approval.py:274-400 | over every run no approval and no action is executed twice, and every consumed row keeps the result of the one call made for it, field by field, output and metadata as JSON |
| `ApprovalRuns.CallCarriesDecision` | aether-core/src/aether/actions/approval.py:479-616 | every call of the action path carries the stored proposal's hash and scopes, its row's id and expiry, and the principal, reason, channel and time of the only record of its row, an APPROVED one |
| `ApprovalRuns.RowsStemFromCreations` | aether-core/src/aether/actions/approval.py:168-217 | over every run each row holds what one creation put into the store: its ids, hash, dates, channel and requester, and a proposal that agrees with the created one field by field |
| `ApprovalRuns.CallsStemFromCreations` | aether-core/src/aether/actions/approval.py:588-600 | over every run the proposal of each call agrees, field by field, with the proposal of a creation in that run, under an approval of exactly its scopes, hash and deadline |
| `ApprovalRuns.CallersAgree` | aether-core/src/aether/actions/approval.py:441-616 | every result told to any caller is kept in the row, field by field, and no caller ever meets an integrity error, an unreadable expiry or a lost finalization |
| `ApprovalRuns.DecideLeads` | aether-core/src/aether/actions/approval.py:274-338 | where a decision leaves its caller: bad request, unknown id, expired or decided, each exactly under its condition |
| `ApprovalRuns.DecisionAnswers` | aether-core/src/aether/actions/approval.py:479-590 | what a caller is told on re-reading a decided row: to claim, refused, or shown the row with its stored result, each exactly under its condition |
| `ApprovalRuns.ClaimLeads` | aether-core/src/aether/actions/approval.py:340-375 | where a claim leaves its caller, status by status |
| `ApprovalRuns.ReadAnswers` | aether-core/src/aether/actions/approval.py:479-616 | what a caller is shown on each of its other reads: an expired row without a result, the row it claimed, or the consumed row that keeps its own result, as executed by itself |
| `ApprovalRuns.ReturnsMean` | aether-core/src/aether/actions/approval.py:479-616 | a caller comes back with a result exactly when the row it is shown is consumed, and one that approved never comes back with the action undecided or unexecuted |
| `ApprovalRuns.OneExecutor` | aether-core/src/aether/actions/approval.py:479-616 | of all callers of an approval at most one is told that it executed the action; every other result is marked as replayed |
| `ApprovalRuns.Provenance` | aether-core/src/aether/actions/approval.py:274-338 | each approval record was asked for by a caller, with exactly its decision, principal, reason and channel, none of them blank |
| `ApprovalRuns.Dated` | aether-core/src/aether/actions/approval.py:274-400 | over every run each record bears the instant at which some decision was made, each consumed row the instant of some finalization |
| `ApprovalRuns.HistoryGrows` | aether-core/src/aether/actions/approval.py:255-400 | statuses only walk along the edges of the state machine, records are only appended, tickets are never rewritten |
| `ApprovalRuns.ApprovalHistory` | aether-core/src/aether/actions/approval.py:155-338 | one record exactly for approved, rejected, executing and consumed rows; it matches the row and is dated strictly before its expiry; a consumption date exactly for consumed rows |
| `ApprovalRuns.OrphanStays` | aether-core/src/aether/actions/approval.py:340-400 | a row left executing by a dead caller is never executed, finalized or released again, in any continuation |
| `Receipts.IndexIsLastWrite` | aether-core/src/aether/apcb/receipt_store.py:53-65 | replaying a log gives each key its last snapshot, with keys in the order of their first one |
| `Receipts.LatestIsFirstMax` | aether-core/src/aether/apcb/receipt_store.py:188-198 | the latest receipt of a work item is the first inserted among those with the highest attempt, and None exactly when there is none |
| `Receipts.AcceptedIff` | aether-core/src/aether/apcb/receipt_store.py:76-106 | the store accepts a sequence of snapshots whole if and only if no key has two closed ones in a row |
| `Receipts.ReceiptStore.constructor` | aether-core/src/aether/apcb/receipt_store.py:44-65 | a store opened on a log holds the replay of that log |
| `Receipts.ReceiptStore.Persist` | aether-core/src/aether/apcb/receipt_store.py:76-106 | appends unless both the new and the present snapshot are definitive; the index stays the replay of the log |
| `Receipts.ReceiptStore.Update` | aether-core/src/aether/apcb/receipt_store.py:108-134 | persists the receipt with the given fields replaced, key and workspace kept |
| `Receipts.ReceiptStore.LatestForWork` | aether-core/src/aether/apcb/receipt_store.py:188-198 | the loop computes the fold that `LatestIsFirstMax` characterises |
| `Receipts.ReceiptStore.HasActiveAttempt` | aether-core/src/aether/apcb/receipt_store.py:200-213 | true if and only if some receipt of that work, principal and mission is not terminal |
| `Dispatcher.PlanFits` | aether-core/src/aether/apcb/dispatcher.py:408-580 | whatever the world answers, a reconcile from a snapshot with the current execution ref and no outcome writes only what continues the key's life |
| `Dispatcher.StepKeeps` | aether-core/src/aether/apcb/dispatcher.py:123-580 | every dispatch, adapter call, restart and crash, and every reconcile given no snapshot or a harmless one, keeps the system invariant |
| `DispatcherRuns.RestartChangesNothing` | aether-core/src/aether/apcb/receipt_store.py:53-106 | in every run, any `existing` argument included, the index is the replay of the log, so a restart loses only the dispatch in progress |
| `DispatcherRuns.PromptedAtMostOnce` | aether-core/src/aether/apcb/dispatcher.py:129-277 | no (mission, work, attempt, principal) is ever prompted twice, in any run, crashes, restarts and arbitrary snapshots included |
| `DispatcherRuns.PromptFollowsClaim` | aether-core/src/aether/apcb/dispatcher.py:207-277 | in any run, when a prompt is sent, the key's CLAIMED snapshot is already in the log |
| `DispatcherRuns.TerminalFinality` | aether-core/src/aether/apcb/dispatcher.py:347-580 | once a key is terminal with an outcome other than none, empty or unknown, no later step appends to it, and DuplicateTerminalError never rises, in every run whose reconciles get no snapshot or a harmless one |
| `DispatcherRuns.TraceShape` | aether-core/src/aether/apcb/dispatcher.py:207-580 | in every such run each key's snapshots are one rejection, or claim, attachment, prompt in that order and then only reconciling or unknown until at most one settled terminal; an execution ref never changes |
| `DispatcherRuns.OutcomesAreAttested` | aether-core/src/aether/apcb/dispatcher.py:278-597 | in every run each closing snapshot is attested by what its step saw: a dispatch never completes against a wired artifact check, nothing completes from a blocked agent, and a reconcile under a finished mission writes only "stopped" |
| `DispatcherRuns.SnapshotSafeIff` | aether-core/src/aether/apcb/dispatcher.py:347-580 | for any snapshot handed to reconcile in any good state, settled key or not: the invariant survives every answer if and only if the snapshot is settled, or has the execution ref of the current unsettled one and, unless that ref is empty, no outcome but unknown |
| `DispatcherRuns.StaleSnapshotBreaks` | aether-core/src/aether/apcb/dispatcher.py:347-444 | the run in which an old claim snapshot, reconciled under a finished mission, closes the key and loses its execution ref, so that the trace has lost its shape |
| `DispatcherAttempts.DisciplinedIffNoRival` | aether-core/src/aether/apcb/dispatcher.py:138-205 | a dispatch that passes the gates comes after closed, lower attempts with an override if and only if no other principal has an open receipt on the work item |
| `DispatcherAttempts.AttemptDiscipline` | aether-core/src/aether/apcb/dispatcher.py:138-205 | in every run in which all snapshots of a work item are one principal's, attempts are created in strictly increasing order and each behind the first carries needs_reconcile or an approval id |
| `DispatcherAttempts.CreatedClosed` | aether-core/src/aether/apcb/eligibility.py:69-93 | in every such run no receipt is created while an earlier one of the work item is open |
| `DispatcherAttempts.OneAttemptWithoutOverride` | aether-core/src/aether/apcb/dispatcher.py:138-205 | in every such run without overrides at most one attempt ever gets a receipt |
| `DispatcherAttempts.RivalsEscapeTheGate` | aether-core/src/aether/apcb/dispatcher.py:138-205 | the run in which a second principal starts a lower attempt, without override, beside an open higher one |
| `DispatcherGate.StartsIff` | aether-core/src/aether/apcb/dispatcher.py:138-257 | in every run a dispatch of an unknown key creates a receipt if and only if the work is authorized, ready, not awaiting approval, with principal, workspace and profile named, its profile and capabilities are among the principal's, no receipt of that work, principal and mission is open, a closed latest attempt is lower and asked to be followed, and the workspace check passes or the gate is nonconformant; and which snapshot is then written first |
| `DispatcherGate.RefusalTells` | aether-core/src/aether/apcb/dispatcher.py:138-205 | every other dispatch of an unknown key is refused and writes nothing; it is shown its eligibility, flag by flag, if and only if it was stopped neither by the redispatch rule nor for want of a profile |
| `DispatcherGate.PromptedMetTheGate` | aether-core/src/aether/apcb/eligibility.py:69-93 | over every run each prompted key stems from a dispatch that met all of these conditions when it was made |
| `DispatcherAnswers.ReconcileAnswers` | aether-core/src/aether/apcb/dispatcher.py:347-580 | in every good state: each verdict of a reconcile exactly under its condition, when a snapshot is written and with which state and outcome, and that the outcome told is that of the written receipt |
| `DispatcherAnswers.FinishAnswers` | aether-core/src/aether/apcb/dispatcher.py:278-319 | the outcome of a waited-for dispatch, exactly, from status, error and artifact check; the decision, the receipt and the log tell the same |
| `DispatcherAnswers.RaisedAnswers` | aether-core/src/aether/apcb/dispatcher.py:320-342 | whatever the adapter raises, the dispatch answers as failed, closes its receipt and keeps the text of the error |
| `DispatcherAnswers.ProgressWrites` | aether-core/src/aether/apcb/dispatcher.py:260-277 | the agent's reference is written before the prompt, the prompt is sent before PROMPTED is written, and both snapshots keep the rest of the receipt |
| `MissionIsolation.StepView` | aether-core/src/aether/apcb/dispatcher.py:129-342 | a step of another mission is invisible to a mission, and its own step does the same on what it can see, if no foreign unsettled snapshot is handed in |
| `MissionIsolation.NonInterference` | aether-core/src/aether/apcb/dispatcher.py:129-206 | deleting all steps of other missions from a run leaves a mission's decisions, prompts, notes, errors, receipts and log snapshots unchanged, for every run in which no reconcile is handed another mission's unsettled snapshot |
| `MissionIsolation.KeepsApartIff` | aether-core/src/aether/apcb/dispatcher.py:347-580 | a snapshot handed to reconcile keeps missions apart, under every answer and for every mission, if and only if it is of the caller's mission or settled |
| `MissionIsolation.ForeignSnapshotLeaks` | aether-core/src/aether/apcb/dispatcher.py:347-444 | the run in which one mission claims its work and the other mission's reconcile, handed that claim, writes the settled snapshot that closes it |
| `Bridge.APCBDispatcher.Dispatch` | aether-core/src/aether/apcb/dispatcher.py:123-342 | an undisturbed dispatch is exactly the machine's steps in a row |
| `Bridge.APCBDispatcher.Reconcile` | aether-core/src/aether/apcb/dispatcher.py:347-580 | a reconcile is exactly the machine's step |
| `Bridge.APCBDispatcher.Observe` | aether-core/src/aether/apcb/dispatcher.py:522-580 | the part of reconcile that asks the adapter writes what the machine plans |
| `Bridge.APCBDispatcher.Gates` | aether-core/src/aether/apcb/dispatcher.py:138-205 | the gates before a receipt refuse exactly as the machine does, under the conditions of `DispatcherGate.StartsIff` and with the answer of `RefusalTells` |
| `Bridge.APCBDispatcher.Evaluation` | aether-core/src/aether/apcb/eligibility.py:69-93 | the eight eligibility flags, each spelled out, the no-active-attempt one read off the receipts |
| `Bridge.APCBDispatcher.Carry` | aether-core/src/aether/apcb/dispatcher.py:260-342 | from the claim to the answer, with the except clause at every adapter call |
| `Bridge.APCBDispatcher.CarryPrompt` | aether-core/src/aether/apcb/dispatcher.py:272-277 | building and sending the prompt, with either failure |
| `Bridge.APCBDispatcher.CarryRecord` | aether-core/src/aether/apcb/dispatcher.py:275-277 | from the prompt to the answer: the PROMPTED snapshot, then the wait |
| `Bridge.APCBDispatcher.RecordPrompted` | aether-core/src/aether/apcb/dispatcher.py:275-277 | the PROMPTED snapshot comes behind the prompt and keeps the other fields |
| `Bridge.APCBDispatcher.Fail` | aether-core/src/aether/apcb/dispatcher.py:320-342 | the except clause closes the receipt as failed |
| `Bridge.APCBDispatcher.CarryWait` | aether-core/src/aether/apcb/dispatcher.py:278-342 | the wait, the artifact check's overrule and the final snapshot |
| `Bridge.APCBDispatcher.Overrule` | aether-core/src/aether/apcb/dispatcher.py:284-301 | a missing artifact takes a completion back, a present one turns failed and unknown into completed, and only the latter is marked |
| `Failures.OpenFailuresMeans` | aether-core/src/aether/actions/failure.py:28-36 | a row is returned if and only if it is the last row of its fingerprint, open, and of the signature |
| `Failures.NoneOpen` | aether-core/src/aether/actions/failure.py:28-36 | the answer is empty if and only if no failure of the signature is open |
| `Failures.RecordOpens` | aether-core/src/aether/actions/failure.py:38-53 | recording opens the failure's signature and changes no other signature |
| `Failures.ResolveCloses` | aether-core/src/aether/actions/failure.py:55-62 | resolving closes all failures of the signature and changes no other signature |
| `Failures.RecordNames` | aether-core/src/aether/actions/failure.py:38-53 | a recorded failure is among the open ones, under its fingerprint, with its action named and no resolution |
| `Failures.ResolveAppends` | aether-core/src/aether/actions/failure.py:55-62 | resolving appends, for each open failure in order, the same row closed with the resolution, and no other row |
| `Failures.StaysConsistent` | aether-core/src/aether/actions/failure.py:38-62 | every row keeps the signature its fingerprint was made from |
| `Failures.FailureFingerprintStore.Open` | aether-core/src/aether/actions/failure.py:28-36 | the dictionary fold and the selection over it |
| `Failures.FailureFingerprintStore.Record` | aether-core/src/aether/actions/failure.py:38-53 | appends one open row under the fingerprint it returns |
| `Failures.FailureFingerprintStore.ResolveSignature` | aether-core/src/aether/actions/failure.py:55-62 | appends one closing row per open failure, in their order |
| `ActionRaces.StepKeeps` | aether-core/src/aether/actions/path.py:97-543 | every step of executions, cancels and reconciles keeps the race invariant |
| `ActionRaces.AtMostOneOutcome` | aether-core/src/aether/actions/path.py:225-476 | in any run an action submitted once has at most one of COMPLETED, FAILED, CANCELED if and only if no refusal under its id lies between its CANCELED and a later outcome |
| `ActionRaces.LateResultIsDiscardedIff` | aether-core/src/aether/actions/path.py:225-305 | for a running execution of an action submitted once and CANCELED, in any reachable state: the late backend result leaves the failure file as it is, adds no outcome and ends the execution as late if and only if the action was not refused again under its id |
| `ActionRaces.WaiterSeesCanceledIff` | aether-core/src/aether/actions/path.py:225-275 | in the same states the waiter is told "canceled" if and only if the execution had entered its body and the action was not refused again under its id |
| `ActionRaces.CanceledShowsIff` | aether-core/src/aether/actions/path.py:656-674 | in the same states `_terminal_event` finds the CANCELED if and only if the action was not refused again under its id |
| `ActionRaces.SecondOutcomeIff` | aether-core/src/aether/actions/path.py:225-337 | in any reachable state with the action's only execution running, the backend's answer makes a second outcome if and only if the action is CANCELED and another terminal entry hides it |
| `ActionRaces.CanceledBeforeStart` | aether-core/src/aether/actions/path.py:203-224 | a reachable state in which a task cancelled before its first step ended without the "canceled" result |
| `ActionRaces.RefusalHidesCanceled` | aether-core/src/aether/actions/path.py:225-240 | a reachable state in which a cancelled execution that had entered its body ends without the "canceled" result, because the action was refused once more |
| `ActionRaces.ResubmissionHidesCanceled` | aether-core/src/aether/actions/path.py:656-674 | a reachable state in which one action has both CANCELED and COMPLETED |
| `ActionEndings.JournalMatchesEndings` | aether-core/src/aether/actions/path.py:225-337 | over every run COMPLETED and FAILED stand in the journal exactly for executions that ended so, an execution that ended canceled or late has its CANCELED, and every request and every CANCELED belongs to an execution |
| `ActionEndings.StepKeeps` | aether-core/src/aether/actions/path.py:97-543 | every step keeps the journal and the executions in agreement |
| `ApprovedResults.RequestedOnce` | aether-core/src/aether/actions/path.py:97-224 | over every joint run of inbox and path, an action whose direct proposals in that run all need approval gets ACTION_EXECUTION_REQUESTED at most once; other ids and the policy are arbitrary |
| `ApprovedResults.OneOutcomeUnlessOverruled` | aether-core/src/aether/actions/path.py:225-476 | in every joint run such an action has two outcomes if and only if it is refused under its id between its CANCELED and a later outcome |
| `ApprovedResults.ExecutedMeansApproved` | aether-core/src/aether/actions/approval.py:479-616 | in every joint run each execution request of such an action belongs to an execution that carries the hash of a proposal the inbox called for, under one APPROVED record over that hash, in the words of a caller who approved |
| `ApprovedResults.StoredResultAgrees` | aether-core/src/aether/actions/approval.py:600-616 | in every joint run the result stored in a consumed row of such an action is ok if and only if the journal has its COMPLETED, says "failed" if and only if it has its FAILED, says "canceled" only with a CANCELED, and always with one unless the CANCELED was overruled |
| `ApprovedRun.RequestIsReached` | aether-core/src/aether/actions/approval.py:479-616 | for any proposal and any valid approval before its deadline there is a joint run that reaches the execution request |
| `ApprovedRun.WholeLife` | aether-core/src/aether/actions/approval.py:479-616 | and one that goes on to COMPLETED and to the consumed row |
| `ApprovedExecution.InboxRuns` | aether-core/src/aether/actions/approval.py:588-616 | the inbox half of a joint run is a run of the inbox |
| `ApprovedExecution.PathRuns` | aether-core/src/aether/actions/path.py:97-224 | the path half of a joint run is a run of the path |
| `ApprovedExecution.GateKeeps` | aether-core/src/aether/governance/actions.py:63-103 | a review that never approves, for a caller without an approval, what needs one keeps one call, one caller and at most one execution per action |
| `ActionRetries.FileTellsLastRun` | aether-core/src/aether/actions/path.py:276-305 | over every run the failure file has an open failure of a signature exactly when that signature's last counted execution failed |
| `ActionRetries.RetryGate` | aether-core/src/aether/actions/path.py:116-214 | every execution requested while its signature's last run failed carries a retry reason; blocking happens only then and only without one |
| `ActionControls.ControlsAreBound` | aether-core/src/aether/actions/path.py:339-586 | over every run each cancel or reconcile entry names the hash and session of the action's first proposal, journaled before it, and a cancel is carried out, refused or left unconfirmed only behind its own recorded intent |
| `ActionControls.StepKeeps` | aether-core/src/aether/actions/path.py:339-586 | every step keeps that binding, and the binding of every cancel in flight |
| `ActionAnswers.AnswersAreTruthful` | aether-core/src/aether/actions/path.py:339-621 | over every run a control request is told "canceled" only if its own CANCELED is in the journal, "not confirmed", "unsupported" or "requested" only if the latest entry of its id is of the matching kind, never "canceling", and an ending only if it is the action's latest |
| `ActionAnswers.CancelEndsIff` | aether-core/src/aether/actions/path.py:411-476 | over every run, behind the backend's cancel: "canceled" if and only if it was confirmed and the action had not ended, then the execution is asked to stop; "not confirmed" if and only if not confirmed and not ended; otherwise the latest ending; with exactly these entries written |
| `ActionAnswers.SupportIff` | aether-core/src/aether/actions/path.py:375-410 | behind the support check a cancel goes on, is unsupported or conflicts, each exactly under its condition |
| `ActionAnswers.CancelAdmittedIff` | aether-core/src/aether/actions/path.py:339-375 | a new cancel gets to the support check if and only if it is meant, well bound and new, and its action is active, not ended and without an intent; it is answered from the journal if and only if it is a repetition |
| `ActionAnswers.ReconcileAdmittedIff` | aether-core/src/aether/actions/path.py:478-543 | a reconciliation is journaled if and only if it is well bound and new, its action was requested, has not ended nor been reconciled, and the observed entry is of that action |
| `ActionAnswers.ForgottenIsOutOfReach` | aether-core/src/aether/actions/path.py:213-224 | over every run no cancel gets at an execution that has ended and is forgotten; every other request is answered as before |
| `ActionAnswers.DeliveryMeans` | aether-core/src/aether/actions/path.py:225-337 | what a backend result leaves behind: only a note behind a cancel; else a completion that closes the failures of the signature, or a failure that is open from then on; nobody else is touched |
| `ActionAnswers.ExecutedIff` | aether-core/src/aether/actions/path.py:97-224 | over every run a proposal is executed if and only if its preflight holds, it has a reason to retry where its last run failed, and the governor approves; a refusal names the first of these that failed; and which entries are written |
| `GovernedPath.GovernedActionPath.TerminalEvent` | aether-core/src/aether/actions/path.py:656-674 | the backward search finds the latest terminal entry of the action |
| `GovernedPath.GovernedActionPath.ProposedEntry` | aether-core/src/aether/actions/path.py:545-570 | the first PROPOSED entry of the action |
| `GovernedPath.GovernedActionPath.AnyEntry` | aether-core/src/aether/actions/path.py:649-655 | whether the action has an entry of a kind |
| `GovernedPath.GovernedActionPath.ControlProposal` | aether-core/src/aether/actions/path.py:545-586 | the binding checks of a control request, error by error |
| `GovernedPath.GovernedActionPath.LatestControl` | aether-core/src/aether/actions/path.py:588-621 | the latest entry that carries the control request id |
| `GovernedPath.GovernedActionPath.ExecuteGate` | aether-core/src/aether/actions/path.py:97-224 | `execute` behind its preflight is the machine's gate step |
| `GovernedPath.GovernedActionPath.CompleteExecution` | aether-core/src/aether/actions/path.py:225-337 | a backend result is the machine's delivery step, failure file included |
| `GovernedPath.GovernedActionPath.BeginCancel` | aether-core/src/aether/actions/path.py:339-375 | `cancel_action` up to its first await is the machine's step |
| `GovernedPath.GovernedActionPath.RecordIntent` | aether-core/src/aether/actions/path.py:375-410 | the re-check and the recorded intent are the machine's step |
| `GovernedPath.GovernedActionPath.FinishCancel` | aether-core/src/aether/actions/path.py:411-476 | the answer to the backend's cancel is the machine's step, which `ActionAnswers.CancelEndsIff` spells out |
| `GovernedPath.GovernedActionPath.ReconcileReply` | aether-core/src/aether/actions/path.py:478-518 | the checks of `reconcile_action` answer as the machine does |
| `GovernedPath.GovernedActionPath.ReconcileAction` | aether-core/src/aether/actions/path.py:478-543 | `reconcile_action`, which never awaits, is the machine's step |
| `Lifecycle.SinglePrincipalGate` | aether-core/src/aether/capabilities/lifecycle.py:252-315 | in every reachable state a surface has at most one founder-proven principal, and exactly one where two are active or beyond |
| `Lifecycle.FirstActiveWasAlone` | aether-core/src/aether/capabilities/lifecycle.py:303-315 | the first principal to become active on a surface was then the only one with a record there |
| `Lifecycle.RecordsAreChains` | aether-core/src/aether/capabilities/lifecycle.py:169-220 | each record's transitions are the consecutive stages up to its own, each with its required evidence, the last one giving date and evidence of the record, and reloading the log rebuilds the same records |
| `Lifecycle.TakesByName` | aether-core/src/aether/capabilities/lifecycle.py:37-110 | whose a record may be, and which named evidence each stage behind it was shown |
| `Lifecycle.AdvancesIff` | aether-core/src/aether/capabilities/lifecycle.py:252-315 | in every reachable state a request adds a transition if and only if its ids are valid, its stage is the next and evidenced, and no other principal is in the way; otherwise it changes nothing |
| `Lifecycle.TransitionsWereAskedFor` | aether-core/src/aether/capabilities/lifecycle.py:252-300 | over every run each transition is what a request asked for, with the evidence, date and note it brought |
| `Lifecycle.StalledForever` | aether-core/src/aether/capabilities/lifecycle.py:303-315 | two records on a surface before anyone is active block activation there in every continuation, whatever evidence is brought |
| `Lifecycle.TwoBeginnersStall` | aether-core/src/aether/capabilities/lifecycle.py:303-315 | two principals that begin on a surface, one request each, are stalled: the reachable witness |
| `Lifecycle.ActivationPossibleIff` | aether-core/src/aether/capabilities/lifecycle.py:252-315 | as long as nobody on a surface is active, some continuation makes someone there active if and only if the surface is not stalled |
| `Lifecycle.AloneBecomesActive` | aether-core/src/aether/capabilities/lifecycle.py:303-315 | a principal alone on its surface can always be brought to active |
| `Lifecycle.CapabilityLifecycle.constructor` | aether-core/src/aether/capabilities/lifecycle.py:160-220 | a new process rebuilds its records by folding the log |
| `Lifecycle.CapabilityLifecycle.Advance` | aether-core/src/aether/capabilities/lifecycle.py:252-315 | succeeds if and only if ids, stage order, evidence and the principal gate allow it, and changes nothing otherwise |
| `Schemas.ValidateExact` | aether-core/src/aether/capabilities/router.py:471-499 | an error is reported for a path if and only if a nested schema governs that place of the value and is broken there, with exactly that flaw |
| `Schemas.NoErrorsIffConforms` | aether-core/src/aether/capabilities/router.py:471-499 | no errors if and only if every place of the value that a schema governs satisfies that schema |
| `Schemas.NamesOf` | aether-core/src/aether/capabilities/router.py:471-486 | which type names take a value, from the value's side: a boolean is an integer and a number too, a tuple, set, enum or object is nothing |
| `Router.NoBlockersIffFits` | aether-core/src/aether/capabilities/router.py:338-356 | there is no blocker if and only if the runtime is healthy, able, complete in features and effects, and the skill's effects are allowed, as far as the policy asks |
| `Router.RankSorts` | aether-core/src/aether/capabilities/router.py:157-157 | the ranking is sorted by the four-part key, is a permutation and keeps tied candidates in their order |
| `Router.RankUnique` | aether-core/src/aether/capabilities/router.py:157-157 | a sorted list with given ties is unique, so the ranking is fully determined |
| `Router.CompatibleIsPrefix` | aether-core/src/aether/capabilities/router.py:157-158 | the compatible candidates are exactly the head of the ranking |
| `Router.Route` | aether-core/src/aether/capabilities/router.py:108-177 | a skill is selected if and only if one serves the requirement; of all that serve the selected one is worth most, name and id deciding draws, so none on its profile succeeds more often under a positive weight and no profile fitting it has a lower priority number; and NOT_FOUND is told apart from BLOCKED |
| `Router.Collect` | aether-core/src/aether/capabilities/router.py:120-155 | the loops offer one candidate per accepting skill and profile, in order, and report whether an input was rejected |
| `Router.OffersExact` | aether-core/src/aether/capabilities/router.py:120-155 | a candidate is offered if and only if some active skill that provides the capability and accepts the input makes it on some profile |
| `Router.ScoreMeans` | aether-core/src/aether/capabilities/router.py:132-140 | an offer is worth 1 + rate · weight − priority / 100000, where the rate is the share of successful uses, one half without any, and bears its skill's id and name |
| `Router.StrippedMeans` | aether-core/src/aether/capabilities/router.py:109-109 | stripping takes the white space around the capability away and nothing else |
| `Router.Fallback` | aether-core/src/aether/capabilities/router.py:213-336 | the attempts are the given line cut at the first ok or pausing answer, and the last attempt alone determines status, ok flag, skill and result |
| `Router.FallbackUnique` | aether-core/src/aether/capabilities/router.py:218-307 | the attempts are determined by the line and the executor's answers |
| `Router.Execute` | aether-core/src/aether/capabilities/router.py:179-336 | routing, then the fallback over the ranked compatible candidates cut at the budget as Python slices them, negative budgets included; with at least one attempt allowed, the candidates are tried from the selected one down the ranking until an answer settles or no further attempt may be made, and the last answer alone determines what is reported |
| `Router.SelectedIsTriedFirst` | aether-core/src/aether/capabilities/router.py:213-218 | with a budget of at least one the attempts are a non-empty head of the ranking no longer than the budget, and the first is the decision's selected candidate |
| `Router.ExecutionMeans` | aether-core/src/aether/capabilities/router.py:213-336 | who is tried, in which order, why it ends there, and each reported status exactly from the last answer |
| `Router.CutMeans` | aether-core/src/aether/capabilities/router.py:213-218 | a slice is a head of the list, `n` long or short of `-n` at its end |
| `Sessions.MemoryIsWindow` | aether-core/src/aether/cognition/session.py:36-51 | after any interleaving over many sessions the local store answers with the last N messages since the last clear |
| `Sessions.TableIsWindow` | aether-core/src/aether/cognition/session.py:95-143 | so does the table, as its columns render the messages |
| `Sessions.StoresAgree` | aether-core/src/aether/cognition/session.py:26-143 | both stores give the same answer if and only if the messages in the window are JSON values with a string role |
| `Sessions.TableTells` | aether-core/src/aether/cognition/session.py:95-143 | message by message, what the table answers: the role as text, "unknown" for none, and the other entries dumped and loaded |
| `Sessions.DumpedSameIff` | aether-core/src/aether/cognition/session.py:110-130 | dumping a value with `default=str` and loading it again gives the same value if and only if it is JSON; sets, enums and objects become texts, tuples lists |
| `Sessions.DumpedPiecewise` | aether-core/src/aether/cognition/session.py:110-130 | what dumping and loading makes of a value, piece by piece: entries by their key's text, items in their order, texts of what JSON does not know |
| `Sessions.InMemoryConversationStore.Append` | aether-core/src/aether/cognition/session.py:40-47 | extends and truncates one session, or raises on a blank id |
| `Sessions.InMemoryConversationStore.Get` | aether-core/src/aether/cognition/session.py:36-38 | the session's messages, none for an unknown one |
| `Sessions.InMemoryConversationStore.Clear` | aether-core/src/aether/cognition/session.py:49-51 | forgets one session and no other |
| `Sessions.SQLiteConversationStore.Append` | aether-core/src/aether/cognition/session.py:112-137 | inserts the rows and deletes all but the session's last N |
| `Sessions.SQLiteConversationStore.DeleteOlder` | aether-core/src/aether/cognition/session.py:131-137 | the deletion keeps the newest rows of the session and all rows of others, in order |
| `Sessions.SQLiteConversationStore.Get` | aether-core/src/aether/cognition/session.py:95-110 | the session's last N rows in order, nothing for a blank id |
| `Sessions.SQLiteConversationStore.Clear` | aether-core/src/aether/cognition/session.py:139-143 | deletes the rows of one session and no other |
| `Quarantine.WindowsCountExactly` | aether-tools/src/aether_tools/quarantine.py:18-37 | in every run under a clock that never goes back, each window counts exactly the events ever recorded inside it |
| `Quarantine.OverLimitIsQuarantined` | aether-tools/src/aether_tools/quarantine.py:168-236 | after any recorded event with an enabled section, a window over its limit implies quarantine |
| `Quarantine.OverLimitQuarantinesIff` | aether-tools/src/aether_tools/quarantine.py:208-236 | in every run, a window over its limit brings a free monitor into quarantine if and only if the configuration has a quarantine section and it is enabled |
| `Quarantine.QuarantineIsJustified` | aether-tools/src/aether_tools/quarantine.py:208-261 | a quarantine begins only in an enabled check, at its trigger time, and the window named as its reason was over its limit by the naive count |
| `Quarantine.HeldUntilCooldown` | aether-tools/src/aether_tools/quarantine.py:238-282 | a quarantine keeps its start and reason until the cooldown from that start has passed |
| `Quarantine.ReleasedIff` | aether-tools/src/aether_tools/quarantine.py:263-282 | a held monitor is released if and only if the cooldown from its start has passed |
| `Quarantine.NoSectionNoQuarantine` | aether-tools/src/aether_tools/quarantine.py:208-214 | without a configuration section no number of events leads to quarantine |
| `Quarantine.MetricWindow.Cleanup` | aether-tools/src/aether_tools/quarantine.py:30-33 | pops exactly the leading events before the cutoff |
| `Quarantine.MetricWindow.Add` | aether-tools/src/aether_tools/quarantine.py:24-28 | appends the stamp to the history and drops what left the window |
| `Quarantine.MetricWindow.Count` | aether-tools/src/aether_tools/quarantine.py:35-37 | cleans up, then counts what is left |
| `Quarantine.BehaviorMonitor.CheckTriggers` | aether-tools/src/aether_tools/quarantine.py:208-236 | the four checks in order, each ending the check when it triggers |
| `Quarantine.BehaviorMonitor.Trigger` | aether-tools/src/aether_tools/quarantine.py:238-261 | an existing quarantine keeps its start and reason |
| `Quarantine.BehaviorMonitor.Record` | aether-tools/src/aether_tools/quarantine.py:168-236 | adding to one window and the checks with their early returns are the model's step |
| `Quarantine.BehaviorMonitor.CheckRelease` | aether-tools/src/aether_tools/quarantine.py:263-282 | releases if and only if the cooldown has passed, and reports whether the monitor is free |

## Left out

- SQLite, file and JSON text internals: transactions and appends are atomic and succeed, one process writes a log, JSON text is the value it denotes, torn or corrupt log lines do not occur.
- SHA-256 is an injective constructor, generated ids are fresh, scores and clocks are reals.
- Timestamps.ExpiryAgreement: clocks are in UTC, a day may be any of 1 to 31 in every month, and the deadline is an input, so the addition of a lifetime to a date is not modelled.
- Proposals.RoundTrip: a set is taken in the order in which Python happens to iterate it; NaN and infinities are not values of the model.
- Expiry at execution: `claim` checks the status only, so nothing is claimed about the time of the call, only about the time of the decision.
- ApprovalStore.RecordedTwice: the metadata of a result is taken to be a mapping, as its type says.
- Continuations, the listing queries and the events of the approval inbox.
- Receipt fields that only describe (correlation and bridge ids, times, metadata) and the diagnostic text of decisions.
- "Completed requires the artifact" on the promoting path of reconcile: the code does not check it there, and the model does not claim it.
- Adapters, conformance gate, mission observer, the governor's policy, runtimes, event bus and prompt rendering answer arbitrarily; their code would only add easy members.
- ActionRaces.AtMostOneOutcome: speaks of actions submitted for execution once; an id submitted twice has two executions and may have two outcomes.
- ApprovedResults.RequestedOnce: the governor's policy is an arbitrary predicate on proposals; that an approval in hand is needed where it says so is taken from governance/actions.py, and that approvals are made only by the inbox from there being no other place that makes one. An id under which some direct proposal needs no approval may be executed once per such proposal.
- Uniqueness of cancel intents: two overlapping cancels can both pass the check before the first await, so it is not claimed.
- Dispatch of the runtime command and its result entries in the event log, which no decision of the path reads.
- Sessions.DumpedSameIff: a dictionary key that `json.dumps` refuses, its own spelling of the keys None and True, and enums that are integers or strings, which JSON writes as their value, are not modelled.
- Lifecycle.CapabilityLifecycle.Advance: ids arrive stripped and case-folded, notes arrive cleaned, and a failed append is not modelled.
- Router.Route: the texts and the deduplication of the blockers of a refused route, the failure fingerprint and the limit of 5000 records; required lists and property maps of a schema are well-typed, and an enum member is of no schema type.
- Router.Execute: the proposal built for each attempt (scopes, derived risk, metadata) and the emitted events, which are straight-line computations.
- Trust score, profile upgrade and persistence of the quarantine state; an explicit timestamp given to a metric window.
- `aether_cli.py`, `scripts`, `deploy`, `aionui-integration`, `consciousness`, `adapters`, task queue, tool registry and parser: glue, demos or thin wrappers without the properties above.
