# Verification of the CodexPro Bridge core

This project models the durable core of the Bridge in Dafny and proves what that core is for:
operations are not replayed, an audited task is completed only on the work that was audited,
checkpoints form one chain per task, the gateway catalog sends a call to the route that listed the
tool, and shaped results hold no credential.

## How it is laid out

- `Text`, `Json`, `Query`: the parts of Go's standard library and of SQL that the rest stands on.
- `Redaction`, `Paths`, `Shaping`: the redacted value tree, the path language, and `Shape`.
- `Checkpoints`: the checkpoints table, in which one statement reads the latest row and another
  inserts its successor under `UNIQUE(task_id, sequence)`.
- `Receipts`: the operation receipts table under whole prepares and finalizes.
- `Protocol`, `ProtocolInvariants`, `ProtocolSafety`: the no-replay protocol as a step machine. Any
  number of `mcp.call`, `receipt.prepare`, `receipt.finalize` and other checkpoint writers interleave
  at single SQL statements, a crash may fall between any two steps, and a ghost log remembers what
  each execution did.
- `ProtocolFates`, `ProtocolRaces`: over all those runs, exactly when a receipt is unfinished and when
  no checkpoint tells an outcome; and runs in which two mutations of one task race.
- `ProtocolMeanings`: over all those runs, what the rows and the replies mean: the events of
  checkpoints, what receipts record, where result references lead, what a caller may conclude.
- `Calls`, `Bridge`, `Outcomes`: one execution by itself; the sequential code over mutable tables,
  shaping included, proved to be a schedule of the machine; and everything a request leaves behind.
- `Admission`, `Batch`, `BatchAnswers`, `Sequential`: which batches are let in; parallel mode as
  workers and a semaphore over the step machine, whose fan-out is bounded whatever else runs; what
  its slots answer; sequential mode as a loop over the code, and the refinement between the two.
- `Work`, `WorkRuns`, `WorkMeanings`, `WorkLimits`, `WorkRuntime`: the task, step, audit, checkpoint
  and artifact tables; what every operation keeps and what holds over every run; what each operation
  does to the rows and when it refuses; which refused operations leave something behind; the code
  over mutable tables.
- `Capsule`: the resume capsule.
- `Catalog`, `Resolution`: the shared catalog, canonical names, resolution and dispatch.
- `Registry`, `Mounting`: module registration and the mounting of adapters.
- `Affinity`: the binding of conversations to tasks.

A row's id is its place in its table, so ids are fresh by construction and rows are never deleted.
SHA-256 is taken to be injective. Functions the model does not look into (the redaction patterns,
the JSON encoder, lower-casing, what upstream tools answer) are parameters, so each result holds for
every choice of them.

## Where the code and its promises part

Each of these is proved: the exact condition, and a case in which it happens.

- `ReceiptFinalize` looks before it writes, in two statements and no transaction
  (work/receipts.go:106-120). Run whole, a receipt is a write-once cell
  (`Receipts.ReceiptsAreWriteOnce`). Interleaved, a finished receipt stays as it is for good if and
  only if no finalizer that had read it unfinished still has to write another outcome
  (`ProtocolSafety.FinishedForGoodExactly`), so one finalizer is always safe
  (`ProtocolSafety.OneFinalizerWritesOnce`) and two can overwrite each other
  (`ProtocolSafety.FinishedReceiptsCanBeOverwritten`).
- A call can end and leave its receipt unfinished, and a confirmed mutation can lack its outcome
  checkpoint. Over all interleavings, `ProtocolFates.ReceiptIsUnfinishedExactly` and
  `ProtocolFates.OutcomeIsOffRecordExactly` name the causes, each a guard of one statement: the task's
  steps do not fit the checkpoint (work/checkpoints.go:68-79), another writer extended the chain in
  between (work/checkpoints.go:49-101), shaping the reply panics or fails (accelerator/runtime.go:182-189),
  the result store refuses the reply (accelerator/runtime.go:191-195), or someone else finalized the
  receipt. For a call that runs by itself the causes are conditions on the request, the reply and the
  options: `Outcomes.ReceiptStaysUnfinishedExactly`, `Outcomes.OutcomeCheckpointMissingExactly`, with
  a case of each in `Outcomes.PanickedAndUnfinished`, `Outcomes.RepliedAndUnfinished`,
  `Outcomes.ConfirmedAndUnnoted` and `Outcomes.RefusedBeforeSending` (a task with 741 steps to do,
  `Outcomes.SuchCallsExist`).
- Two mutations of one task can race for the checkpoint before the call: one of them fails with a
  constraint error, nothing of it is sent, its receipt stays unfinished for good, and a retry of it is
  answered "deduplicated" (accelerator/runtime.go:142-155): `ProtocolRaces.MutationsCanRace`, from
  empty tables in `ProtocolRaces.RaceFromNothing`; at any checkpoint in
  `ProtocolRaces.AnyReaderCanBeOvertaken`.
- A refused operation can leave something behind: an audit with its first checks, or a completed step,
  a finalized artifact or a verdict whose checkpoint does not fit. `WorkLimits.RefusalsThatStay` says
  exactly when, over all operations; `WorkLimits.CompletedStepStaysWithoutItsCheckpoint` and
  `WorkRuns.RefusedAuditsStay` show it.
- A PASS audit need not have only passing checks, because recording evidence resets a check and
  leaves the audit (work/audits.go:86): `WorkRuns.PassOutlivesItsEvidence`, and a history of five
  operations in `WorkLimits.PassWithUncertainCheck`.
- A tool name padded with white space is resolved by its trimmed form and then looked up untrimmed,
  so it is denied even when the tool is there: `Resolution.PaddedNamesAreDenied`,
  `Resolution.PaddingDenies`.
- `Shape` adds offset and limit in a Go int; a limit that overflows it makes the slice expression
  panic: `Shaping.ShapePanicsExactly`, `Shaping.LargeLimitPanics`. Nothing on the way recovers, so the
  call ends there, after its reply and before it finalizes.
- The capsule shows the step a task names even when that step is finished and others are open:
  `Capsule.CapsuleShowsTheCurrentStep`, `Capsule.FinishedStepIsShown`.

## Model

| member | source | states |
|---|---|---|
| Text.SpacesAreThese | work/affinity.go:12 | White space is the 25 characters of the Unicode property White_Space. |
| Text.TrimSpaceDropsSpace | accelerator/shaping.go:100 | Trimming takes off white space at both ends, all of it and nothing else. |
| Text.AtoiOfSigned | accelerator/shaping.go:132 | A decimal text reads as its number, with a sign or without, leading zeros or not, and only within 64 bits. |
| Text.AtoiTakesDigitsOnly | accelerator/shaping.go:132 | A text reads as a number only if behind an optional sign it is digits, at least one. |
| Redaction.RedactLeavesNoSecret | core/redaction.go:24-54 | Redacting any value leaves only the marker under a secret key, at every depth, and every other text is text the patterns have rewritten. |
| Redaction.RedactKeepsShape | core/redaction.go:24-54 | Redaction keeps every key set, every list length and every non-text leaf; only text and values under secret keys change. |
| Redaction.RedactForgetsExactly | core/redaction.go:24-54 | Two values redact to the same value if and only if they differ at most under secret keys and in texts that redact alike. |
| Redaction.RedactTwice | core/redaction.go:24-54 | If redacting text twice is redacting it once, then so it is for whole values. |
| Redaction.RedactTwiceExactly | work/results.go:14 | Redacting values twice is redacting them once if and only if that holds of all texts. |
| Paths.SelectPath | accelerator/shaping.go:99-147 | The scanning loop ends for every text and value, and computes the scan the theorems below are about. |
| Paths.NavigationFollowsATrail | accelerator/shaping.go:105-146 | Navigating by steps finds a value if and only if a trail leads there: each value is the named field, or the item at that place counted from 0, of the one before. |
| Paths.NavigationFailsAtAStep | accelerator/shaping.go:114-139 | Navigation that finds nothing fails at the first step that has no such value, and with the error of that step. |
| Paths.EveryTextNavigates | accelerator/shaping.go:99-147 | For every text and value: a path that reads as steps is navigation by them; one that is malformed somewhere fails, at its malformed part or at a step before it. |
| Paths.RenderedPathNavigates | accelerator/shaping.go:99-147 | Writing any list of steps (names without `.` and `[`, the last not ending in white space, indexes within 64 bits) as a path and selecting by it is direct navigation, failures included. |
| Paths.SelectedPathIsNavigable | accelerator/shaping.go:99-147 | Any path that selects something reads as a list of steps, and what it selects is where those steps lead. |
| Paths.SelectJoined | accelerator/shaping.go:99-147 | For every trimmed head and every trimmed tail that begins a step, selecting by the joined path is selecting in two stages. |
| Paths.RedactionCommutesWithSelection | accelerator/shaping.go:30-39 | For a path that names no secret field, selecting from the redacted value is redacting the selected value, and the same paths fail. |
| Paths.SecretStopsNavigation | core/redaction.go:28-37 | Nothing below a secret field can be selected from a redacted value: the field itself is the marker and longer paths fail. |
| Shaping.SelectFields | accelerator/shaping.go:40-56 | The projection loop keeps exactly the fields asked for that exist, names trimmed and blank ones skipped. |
| Shaping.Shape | accelerator/shaping.go:30-97 | The staged code is the composition of its stages, with the error of the first stage that fails. |
| Shaping.BlankPathSelectsAll | accelerator/shaping.go:34-39 | A path that is blank or `$` selects everything, any other what the path language says. |
| Shaping.ProjectionKeepsWhatIsAsked | accelerator/shaping.go:40-56 | Asking for fields keeps of an object exactly those whose trimmed name is asked for, with their values, and refuses what is no object. |
| Shaping.ShapeShowsThePage | accelerator/shaping.go:57-97 | Of a selected list Shape shows item by item the page that begins at the offset and holds at most the limit, whole or as the first characters of its encoding, and hands on the redacted value. |
| Shaping.ShapeShowsTheRest | accelerator/shaping.go:70-97 | Anything selected that is no list is shown as it is, whole or as the first characters of its encoding. |
| Shaping.ShapeRefusesExactly | accelerator/shaping.go:30-82 | Short of a panic, Shape refuses if and only if the path or the projection fails, the offset is negative, paging is asked of what is no list, or the bound is outside 256 to 120,000. |
| Shaping.PagesJoin | accelerator/shaping.go:57-69 | Two pages, the second of which begins where the first ends, joined are the page of both limits. |
| Shaping.AllPagesAreTheList | accelerator/shaping.go:57-69 | Pages of one size, each beginning where the one before ends, joined until they are through, are the list: no item is missing, repeated or out of place. |
| Shaping.ShapeRevealsNoSecret | accelerator/shaping.go:30-97 | Two results that differ only in what redaction hides are shaped identically under every option, errors included. |
| Shaping.ShapeIsClean | accelerator/shaping.go:30-97 | What is shown and what is stored holds no secret; a preview is a proper prefix of the encoding, between the two bounds. |
| Shaping.ShapePanicsExactly | accelerator/shaping.go:57-69 | Shape panics if and only if a list was selected and the limit overflows a Go int once the offset, cut to the list, is added. |
| Shaping.LargeLimitPanics | accelerator/shaping.go:57-69 | A tool result with 1024 items or more under `structured_content.items`, asked for by that path from offset 1024 with the limit 2^63-1024, makes Shape panic, provided neither name is secret. |
| Receipts.ReceiptsAreWriteOnce | work/receipts.go:106-127 | Over any history of whole prepares and finalizes operation ids stay unique, a receipt stays bound to its tool and arguments, and a finished receipt never changes. |
| Receipts.LaterFinalizesAreAnswered | work/receipts.go:110-118 | After a first finalize and any history, an equal finalize returns the stored receipt and a different one is refused, both without effect. |
| Receipts.LaterPreparesFindTheFirst | work/receipts.go:49-62 | After a prepare and any history, preparing the same operation id returns the first receipt for the same tool and arguments, is a conflict otherwise, and never adds a row. |
| Receipts.PrepareAnswersExactly | work/receipts.go:24-94 | Every prepare is answered by the first that applies: no operation id for a mutation, malformed, already there with the same or other tool and arguments, a task other than the step's, a missing step or task, or fresh. |
| Receipts.FreshPrepareRecords | work/receipts.go:64-85 | A fresh prepare adds one row with what the request says, under its trimmed or generated operation id, for its step's task or without a step the task named, and nothing reported yet. |
| Receipts.PolicyExactly | work/receipts.go:183-199 | Safe to repeat is said exactly of what is no mutation, do not replay exactly of mutations confirmed and returned, a retry by decision exactly of mutations confirmed and failed. |
| Checkpoints.ChainIsNumbered | work/checkpoints.go:49-58 | In a chained table the checkpoints of each task are numbered 1..n, each names the one before it as its parent, and the first has none. |
| Checkpoints.StaleInsertIsRefused | work/db.go:118-138 | An insert computed from a reading that another writer has overtaken violates the UNIQUE constraint, however old the reading. |
| Checkpoints.InsertNeedsFreshReading | work/checkpoints.go:49-101 | An insert is accepted if and only if the reading it is based on is still the latest, and then the chain grows by its successor. |
| ProtocolInvariants.StatementIsSound | accelerator/runtime.go:136-213 | Every statement of every execution keeps it well formed and one step further along the script receipt, before-checkpoint, delivery, finalize, outcome checkpoint. |
| ProtocolInvariants.ReachableStatesKeepInv | accelerator/runtime.go:136-213 | In every state reached by any interleaving, with crashes, executions follow their scripts, receipts and their authors correspond one to one, rows say what the log says, and checkpoints are chained. |
| ProtocolSafety.WriteAheadOrder | accelerator/runtime.go:138-207 | At every moment what a call has done is a prefix of one script: receipt insert, `mutation.before` checkpoint, upstream call, finalize, outcome checkpoint. |
| ProtocolSafety.CheckpointsNameTheirReceipt | work/checkpoints.go:17-24 | Every checkpoint event in the log is a row of the receipt's own task that names the event and the receipt. |
| ProtocolSafety.AtMostOneSendPerOperation | accelerator/runtime.go:136-157 | However many calls, batches, retries and crashes interleave at single statements, no two upstream calls are ever made for the same operation id. |
| ProtocolSafety.DeduplicatedCallsDoNothing | accelerator/runtime.go:142-147 | A call or prepare that holds no receipt, because it was refused or answered from an existing one, has changed no table in any of its steps of the run, and has sent nothing. |
| ProtocolSafety.DeliveryStateIsTruthful | accelerator/runtime.go:157-199 | A receipt finished by its own call is confirmed exactly when a reply came back, unknown exactly when the request was sent and none came, and prepared/failed exactly when it was never sent. |
| ProtocolSafety.SentMutationsAreNeverSafeToRepeat | work/receipts.go:183-199 | A mutation that was sent has the policy do-not-replay when its reply is recorded and verify-before-any-retry in every other case, unfinished receipts included. |
| ProtocolSafety.StoredResultsAreProper | work/results.go:13-53 | In every reachable state every stored result is within 1,000,000 characters and names an existing receipt and that receipt's task. |
| ProtocolSafety.CheckpointsFormChains | work/checkpoints.go:26-107 | Under any statement-level interleaving of checkpoint writers every task's checkpoints are one chain numbered 1..n. |
| ProtocolSafety.HistoryOnlyGrows | work/db.go:118-138 | No later history changes a checkpoint, what a receipt is bound to, or an entry of the log. |
| ProtocolSafety.FinishedReceiptChangesOnlyByRace | work/receipts.go:106-120 | One action changes a finished receipt if and only if it is the write of a finalizer that had read the receipt unfinished and brings another outcome. |
| ProtocolSafety.FinishedForGoodExactly | work/receipts.go:106-120 | Over all runs of single statements: a finished receipt never changes again if and only if no finalizer that had read it unfinished still has to write another outcome. |
| ProtocolSafety.OneFinalizerWritesOnce | work/receipts.go:106-120 | If no two executions of a run finalize a receipt, then once finished it stays as it is, whatever else interleaves. |
| ProtocolSafety.OverwritingTakesASecondFinalizer | work/receipts.go:106-120 | A finished receipt is overwritten only when someone besides its own call finalizes it. |
| ProtocolSafety.FinishedReceiptsCanBeOverwritten | work/receipts.go:106-120 | From every state with an unfinished receipt, and for any two outcomes, some run finishes the receipt with the first and then overwrites it with the second. |
| ProtocolMeanings.EventsTellWhatHappened | accelerator/runtime.go:157-207 | In every run the checkpoints of a call say failed before delivery exactly when it never sent, delivery unknown exactly when it sent and no reply came, and after exactly when a reply came. |
| ProtocolMeanings.FinalizersNoteWhatIsReported | accelerator/runtime.go:350-357 | In every run the checkpoint of an outcome reported from outside says delivery unknown exactly when that was reported, and after otherwise. |
| ProtocolMeanings.ReceiptsRecordTheirRequests | work/receipts.go:64-85 | In every reachable state a receipt holds the operation id, tool, arguments, mutation flag and step of the request that made it, and belongs to its step's task, or without a step to the task named. |
| ProtocolMeanings.ResultReferencesLeadHome | accelerator/runtime.go:190-199 | In every run the result a receipt refers to, if only its own call finalized it, was stored for that receipt. |
| ProtocolMeanings.AnswersAreTruthful | accelerator/runtime.go:157-213 | In every run what a caller is told is what happened: not sent, no reply, not shaped or shown; and then the receipt was finished so, the checkpoint after the call is there if due, and the result is stored if asked for or cut. |
| ProtocolMeanings.ErrorsAreTruthful | accelerator/runtime.go:136-213 | In every run an error is told only before anything was sent, after a reply came, or because someone else had finalized the receipt; an error that comes without a receipt means that nothing was done. |
| ProtocolMeanings.DeduplicationIsOfTheSame | accelerator/runtime.go:142-147 | In every run a request answered "deduplicated" is answered from a receipt with its own operation id, tool and arguments. |
| ProtocolMeanings.LateFinalizeIsTold | accelerator/runtime.go:182-202 | A call that finds its receipt finished leaves it as it is, and ends with an error exactly when another outcome is there, unless its reply could not be shaped: that is told all the same. |
| ProtocolFates.NoteIsWrittenExactly | work/checkpoints.go:49-101 | A call about to insert a checkpoint inserts it if and only if no other writer has extended the task's chain since it was read; otherwise it writes nothing and takes its error branch. |
| ProtocolFates.StatementLeaves | accelerator/runtime.go:151-207 | Each statement of a running call stops it short, dooms its outcome checkpoint, notes the outcome or finishes the receipt exactly as what befalls it there says. |
| ProtocolFates.FateOfACall | accelerator/runtime.go:136-213 | In every reachable state, what has befallen a call in the run decides where it can be, whether it has noted its outcome and whether its receipt is finished. |
| ProtocolFates.ReceiptIsUnfinishedExactly | accelerator/runtime.go:151-202 | In every reachable state a call's receipt is unfinished if and only if no one else finalized it and the call is still on its way (perhaps crashed there) or was stopped short: its first checkpoint did not fit or lost a race, shaping panicked, or the store refused the reply. |
| ProtocolFates.StoppedForGood | accelerator/runtime.go:151-202 | Whatever runs later, the receipt of a call stopped short is finished if and only if someone else finalizes it. |
| ProtocolFates.OutcomeIsOffRecordExactly | accelerator/runtime.go:151-207 | In every reachable state no checkpoint tells the outcome of a mutation that belongs to a task if and only if no one else noted one and the call has not ended, or a checkpoint of it did not fit or lost a race, its reply could not be shaped or stored, or its receipt was finished elsewhere with another outcome. |
| ProtocolRaces.AnyReaderCanBeOvertaken | work/checkpoints.go:49-101 | From every state in which a writer is about to extend a chain, one other writer of the task can make it fail, and nothing is added but that writer's row. |
| ProtocolRaces.MutationsCanRace | accelerator/runtime.go:142-155 | From every state with two new mutations of one task, a run makes one fail before it is sent, leaves its receipt unfinished and answers a retry of it as deduplicated. |
| ProtocolRaces.RaceFromNothing | accelerator/runtime.go:142-155 | The same from empty tables, for any two operation ids. |
| Calls.StatementsRunOut | accelerator/runtime.go:136-213 | Each statement brings its execution nearer to its end, so every execution ends. |
| Calls.PredictionStands | accelerator/runtime.go:136-213 | A step of a read-only call nobody disturbs does not change the answer it is going to give. |
| Bridge.CompletionIsASchedule | accelerator/runtime.go:136-213 | Running an execution to its end without interruption is one schedule of the step machine. |
| Bridge.Runtime.ReceiptPrepare | work/receipts.go:24-94 | The code over the mutable table is the prepare the receipt theorems are about, for fresh, repeated, conflicting and malformed requests. |
| Bridge.Runtime.ReceiptFinalize | work/receipts.go:96-128 | The code over the mutable table is the finalize the receipt theorems are about. |
| Bridge.Runtime.CheckpointCreateEvent | work/checkpoints.go:17-107 | Alone, a writer is refused for a missing task, or when a step column exceeds 20,000 characters; otherwise it appends the successor of the latest checkpoint and keeps the table chained. |
| Bridge.Runtime.ResultStore | work/results.go:13-53 | A value whose redacted encoding is within 1,000,000 characters is appended, free of secrets, with its receipt and that receipt's task, or the one given, and its reference returned; a larger one, a missing task or a missing receipt changes nothing. |
| Bridge.CompleteOfDelivery | accelerator/runtime.go:157-198 | From the connect step on, the machine comes to finalizing with the one ending the upstream, the shaping and the store determine, or it ends at the panic or at the store's error. |
| Bridge.Runtime.NoteBefore | accelerator/runtime.go:151-155 | The `mutation.before` checkpoint takes the machine to its connect step exactly when the task's steps fit, and to the refusal otherwise. |
| Bridge.Runtime.Deliver | accelerator/runtime.go:157-198 | The code of call, classification, shaping by `Shape` under the call's options, and storing has exactly that ending, panics exactly when Shape does, and stores exactly that result. |
| Bridge.Runtime.Proceed | accelerator/runtime.go:151-207 | From the fresh receipt on, checkpoint, delivery, finalize and outcome checkpoint are the machine's execution run to its end. |
| Bridge.Runtime.ExecuteResolved | accelerator/runtime.go:136-213 | The code leaves the tables and gives the reply of the step machine's execution run from start to end by itself, for every request, every reply, all options of Shape and every state of the tables, refused checkpoints and panics included. |
| Bridge.Runtime.PrepareExternal | accelerator/runtime.go:325-338 | The code of `receipt.prepare` is the step machine's prepare run from start to end by itself, for every request and every state of the tables. |
| Bridge.Runtime.FinalizeExternal | accelerator/runtime.go:340-360 | The code of `receipt.finalize` is the step machine's finalize run from start to end by itself, repeated and refused reports and checkpoints that cannot be written included. |
| Outcomes.FreshCallLeaves | accelerator/runtime.go:136-213 | Every table and the reply after a call with a new operation id that runs by itself, in closed form: receipt, checkpoints and stored result for each way it can end, panic included. |
| Outcomes.LoneCallExactly | accelerator/runtime.go:136-213 | A call with a new operation id that is let through, told by what its upstream answers and what Shape makes of that: what the caller is told, how the receipt ends, what is stored, and which checkpoints are added with which events. |
| Outcomes.LonePrepareExactly | accelerator/runtime.go:325-338 | A receipt prepared from outside is ready with its recorded row and, for a mutation of a task, its checkpoint before the call; if that does not fit only the open receipt is left; repeated and refused requests change nothing. |
| Outcomes.LoneFinalizeExactly | accelerator/runtime.go:340-360 | An outcome reported from outside is refused for a missing receipt or one finished otherwise; else the receipt has it, and only a mutation of a task gets one more checkpoint, which says delivery unknown exactly when that was reported, if it fits. |
| Outcomes.ReceiptStaysUnfinishedExactly | accelerator/runtime.go:151-202 | Run by itself, such a call leaves its receipt unfinished if and only if its first checkpoint does not fit, Shape panics on its reply under its options, or the reply is to be stored and too large. |
| Outcomes.OutcomeCheckpointMissingExactly | accelerator/runtime.go:151-207 | Run by itself, a mutation that belongs to a task leaves no outcome checkpoint if and only if its first checkpoint does not fit, Shape panics on its reply or refuses it, or the reply is to be stored and too large. |
| Outcomes.PanickedAndUnfinished | accelerator/runtime.go:181-183 | A mutation that is let through and whose reply lists 1024 items, shaped from offset 1024 with the limit 2^63-1024: sent and answered, no reply to the caller, receipt unfinished, policy verify before any retry. |
| Outcomes.RepliedAndUnfinished | accelerator/runtime.go:190-195 | A reply too large to be stored: the caller gets an error, the receipt stays open, and its policy is verify before any retry. |
| Outcomes.ConfirmedAndUnnoted | accelerator/runtime.go:182-189 | A reply that cannot be shaped: the receipt is confirmed and the only checkpoint is the one before the call. |
| Outcomes.RefusedBeforeSending | accelerator/runtime.go:151-155 | A call whose checkpoint does not fit is not sent and leaves nothing but its open receipt. |
| Outcomes.SuchCallsExist | work/checkpoints.go:68-79 | A mutation on a task with n steps to do is let through if and only if n is at most 740. |
| Admission.CheckTools | accelerator/runtime.go:256-264 | The loop over the calls gives every slot's request filled in from its call and the batch, or the refusal of the first call that may not run. |
| Admission.Admit | accelerator/runtime.go:215-291 | Exactly one verdict for every batch: malformed, unresolved, the first tool that is missing or mutates in parallel, a bad width, or admitted with every slot's request. |
| Admission.SomeUnfitMeansFirstUnfit | accelerator/runtime.go:256-264 | Whenever some tool may not run there is a first one, so the verdicts above leave no gap. |
| Admission.AdmissibleExactly | accelerator/runtime.go:215-291 | A batch is let in if and only if it has 1 to 8 calls that all name a tool, every tool is listed, and to run in parallel, which is the default, every tool is read-only, the width is 1 to 4 and it does not ask to stop on errors. |
| Admission.SlotsAreAsAsked | accelerator/runtime.go:234-251 | A slot's request has the call's own operation id, tool and arguments, and its own task and step where it names them; only where it does not the batch's stand in; it is a mutation unless its tool is listed as read-only. |
| Admission.AdmittedBatchIsAPlan | accelerator/runtime.go:215-291 | An admitted parallel batch has the sizes and read-only tools that bounded fan-out needs, and what the refinement needs besides if and only if its operation ids differ. |
| Admission.ParallelCallsAreListedReadOnly | accelerator/runtime.go:256-264 | At any point of any schedule, every call a parallel batch runs is of a tool that some route of the gateway lists as read-only. |
| Batch.ActionKeepsFanInv | accelerator/runtime.go:292-317 | Every step of a worker and every step of anything else keeps permits equal to the workers holding one, each worker on its own call and on no other's, and slots empty until collected. |
| Batch.FanOutIsBounded | accelerator/runtime.go:288-306 | For every admitted batch, repeated or used operation ids included, and every schedule, the permits in use are exactly the workers that hold one, and never more than the concurrency, which is at most 4. |
| Batch.BatchCallsAreReadOnly | accelerator/runtime.go:256-264 | For every admitted batch and schedule, each execution the batch runs is its own slot's call, and no mutation. |
| Batch.BatchNeverDeadlocks | accelerator/runtime.go:292-318 | At any point of any schedule of an admitted batch, until every worker has exited some worker can move without the rest of the bridge or a cancellation. |
| Batch.BatchStepsRunOut | accelerator/runtime.go:292-318 | Each step of the batch itself brings it nearer to its end. |
| Batch.ScheduleIsBounded | accelerator/runtime.go:292-318 | Every schedule, however long and whatever else runs in between, has at most 17 steps of the batch per slot. |
| Batch.SlotIsWrittenOnce | accelerator/runtime.go:315-317 | In every schedule a slot changes only when its own worker stores its result, and only from empty. |
| Batch.SlotHoldsItsReply | accelerator/runtime.go:306-316 | For every batch and schedule, repeated operation ids included, what is in a slot is the reply that the slot's own execution ended with, and neither an error nor a panic. |
| Batch.FatalIsTheFirst | accelerator/runtime.go:295-321 | For every batch and schedule, what is fatal to the batch is what the first worker that was cancelled, got an error or panicked had to report, and nothing if there is no such worker. |
| Batch.PermitsComeBack | accelerator/runtime.go:306-321 | When every worker has exited all permits are back, and without a fatal error every slot is filled, whatever else ran. |
| BatchAnswers.ActionKeepsBatchInv | accelerator/runtime.go:292-317 | With new and distinct operation ids that nobody else uses, every step keeps each slot's answer on course; others may create tasks and steps if every slot's owner is there already. |
| BatchAnswers.ParallelBatchAnswers | accelerator/runtime.go:292-322 | Then, without a fatal error, every slot holds the answer its own request gets by itself, whatever the schedule. |
| Sequential.RunSequential | accelerator/runtime.go:266-281 | The loop over the code computes the transcript: results in order, stopped by a fatal error, a panic or, on request, after the first result that is not ok. |
| Sequential.LoneCallIsOkExactly | accelerator/runtime.go:142-213 | A new call by itself is ok if and only if a reply came back that could be shaped and, if it was to be stored, was not too large; one answered from an earlier receipt is ok. |
| Sequential.StopOnErrorCutsShort | accelerator/runtime.go:268-279 | stop_on_error changes nothing up to the first result that is not ok and cuts the run right after it. |
| Sequential.FreshCallAnswers | accelerator/runtime.go:136-213 | A read-only call with an unused operation id, run alone, gives the expected answer and touches no other operation's receipts. |
| Sequential.SequentialBatchAnswers | accelerator/runtime.go:266-281 | The sequential loop over a read-only batch answers every slot as expected, or ends in the fatal error or panic that is due. |
| Sequential.ParallelRefinesSequential | accelerator/runtime.go:266-322 | Every schedule of a parallel batch that ends without a fatal error gives, slot by slot, the same answers and ok flags as the sequential loop from the same tables. |
| WorkRuns.ApplyAdvances | work/db.go:338-348 | Every Work operation keeps the foreign keys and the checkpoint chain, never lowers a revision, raises it whenever the editable fields, steps or artifacts of the task change, and leaves terminal states alone. |
| WorkRuns.RevisionFreezesWork | work/tasks.go:120 | Between any two moments of a history a task's revision never goes back, and when it is the same the fields, steps and artifacts are the same. |
| WorkRuns.TerminalStatesAreFinal | work/common.go:31-39 | Once done, failed or cancelled, a task keeps its status in every continuation. |
| WorkRuns.WorkCheckpointsFormChains | work/checkpoints.go:49-98 | In every history the checkpoints of each task are one chain numbered 1..n and no existing checkpoint changes. |
| WorkRuns.VerdictsComeFromEvaluation | work/audits.go:98-169 | Only its own evaluation changes an audit, and PASS takes at least one check, every check proven by admitted evidence equal to what was expected, and the current revision. |
| WorkRuns.AuditWasCreated | work/audits.go:32-46 | Every audit in the tables was created by one operation of the history, for the revision its task then had. |
| WorkRuns.PassWasEvaluated | work/audits.go:98-169 | An audit that reads PASS got it from its last evaluation, which found every one of its checks proven. |
| WorkRuns.LatestAuditIsTheLatest | work/tasks.go:160 | The query finds an audit if and only if it is the task's and none of the task's was created later, or at the same time and further down the table; and none if and only if the task has none. |
| WorkRuns.CompletionExactly | work/tasks.go:156-167 | Completing a task is let through if and only if it is in auditing and, where an audit is required, its latest audit reads PASS and was created for the revision the task has. |
| WorkRuns.AuditGate | work/tasks.go:159-167 | When an audit-required task is completed, no audit of it is later than the deciding one, and that one passed every one of its checks, at least one, at its last evaluation, and the task's fields, steps and artifacts are those it had when that audit was created. |
| WorkRuns.ReachableTablesAreOrderly | work/tasks.go:168-175 | In every reachable state completed means done, the current step is a step of the same task, step positions are positive and distinct, and no audit is ahead of its task. |
| WorkRuns.StaleMeansChanged | work/audits.go:137 | An audit's revision differs from its task's if and only if the task has moved past it. |
| WorkRuns.StalenessIsPermanent | work/audits.go:137-150 | In every continuation a stale audit stays stale, evaluates only to UNCERTAIN, and while no audit of its task is later never lets the task be completed. |
| WorkRuns.RefusedAuditsStay | work/audits.go:42-62 | audit.create is refused if and only if some check is unacceptable, and then leaves the audit with exactly the checks in front of the first such one. |
| WorkRuns.PassOutlivesItsEvidence | work/audits.go:86-87 | An audit that passed keeps reading PASS until it is evaluated again, while its checks all still pass if and only if nothing was recorded for it since. |
| WorkLimits.PassWithUncertainCheck | work/audits.go:86-87 | After creating a task and an audit, recording what is expected, evaluating, and recording something else, the audit reads PASS and its only check is UNCERTAIN. |
| WorkLimits.StorableMeansFits | work/checkpoints.go:35-91 | A checkpoint is stored if and only if its remarks are within 20,000 characters and so are the lists of its task's steps, which only their numbers decide. |
| WorkLimits.RefusalsThatStay | work/tasks.go:259-283 | Over all operations: one is refused and yet changes the tables if and only if it creates an audit with an unacceptable check, or completes a step, finalizes an artifact or gives a new verdict whose checkpoint does not fit. |
| WorkLimits.CompletedStepStaysWithoutItsCheckpoint | work/tasks.go:279-283 | Completing the last of 742 steps or more, the others still to do, is refused; the step is done and there is no checkpoint. |
| WorkMeanings.CreatedTask | work/tasks.go:10-44 | A created task has what was given, its title trimmed and its priority normal by default, is pending at revision 1 and has no current step; a blank title, too much metadata and a missing project are refused in that order. |
| WorkMeanings.UpdatedTask | work/tasks.go:95-140 | An update sets each column that is given to what is given and no other, raises the revision by one, and leaves status, current step and every other row alone. |
| WorkMeanings.UpdateRefusedExactly | work/tasks.go:95-134 | An update is refused if and only if a field is unknown or the metadata too long, the task is missing, or the project given is. |
| WorkMeanings.MovedTask | work/tasks.go:142-181 | A task is moved if and only if the move is one of the eleven there are and, to done, the audit gate is open; only its status and whether it is completed change. |
| WorkMeanings.NotedCheckpoint | work/checkpoints.go:26-107 | A checkpoint is written if and only if its task is there and its columns fit; it shows the task's current step, status and revision as they are, files its steps by status, and holds the remarks, action, audit and event given. |
| WorkMeanings.IdListText | work/checkpoints.go:68-79 | The length by which a step column is measured is that of the JSON array of that many step ids. |
| WorkMeanings.FitsExactly | work/checkpoints.go:68-79 | The step columns fit if and only if at most 740 of the task's steps are done or skipped, at most 740 to do or doing, and at most 740 blocked. |
| WorkMeanings.StepsFitExactly | work/checkpoints.go:35-79 | The same of the steps table: a checkpoint of a task fits if and only if each of its three lists would hold at most 740 of the task's steps. |
| WorkMeanings.AddedStep | work/tasks.go:183-222 | A step is added at the free place asked for, or by default right behind every other step of its task; a blank title, a missing task and a place that is taken or below 1 are refused without effect. |
| WorkMeanings.StepUpdateWithoutEffect | work/tasks.go:231-265 | An update of a missing step, of nothing, of something unknown or to a taken place changes nothing and is answered so. |
| WorkMeanings.UpdatedStep | work/tasks.go:246-284 | Any other update sets the columns given, completes the step exactly when it is then done, failed or skipped, raises the revision, makes a step that is doing the current one, and notes a step that is done, if the checkpoint fits. |
| WorkMeanings.CreatedAudit | work/audits.go:32-64 | A created audit is UNCERTAIN and for the revision its task has; it gets the checks asked for, without evidence, in order up to the first with a blank name or too long an expectation. |
| WorkMeanings.RecordedEvidence | work/audits.go:66-96 | Recording sets one check's evidence and its kind, unsets its mark and changes nothing else; unknown kinds, checks of other audits and too long evidence are refused. |
| WorkMeanings.EvaluatedAudit | work/audits.go:98-169 | A check is marked PASS exactly when there is admitted evidence equal to what was expected and FAIL exactly when admitted evidence differs; the audit fails exactly when the task has not moved on and some check is refuted, passes exactly when it has not and every check is proven, at least one; a verdict completes it and is noted, if the checkpoint fits. |
| WorkMeanings.RegisteredArtifact | work/artifacts.go:10-71 | A registered artifact is a draft of the task named and of the project named or else the task's, declared and of kind other by default; a verified one needs a reference; its task's revision goes up by one. |
| WorkMeanings.MovedArtifact | work/artifacts.go:122-155 | Draft goes to final or archived, final to archived, and nothing else; the task's revision goes up by one, and finalizing is noted, if the checkpoint fits. |
| WorkMeanings.CompletedInEveryState | work/tasks.go:252-258 | In every reachable state a step is completed exactly when it is done, failed or skipped, and an audit exactly when it has a verdict. |
| WorkRuns.CheckpointFilesSteps | work/checkpoints.go:35-48 | In every reachable state a checkpoint's three lists hold the task's own steps by status, failed ones in none, each in order of position. |
| WorkRuntime.Runtime.Dispatch | work/runtime.go:24 | Every operation on the mutable tables leaves the tables and gives the reply of the operation the run theorems are about, and keeps the tables consistent. |
| WorkRuntime.Runtime.Replay | work/runtime.go:24 | A whole history on the mutable tables ends in the state the run theorems speak of. |
| WorkRuntime.Runtime.TouchTaskRevision | work/db.go:338-348 | One task's revision goes up by one and nothing else changes, or the task is missing. |
| WorkRuntime.Runtime.TaskCreate | work/tasks.go:10-44 | The code does what the task-creation operation does, defaults and refusals included. |
| WorkRuntime.Runtime.TaskUpdate | work/tasks.go:95-140 | The code sets exactly the fields given and raises the revision once, or refuses without effect. |
| WorkRuntime.Runtime.TaskTransition | work/tasks.go:142-181 | The code moves a task along the transition table, behind the audit gate on the latest audit, without touching its revision. |
| WorkRuntime.Runtime.TaskStepAdd | work/tasks.go:183-222 | The code appends a step at the position given or after the last, refuses a taken position, and raises the revision. |
| WorkRuntime.Runtime.TaskStepUpdate | work/tasks.go:224-285 | The code replaces the step, raises the revision, sets the current step when it starts and writes a checkpoint when it is done. |
| WorkRuntime.Runtime.FileSteps | work/checkpoints.go:35-48 | One pass over the ordered steps collects the completed, pending and blocked ids. |
| WorkRuntime.Runtime.CheckpointCreateDB | work/checkpoints.go:26-107 | The code appends the successor of the task's latest checkpoint with its snapshot, or refuses a missing task or an oversized column without effect. |
| WorkRuntime.Runtime.AuditCreate | work/audits.go:32-64 | The loop stores checks up to the first unacceptable one, and the audit in any case. |
| WorkRuntime.Runtime.AuditRecord | work/audits.go:66-96 | The code replaces a check's evidence, unsets its mark and leaves its audit. |
| WorkRuntime.Runtime.JudgeChecks | work/audits.go:116-136 | One pass marks every check of the audit on its evidence, leaves the others, and collects which marks occur. |
| WorkRuntime.Runtime.Overall | work/audits.go:137-150 | The loop that may break early gives UNCERTAIN for a stale or empty audit, else FAIL if any, else UNCERTAIN if any, else PASS. |
| WorkRuntime.Runtime.AuditEvaluate | work/audits.go:98-169 | The code is the evaluation the audit theorems are about, checkpoint included. |
| WorkRuntime.Runtime.ArtifactRegister | work/artifacts.go:10-71 | The code adds a draft artifact, takes the project of its task when none is given, and raises the task's revision; a verified artifact needs evidence. |
| WorkRuntime.Runtime.ArtifactState | work/artifacts.go:122-155 | The code moves draft to final or archived and final to archived, raises the revision, and writes a checkpoint on finalizing. |
| Query.OrderBySorts | work/tasks.go:56 | A filtered, ordered selection is in order, hence without duplicates. |
| Capsule.ScanSteps | work/resume_capsule.go:36-52 | The single pass yields the current step, the unsettled steps and the counts by status that their definitions ask for. |
| Capsule.ScanReceipts | work/resume_capsule.go:70-90 | The single pass yields the latest success and failure and the doubtful and unrepeatable receipts. |
| Capsule.FreshArtifacts | work/resume_capsule.go:27 | The task's artifacts, latest update first, all of them or 20 than which none left out is later. |
| Capsule.ChooseNextAction | work/resume_capsule.go:57-68 | The next action is the latest checkpoint's, or else to continue with the current step, or none. |
| Capsule.ResumeCapsule | work/resume_capsule.go:5-125 | There is a capsule exactly for an existing task, and every part of it is as described: steps, counts, receipts, checkpoint, audit, artifacts and next action. |
| Capsule.CapsuleShowsTheCurrentStep | work/resume_capsule.go:39-52 | In every reachable state the capsule's step is the one the task names, a step of its own; otherwise the open step of least position; otherwise none is open. |
| Capsule.CapsuleTellsTheState | work/resume_capsule.go:36-68 | In every reachable state the capsule counts the task's steps, all and by status, lists the first 12 in order of position that are neither done nor skipped, names the latest audit and the last checkpoint, and says next what that checkpoint says or else to continue with the step shown. |
| Capsule.FinishedStepIsShown | work/resume_capsule.go:39-52 | After the first of several steps was started and finished, the capsule shows that step, though others are open. |
| Capsule.NewestAreTheNewest | work/resume_capsule.go:31 | The receipts considered are the newest of the task: all of them, or 20 that are newer than all the rest. |
| Capsule.CapsuleShowsTheNewestOutcomes | work/resume_capsule.go:70-96 | Among those receipts, the last success is the newest confirmed and returned, the last failure the newest failed, and the uncertain ones are, newest first, those whose delivery is unknown or only prepared, all of them unless 8 newer ones are listed. |
| Capsule.DoNotReplayListsTheNewestMutations | work/resume_capsule.go:84-96 | do_not_replay is, newest first, exactly the mutations among those receipts, all of them unless 12 newer ones are listed. |
| Catalog.RouteSlug | shared_mcp/runtime.go:238-249 | The slug of an endpoint is never empty and holds no slash. |
| Catalog.SlugIsTheLastSegment | shared_mcp/runtime.go:238-249 | An endpoint that ends in `/mcp/` and one segment has that segment as its slug. |
| Catalog.SlugExactly | shared_mcp/runtime.go:238-249 | The slug is the one segment behind the last `/mcp/`, whatever slashes are around it; without such a segment it is `route`. |
| Catalog.CollectTools | shared_mcp/runtime.go:292-306 | The loop over one route's listing appends its named tools and keeps the tally of upstream names. |
| Catalog.Collect | shared_mcp/runtime.go:283-309 | The first pass gathers the named tools of the routes that answer, the failures, and how often each name occurs. |
| Catalog.NameTools | shared_mcp/runtime.go:310-327 | The second pass names every tool canonically, and fails if and only if two names collide. |
| Catalog.BuildCatalog | shared_mcp/runtime.go:276-328 | The two passes compute the catalog the theorems below are about. |
| Catalog.CandidatesInOrder | shared_mcp/runtime.go:283-309 | The tools that are named are exactly the items with a name on the routes that answered, each once for every time it is listed, in the order of routes and items. |
| Catalog.EntriesExactly | shared_mcp/runtime.go:310-327 | An entry keeps its upstream name exactly when no other listed tool has it, otherwise the slug of its route and two underscores go before it; owner, route, upstream name and flag are those of its listing. |
| Catalog.FailuresExactly | shared_mcp/runtime.go:283-291 | The failed endpoints are those of the routes that did not answer. |
| Catalog.CatalogIsABijection | shared_mcp/runtime.go:291-327 | Canonical names are pairwise distinct, and entries and named tools of answering routes correspond one to one. |
| Catalog.CatalogFailsExactly | shared_mcp/runtime.go:307-321 | There is no catalog if and only if no route answers or two listed tools get the same canonical name. |
| Catalog.RouteOrderDoesNotMatter | shared_mcp/runtime.go:276-328 | The same routes in any order give the same entries and failures, or the same error. |
| Resolution.Pick | shared_mcp/runtime.go:419-425 | The loop resolves exactly the wanted names that the catalog offers, each to its entry. |
| Resolution.ResolveTools | shared_mcp/runtime.go:406-430 | Catalog errors first, then invalid names, then unavailable if a wanted name is missing while a route failed, else everything offered; comparing sizes decides it rightly. |
| Resolution.ResolvedExactly | shared_mcp/runtime.go:406-430 | Resolving any list of names fails with the catalog, or for a blank or too long name, or because a wanted tool is not listed while a route did not answer; otherwise it finds exactly the wanted names that are canonical names of listed tools, each as it is listed. |
| Resolution.CallTool | shared_mcp/runtime.go:394-453 | A call by name is refused, or leaves for the owner of the resolved entry under its upstream name. |
| Resolution.DeniedOrUnavailable | shared_mcp/runtime.go:394-430 | For an unpadded valid name: denied if and only if all routes answered and none offers it; unavailable if and only if a route that might have it did not answer; reached if and only if it is offered. |
| Resolution.PaddedNamesAreDenied | shared_mcp/runtime.go:411-430 | A name padded with white space is never reached: it is unavailable when its trimmed form is missing while a route failed, and denied otherwise. |
| Resolution.PaddingDenies | shared_mcp/runtime.go:394-430 | A tool in the catalog is reached by its name and denied by the same name with a blank in front. |
| Resolution.CallsReachTheLister | shared_mcp/runtime.go:432-453 | A call let through goes to a route that listed a tool of that upstream name with the same read-only flag. |
| Resolution.EveryListedToolIsCallable | shared_mcp/runtime.go:394-453 | A listed tool is reached by its canonical name, at the route that listed it, if and only if that name is unpadded and at most 256 long. |
| Registry.EnabledIsClosed | capabilities/registry.go:71-92 | In a valid selection every direct or indirect dependency of an enabled module is registered and enabled. |
| Registry.RegisterKeepsDisjoint | capabilities/registry.go:31-69 | Appending a module keeps ids and tools disjoint and proper if and only if Register accepts it. |
| Registry.AcceptedExactly | capabilities/registry.go:31-69 | A module is accepted if and only if it has an id and tools, all named and distinct, and shares neither with a registered one; it is invalid exactly when id, tools or the first bad tool name is missing, and a collision otherwise. |
| Registry.EnabledInOrder | capabilities/registry.go:94-119 | The enabled modules are, in order of registration, the registered ones that are selected, or all of them when nothing is selected. |
| Registry.ToolsOfMore | capabilities/registry.go:139-145 | Tools are listed module by module. |
| Registry.ExpectedExactly | capabilities/registry.go:94-145 | A tool is expected if and only if a registered module that is selected, or any when nothing is selected, declares it. |
| Registry.SelectionValidExactly | capabilities/registry.go:71-92 | A selection is valid if and only if all it names is registered, every dependency is, and what is selected depends on what is selected. |
| Registry.ProblemExactly | capabilities/registry.go:81-90 | A dependency is invalid when it is not registered, and missing when it is not selected though its module is. |
| Registry.Registry.ModuleIsEnabled | capabilities/registry.go:94-109 | The two loops find a registered module enabled without selectors, and else exactly the selected ones. |
| Registry.Registry.Register | capabilities/registry.go:31-69 | The code accepts or refuses as specified, with the first fault, and appends only what it accepts. |
| Registry.Registry.FindCollision | capabilities/registry.go:48-61 | The nested loops find a collision if and only if the module shares its id or a tool with a registered one. |
| Registry.Registry.ValidateSelection | capabilities/registry.go:71-92 | No fault if and only if the selection is valid; otherwise an unknown selector, or the fault of the first offending dependency. |
| Registry.Registry.EnabledModules | capabilities/registry.go:94-119 | The enabled modules in order of registration. |
| Registry.Registry.ExpectedTools | capabilities/registry.go:139-145 | The tools of the enabled modules in order. |
| Registry.Registry.SurfaceAudit | capabilities/registry.go:178-213 | Missing and orphan tools are the two set differences, and the surface is consistent if and only if both sets are the same. |
| Mounting.RegisteredExactly | server/adapters.go:113-164 | Registration succeeds if and only if every adapter is proper and no two share an id or a tool, and then the modules are the adapters' in order. |
| Mounting.FirstFaultIsReported | server/adapters.go:120-161 | The fault reported is that of the first adapter that has one. |
| Mounting.AdapterFaultExactly | server/adapters.go:120-160 | An adapter is invalid exactly when it is nil or not identified, or its tools and operations do not match one to one; any other fault is a collision. |
| Mounting.MountableExactly | server/app.go:51-57 | Building goes through if and only if the adapters are well formed and share no id and no tool, what is selected is provided, every dependency is, and what is selected depends on what is selected. |
| Mounting.ExposedExactly | server/app.go:59-73 | A tool is exposed if and only if an adapter that is selected, or any when nothing is selected, has it. |
| Mounting.Capabilities.BindTools | server/adapters.go:133-147 | The loop binds every tool to its own adapter's operation and definition, touches no other name, and fails if and only if a tool is unnamed, repeated or unbound. |
| Mounting.Capabilities.RegisterAdapter | server/adapters.go:120-161 | One adapter is registered or refused with the right fault; the tables change at its own names only. |
| Mounting.Capabilities.RegisterAdapters | server/adapters.go:113-164 | On success every tool of every adapter is bound to its own adapter, although the tables are written before collisions are checked. |
| Mounting.Capabilities.Expose | server/app.go:59-73 | The mounting loops expose exactly the tools of the enabled modules and never miss a definition or an operation. |
| Mounting.Capabilities.Build | server/app.go:39-79 | A build succeeds if and only if registration and selection are valid, never for a surface mismatch, and exposes exactly the tools of the enabled modules, none twice, each with its own enabled adapter's operation. |
| Affinity.FieldsOfJoin | work/affinity.go:12 | Splitting undoes joining, so the normalized text determines the words. |
| Affinity.FieldsInTwo | work/affinity.go:12 | White space separates: the words of a text with white space in it are those before it and those after it. |
| Affinity.FieldsOfUnbroken | work/affinity.go:12 | A text without white space is one word, or none when it is empty. |
| Affinity.SameFingerprintMeansSameWords | work/affinity.go:11-18 | Two messages have the same fingerprint if and only if they have the same lower-cased words. |
| Affinity.FingerprintIgnoresCaseAndSpace | work/affinity.go:11-18 | Two messages have the same fingerprint if and only if they have as many words, each the same but for case. |
| Affinity.AcceptableMeansWords | work/affinity.go:12-15 | A message is refused if and only if it has no words or its joined words exceed 8000 characters. |
| Affinity.ResolveFindsTheLatestBind | work/affinity.go:20-81 | After any history, resolving gives the task of the latest bind, with no unbind since, among messages with the same lower-cased words, whatever happened to others. |
| Affinity.BindAndUnbindAnswer | work/affinity.go:20-81 | After any history, bind and unbind are refused for an unacceptable message, bind for a missing task; otherwise the task is bound, and unbind says whether there was a binding. |
| Affinity.Runtime.ConversationFingerprint | work/affinity.go:11-18 | The code gives the normalized text of an acceptable message and refuses the rest. |
| Affinity.Runtime.AffinityBind | work/affinity.go:20-41 | The upsert replaces the binding of one fingerprint, for an existing task only. |
| Affinity.Runtime.AffinityResolve | work/affinity.go:43-63 | The lookup reads the binding of the message's fingerprint and changes nothing. |
| Affinity.Runtime.AffinityUnbind | work/affinity.go:65-81 | The binding of one fingerprint is removed and the code says whether there was one. |

## Left out

- HTTP, tokens, signal handling, route discovery, MCP sessions, timeouts: an upstream is a choice between not connected, sent with a reply and sent without one.
- SQLite itself, its pragmas and the version 1 migration: a statement is atomic and enforces the declared constraints. Database failures other than constraint violations are the crash of the step machine.
- In the step machine, lookups of rows that are never deleted are merged with the statement after them, and re-reading a row after writing it is not a step of its own.
- ReceiptFinalize in `receipt.finalize` reads the receipt through ReceiptGet first; the machine's Load step stands for that read. The check of delivery and result names against their lists is replaced by typed outcomes.
- Timestamps, except the creation time by which the latest audit is chosen, the start time by which receipts are ordered and the update time by which artifacts are; all are arbitrary numbers, so clocks may stand still or go back.
- Evidence reference, command, exit code, file hash, size and free text columns that no decision depends on; the next action a protocol checkpoint carries, which is a fixed text.
- Deletion of stored results, project context, summaries and listing queries, the migration and health reports: they would add only easy members.
- Dynamic argument coercion: operations take typed arguments; an unknown status, verification or evidence name and an unknown field are explicit cases.
- Lengths are counted in characters where the code counts bytes (operation ids, tool names); text and operation ids are otherwise arbitrary.
- Redaction of the live `[]map[string]any` form, the internals of the two redaction patterns, and the JSON encoder. Redacting text is not assumed to be idempotent.
- JSON numbers are reals: rounding to 64-bit floats in stored evidence is not modelled.
- Integer widths, except where path indexes and paging compute with them; positions, revisions and sequence numbers are unbounded.
- Batch.FanOutIsBounded: a crash ends the batch and its semaphore with it, so schedules contain none; the state at any earlier moment is covered. A worker that panics gives its permit back and records a fatal error; that the process then goes down is such a crash.
- BatchAnswers.ParallelBatchAnswers: no task or step is created while a slot's owner does not exist yet, because that changes with what owner its call is made; others may do anything else that leaves the batch's operation ids and receipts alone.
- Bridge.Runtime.ResultStore: the length of the encoded content is counted in characters.
- Bridge.Runtime.ExecuteResolved: the three ways an upstream behaves and what it replies are inputs. In the step machine what shaping makes of a reply and the reply encoded are inputs too, so its theorems hold for every shaping; `Bridge.AnswerOf` says which `Shape` gives.
- Bridge.Runtime.CheckpointCreateEvent: the loop that files the steps is `WorkRuntime.Runtime.FileSteps`; here its three lists are counted.
- Shaping.Shape: every JSON value encodes, and the preview counts characters.
- Skills, shared memory, the contract files, the doctor and deployment: not part of this model.
