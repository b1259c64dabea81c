# Verified model of the BaudBound runner

BaudBound runs user scripts when triggers fire. This project models the parts of its desktop and
command-line runner that hold protocols, transformations and bookkeeping, and proves what they promise.
`dafny verify dfyconfig.toml` checks all of it.

| files | what they model |
|---|---|
| `executor_model`, `executor_invariant`, `executor_theorems`, `executor_guarantees`, `executor_scheduling`, `executor` | the trigger executor: admission under limits, per-script queues, workers that report over a channel, shutdown |
| `text_input` | the keystroke planner, and the recovery that undoes any accepted prefix of its events |
| `dialog_model`, `dialog_invariant`, `dialog_guarantees`, `dialog_broker` | the desktop dialog broker: one active dialog, a queue, callers, windows and disconnects in any interleaving |
| `active_run_model`, `active_run_feed`, `active_runs`, `window_numbers` | the revisioned registry of active runs and the window's copy kept by its events |
| `secret_vault_model`, `secret_vault_proofs`, `secret_vault` | switching where the secret key is kept, with a failure or a crash between any two actions |
| `redaction` | the credential redaction of system logs |
| `form_response` | form dialogs: configured choices, accepted answers, displayed values |
| `update_checks` | script update checks, one by one and many with one fetch per repository |
| `quarantine` | blacklist decisions and the quarantine of installed scripts |
| `csv_export` | the paged CSV export of log history |
| `trigger_monitor` | the trigger monitor's sessions, channel and payload text |
| `collection_pages` | reading a paged backend collection |
| `control_ipc` | the service's control channel |
| `wrappers`, `characters`, `text_order`, `stable_sort` | optional and fallible values, white space and letter case, the order of strings, sorting |

State machines are functions on values (`…_model`), so that runs and interleavings can be quantified over.
Beside them a class carries the fields and methods of the source's object, and each method's postcondition
ties the new fields to the functions that the theorems are about. Outside effects are parameters: a spawn
failure, a window that does not open, a repository's reply, a failing disk action, a clock.

Where the code falls short of what one would expect, a lemma says so and when. A release build's shutdown
does not wait for its workers (`ShutdownWaitsIff`, `ReleaseShutdownLeavesWorker`): the join handle is stored
inside a debug assertion. A dialog submission can be accepted and lost (`LateSubmitIsLost`), exactly when its
caller had a result already or is cancelled or timed out before it looks (`AcceptedSubmissionCountsIff`). A
quarantine applied again later changes its record exactly when something wanted is not on it
(`QuarantineIsIdempotentIff`), which more than a thousand wanted entries bring about for good
(`CrowdedExample`). A secret behind a quotation mark or a second space is not redacted (`ValueIsReplacedIff`,
`QuotedPasswordStays`). The window sorts active runs in an order of its own, so rows can swap at the next
snapshot (`SnapshotPlusEventsIsSnapshot`, `RowsSwap`), and it reads revisions as JavaScript numbers, so events
are ignored from 2^53 on wherever the next one reads the same (`ReplaysIffReadLater`, `FinishIsIgnored`). At
the last 64-bit session number a stopped session's event is published (`StoppedEventIsPublishedIff`).

## Model

| member | source | states |
|---|---|---|
| `ExecutorGuarantees.StartsAreFifo` | src/service/executor.rs:101-159 | In every run, jobs of one script start in increasing id order, and none that is still queued is older than one that has started. |
| `ExecutorTheorems.AcceptStartedOrder` | src/service/executor.rs:126-159 | A direct start never overtakes an older queued job of the same script, because nothing startable is queued when it happens. |
| `ExecutorTheorems.ScheduleSettles` | src/service/executor.rs:265-299 | Scheduling reaches a fixpoint: afterwards no queued job has free capacity. |
| `ExecutorGuarantees.AtMostOneCompletion` | src/service/executor.rs:242-255 | In every run, shutdown included, no job id is delivered twice; each delivery is of an accepted job and carries what its worker reported, or a failure if it never started. |
| `ExecutorGuarantees.DrainingDeliversEverythingOnce` | src/service/executor.rs:242-299 | Every worker report and every delivery lowers what is outstanding; when nothing is returned and nothing runs, the deliveries are the accepted jobs, each exactly once. |
| `ExecutorGuarantees.DropsTheOldest` | src/service/executor.rs:161-199 | `DropOldest` fails that script's oldest queued job, keeps the order of the rest and appends the new one. |
| `ExecutorGuarantees.SubmissionMeans` | src/service/executor.rs:101-199 | What a submission answers, and where its run goes, by the policy, the bounds, the jobs around after collecting and whether a thread can be had: accepted, full or stopped exactly when; started, queued last, or queued in place of the script's oldest, which fails as superseded. Under `RejectNewest` the queue keeps what it has. |
| `ExecutorScheduling.CollectMeans` | src/service/executor.rs:249-299 | A collection delivers what has arrived and starts queued runs in the order in which they were accepted; a run is passed over only when its script is full. When a thread is refused, that run and the whole queue fail with the system's error, in order, and the executor stops accepting. |
| `ExecutorScheduling.DeliveredAsReported` | src/service/executor.rs:219-255 | In every run a caller gets the result that the run's own worker returned, or that it panicked; another failure only for a run that never had a worker. |
| `ExecutorGuarantees.RejectionLeavesNoTrace` | src/service/executor.rs:101-159 | A rejected submission consumes no id and changes no job's whereabouts. |
| `ExecutorGuarantees.NothingIsStranded` | src/service/executor.rs:265-299 | With no worker running and limits above zero, the queue is empty. |
| `ExecutorGuarantees.CountersAreExact` | src/service/executor.rs:313-327 | The redundant counters are the sums they stand for, no entry is zero, and no limit is exceeded. |
| `ExecutorGuarantees.PendingIffUndelivered` | src/service/executor.rs:324-327 | Work is pending exactly when an accepted job has not been delivered. |
| `ExecutorTheorems.SubmitKeepsInv` | src/service/executor.rs:101-199 | A submission keeps the whole invariant, settled queue included. |
| `ExecutorTheorems.TryCompletionKeepsInv` | src/service/executor.rs:242-299 | So does taking a completion. |
| `ExecutorTheorems.RunIsSound` | src/service/executor.rs:101-424 | Every reachable state satisfies the invariant, or what is left of it after shutdown. |
| `ExecutorTheorems.ShutdownWaitsIff` | src/service/executor.rs:201-240 | Shutdown leaves no worker running, whatever the workers do, exactly when the build holds their join handles or none is running: the handle is stored inside a debug assertion. |
| `ExecutorScheduling.ShutdownLeaves` | src/service/executor.rs:403-424 | A shutdown drops the queue without completions, keeps the completions there are, counts and holds nothing any more, and every worker that ended has left its completion. |
| `ExecutorScheduling.ShutdownIsFinal` | src/service/executor.rs:126-133 | After a shutdown every submission of the run is answered as stopped. |
| `ExecutorGuarantees.ReleaseShutdownLeavesWorker` | src/service/executor.rs:201-240 | A release build's run, under any policy that lets anything start: one submission and the shutdown, and the worker is still running. |
| `Executor.TriggerExecutor.SubmitFrom` | src/service/executor.rs:101-124 | The method is the state machine's submission. |
| `Executor.TriggerExecutor.TrySubmitFrom` | src/service/executor.rs:126-159 | The attempt after collecting completions, branch by branch. |
| `Executor.TriggerExecutor.EnqueueJob` | src/service/executor.rs:161-199 | Queueing as the state machine does it: appended while the script has room; otherwise refused, or under `DropOldest` in place of the script's oldest. |
| `Executor.TriggerExecutor.StartJob` | src/service/executor.rs:201-240 | Starting a thread, or saying why not. |
| `Executor.TriggerExecutor.ScheduleQueuedJobs` | src/service/executor.rs:265-299 | The scheduling loop with its failure branch. |
| `Executor.TriggerExecutor.CollectAvailableCompletions` | src/service/executor.rs:249-263 | Draining the channel, then scheduling. |
| `Executor.TriggerExecutor.Shutdown` | src/service/executor.rs:403-424 | Shutdown joins what it holds, in any order, forgets the rest, and fails exactly when a held worker's join fails, with the saturating number of those. |
| `TextInput.PlanText` | src/desktop_actions/text_input.rs:227-285 | Planning fails exactly on a text with a NUL, with the 1-based position of the first; otherwise replaying the plan types exactly the text's strokes and ends with the initial modifiers and caps lock. |
| `TextInput.TypeFirst` | src/desktop_actions/text_input.rs:239-277 | One line break, tab, mapped or unmapped character: its strokes, under exactly its modifiers, with caps lock off. |
| `TextInput.StrokesOfOne` | src/desktop_actions/text_input.rs:239-277 | What one character alone is to type: Enter, Tab, its key with exactly the key's modifiers, or its code units; a carriage return and its line feed are one Enter. |
| `TextInput.StrokesAppend` | src/desktop_actions/text_input.rs:239-277 | Texts one after the other type their strokes one after the other, unless that joins a line break. |
| `TextInput.TransitionModifiers` | src/desktop_actions/text_input.rs:287-300 | Whatever was held, exactly the required modifiers are held, and nothing is typed. |
| `TextInput.PushKeyClick` | src/desktop_actions/text_input.rs:310-313 | A press and a release: one stroke, or a caps lock toggle. |
| `TextInput.Utf16RoundTrip` | src/desktop_actions/text_input.rs:263-275 | The code units typed for a text decode to that text (section 2.2 of RFC 2781). |
| `TextInput.UnmappedTextArrives` | src/desktop_actions/text_input.rs:263-275 | A text that the layout maps nowhere arrives unchanged through its code units. |
| `TextInput.RecoveryEvents` | src/desktop_actions/text_input.rs:401-462 | After any accepted prefix of any event stream, recovery restores the initial modifiers and caps lock, holds nothing else, types nothing, and uses one event per difference. |
| `TextInput.CutsAreCheap` | src/desktop_actions/text_input.rs:401-462 | A planned stream cut anywhere needs at most six recovery events, none at either end, and has typed a prefix of what was meant. |
| `TextInput.TrackPrefix` | src/desktop_actions/text_input.rs:401-440 | What recovery believes is held is what the accepted prefix left held. |
| `TextInput.ReleaseKeys` | src/desktop_actions/text_input.rs:447-451 | The unwanted keys are released in falling order and nothing else changes. |
| `TextInput.PressDesired` | src/desktop_actions/text_input.rs:455-459 | The missing modifiers are pressed and nothing else changes. |
| `DialogGuarantees.RunKeepsInv` | src/desktop_ui/desktop_dialog.rs:103-291 | Every interleaving of the lock-protected sections keeps the invariant. |
| `DialogGuarantees.ShownInRequestOrder` | src/desktop_ui/desktop_dialog.rs:118-141 | Dialogs are promoted in enqueue order, each at most once, and before everything still pending. |
| `DialogGuarantees.ReturnedRequestIsGone` | src/desktop_ui/desktop_dialog.rs:198-233 | Once a caller has taken its request out, it is neither active nor pending. |
| `DialogGuarantees.ResultIsOwn` | src/desktop_ui/desktop_dialog.rs:419-455 | A caller that took an answer returns that answer, one that took a cancellation returns a cancellation, one that took a failure its message; without an outcome it returns a cancellation or the timeout. |
| `DialogGuarantees.TakenAtMostOnce` | src/desktop_ui/desktop_dialog.rs:419-455 | A caller takes at most one outcome. |
| `DialogGuarantees.AnswersReachShownDialogs` | src/desktop_ui/desktop_dialog.rs:172-196 | Only a cancellation reaches a dialog that was never promoted. |
| `DialogGuarantees.SubmissionsAreAuthenticated` | src/desktop_ui/desktop_dialog.rs:894-907 | A submission goes through exactly for the active request under its own window with a free channel, and fills only that channel. |
| `DialogGuarantees.ClosingIsAnswering` | src/desktop_ui/desktop_dialog.rs:186-196 | Closing a window is a submission of the dialog's own close answer on the same terms; a dialog without one cannot be closed away. |
| `DialogGuarantees.FailedWindowIsReported` | src/desktop_ui/desktop_dialog.rs:235-273 | A window that cannot be opened takes its dialog from the front if it is still there, and the error is what the dialog's caller finds unless an outcome came first. |
| `DialogGuarantees.WindowsAreTheirOwn` | src/desktop_ui/desktop_dialog.rs:886-892 | A console shows every dialog in one window; without it different requests have different windows. |
| `DialogGuarantees.NonEmptyQueueIsActive` | src/desktop_ui/desktop_dialog.rs:235-291 | With nobody between a state change and its promotion, a non-empty queue has an active dialog. |
| `DialogGuarantees.WaitingIsNotForgotten` | src/desktop_ui/desktop_dialog.rs:419-455 | A waiting caller is pending, active, about to be told, or has its outcome: it never waits on a closed channel. |
| `DialogGuarantees.DisconnectReleasesEveryone` | src/desktop_ui/desktop_dialog.rs:103-116 | After a disconnect has told everyone, a waiting caller can take its outcome. |
| `DialogGuarantees.LateAnswerNeverCounts` | src/desktop_ui/desktop_dialog.rs:172-184 | Whatever follows, a caller that has a result keeps it and takes nothing more. |
| `DialogGuarantees.AnswerCountsIff` | src/desktop_ui/desktop_dialog.rs:419-455 | Whatever follows, once a caller has a result, the outcome that lay in its channel while it had none is what it took exactly when it was neither cancelled nor timed out before taking it. |
| `DialogGuarantees.AcceptedSubmissionCountsIff` | src/desktop_ui/desktop_dialog.rs:172-184 | An accepted submission, in every continuation in which its caller gets a result: the caller returns that very button exactly when it had no result yet and neither a cancellation nor the timeout came first; a caller that had a result keeps it. |
| `DialogGuarantees.LateSubmitIsLost` | src/desktop_ui/desktop_dialog.rs:172-184 | A run in which a submission is accepted and its caller returns the timeout. |
| `DialogGuarantees.AtMostOneAnswerLost` | src/desktop_ui/desktop_dialog.rs:172-196 | At most one accepted outcome per dialog is not taken. |
| `DialogBroker.DesktopDialogBroker.Enqueue` | src/desktop_ui/desktop_dialog.rs:118-141 | Appends the request, or refuses when disconnected and changes nothing. |
| `DialogBroker.DesktopDialogBroker.SubmitFromWindow` | src/desktop_ui/desktop_dialog.rs:172-184 | The submission; refused because nothing is active, because something else is, or because the dialog has its answer. |
| `DialogBroker.DesktopDialogBroker.CancelFromWindow` | src/desktop_ui/desktop_dialog.rs:186-196 | The close button; refused for the same reasons, and for a message that needs Yes or No. |
| `DialogBroker.DesktopDialogBroker.PromoteNext` | src/desktop_ui/desktop_dialog.rs:275-291 | Promotes the oldest pending request when nothing is active. |
| `DialogBroker.DesktopDialogBroker.ActivateNext` | src/desktop_ui/desktop_dialog.rs:235-273 | The first pending dialog whose window opens becomes active, those before it are told their errors, those after it stay. |
| `DialogBroker.DesktopDialogBroker.Finish` | src/desktop_ui/desktop_dialog.rs:198-233 | Takes a request out wherever it is and lets the next one in. |
| `DialogBroker.DesktopDialogBroker.Remove` | src/desktop_ui/desktop_dialog.rs:198-233 | The first pending dialog of the request goes, the others staying in order; with none pending, the active one goes if it is the request's. |
| `DialogBroker.DesktopDialogBroker.Disconnect` | src/desktop_ui/desktop_dialog.rs:103-116 | Leaves nothing connected, active or pending, and cancels everything that had no outcome yet. |
| `ActiveRunFeed.WindowShowsItsRevision` | ui/src/lib/active-run-events.ts:10-72 | However changes, events and snapshots interleave, the window shows the runs the registry had at the window's revision, each once: in the registry's order as long as they came in a snapshot, in the window's own once it has sorted them. |
| `ActiveRunFeed.CaughtUpWindowIsCurrent` | ui/src/lib/active-run-events.ts:10-64 | With every event delivered it shows the current runs, whatever order it sorts in. |
| `ActiveRunFeed.SnapshotPlusEventsIsSnapshot` | ui/src/lib/active-run-events.ts:10-72 | Snapshot plus events lists the runs of the later snapshot, tokens cancelled elsewhere aside; in the same order exactly when the window has not sorted them since they came in a snapshot, or ranks runs that started together as the registry does. |
| `ActiveRunFeed.SortGivesSnapshotIff` | ui/src/lib/active-run-events.ts:66-72 | Sorting a snapshot's runs by the window's order gives the snapshot back exactly when runs that started together are ranked alike. |
| `ActiveRunFeed.RowsSwap` | ui/src/lib/active-run-events.ts:66-72 | A run from an empty registry in which they are not: triggers n-1 and n-10 of one script, for a window that ranks a colon before a digit. |
| `ActiveRunFeed.EventFollowsChange` | ui/src/lib/active-run-events.ts:10-57 | Applying a change's event to a copy of the state before gives a copy of the state after, whatever order the window sorts in. |
| `ActiveRunFeed.ChangeHasEvent` | src/desktop_ui/active_runs.rs:240-319 | Every change publishes one event that describes it, one revision on. |
| `ActiveRunFeed.RevisionsAreConsecutive` | src/desktop_ui/active_runs.rs:66-70 | Published changes carry consecutive revisions. |
| `ActiveRunFeed.ReplaysIffReadLater` | ui/src/lib/active-run-events.ts:14-16 | Replaying a visible change gives the state after it exactly when the window reads the next revision, a JavaScript number, as a later one; otherwise the event is ignored. |
| `ActiveRunFeed.WhereReadRepeats` | ui/src/lib/active-run-events.ts:14-16 | Below 2^53 the next revision always reads as later; at 2^53 it does not, nor at the last 64-bit number. |
| `WindowNumbers.ReadIsNearest` | ui/src/lib/active-run-events.ts:14-16 | What the window reads of a revision is the nearest number of 53 significant bits, of two equally near ones the one whose last bit is zero. |
| `ActiveRunFeed.FinishIsIgnored` | ui/src/lib/active-run-events.ts:14-16 | A run from the beginning to revision 2^53 after which the window never hears that the run has finished. |
| `ActiveRunFeed.SnapshotUnique` | src/desktop_ui/active_runs.rs:93-112 | A state has one snapshot: the order by start time and id is total. |
| `ActiveRunFeed.SnapshotShowsCancellation` | src/desktop_ui/active_runs.rs:93-112 | A snapshot lists exactly the runs that began and have not finished, as they were started, and shows one as stopping exactly when a stop was asked for since it began or its token was ever cancelled, by whomever. |
| `ActiveRunFeed.LogsAreTheNewest` | src/desktop_ui/active_runs.rs:268-291 | A run's logs are the newest of those emitted since its start, and the discarded count is the number of the others. |
| `ActiveRunFeed.RequestIsKept` | src/desktop_ui/active_runs.rs:114-137 | A requested cancellation is never taken back while the run is active. |
| `ActiveRuns.RequestAllMeans` | src/desktop_ui/active_runs.rs:139-219 | A bulk stop flags exactly the selected runs, with one event each, in id order, at consecutive revisions. |
| `ActiveRuns.ActiveRunRegistry.Snapshot` | src/desktop_ui/active_runs.rs:93-112 | Every active run once, by start time and then id, with its shown flag. |
| `ActiveRuns.ActiveRunRegistry.StopRun` | src/desktop_ui/active_runs.rs:114-137 | Stops an active run once and says whether it is active. |
| `ActiveRuns.ActiveRunRegistry.StopScriptRuns` | src/desktop_ui/active_runs.rs:139-174 | Exactly the script's runs not yet asked to stop are flagged and have their tokens cancelled, with one event each in id order; every other run is as it was; the answer is their number. |
| `ActiveRuns.ActiveRunRegistry.StopScriptTriggerRuns` | src/desktop_ui/active_runs.rs:176-219 | The same for the script's runs that one of the triggers started; runs of another script or of another trigger are as they were. |
| `ActiveRuns.ActiveRunRegistry.RunStarted` | src/desktop_ui/active_runs.rs:241-266 | Adds the run and publishes it as shown. |
| `ActiveRuns.ActiveRunRegistry.LogReceived` | src/desktop_ui/active_runs.rs:268-291 | Adds the log, dropping the oldest at the cap; nothing for an unknown run. |
| `ActiveRuns.ActiveRunRegistry.RunFinished` | src/desktop_ui/active_runs.rs:293-308 | Removes the run; nothing for an unknown run. |
| `ActiveRuns.ActiveRunRegistry.RunRecorded` | src/desktop_ui/active_runs.rs:310-318 | Publishes a notice at the present revision and changes nothing. |
| `Redaction.RedactionIsCompleteAndStable` | src/desktop_ui/system_logs.rs:208-229 | After all fourteen passes every marker is followed by the redaction text up to a delimiter or the end, or, when its values end at a delimiter, by a delimiter or the end at once; doing it again changes nothing; and a text is left alone exactly when it was clean. |
| `Redaction.ValueIsReplacedIff` | src/desktop_ui/system_logs.rs:250-276 | Every value a pass comes to is replaced, unless the marker's values end at a delimiter and the text ends behind the marker or goes on with a delimiter; what is before and behind it is passed on its own. |
| `Redaction.DelimiterIff` | src/desktop_ui/system_logs.rs:231-276 | Line values end at CR and LF; the others at the white space of the Unicode Standard, quotation marks, commas, semicolons and ampersands. |
| `Redaction.OccursIff` | src/desktop_ui/system_logs.rs:231-276 | A marker is found whatever letters of it are capital. |
| `Redaction.QuotedPasswordStays` | src/desktop_ui/system_logs.rs:267-273 | So a quoted password stays: the quotation mark behind the marker is a delimiter. |
| `Redaction.RedactsLineByLine` | src/desktop_ui/system_logs.rs:208-229 | All passes together work on each line on its own, carriage returns and line feeds between them staying, so a line without a value to hide stays as it is whatever stands on the others. |
| `Redaction.PassCleans` | src/desktop_ui/system_logs.rs:231-276 | A pass cleans its own marker and undoes no other marker's cleaning. |
| `Redaction.PassesAccumulate` | src/desktop_ui/system_logs.rs:208-229 | After the first n passes the first n markers are clean. |
| `Redaction.CleanIsFixed` | src/desktop_ui/system_logs.rs:231-276 | A pass leaves a clean text alone, so each pass is idempotent. |
| `Redaction.PassKeepsSkeleton` | src/desktop_ui/system_logs.rs:231-276 | A pass changes values only: with them cut out the text is the same. |
| `Redaction.RedactLineValueAfterMarker` | src/desktop_ui/system_logs.rs:231-248 | The in-place loop ends, though the text may grow, and is one pass over line values. |
| `Redaction.RedactValuesAfterMarker` | src/desktop_ui/system_logs.rs:250-276 | The same for values that end at a delimiter. |
| `Redaction.RedactEmbeddedCredentials` | src/desktop_ui/system_logs.rs:208-229 | All passes in turn give a clean text. |
| `Redaction.SanitizeLog` | src/desktop_ui/system_logs.rs:175-187 | A stored log is sanitized in every part, keeps its details in number and name, and is left alone when already sanitized. |
| `Redaction.SensitiveLabelIff` | src/desktop_ui/system_logs.rs:189-206 | A detail is sensitive exactly when one of seven words stands in what counts of its name. |
| `Redaction.NormalizedLetterwise` | src/desktop_ui/system_logs.rs:189-195 | Of a name only ASCII letters and digits count, the letters in lower case, each on its own. |
| `SecretVaultProofs.SecretsStayReadable` | src/desktop_ui/secret_vault.rs:192-239 | Between any two actions, whatever failed or crashed before, every stored secret is encrypted under the key the mode on disk leads to, and the cipher in memory decrypts every stored secret. |
| `SecretVaultProofs.RunFromStartIsReadable` | src/secrets.rs:85-113 | Every run of the program that begins without stored secrets, or over secrets that are readable, has the invariant throughout. |
| `SecretVaultProofs.SettledStateMatchesDisk` | src/desktop_ui/secret_vault.rs:241-297 | Outside a switch the shown mode is the one on disk and the cipher is for its key. |
| `SecretVaultProofs.SwitchEndsEitherWay` | src/desktop_ui/secret_vault.rs:192-239 | A switch ends within nine actions, having switched everything or left the selected key, the cipher and the shown mode as they were; the secrets are then all there or all gone. |
| `SecretVaultProofs.CrashThenReopen` | src/secrets.rs:85-113 | After a crash at any point the right password, or an answering keyring, makes every stored secret readable. |
| `SecretVaultProofs.SwitchedReopens` | src/secrets.rs:145-198 | After a switch to password storage, locking and then the password given open the vault as it was. |
| `SecretVaultProofs.KeyFileStaysOpenable` | src/secrets.rs:200-254 | No run puts a key file in place whose password would be refused: after a crash anywhere the key file's password opens it. |
| `SecretVaultProofs.PasswordBounds` | src/secrets.rs:296-307 | Fewer than 8 characters, more than 1024 or a NUL refuse a password; 8 to 256 characters without a NUL pass whatever they are. |
| `SecretVaultProofs.Utf8Counts` | src/secrets.rs:296-307 | The bytes counted are those of UTF-8 (section 3 of RFC 3629): each character the fewest that reach its code point. |
| `SecretVaultProofs.StartOpensIff` | src/secrets.rs:85-113 | Starting over the operating system's vault opens it exactly when the keyring can be read and holds a key or takes a new one, with that key; what is left otherwise. |
| `SecretVaultProofs.StartElsewhere` | src/desktop_ui/secret_vault.rs:89-108 | Starting over a key file locks the vault; an open vault, or one being opened, stays as it is. |
| `SecretVaultProofs.PutThenDelete` | crates/baudbound-storage/src/storage/sqlite/secrets.rs:70-126 | A secret put into an open vault can be read there, beside all others as they were; deleting it takes away that one alone; a locked vault takes none. |
| `SecretVaultProofs.WriteInsideSwitchIsReadableIff` | src/desktop_ui/secret_vault.rs:203-213 | A secret written between the clearing and the flip would be readable exactly when there was no cipher to write it with or it had the new key: why commands wait for the operation lock. |
| `SecretVaultProofs.ProceedKeepsInv` | src/secrets.rs:115-131 | Each action of either direction keeps the invariant, however it fails. |
| `SecretVaultProofs.WorkKeepsInv` | src/secrets.rs:85-113 | So does each action of the worker that opens the operating system's vault. |
| `SecretVault.SecretVaultController.Switch` | src/desktop_ui/secret_vault.rs:192-239 | The method's intermediate states are a switch's actions one by one. It succeeds exactly when the password passes and every action it needs works; then everything was switched and the password given opens the vault again. |
| `SecretVault.SecretVaultController.MakeKey` | src/secrets.rs:200-254 | On success the new key is in the keyring, or in the pending file under the given password; the other place is as it was. |
| `SecretVault.SecretVaultController.ResetKeyring` | src/secrets.rs:115-131 | Succeeds exactly when both keyring actions do, and then the entry is the new key; otherwise the entry is what the failed action left. |
| `SecretVault.SecretVaultController.Flip` | src/secrets.rs:256-288 | On success the pending file is the key file, or there is no key file; on failure both are as they were. |
| `SecretVault.SecretVaultController.ClearAllStoredSecrets` | crates/baudbound-storage/src/storage/sqlite/mod.rs:171-183 | Forgets every secret and counts them, or fails before or after having done so. |
| `SecretVault.SecretVaultController.UnlockPassword` | src/desktop_ui/secret_vault.rs:165-177 | Opens exactly with the right password in password mode. |
| `SecretVault.SecretVaultController.LockPassword` | src/desktop_ui/secret_vault.rs:179-190 | Forgets the cipher in password mode. |
| `SecretVault.SecretVaultController.BeginTransition` | src/desktop_ui/secret_vault.rs:273-290 | Refused exactly while an attempt is active or for the mode already shown. |
| `FormResponse.ValidateFormDialogResponse` | src/desktop_actions/dialogs.rs:1730-1765 | An answer is accepted exactly when its button is known and, for ok, every field accepts its value and nothing else was submitted; for the others, when it has no values. |
| `FormResponse.NormalizeFields` | src/desktop_actions/dialogs.rs:1751-1765 | The loop takes each field's value out of what was submitted; an error names a field and what is wrong with it. |
| `FormResponse.FieldAcceptsIff` | src/desktop_actions/dialogs.rs:1767-2051 | A field of any kind accepts exactly the values that fit it: text within the limit that reads as its date, time, timestamp or color; a whole number within 2^53; a slider's number in its range and on its step; known choices without repetition. It keeps the value, its number, its upper-case color or its choices in configured order, and reports only problems the value has. |
| `FormResponse.AcceptedIff` | src/desktop_actions/dialogs.rs:1730-1765 | An answer is accepted exactly when every field gets a value that fits it and nothing else was submitted. |
| `FormResponse.AcceptedIsCanonical` | src/desktop_actions/dialogs.rs:1767-2051 | An accepted answer has only configured keys, each with what its field keeps of the submitted value, and every required field is filled. |
| `FormResponse.ValidationIsIdempotent` | src/desktop_actions/dialogs.rs:1730-1765 | Validating an accepted answer again succeeds with the same values. |
| `FormResponse.FieldIsCanonical` | src/desktop_actions/dialogs.rs:1767-2051 | Each kind of field accepts its own canonical value unchanged. |
| `FormResponse.MultiChoiceIsCanonical` | src/desktop_actions/dialogs.rs:1972-2029 | A multiple choice is listed in configured order with the same set as submitted, and as many. |
| `FormResponse.RequiredIsFilled` | src/desktop_actions/dialogs.rs:1767-2051 | A required field keeps a value that fills it. |
| `FormResponse.ColorRoundTrip` | src/desktop_actions/dialogs.rs:1267-1280 | The canonical color text reads back as the same color. |
| `FormResponse.ColorReads` | src/desktop_actions/dialogs.rs:1267-1280 | Text that spells a color in hexadecimal, its letters in either case, reads as that color; any other is read in the functional form. |
| `FormResponse.TrimMeans` | src/desktop_actions/dialogs.rs:1282-1389 | Trimming takes all white space of the Unicode Standard off both ends and nothing else. |
| `FormResponse.ReadChoiceIff` | src/desktop_actions/dialogs.rs:1282-1389 | An entry is a choice exactly when it is an object of a key and a label alone: 1 to 512 letters, digits, hyphens and underscores, and 1 to 512 characters once trimmed. |
| `FormResponse.ParseChoices` | src/desktop_actions/dialogs.rs:1282-1389 | Choices are accepted exactly when there are 1 to 100 well-formed entries with no key and no displayed value twice. |
| `FormResponse.FormDialogDisplayValues` | src/desktop_actions/dialogs.rs:570-616 | Displayed values exist exactly when a field has choices; then each such field has what is shown for its value, nothing when no choice is made, and nothing else is there. |
| `FormResponse.DisplayTellsAnswer` | src/desktop_actions/dialogs.rs:570-616 | The displayed values of an accepted answer tell what was chosen in every field with choices, one choice or several. |
| `FormResponse.LabelsDetermineSelection` | src/desktop_actions/dialogs.rs:581-599 | A selection has one label per key in the same order, and each label names its key. |
| `UpdateChecks.BatchRefinesSingles` | src/script_updates/update_checks.rs:75-150 | Whatever results and states satisfy the batch's contract are those of checking the scripts one after another. |
| `UpdateChecks.UpdateChecker.CheckScriptUpdates` | src/script_updates/update_checks.rs:75-150 | One fetch per distinct repository, in order of address; every script ends as if checked alone; no success but with a safe offer; no guard is left held. |
| `UpdateChecks.UpdateChecker.CheckScriptUpdate` | src/script_updates/update_checks.rs:37-73 | The check of one script, its guard let go; success only with a safe offer. |
| `UpdateChecks.UpdateChecker.GroupCandidates` | src/script_updates/update_checks.rs:83-95 | Every script that can be checked stands once, under its repository, with its guard held; the others have their error. |
| `UpdateChecks.UpdateChecker.CheckRepositoryEntry` | src/script_updates/update_checks.rs:226-282 | The checks of one repository entry in their order. |
| `UpdateChecks.CheckOffersSafely` | src/script_updates/update_checks.rs:226-282 | A check succeeds only with a release within the limit that is not older than the installed package, and the same package when of the same version. A check that runs and can store its result leaves such an offer or none, whatever was stored before; none makes a safe offer unsafe. |
| `UpdateChecks.FailedCheckIsNoted` | src/script_updates/update_checks.rs:37-73 | A check that begins and fails forgets the release on offer, keeps the last success and the automatic setting and leaves its error; one that does not begin says why and stores nothing. |
| `UpdateChecks.SuccessIsNoted` | src/script_updates/update_checks.rs:37-73 | A check succeeds exactly when it begins, the repository lists a safe offer and the database takes the result; the state then has the address, both times, the release and no error, and keeps the automatic setting. |
| `UpdateChecks.ErrorIsTrue` | src/script_updates/update_checks.rs:226-282 | A check that begins and whose failure is noted reports what is wrong with the package, the repository, the release or the database. |
| `UpdateChecks.InTurnIsAlone` | src/script_updates/update_checks.rs:37-73 | Checking in turn, every script ends as if it had been checked alone. |
| `UpdateChecks.CheckIsLocal` | src/script_updates/update_checks.rs:226-282 | A check reads and writes its own script's state only. |
| `Quarantine.QuarantineStopsTheBlocked` | src/blacklist/enforcement.rs:56-112 | A script is disabled and listed exactly when an entry of high or critical severity matches it, every other is as it was, and cancellation is asked for exactly those that a critical entry matches. |
| `Quarantine.ScriptIncidents` | src/blacklist/enforcement.rs:56-101 | An application wants incidents of a script exactly when an entry of medium or worse matches it, then for every entry that matches it, stamped with the time. |
| `Quarantine.RepositoryIncidents` | src/blacklist/enforcement.rs:11-54 | The same for a repository. |
| `Quarantine.WantedIncidents` | src/blacklist/enforcement.rs:11-101 | All that an application wants is what it wants about the repositories and the scripts, one by one. |
| `Quarantine.SubjectMeans` | src/blacklist.rs:225-243 | What is asked about a script: its id, its hash and every address its provenance vouches for. |
| `Quarantine.QuarantineKeepsNoRepeats` | src/blacklist/enforcement.rs:22-54 | Incidents stay unique per entry and script and per entry and repository, and at most a thousand. |
| `Quarantine.QuarantineIsIdempotentIff` | src/blacklist/enforcement.rs:11-119 | Doing it again disables nothing more and asks for the same cancellations. It leaves the incidents alone exactly when it adds none, or the record is full and none it adds is newer than the oldest on it: so when everything wanted is on record, and, with a clock later than everything kept, only then. |
| `Quarantine.NothingLeftOutCovers` | src/blacklist/enforcement.rs:28-54 | When recording stays within a thousand incidents, everything wanted is on record. |
| `Quarantine.CrowdedQuarantineNeverSettles` | src/blacklist/enforcement.rs:114-117 | With incidents wanted for more than a thousand entries, every later application changes the record again. |
| `Quarantine.CrowdedExample` | src/blacklist/enforcement.rs:11-119 | Such an application: 1001 entries match one repository. |
| `Quarantine.LatestMeans` | src/blacklist/enforcement.rs:114-117 | The incidents kept are the newest thousand, newest first. |
| `Quarantine.OneDecision` | src/blacklist.rs:225-243 | The quarantine, `script_decision` and `decide` make one decision about an installed script. |
| `Quarantine.DecisionIsTheWorst` | crates/baudbound-security/src/blacklist.rs:90-103 | A decision is as severe as its worst entry and names every entry's id, whatever was dropped as a repetition. |
| `Quarantine.DecisionMeans` | crates/baudbound-security/src/blacklist.rs:90-120 | A decision stops distribution, execution or running scripts exactly when an entry of medium, high or critical severity or worse matches, and names what matches. |
| `Quarantine.DecisionIsInOrder` | crates/baudbound-security/src/blacklist.rs:90-103 | Its entries stand worst first, then by id, no entry of one severity twice. |
| `Quarantine.RecordMeans` | src/blacklist/enforcement.rs:28-52 | Recording keeps what was there, adds only what is wanted, and leaves everything wanted on record. |
| `Quarantine.BlacklistService.ApplyQuarantine` | src/blacklist/enforcement.rs:11-119 | On success all of the above at once; a store failure stops it with the earlier scripts handled and the later ones untouched. |
| `CsvExport.DocumentRoundTrip` | src/desktop_ui/history.rs:443-484 | Reading the exported file by rules 5 to 7 of section 2 of RFC 4180 gives the header and every log's fields, whatever quotes, commas or line breaks they hold, with an apostrophe before a formula character. |
| `CsvExport.ColumnsSay` | src/desktop_ui/history.rs:443-472 | Each column holds what its name says, numbers as decimal text that reads back, and nothing for what is missing. |
| `CsvExport.WriteLogExport` | src/desktop_ui/history.rs:352-398 | The paging loop ends whatever the store answers: with the document of the records read, or with the error of the first failing query; over a fixed store it writes every matching log once, in order. |
| `CsvExport.WrittenAlikeIff` | src/desktop_ui/history.rs:474-484 | Two fields are written alike exactly when they are equal or one is the other behind an apostrophe. |
| `TriggerMonitoring.NothingGoesUnaccounted` | src/trigger_monitor.rs:101-178 | In an enabled session the observations are the published events, those in the channel, the omissions reported and those not yet reported. |
| `TriggerMonitoring.PublishedInOrder` | src/trigger_monitor.rs:101-116 | Published events come by session and, within one, with strictly increasing sequence numbers. |
| `TriggerMonitoring.NumbersNameObservations` | src/trigger_monitor.rs:123-178 | In every run below saturation an event of the present session carries the place of its observation among all that the session has accepted, omitted ones counted, from 1 on. |
| `TriggerMonitoring.EventsAreObservations` | src/trigger_monitor.rs:101-178 | In every run below saturation the present session's events, published or queued, are some of what was observed since the latest start, stop or clear, in order. |
| `TriggerMonitoring.NothingStaleIsPublished` | src/trigger_monitor.rs:101-164 | In every run below saturation, what is published after a start, stop or clear was observed after it, and nothing is published while stopped. |
| `TriggerMonitoring.StoppedEventIsPublishedIff` | src/trigger_monitor.rs:213-225 | Stopping, starting again and one turn of the worker publish a queued event of the stopped session exactly when its number was the last one. |
| `TriggerMonitoring.StoppedEventIsPublished` | src/trigger_monitor.rs:213-225 | A run from the beginning in which that happens. |
| `TriggerMonitoring.PayloadDocument` | src/trigger_monitor.rs:233-245 | The payload text is the whole document or the most characters that fit, never part of one. |
| `TriggerMonitoring.Utf8Means` | src/trigger_monitor.rs:233-245 | The bytes counted and cut are UTF-8 (section 3 of RFC 3629): they stand for their character, the first tells how many there are, and there are as few as can be. |
| `TriggerMonitoring.SanitizeCleans` | src/trigger_monitor.rs:247-287 | No sensitive header shows its value, however deep. |
| `TriggerMonitoring.SensitiveIff` | src/trigger_monitor.rs:253-287 | Six headers are sensitive, whatever letters are capital, and they count inside whatever is named headers. |
| `TriggerMonitoring.SanitizeKeepsTheRest` | src/trigger_monitor.rs:247-275 | At every place outside sensitive headers the sanitized document is what it was: the same leaves, lists as long, the same names. |
| `TriggerMonitoring.CleanStays` | src/trigger_monitor.rs:247-275 | A document without sensitive headers is left as it is. |
| `TriggerMonitoring.TriggerMonitor.ObserveSubmission` | src/trigger_monitor.rs:166-211 | An observation is queued, or counted as omitted when there is no room or no worker. |
| `TriggerMonitoring.TriggerMonitor.Start` | src/trigger_monitor.rs:123-133 | A new session with fresh counters. |
| `TriggerMonitoring.TriggerMonitor.Stop` | src/trigger_monitor.rs:135-144 | A new disabled session; the omissions not yet reported are returned. |
| `CollectionPages.ListCollection` | src/backend_api/client.rs:55-110 | Against any server, at most the limit's number of pages is requested; success is their items in order within the limit; an error says what was wrong with the last page. |
| `CollectionPages.SuccessIsTheWholeCollection` | src/backend_api/client.rs:55-110 | A fixed, consistently paged collection is returned whole. |
| `ControlIpc.PollReturnsWhatIsOutstanding` | src/service/ipc.rs:114-131 | A poll that does not fail returns Stop exactly when a Stop is outstanding, else Reload exactly when one is, and spends both. |
| `ControlIpc.PollReportsTheLatestError` | src/service/ipc.rs:114-131 | A poll fails exactly when the worker has failed since the poll before, with the latest error. |
| `ControlIpc.AcceptedIsNotLost` | src/service/ipc.rs:219-224 | An accepted command stays outstanding until a poll does not fail. |
| `ControlIpc.ConstantTimeEqual` | src/service/ipc.rs:332-338 | True exactly for equal byte strings of any lengths. |
| `ControlIpc.Handlers.ReapFinished` | src/service/ipc.rs:227-239 | Every handler is asked once whether it has finished, at whatever moment; those that had not are kept and the others joined, in the order asked, and none is lost. |
| `ControlIpc.HexRoundTrip` | src/service/ipc.rs:340-348 | The token's text is twice as long as its bytes and determines them. |
| `ControlIpc.HexEncode` | src/service/ipc.rs:340-348 | The encoding loop gives that text. |

## Left out

- Executor: a completion that arrives while a call drains the channel is the run with the arrival just before the call; the parent cancellation token and the runner itself are not modelled; a worker thread that ends in a panic has sent its completion before, since the runner's panics are caught.
- Executor: job ids, counters and limits are 64-bit; a process that exhausts them stops accepting, as in the source.
- Text input: the character map is any function that returns no modifier key, no caps lock key and only supported modifiers; sending events, reading the keyboard state and the layout are not modelled.
- Dialog broker: windows, the console window and its synchronisation are not modelled; a window event that captured a sender may send at any later time, also after its caller has returned, where the real send fails.
- DialogBroker.DesktopDialogBroker.ActivateNext: stated for one thread that nothing interrupts, with one answer per window; its steps among those of other threads are `DialogModel`'s, and the guarantees over them `DialogGuarantees`'.
- DialogBroker.DesktopDialogBroker.Finish: likewise stated with nothing between the removal and the activation.
- Active runs: the window's `localeCompare` is any order of ids; statements about the order of rows take it to be total, so ids that a locale does not tell apart are left out of them. Snapshots are requested after the listener is in place, and events arrive once and in order.
- Active runs: `run_started` reads the cancellation token twice; the model reads it once. Runs of the window and the registry together stop at revision 2^53; start times and discarded counts, which the window reads as JavaScript numbers too, are taken as exact, as they are up to there.
- Secret vault: keys are numbers and a stored secret is the key it is encrypted under; renaming and removing the key file either happen or fail, and what was written is there after a crash; `Start` does not race a switch, which the source does not rule out either.
- Secret vault: key file format, key derivation and the environment key are not modelled; a keyring entry of the wrong length is a failed read.
- Redaction: `sensitive_label` and the log's storage are modelled only as far as `SanitizeLog` needs them.
- Form dialogs: dates, times, timestamps, `rgb(...)` colors and the slider's step test are parameters; floating-point numbers are reals; parsing of the other field settings, labels and defaults is not modelled; that field keys are unique is taken from `validate_form_field_key`.
- Form dialogs: an optional color field still rejects an empty text, as the source does.
- Update checks: the database, packages, network and version parser are parameters (a version is its place in the order of versions, a real) that answer the same throughout a comparison, and one clock reading serves a whole batch; references are installed ids.
- Quarantine: which entries match a subject is a parameter, so URL, publisher, domain and hash normalisation are not modelled; catalog exclusions, personal blocks, provenance records, cancelling the active runs and saving the cache are left out as easy members.
- CSV export: the JSON format, the file names, failing writes and the atomic replacement of the file, which an error leaves as it was, are not modelled.
- Trigger monitor: each method and each turn of the worker is one step; the loads and stores inside `observe_submission` can interleave with a new session in the source, and the model does not claim anything about that.
- Backend collections: URLs, filters, response size limits and decoding are one reply or one error.
- Control channel: sockets, timeouts and message framing are not modelled.
- Windows, tray, plugins, command wrappers, the background runner's supervisor, configuration files, discovery of packages, audio, clipboard, mouse and screen capture: user interface and foreign calls.
- Command-line parsing, status output, service counters and URL validators: they would add only easy members.
