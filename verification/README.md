# Amalthea: a verified model

Amalthea runs interactive sessions and batch jobs for Renku on Kubernetes, and on HPC clusters through
FirecREST or Run:AI. This project models the parts of it that keep state, and proves what they promise
over whole runs: any number of steps, any interleaving, crashes, lost answers and user edits included.

`dafny verify dfyconfig.toml` checks everything.

## The parts

**Session life cycle.** `Session` is the custom resource and the status one reconcile computes for it;
its methods follow the operator's loops and assignments and are proved equal to `StatusOf`. `StatusMeaning`
says what each field of a status means in terms of spec and observations. `History` strings reconciles together
and says what the time stamps mean: exactly when a session is hibernated, deleted or declared failed. `Reconciler` is one turn of the reconcile loop with its conflict retry, and `RunIDs`
lets any number of such turns race under optimistic concurrency. `Conditions` is the list of status
conditions, updated in place. `Children` is how StatefulSet, Job, PVC, Service and Ingress are brought in
line with their manifests, `TunnelSecret` the internal secret. `Finalizer` and `Deletion` are adopted
secrets and the finalizer protocol.

**FirecREST.** `LogLines` splits bytes into lines, `LogTail` is the reader that keeps an offset and an
unfinished line across crashes, `Jobs` the saved file that prevents a second submission, and `Firecrest`
the controller object that does all of this.

**Token caches.** `RWLocks` is a machine of threads with writer-preferring read/write locks as in Go's
`sync.RWMutex`, with the theorem that programs which take locks in ascending order never deadlock.
`RefreshTokens` is refresh-token rotation (section 6 of RFC 6749). `TokenStore` (git proxy) and
`RenkuAuth` (remote controller) are programs of that machine, and objects; `RunaiAuth` is the
double-checked cache. In these programs every branch that depends on data is a free choice, so the theorems
hold for every outcome of an expiry check or a request.

**OpenAPI downgrader.** `Downgrader` relates a document to what the tool makes of it, `SchemaMeaning`
says what schemas accept (`anyOf` as in section 10.2.1.2 of JSON Schema 2020-12 Core; `nullable` in a loose reading,
where it lets null through wherever it stands, and in the strict one of section 4.7.24 of OpenAPI 3.0.3), and `DowngraderTool` is the tool itself, on mutable maps.

## What turned out to be false, or true only under a condition

- `maxHibernatedDuration` of zero is documented to mean no deletion
  (api/v1alpha1/amaltheasession_types.go:354-355). For non-interactive sessions it means the opposite:
  `Session.ZeroMaxHibernated` says exactly when such a session goes, and `History.FinishedJobVanishes` is a run in
  which a job that has succeeded goes a second later.
- The non-"v2" client of the remote controller drops the refresh token it is given
  (internal/remote/firecrest/auth/renku.go:233-253). It presents the latest token exactly until the server first
  rotates it (`RenkuAuth.OpenIDPresentsSuperseded`); `RenkuAuth.SecondRefreshIsSuperseded` is a run of two turns.
- "Every request carries the latest refresh token" holds if and only if every outcome that breaks the agreement has
  been followed by one that mends it (`RefreshTokens.InStep`, `RWLocks.RequestsCarryLatest`). Lost answers break it,
  and so does, for "v2", an answer without a refresh token, which the client stores as an empty one.
- A saved file does not survive a crash in the middle of its own rewriting. While no Stop begins, no second job is
  submitted even then (`Jobs.NoSecondSubmission`), but the first one is taken up if and only if every torn save has been
  followed by a whole one (`Jobs.SavedJobIsKept`). A process that dies before that leaves the job beyond reach:
  every later Start fails (`Jobs.TornIsForEver`, with the run `Jobs.JobOutOfReach`).
- An `anyOf` whose only alternatives are `{type: null}` loses null, because nothing is left to carry `nullable`
  (`SchemaMeaning.OnlyNullIsLost`). If `nullable` lets null through wherever it stands, all other choices keep
  their meaning. Section 4.7.24 of OpenAPI 3.0.3 is stricter: `nullable` works only beside a `type`. Then null
  is lost beside alternatives that have no `type` once converted and do not accept null themselves, such as a nested
  choice (`SchemaMeaning.NestedChoiceLosesNull`). `SchemaMeaning.ChoiceKeptIff` has the exact condition of both
  readings for one choice, `SchemaMeaning.KeptThroughoutIff` that of the strict one for a whole schema.
- A well-known label that the operator itself has set can never be changed by it again (`Children.LabelIsStuck`);
  `Children.CleanTwice` says exactly when an earlier manifest leaves no trace.
- `RoutingReady` stays true when hibernation deletes the ingress (`Conditions.RoutingReadyIff`), and the
  reason of `Ready` can name a state the session has left (`Conditions.ReadyIsStreak`); `Conditions.OutdatedConditions`
  is a run that shows both.

## Model

| member | source | states |
|---|---|---|
| `Session.EventsInferredState` | internal/controller/children.go:604-653 | the loop over the pod's events infers exactly what the latest Scheduled and FailedScheduling events and the ten-minute clock call for |
| `Session.LastOfExact` | internal/controller/children.go:618-628 | the event the inference rests on is the last one with its reason, and none means there is none |
| `Session.InferenceExact` | internal/controller/children.go:629-652 | each inference holds if and only if the events themselves say so: a Scheduled event after the last failure, no failure, a first failure, or one ten minutes old |
| `Session.CalculateHibernationDate` | internal/controller/cull.go:101-131 | the loop ends with a date that keeps within the maximum age and the times granted to starting, failing and idling, is one of these limits, and is not set exactly if none is enabled |
| `Session.DateUnique` | internal/controller/cull.go:55-131 | there is one such date only |
| `Session.Earliest` | internal/controller/cull.go:109-131 | the least of the deadlines that are set, unset if and only if all are |
| `Session.EarliestUnique` | internal/controller/cull.go:117-131 | there is one such date only, so the order in which the deadlines are listed does not matter |
| `Session.CheckEvents` | internal/controller/children.go:745-774 | only a NotReady session is judged by its events; state, error and stopwatch after the check |
| `Session.CheckIdleness` | internal/controller/status.go:160-198 | idle means a CPU reading below the threshold, taken of a running session whose container is 15 seconds old, or a job that has ended; what the stopwatch shows after each kind of reading and without one |
| `Session.ComputeStatus` | internal/controller/children.go:777-911 | the assignments of one reconcile add up to `StatusOf`, the scale callback last |
| `StatusMeaning.StateExact` | internal/controller/children.go:528-548 | each state is reported exactly when spec, pod, workload, events and quota call for it |
| `StatusMeaning.ErrorExact` | internal/controller/children.go:745-774 | which error a status carries, and that the warning shows only if nothing is wrong |
| `StatusMeaning.RescalesExact` | internal/controller/children.go:158-175 | the callback fires exactly when the replicas go from zero to one or back |
| `StatusMeaning.IdleExact` | internal/controller/status.go:160-198 | idle flag and stopwatch of an interactive session, by reading, threshold and scaling |
| `StatusMeaning.JobIdleExact` | internal/controller/children.go:822-834 | the same for a batch job, which counts as idle once it has ended |
| `StatusMeaning.DeletionExact` | api/v1alpha1/amaltheasession_children.go:491-511 | when a session is deleted, by state, stopwatches and duration; a job by the earlier of its two |
| `Session.ZeroMaxHibernated` | api/v1alpha1/amaltheasession_children.go:491-511 | with a zero duration an interactive session is never deleted, and a finished non-interactive one as soon as the clock moves |
| `History.FailingSinceIsStreakStart` | internal/controller/children.go:862-869 | in every run `FailingSince` is set exactly when the last status is Failed and not just scaled, and is the time the unbroken streak began |
| `History.HibernatedSinceIsStreakStart` | internal/controller/children.go:853-860 | in every run `HibernatedSince` is set exactly when the last reconcile saw `spec.hibernated`, and is the time the streak began |
| `History.IdleSinceIsStreakStart` | internal/controller/status.go:160-198 | in every run a set `IdleSince` is the time of a reading below the threshold since which no reading was higher or missing and nothing was scaled |
| `History.StreakSetsIdleSince` | internal/controller/status.go:160-198 | and every such stretch of readings does set it, to its own beginning or an earlier one |
| `History.HibernatedExactly` | internal/controller/children.go:528-537 | over any run an interactive session is Hibernated if and only if its spec says so and no quota is exceeded, in which case it is Failed |
| `History.DeletionIff` | api/v1alpha1/amaltheasession_children.go:505-510 | an interactive session is deleted if and only if a duration is set and all reconciles for longer than that saw it hibernated and at rest, with no quota exceeded at the end |
| `History.DeadlineReason` | internal/controller/cull.go:55-99 | every enabled deadline counts from an event that did happen and a condition that has lasted since |
| `History.CullingIff` | internal/controller/cull.go:32-136 | the operator hibernates a session if and only if it is interactive, not asked to hibernate yet, and its earliest enabled deadline has passed; if that is the idle or failing one, the idleness or failure did last |
| `History.DateKeepsLimits` | internal/controller/cull.go:101-131 | over any run the date keeps within the maximum age, the time to start, and the time granted to every failing and every idle stretch that lasts |
| `History.DateSetIff` | internal/controller/cull.go:101-131 | and it is set exactly if one of these limits is enabled |
| `History.FailedSchedulingSinceIsFirst` | internal/controller/children.go:632-652 | a set `FailedSchedulingSince` is the time of a reconcile that found the failure reported, with nothing since that clears it |
| `History.StreakSetsFailedSchedulingSince` | internal/controller/children.go:632-652 | and every such stretch does set it |
| `History.SchedulingFailureIff` | internal/controller/children.go:745-774 | a session fails for lack of a node if and only if the failure is reported once more after ten minutes without a Running, Hibernated or Succeeded status, a scaling or a later Scheduled event |
| `History.RunIDFromBlockStart` | internal/controller/amaltheasession_controller.go:205-214 | the stored run ID is the one drawn when the session last came out of hibernation |
| `History.HibernationClearsRunID` | internal/controller/amaltheasession_controller.go:206-209 | a hibernated reconcile stores no run ID |
| `History.RunIDPerBlock` | internal/controller/amaltheasession_controller.go:205-214 | two reconciles store the same run ID if and only if no hibernated one lies between them |
| `History.FinishedJobVanishes` | api/v1alpha1/amaltheasession_children.go:493-503 | a one-reconcile run after which a succeeded job with zero `maxHibernatedDuration` is deleted a second later |
| `Reconciler.Cluster.DeleteOrHibernate` | internal/controller/amaltheasession_controller.go:261-273 | deletion comes before hibernation, and a session is never both |
| `Reconciler.Cluster.Reconcile` | internal/controller/amaltheasession_controller.go:205-285 | what one turn leaves of spec and status and how it ends, in every combination of child errors, failed write, failed re-read, failed rewrite and failed update of `hibernated` |
| `Reconciler.ReconcileInRun` | internal/controller/amaltheasession_controller.go:129-285 | turns of the loop without conflict make a run, and a turn deletes the session or sets `hibernated` exactly when the run has earned it as `History` says |
| `RunIDs.StepKeepsInv` | internal/controller/amaltheasession_controller.go:236-256 | every step of racing reconciles keeps each worker's run ID in agreement with the latest copy it has read |
| `RunIDs.RunIDStable` | internal/controller/amaltheasession_controller.go:205-256 | in any interleaving, with unconfirmed writes and foreign writes before and after each re-read, a stored run ID is only ever cleared, and only by a reconcile that had read the session as hibernated |
| `RunIDs.RunIDKept` | internal/controller/amaltheasession_controller.go:205-256 | until such a write happens the run ID stays the same |
| `RunIDs.UndisturbedReconcile` | internal/controller/amaltheasession_controller.go:205-256 | an undisturbed reconcile stores no run ID while hibernated, else the old one, else the one it drew |
| `Conditions.Update` | internal/controller/children.go:667-717 | the loop updates the array of the previous status in place, entry by entry, and makes the first two entries if there are none |
| `Conditions.ReadyIsStreak` | internal/controller/children.go:680-693 | over any run `Ready` holds exactly while running; its time and reason are those of the start of the streak |
| `Conditions.RoutingReadyIff` | internal/controller/children.go:694-714 | over any run `RoutingReady` holds if and only if the ingress was found once since one has been asked for without a break |
| `Conditions.RoutingReadyIsStreak` | internal/controller/children.go:694-714 | its time and reason are those of the reconcile that last changed it |
| `Conditions.OutdatedConditions` | internal/controller/children.go:667-717 | a run after which `RoutingReady` holds without an ingress and the reason of `Ready` is out of date |
| `Children.Domain` | internal/controller/children.go:79-81 | the longest part of a key before any slash |
| `Children.WellKnownExact` | internal/controller/children.go:79-83 | a key is well known exactly if its domain is `kubernetes.io` or `k8s.io` or lies below one of them |
| `Children.CleanWellKnown` | internal/controller/children.go:76-95 | the loops over maps, in any order, give the desired entries with present well-known ones kept |
| `Children.CleanTwice` | internal/controller/children.go:76-95 | writing one set of labels and then another equals writing the second alone if and only if it repeats the well-known ones the first added |
| `Children.LabelIsStuck` | internal/controller/children.go:76-95 | a well-known label that the manifest changes and the object keeps |
| `Children.ChildResource.Reconcile` | internal/controller/children.go:97-393 | a missing child is created as desired, a hibernated ingress is removed, a finished job stays, an unknown strategy is refused without a write; otherwise the child is patched as the lemmas below say |
| `Children.ReconcileSettles` | internal/controller/children.go:97-393 | a second reconcile towards the same manifest changes nothing and raises no callback, for every child, strategy and starting point |
| `Children.ManifestWins` | internal/controller/children.go:97-393 | where the strategy applies, every field and label the operator answers for ends up as the manifest has it, and everything else stays as it was |
| `Children.SchedulingFollows` | internal/controller/children.go:158-180 | under any known strategy replicas, suspension, job limits and scheduling follow the manifest, and the callback tells a resume from a suspension |
| `Children.CallbackMatchesStatus` | internal/controller/children.go:158-180 | the StatefulSet's callback and replicas are those the status computation relies on |
| `Children.WellKnownNeverChanges` | internal/controller/children.go:76-95 | over any passes a well-known label of a child that is not deleted keeps its value |
| `Children.UntouchedUnlessApplies` | internal/controller/children.go:176-202 | while the strategy does not apply, labels and everything a pod would be restarted for stay as they are |
| `TunnelSecret.DesiredSecret` | api/v1alpha1/amaltheasession_children.go:779-875 | which entries a freshly generated secret has, for each kind of session |
| `TunnelSecret.InternalSecret.Reconcile` | internal/controller/children.go:271-317 | what one reconcile leaves of the stored secret, with `stringData` merged by the API server |
| `TunnelSecret.WritesExactly` | internal/controller/children.go:276-313 | when nothing is written, and which labels and annotations a write leaves |
| `TunnelSecret.TunnelNeverRotates` | internal/controller/children.go:300-313 | once stored, the tunnel secret stays the same through any reconciles, strategies and failures |
| `TunnelSecret.TunnelIsFirstWritten` | internal/controller/children.go:271-317 | it is the value drawn by the first reconcile that wrote the secret of a remote session, and absent if there was none |
| `TunnelSecret.RestFollowsWish` | internal/controller/children.go:300-313 | all other entries are those of the latest write, nothing stale among them |
| `Finalizer.AdoptedSecrets` | api/v1alpha1/amaltheasession_children.go:594-667 | the loops collect the adopted secrets in the order in which they are deleted |
| `Finalizer.AdoptedExact` | api/v1alpha1/amaltheasession_children.go:594-667 | a secret is listed if and only if some part of the spec adopts it |
| `Finalizer.LeftExact` | internal/controller/amaltheasession_controller.go:287-306 | whatever goes wrong in between, exactly those secrets are gone whose own delete call did its work |
| `Finalizer.Namespace.DeleteSecrets` | internal/controller/amaltheasession_controller.go:287-306 | all secrets are tried even after an error: each is gone exactly if its own call did its work; success if and only if none was refused, and then none is left |
| `Deletion.SweptSecretsWereAbsent` | internal/controller/amaltheasession_controller.go:287-306 | in any interleaving, a sweep without refusals has seen each secret absent after it read the resource |
| `Deletion.SecretsGoFirst` | internal/controller/amaltheasession_controller.go:174-203 | the operator removes its finalizer only after every secret the spec adopts was absent while the resource was already being deleted and named it |
| `Deletion.FinalizerHolds` | internal/controller/amaltheasession_controller.go:167-203 | a resource with the finalizer disappears only when the operator releases it or a user strips the finalizer |
| `Deletion.FinalizerIsRegistered` | internal/controller/amaltheasession_controller.go:164-172 | a session with adopted secrets gets the finalizer |
| `Deletion.DeletionCompletes` | internal/controller/amaltheasession_controller.go:174-203 | an undisturbed reconcile of a session being deleted removes all its secrets and lets it go |
| `LogLines.SplitKeepsText` | internal/remote/firecrest/controller.go:689-729 | lines and remainder put together again are the bytes read |
| `LogLines.SplitUnique` | internal/remote/firecrest/controller.go:689-729 | there is no other way to cut bytes into whole lines and an unfinished one |
| `LogLines.ChunksDoNotMatter` | internal/remote/firecrest/controller.go:689-729 | lines and remainder do not depend on how the bytes were cut into fetches |
| `LogTail.IncarnationInOrder` | internal/remote/firecrest/controller.go:670-730 | through growth, fetches, errors and crashes the saved offset is at a line start, and an incarnation prints all lines from where it began to where it is, in order |
| `LogTail.PassedInOrder` | internal/remote/firecrest/controller.go:710-729 | each printed line stands in the file right after the one before |
| `LogTail.ResumesAtLastSave` | internal/remote/firecrest/controller.go:819-877 | a restarted reader begins exactly where the last save left it, with an empty buffer |
| `LogTail.EmissionsExact` | internal/remote/firecrest/controller.go:819-877 | a line has come out once if it was passed, and once more for each crash that threw the reader back over it, never otherwise |
| `LogTail.ExactlyOnce` | internal/remote/firecrest/controller.go:587-616 | if crashes come right after saves, every passed line came out exactly once |
| `LogTail.CatchesUp` | internal/remote/firecrest/controller.go:670-689 | from any point of a run, while the file does not grow and the reader does not crash, each full fetch reads 512 KB more until the end, whatever saves and failed fetches lie between |
| `Jobs.OrphansBounded` | internal/remote/firecrest/controller.go:142-152 | jobs submitted but not cancelled are at most one plus the Starts that ended unsaved and the Stops that did not cancel |
| `Jobs.NoSecondSubmission` | internal/remote/firecrest/controller.go:142-152 | once a file was written, torn or not, no process submits another job until a Stop begins |
| `Jobs.SavedJobIsKept` | internal/remote/firecrest/controller.go:332-373 | until a Stop begins no process works on another job, and a new process takes the saved one up if and only if every torn save was followed by a whole one |
| `Jobs.TornIsForEver` | internal/remote/firecrest/controller.go:849-877 | after a crash over a torn file nothing changes any more: every Start fails |
| `Jobs.JobOutOfReach` | internal/remote/firecrest/controller.go:819-842 | a run of five steps that ends there with its job still running |
| `Firecrest.Controller.StreamsToFetch` | internal/remote/firecrest/controller.go:662-668 | no file is read twice, and none of the two is left out |
| `Firecrest.Controller.FetchLogStream` | internal/remote/firecrest/controller.go:670-730 | prints the complete lines of kept and new bytes, keeps the rest, moves the offset over the lines, leaves the other stream alone |
| `Firecrest.Controller.FlushLines` | internal/remote/firecrest/controller.go:710-729 | the loop prints each complete line once, in order, and loses no byte |
| `Firecrest.Controller.SaveState` | internal/remote/firecrest/controller.go:819-842 | what each way of ending a write leaves on disk |
| `Firecrest.Controller.RecoverState` | internal/remote/firecrest/controller.go:849-877 | everything saved comes back; a missing file changes nothing, a torn one is an error |
| `Firecrest.Controller.Start` | internal/remote/firecrest/controller.go:142-379 | submits exactly if nothing was recovered, and on success leaves a file that a restart recovers |
| `Firecrest.Controller.Stop` | internal/remote/firecrest/controller.go:381-407 | the saved file goes even if the cancel fails; without a job nothing happens |
| `Firecrest.FetchIsATailStep` | internal/remote/firecrest/controller.go:670-730 | the method's effect on a stream is a step of `LogTail`, so its theorems apply |
| `Firecrest.StartInWorld` | internal/remote/firecrest/controller.go:142-379 | a Start, however it ends, lost answers included, is a sequence of steps of `Jobs`, so the bound on orphans holds for it |
| `Firecrest.StopInWorld` | internal/remote/firecrest/controller.go:381-407 | so is a Stop |
| `Firecrest.SaveThenRestart` | internal/remote/firecrest/controller.go:819-877 | saving and restarting brings back job, both paths and both offsets, and submits nothing |
| `Expiry.PassesExactly` | internal/utils/token.go:12-19 | a token passes exactly if it has more than the margin left, or no expiry where none is required; ten seconds for cached access tokens |
| `RWLocks.NoDeadlock` | internal/git-https-proxy/tokenstore/tokenstore.go:76-168 | threads that take read/write locks only in ascending order never deadlock, new writers blocking new readers |
| `RWLocks.LocksExclude` | internal/git-https-proxy/tokenstore/tokenstore.go:76-265 | while one thread writes no other holds the lock, and while a writer waits nobody begins to read |
| `RWLocks.NeverTwoLocks` | internal/remote/firecrest/auth/renku.go:143-326 | programs that take one lock at a time never hold two |
| `RWLocks.CallsEnd` | internal/git-https-proxy/tokenstore/tokenstore.go:76-265 | over any run a call takes at most twice as many steps as its longest way has instructions, whatever other threads do |
| `RWLocks.RequestsCarryLatest` | internal/git-https-proxy/tokenstore/tokenstore.go:176-265 | in every interleaving a refresh request carries the latest token if and only if the answers before it left the client in step |
| `RWLocks.OneRequestAtATime` | internal/git-https-proxy/tokenstore/tokenstore.go:176-245 | two refresh requests are never under way together |
| `RefreshTokens.AnsweredKeepsConsistent` | internal/remote/firecrest/auth/renku.go:233-297 | for all four clients and every outcome, one answer keeps the client in step exactly when `InStep` says so |
| `RefreshTokens.StaysInStep` | internal/git-https-proxy/tokenstore/tokenstore.go:176-245 | without lost answers, and with a token in each where it is stored blindly, three clients stay in step |
| `RefreshTokens.InStepAfter` | internal/remote/firecrest/auth/renku.go:233-297 | what each outcome does to being in step, for all four clients |
| `RefreshTokens.InStepWithoutStoring` | internal/remote/firecrest/auth/renku.go:233-253 | the client that drops tokens is in step if and only if none has been issued |
| `TokenStore.ProgramsDisciplined` | internal/git-https-proxy/tokenstore/tokenstore.go:76-265 | the store takes the git lock before the renku lock, re-enters neither, and exchanges the token only under the renku write lock |
| `TokenStore.StoreNeverDeadlocks` | internal/git-https-proxy/tokenstore/tokenstore.go:76-265 | with any number of callers and refreshers, an unfinished call or the one in its way can go on |
| `TokenStore.RefreshUnderBothLocks` | internal/git-https-proxy/tokenstore/tokenstore.go:103-245 | a run in which a caller holds both write locks while its refresh request is under way |
| `TokenStore.RefreshFromTimeToTime` | internal/git-https-proxy/tokenstore/tokenstore.go:247-265 | a run of the periodic refresh, under the renku lock alone |
| `TokenStore.StorePresentsLatest` | internal/git-https-proxy/tokenstore/tokenstore.go:176-265 | no superseded refresh token is presented, given that no answer is lost and, for "v2", each carries a token |
| `TokenStore.Store.RefreshRenku` | internal/git-https-proxy/tokenstore/tokenstore.go:176-245 | which refresh token is kept after each answer, by client version |
| `TokenStore.Store.GetValidRenku` | internal/git-https-proxy/tokenstore/tokenstore.go:150-168 | a good token costs no request, an unreadable one is an error, an expired one is replaced first |
| `TokenStore.Store.GetGit` | internal/git-https-proxy/tokenstore/tokenstore.go:76-148 | when a git token is handed out, which one, and that other providers' tokens survive |
| `RenkuAuth.ProgramsDisciplined` | internal/remote/firecrest/auth/renku.go:143-326 | locks are taken in ascending order only, never again while held, and the exchange is under the renku write lock |
| `RenkuAuth.NeverBothLocks` | internal/remote/firecrest/auth/renku.go:143-326 | over any run no caller holds the two locks together |
| `RenkuAuth.AccessRefreshedUnderLock` | internal/remote/firecrest/auth/renku.go:163-183 | a run in which a caller asks FirecREST for a token, under the access lock |
| `RenkuAuth.AuthNeverDeadlocks` | internal/remote/firecrest/auth/renku.go:143-326 | callers and the periodic refresh never deadlock |
| `RenkuAuth.V2PresentsLatest` | internal/remote/firecrest/auth/renku.go:255-326 | the "v2" client presents the latest token exactly while in step |
| `RenkuAuth.OpenIDPresentsSuperseded` | internal/remote/firecrest/auth/renku.go:233-253 | in every interleaving the other client presents the latest token if and only if the server has not issued one before |
| `RenkuAuth.SecondRefreshIsSuperseded` | internal/remote/firecrest/auth/renku.go:233-253 | a run of the periodic refresh whose second request carries the superseded token |
| `RenkuAuth.Auth.RefreshRenku` | internal/remote/firecrest/auth/renku.go:233-297 | what each answer leaves of both tokens, the half-stored answer of "v2" included |
| `RenkuAuth.Auth.GetAccess` | internal/remote/firecrest/auth/renku.go:143-231 | when a token is handed out, from which exchange, and what is kept after an error |
| `RunaiAuth.StepKeepsInv` | internal/remote/runai/auth/client_credentials.go:97-141 | every step of racing callers keeps the answered requests spaced and the last answer in the cache or with the writer |
| `RunaiAuth.NextRefreshWaits` | internal/remote/runai/auth/client_credentials.go:116-141 | after a non-empty token no caller asks for another until ten seconds before it expires |
| `RunaiAuth.HandedOutIsGood` | internal/remote/runai/auth/client_credentials.go:97-114 | a caller goes away with the cached token exactly if it has no expiry or more than ten seconds left |
| `RunaiAuth.SecondLookIsGood` | internal/remote/runai/auth/client_credentials.go:116-141 | the same at the second look, where the alternative is a request |
| `RunaiAuth.RefreshRateBounded` | internal/remote/runai/auth/client_credentials.go:97-141 | n refreshes whose tokens last at least E seconds take at least (n - 1) * (E - 10) seconds, however many callers race |
| `RunaiAuth.Auth.RefreshAccessToken` | internal/remote/runai/auth/client_credentials.go:116-141 | the second look spares the request if the token has become good; a failed request changes nothing |
| `RunaiAuth.Auth.GetAccessToken` | internal/remote/runai/auth/client_credentials.go:97-114 | a good token costs no request, otherwise the answer decides |
| `Downgrader.ResultsConvertible` | tools/openapi_spec_downgrader/main.go:78-175 | only documents that `Convertible` admits have a result |
| `Downgrader.HasResult` | tools/openapi_spec_downgrader/main.go:78-175 | and every such document has one |
| `Downgrader.FieldsOf` | tools/openapi_spec_downgrader/main.go:93-117 | a map without `anyOf` keeps its keys, each value converted on its own |
| `Downgrader.ChoiceFieldsOf` | tools/openapi_spec_downgrader/main.go:93-117 | a map with `anyOf` loses no field and gets none made up, whether or not the one alternative left is merged in |
| `Downgrader.ItemsOf` | tools/openapi_spec_downgrader/main.go:119-143 | a list keeps every item but the nulls, in order; if there was a null, each item differs from the converted one in `nullable` alone |
| `Downgrader.ResultsClean` | tools/openapi_spec_downgrader/main.go:93-175 | no array in a result holds a `{type: null}` and no `anyOf` is a list of one map, at any depth |
| `Downgrader.CleanStays` | tools/openapi_spec_downgrader/main.go:93-175 | the only result of a clean document is itself |
| `Downgrader.Idempotent` | tools/openapi_spec_downgrader/main.go:78-175 | downgrading a result again succeeds and changes nothing, whatever the map order |
| `SchemaMeaning.MeaningKept` | tools/openapi_spec_downgrader/main.go:78-175 | every value is accepted by the result if and only if the input accepts it: always in the loose reading of `nullable`, and in the strict one if no choice loses its null |
| `SchemaMeaning.ChoiceKeptIff` | tools/openapi_spec_downgrader/main.go:119-143 | a choice whose parts keep their meaning keeps its own if and only if its null is not lost, in either reading |
| `SchemaMeaning.NullLost` | tools/openapi_spec_downgrader/main.go:119-143 | if it is lost, the input accepts null and the result does not |
| `SchemaMeaning.KeptThroughoutIff` | tools/openapi_spec_downgrader/main.go:78-175 | in the strict reading a schema and all schemas in it keep their meaning if and only if no choice among them loses its null |
| `SchemaMeaning.NestedChoiceLosesNull` | tools/openapi_spec_downgrader/main.go:119-143 | null beside a nested choice: kept in the loose reading, lost in the strict one |
| `SchemaMeaning.OnlyNullIsLost` | tools/openapi_spec_downgrader/main.go:119-143 | null as the only alternative is lost in both readings |
| `SchemaMeaning.ListAccepts` | tools/openapi_spec_downgrader/main.go:119-131 | a list accepts what its alternatives other than null accept, and null if that is one of them |
| `SchemaMeaning.KeptAccept` | tools/openapi_spec_downgrader/main.go:119-131 | what is left after dropping the null alternatives accepts what the others accepted |
| `SchemaMeaning.ResultShape` | tools/openapi_spec_downgrader/main.go:93-117 | a converted schema has a `type` exactly if it had one, or its one alternative other than null has |
| `SchemaMeaning.MarkedAccept` | tools/openapi_spec_downgrader/main.go:132-143 | marking those that are left gives null back if and only if one of them can carry it or accepts it |
| `SchemaMeaning.MergedAccepts` | tools/openapi_spec_downgrader/main.go:103-112 | merging the one alternative into its parent accepts what the list accepted |
| `DowngraderTool.TransformNode` | tools/openapi_spec_downgrader/main.go:78-91 | succeeds if and only if the document is convertible, with a result made of new maps only and the input untouched |
| `DowngraderTool.TransformMap` | tools/openapi_spec_downgrader/main.go:93-117 | the same for a map whose keys come in any order |
| `DowngraderTool.TransformArray` | tools/openapi_spec_downgrader/main.go:119-143 | the same for an array, whose items are made nullable in place |
| `DowngraderTool.RepUnique` | tools/openapi_spec_downgrader/main.go:78-91 | a value on the heap stands for one document only, so the contracts fix the result |
| `DowngraderTool.IsNullSchema` | tools/openapi_spec_downgrader/main.go:145-151 | recognises a `{type: null}` on the heap |
| `DowngraderTool.SetNullable` | tools/openapi_spec_downgrader/main.go:153-161 | sets `nullable: true` and leaves every other key as it is; fails exactly on what is not a map, and then changes nothing |
| `DowngraderTool.SimplifyAnyOf` | tools/openapi_spec_downgrader/main.go:163-175 | an error exactly if the value is not a list; a map to merge exactly if it is a list of one map |

## Left out

- Kubernetes client, caches, watches, defaulting and admission: get, create, patch, update and delete are
  abstract steps. A child's `rest` field stands for everything the operator writes only on creation.
- Time is whole seconds. One clock reading stands for all readings within one status computation; deletion and
  hibernation look at the clock again, later.
- `History` lists reconciles of a resource that is not being deleted; those that failed before writing a status
  are not rounds, so a scale callback that got lost with one of them appears as no scaling.
- What the pod, volume, service, ingress and Job say is wrong is one arbitrary message, and fixed error texts are
  shortened; container counts, URL,
  metrics and log output are not modelled.
- The StatefulSet that a reconcile finds is arbitrary in every round of `History`, so its theorems hold for
  clusters in which others scale it too.
- Deletion of non-interactive sessions: only `NeedsDeletion` and the zero duration; no history is claimed for it.
- Reconciler.Cluster.Reconcile: does not model the metrics or the requeue interval, and treats the API server's
  answer to the delete call as success.
- Deletion: one object; its re-creation under the same name between two reads is not modelled.
- Children.ChildResource.Reconcile: API calls succeed; a mutation with the wrong type, which the callers rule
  out, is a precondition.
- The choices in the lock programs are free; that a program takes the branch its data call for is in the
  contracts of the objects, which describe undisturbed calls.
- RenkuAuth.Auth.RefreshRenku: a readable "v2" token without an expiry claim, on which the code dereferences
  nil, is not modelled.
- The FirecREST client-credentials cache, which does not look twice; the refresh bound does not hold for it.
- HTTP, JSON, YAML and JWT decoding: answers are arbitrary values. A log chunk is the byte slice asked for.
- Firecrest.Controller.Start: what happens before the submission (directories, uploads, scripts) either works or
  fails as a whole; `fakeStart` is off.
- The job's status polling, and with it the ticker; the status loop's saves are steps of `Jobs` and `LogTail`.
- SchemaMeaning.MeaningKept: covers typed schemas with `items` and `properties` and nested choices whose
  siblings are annotations; `$ref`, `oneOf`, `allOf`, a property named `anyOf` and `nullable` in the input are
  not covered, because the tool treats all arrays alike and map order decides collisions.
- Manifest templating, data-source volumes, the proxies, the tunnel, git commands and command-line handling.
