# EmbyMedia: crash-tolerant protocols, modelled and proved

EmbyMedia moves media between cloud drives, local STRM pointers and an Emby server. Several of its
operations are long sequences of calls any of which may fail, fail after taking effect, or be cut off by a
crash. This project models those operations in Dafny and proves what they keep.

    dafny verify dfyconfig.toml

## What is modelled

- `Cloud`, `ReplacementState`, `Replacement`: the replacement of a Series folder by a complete new copy. The
  copy is staged beside the original, the original goes to a quarantine folder, the copy gets its name, the STRM
  trees are swapped, Emby rescans, user state is restored; on any failure everything is rolled back, as often as
  it takes. Every provider, disk and Emby call may be carried out, fail without effect, or fail after its effect.
- `ImportQueue`: the durable task and import rows and the checkpoints around the operation that should not be
  repeated, saving a Quark share, down to each request of it that is sent. It is a state machine over values because
  a crash may fall between any two steps.
- `ImportPayload`, `ShareSelection`, `ImportDiscovery`: what an import task's payload may say, which objects a save
  made, and the walk that compares them with the manifest.
- `StrmSync`, `StrmVerify`: planning, writing, pruning and verifying STRM pointers, with two concurrent workers
  modelled as every interleaving of their steps.
- `NormalizePlan`, `NormalizeApply`: which duplicate is kept, where an external subtitle goes, and the resumable
  application of a plan by a script that infers where an object is instead of asking.
- `EmbyDeletion`: the preflighted plan behind an Emby deletion and the recycling of its originals.
- `Login`, `Throttles`, `Webhook`, `FileCheckpoint`: four small stateful objects and the laws of their traces.
- `Common` and `Text` hold shared types and string operations.

Where the source updates an object in place, the model is a class whose methods are proved against functions and
predicates on values. Calls to a provider, a disk or Emby are methods whose outcome is arbitrary within their
contract. Two flags bound the outside world. With `quiet` unset, anything may change between two calls, and only
claims about the trace of issued calls remain; with `quiet` set, nobody else interferes and claims about states
hold. With `reliable` set, calls succeed; it appears only in claims that an operation must succeed.

## Results that differ from what one would expect

- Normalisation never moves an object whose planned name is its present name, yet reports it completed: the name
  alone makes the script infer the target folder. `NormalizeApply.SameNameIsNeverMoved` is such a run and
  `NormalizeApply.Script.Lifetime` gives the exact condition. Residual isolation plans such names
  (deploy/scripts/normalize-115-media.py:571-591).
- One task, in one attempt and without a crash, can save the same share more than once: the HTTP helper sends the save
  request up to four times, again after 429 and after every server error, also when Quark had carried it out. The save
  is sent exactly once if and only if its first request is answered otherwise or the run ends before the next one
  (`ImportQueue.OneTaskCanSaveTwice`, `ImportQueue.SentOnceIff`). What the checkpoints do ensure is one such burst per
  task, and none in a retry whose prior task has a row.
- A retry can send the save exactly when the task it retries never reached its import row; with one such retry in
  between, the third generation repeats the first one's save
  (`ImportQueue.RetrySendsIff`, `ImportQueue.ThirdGenerationCanResubmit`).
- After a cutover has begun, a rollback with calls that all succeed still refuses in exactly two situations: the
  staging folder is already gone although its ID is remembered, as after a deletion that took effect but reported
  failure; or a directory nobody recorded stands at the canonical STRM path beside the backup
  (`Replacement.Stuck`, in the contract of `Replacement.RollbackCompletedPack`). Nothing is lost in either. `Replacement.StuckRollback` is such a rollback.
- Two selected files can get the same saved root. For given listings the roots of a valid selection are pairwise
  distinct if and only if the reported IDs were trusted or no new ID is listed with the looks of two of the files; and
  a listing lets some valid selection merge if and only if it shows one ID as two files whose output names differ and
  neither of whose looks it repeats under that ID (`ShareSelection.RootsAreDistinctIff`,
  `ShareSelection.ListingMergesIff`).
- The retry validator alone accepts an unbound selective payload without derived IDs, which the worker refuses
  (`ImportPayload.WorkerAcceptsIff`). No persisted payload is of that kind.
- STRM verification calls a target invalid when its directory really lies outside the media root, even where the
  target itself is missing or leads back inside (`StrmVerify.VerdictIsFullIff`, with a disk in `StrmVerify.VerdictCanDiffer`).
- Both throttles get a time that was read before their lock was taken, so racing threads can hand it over late. If times
  lag by at most d, five attempts per closed interval of length w hold in all runs if and only if w + d is at most 300
  seconds (`Throttles.FivePerWindowIff`, `Throttles.SixInAnInterval`), and twice a rate of three or more bounds a token's
  uses in every half-open interval of length c if and only if c + d is at most a minute (`Throttles.TwoSharesIff`,
  `Throttles.ThreeWindowsInAnInterval`). The times are read at deploy/scripts/http-login.py:312,
  internal/api/routes.go:1079 and internal/mcp/server.go:86-100.
- A token's rate of zero or less still admits one use per window: within that length twice the rate is a bound if and
  only if the rate is positive (`Throttles.TwiceTheRateIff`).
- A user whose creation or deletion could not be written is nevertheless created or deleted in memory, although the
  call reports the failure (`Login.LoginState.CreateUser`, `Login.LoginState.DeleteUser`).
- A staging that yields nothing may leave things behind: in the account one folder with a staging name and whatever was
  received into it, on disk the STRM directory of that name. The account is as it was if and only if every folder made
  was deleted by a deletion that was carried out (`Replacement.WhatStagingLeaves`, in the contract of
  `Replacement.StageCompletedPack`); `Replacement.StagingCanLeave` is a run that leaves a file.
- A checkpoint whose encoding exceeds one mebibyte is saved and acknowledged but never read back
  (`FileCheckpoint.SaveCrashLoad`).

## Model

| member | source | states |
|---|---|---|
| Cloud.Site.ReplacementFolders | internal/service/replacement.go:109-133 | a paged inventory that is accepted is exactly the directory's children, whatever the order and repetition of pages |
| Cloud.Site.CreateReplacementFolder | internal/service/replacement.go:135-160 | an accepted ID is a new empty folder that alone has the name; nothing else changes |
| ReplacementState.InventoryMeaning | internal/service/replacement_state.go:77-126 | an accepted Series inventory gives each row its own key and covers exactly the physical episodes |
| ReplacementState.WriteOrderIsPermutation | internal/service/replacement_state.go:177-189 | the three passes write every recorded state once and none twice |
| ReplacementState.OrderIsTopDown | internal/service/replacement_state.go:175-177 | no state of a higher kind is written after one of a lower kind |
| ReplacementState.TopDownWritesSurvive | internal/service/replacement_state.go:175-189 | even if a write overwrites everything below its item, top-down writes all survive |
| ReplacementState.RestoreOrderSurvives | internal/service/replacement_state.go:169-189 | therefore after the restore order every recorded state holds |
| ReplacementState.ChildFirstCanLose | internal/service/replacement_state.go:175-177 | writing an episode before its Series can lose the episode's state |
| ReplacementState.Emby.Snapshot | internal/service/replacement_state.go:143-167 | the snapshot holds each user's state of each item and nothing else |
| ReplacementState.SnapshotsAreConsistent | internal/service/replacement.go:405-430 | the two snapshots taken before a cutover never give one user and item two states, so nothing written at the end contradicts itself |
| ReplacementState.Emby.Restore | internal/service/replacement_state.go:169-198 | success means every state was read back equal; a state without destination is refused before any write; a faithful Emby never yields a mismatch |
| Replacement.TraceMeaning | internal/service/replacement.go:537-602 | in a safe trace only the original is moved and only the staging folder renamed or deleted, each deletion right after a listing that shows it and, once anything was moved, the original in place |
| Replacement.OneCanonicalName | internal/service/replacement.go:453-459 | in every reachable state at most one library folder has the canonical name |
| Replacement.StagingRenamedBack | internal/service/replacement.go:556-559 | renaming the copy back keeps the cloud invariant |
| Replacement.OriginalMovedBack | internal/service/replacement.go:563-567 | moving the original back keeps the cloud invariant once the copy has its staging name |
| Replacement.StagingDeleted | internal/service/replacement.go:582-598 | deleting the copy keeps the cloud invariant once the original is in the library |
| Replacement.OriginalQuarantined | internal/service/replacement.go:453-456 | moving the original to quarantine keeps the cloud invariant |
| Replacement.StagingPromoted | internal/service/replacement.go:457-459 | giving the copy the canonical name keeps the cloud invariant once the original is away |
| Replacement.RestoreRoots | internal/service/replacement.go:544-581 | names, original folder and STRM tree are put back; with reliable calls it succeeds exactly when not stuck |
| Replacement.DeleteStaging | internal/service/replacement.go:582-599 | the staging folder is deleted only on fresh evidence, and its ID forgotten only once it is gone |
| Replacement.RollbackCompletedPack | internal/service/replacement.go:537-630 | from any point and any number of times: success after a cutover means every recorded user state reads back equal; a second success does nothing; with reliable calls the cloud and disk part succeeds if and only if not stuck |
| Replacement.StuckRollback | internal/service/replacement.go:560-599 | an operation, its cutover undone but for the copy's ID, whose rollback fails although every call succeeds |
| Replacement.RolledBackMeansUndone | internal/service/replacement.go:537-630 | once rolled back, the original is in place under its name, the copy gone, the canonical STRM tree the original one |
| Replacement.VerifyReplacementSeries | internal/service/replacement.go:317-366 | success means one Series with the identity at the right path (two while staged) that physically covers every expected episode without a gap |
| Replacement.PrepareCutover | internal/service/replacement.go:379-453 | a cutover starts only with all old items matched and every user's state recorded before anything moved |
| Replacement.SwapRoots | internal/service/replacement.go:454-476 | success leaves the original in quarantine, the copy under its name, the original STRM tree in the backup |
| Replacement.CarryOver | internal/service/replacement.go:379-495 | if the recorded states hold in the new items, each user's data of each old item is that of its counterpart |
| Replacement.FinalizeCompletedPack | internal/service/replacement.go:368-495 | success: episodes covered, every old item's counterpart has each user's earlier data; failure: rolled back or still recoverable, with the recorded state intact; a faithful and orderly Emby never makes it or its rollback fail by a mismatch |
| Replacement.StageCompletedPack | internal/service/replacement.go:162-298 | staging that yields nothing leaves the original untouched and has moved nothing; what is new in the account is at or below one folder with a staging name, nothing exactly if every folder made was deleted by a deletion that was carried out; what is new on disk is at most the STRM directory of that name |
| Replacement.StagingUndone | internal/service/replacement.go:582-598 | deleting the staging folder takes exactly the folder and what was received into it |
| Replacement.WhatStagingLeaves | internal/service/replacement.go:269-295 | for every outcome of mkdir, receiving and deletion: what is left, and nothing exactly if what was made was deleted |
| Replacement.StagingCanLeave | internal/service/replacement.go:281-295 | a run in which a received file stays behind in the staging folder |
| Replacement.SyncStaged | internal/service/autofill.go:1283-1291 | the library-wide synchronisation before the cutover keeps the invariant and the original's STRM directory |
| Replacement.RunReplacement | internal/service/autofill.go:1133-1162 | over a whole run with its library synchronisation and any number of later rollbacks: the trace is safe and at most one library folder has the canonical name; the outcome is replaced, or the old Series intact with its state, or recovery required with nothing lost |
| Replacement.Recover | internal/service/autofill.go:1147-1162 | repeated rollbacks keep the invariant and never undo a completed one |
| ImportQueue.StepKeeps | internal/service/taskqueue.go:484-580 | every step of queue, worker, crash and restart keeps the invariant |
| ImportQueue.StartKeeps | internal/storage/sqlite.go:907-931 | recovering interrupted tasks at start keeps the invariant |
| ImportQueue.BeginKeeps | internal/storage/sqlite.go:759-800 | claiming a pending task keeps the invariant |
| ImportQueue.CreateRowKeeps | internal/storage/cross_drive.go:14-101 | creating or finding the import row keeps the invariant |
| ImportQueue.CheckPriorKeeps | internal/service/cross_drive_import.go:192-235 | inheriting, refusing or passing on at the prior checkpoint keeps the invariant |
| ImportQueue.OneBurstPerTask | internal/service/cross_drive_import.go:192-267 | over any crashes and restarts all requests of a task's save are one burst of one run: at most four, each but the last answered 429 or by a server error |
| ImportQueue.SendKeepsPosts | internal/service/provider_quark.go:127-155 | one more request of a burst keeps it one burst of at most four |
| ImportQueue.SentOnceIff | internal/service/provider_quark.go:127-155 | whatever happens after the first request of a save, it stays the only one if and only if it was answered neither 429 nor by a server error or the run ends before the next one |
| ImportQueue.OneTaskCanSaveTwice | internal/service/provider_quark.go:141-150 | a run without a crash in which one attempt of one task saves the share twice |
| ImportQueue.RetryInheritsOnly | internal/service/cross_drive_import.go:192-235 | a retry whose prior task has a row never sends the save and knows only the prior task's roots |
| ImportQueue.LineageBurstsOnce | internal/service/cross_drive_import.go:192-267 | if every retried generation reached its row, only the first may have sent the save, at most four requests of it, and all work on its roots |
| ImportQueue.RetrySendsIff | internal/service/taskqueue.go:764-788 | a retry, whenever it is made, can ever send the save if and only if the task it retries never reached its row; it then can without a crash |
| ImportQueue.ThirdGenerationCanResubmit | internal/service/taskqueue.go:776-786 | a run in which the first and the third generation both save |
| ImportPayload.PublicIsGood | internal/service/taskqueue.go:386-415 | every public import that is persisted is valid as a retry's payload, and the worker finds in it the manifest and its IDs in order |
| ImportPayload.AutofillIsGood | internal/service/taskqueue.go:428-433 | so is every bound autofill import |
| ImportPayload.RetriesStayGood | internal/service/taskqueue.go:764-788 | after any number of retries the payload is accepted again and gives the worker the same work |
| ImportPayload.WorkerAcceptsIff | internal/service/cross_drive_import.go:112-131 | a payload the retry validator accepts is refused by the worker exactly when it is unbound, selective and without IDs |
| ShareSelection.SelectShareEntries | internal/service/drive_provider.go:84-126 | success returns the snapshot's file for each ID under distinct output names; failure means no such selection exists |
| ShareSelection.SelectShareSelections | internal/service/drive_provider.go:65-80 | the same, and nothing about a selected leaf changed since it was seen |
| ShareSelection.ResolveSavedRoots | internal/service/provider_quark.go:597-637 | reported IDs are trusted exactly when each is listed and looks like its entry; otherwise the one new look-alike of each entry, or failure if some entry has not exactly one |
| ShareSelection.ResolvedIsListed | internal/service/provider_quark.go:597-637 | every resolved root is listed and looks like its entry |
| ShareSelection.RootsAreDistinct | internal/service/provider_quark.go:597-637 | roots of a valid selection are pairwise distinct when the listing shows each ID once |
| ShareSelection.TrustedAreDistinct | internal/service/provider_quark.go:602-617 | trusted IDs of a valid selection never repeat, whatever the listing |
| ShareSelection.RootsAreDistinctIff | internal/service/provider_quark.go:597-637 | roots of a valid selection are pairwise distinct if and only if the IDs were trusted or no new ID is listed with the looks of two selected entries |
| ShareSelection.ListingMergesIff | internal/service/provider_quark.go:597-637 | some valid selection merges two roots in a listing if and only if the listing shows an ID as two files that can both be selected |
| ShareSelection.OneArrivalIff | internal/service/provider_quark.go:622-634 | an entry has exactly one match if and only if exactly one row is new and looks like it |
| ShareSelection.RepeatedIdMergesRoots | internal/service/provider_quark.go:618-636 | a listing with one ID under two names makes two files one root |
| ImportDiscovery.MeetsAcceptable | internal/service/cross_drive_import.go:604-630 | the walk's fold succeeds exactly when no ID repeats, depth and size are in bounds and leaves match the manifest one to one; it then knows every leaf once |
| ImportDiscovery.Walker.Walk | internal/service/cross_drive_import.go:604-643 | on any listing, cyclic ones included, the walk ends having met exactly the tree below the object |
| ImportDiscovery.AllRootsSeen | internal/service/cross_drive_import.go:641-652 | counting the roots met is enough to know that all are there |
| ImportDiscovery.CompleteWhen | internal/service/cross_drive_import.go:653-662 | the two final checks hold exactly when the leaves are the manifest |
| ImportDiscovery.DiscoverQuarkImport | internal/service/cross_drive_import.go:586-671 | success if and only if the saved trees are finite, small, repeat nothing and have the manifest as their leaves; the items are those leaves |
| ImportDiscovery.SelectionIsDiscoverable | internal/service/cross_drive_import.go:586-663 | a valid exact selection, saved and resolved, is discoverable while its listing holds and shows each ID once |
| StrmSync.PlanSync | internal/service/media.go:532-605 | a plan exists exactly when no renamed source shares a path; each job writes its path's sources in walk order, a renamed one exactly one |
| StrmSync.DoneKeepsFiles | internal/service/media.go:620-640 | one worker's completed write keeps what is known of every file |
| StrmSync.StepKeeps | internal/service/media.go:357-394 | each step of either worker keeps the invariant of files and counters |
| StrmSync.SyncResult | internal/service/media.go:608-663 | for every interleaving a finished run leaves at each path the last source mapping there, touches nothing else, and Created + Updated + Unchanged is the number of sources |
| StrmSync.SyncAgain | internal/service/media.go:608-663 | running again changes no file and creates none |
| StrmSync.RelocationsAreExpected | internal/service/media.go:585-603 | what is relocated is relocated to a path that pruning protects |
| StrmSync.RemovalKeepsReferences | internal/service/media.go:267-309 | removing a stale pointer loses no existing media file |
| StrmSync.OneMorePath | internal/service/media.go:250-320 | earlier removals never change whether a later pointer is stale or replaced |
| StrmSync.StrmTree.Prune | internal/service/media.go:243-322 | pruning removes exactly the stale pointers, in order up to the first failure, and the media files some pointer names stay the same |
| StrmSync.SyncRelocates | internal/service/media.go:585-659 | after a finished run every relocation's canonical pointer is there with the text the old one had |
| StrmSync.PruneAfterSync | internal/service/media.go:667-674 | pruning right after a finished run is never refused by a working file system, loses no referenced media file and keeps the pointer of every source that is the last for its path |
| StrmVerify.SortedIsUnique | internal/service/media.go:486-494 | a sorted list is determined by its elements |
| StrmVerify.AddToSmallest | internal/service/media.go:486-494 | adding to the kept twenty gives the smallest twenty of everything added |
| StrmVerify.VerdictIsFullIff | internal/service/media.go:444-484 | the verdict is that of resolving the whole path exactly when the directory is not outside the root, or the whole path is |
| StrmVerify.VerdictCanDiffer | internal/service/media.go:444-484 | a disk on which a missing target is called invalid |
| StrmVerify.CachedIsFresh | internal/service/media.go:447-452 | a cached directory gives the verdict a fresh resolution gives |
| StrmVerify.StepKeeps | internal/service/media.go:748-800 | each step of either worker keeps the account of counts and findings |
| StrmVerify.VerifyResult | internal/service/media.go:701-806 | for every interleaving Valid, Missing and Invalid are the fresh verdicts' counts, sum to the number of files, and the examples are the smallest twenty findings in order |
| NormalizePlan.ResolveDuplicates | deploy/scripts/normalize-115-media.py:386-404 | of equal bytes the preferred file is kept and the others staged, unless their identities conflict, when none is planned |
| NormalizePlan.DuplicateIsKeptOnce | deploy/scripts/normalize-115-media.py:386-404 | every file staged for recycling has exactly one planned file with its bytes, of the same film or episode |
| NormalizePlan.FindMedia | deploy/scripts/normalize-115-media.py:506-519 | the one longest matching video of the folder, or why there is none |
| NormalizePlan.AugmentSubtitles | deploy/scripts/normalize-115-media.py:492-534 | each unplanned subtitle gets exactly one of an operation or a finding, each justified, and targets stay unique |
| NormalizeApply.Script.CheckGroup | deploy/scripts/normalize-115-media.py:848-878 | a group is refused exactly when some bytes changed, and exactly the objects not inferred in place are to be moved |
| NormalizeApply.MovedStaysPlaced | deploy/scripts/normalize-115-media.py:879-886 | a move request that took effect for any of its objects keeps the placement invariant |
| NormalizeApply.Script.ApplyGroup | deploy/scripts/normalize-115-media.py:845-925 | a group stopped anywhere keeps the invariant; success completes it; with reliable calls and nothing to refuse it succeeds |
| NormalizeApply.Script.Run | deploy/scripts/normalize-115-media.py:793-927 | a run stopped anywhere keeps bytes, other objects and the invariant; success completes every unfinished operation |
| NormalizeApply.Script.Lifetime | deploy/scripts/normalize-115-media.py:684-692 | from any valid plan, fresh or extended, over any crashes and resumes a completed operation is in its planned folder under its planned name if and only if its name was to change or it started there |
| NormalizeApply.FreshPlanIsPlaced | deploy/scripts/normalize-115-media.py:551-595 | a planner's plan is a valid one |
| NormalizeApply.PlanLifetime | deploy/scripts/normalize-115-media.py:684-692 | so from it on bytes and other objects are kept and the same condition holds |
| NormalizeApply.AddedIsPlaced | deploy/scripts/normalize-115-media.py:586-591 | operations not yet started extend any valid plan to a valid one |
| NormalizeApply.Script.AddResiduals | deploy/scripts/normalize-115-media.py:551-595 | residual operations join a plan only when nothing is pending or failed and no object repeats, and keep the placement invariant |
| NormalizeApply.SameNameIsNeverMoved | deploy/scripts/normalize-115-media.py:684-692 | a run that completes an operation whose object never moved |
| EmbyDeletion.ManagedLibraries | internal/service/emby_deletion_sources.go:285-297 | accepted library locations are exactly the pairwise unnested ones |
| EmbyDeletion.BasesNest | internal/service/emby_deletion_sources.go:285-289 | two bases of one path are nested |
| EmbyDeletion.SelectLibrary | internal/service/emby_deletion_sources.go:86-101 | the only library of a path; a second one is never met, so the ambiguity branch is dead |
| EmbyDeletion.Drive.Inventory | internal/service/emby_deletion_sources.go:383-410 | an accepted inventory is exactly the folder's children, with valid and distinct IDs and names |
| EmbyDeletion.Drive.Resolve | internal/service/emby_deletion_sources.go:412-448 | the file at the end of the chain of names below the library's folder |
| EmbyDeletion.BindOriginals | internal/service/emby_deletion_sources.go:169-197 | the targets are the originals, each path and each ID once, native exactly if one of its originals is |
| EmbyDeletion.SortByPath | internal/service/emby_deletion_sources.go:203-203 | the same targets in the order of their paths |
| EmbyDeletion.Prepare | internal/service/emby_deletion_sources.go:59-209 | preparing deletes nothing and plans exactly the originals below the given paths |
| EmbyDeletion.RecycleOne | internal/service/emby_deletion_sources.go:458-496 | a deletion is issued only right after an inventory that shows the planned identity, and counts only once the ID is gone |
| EmbyDeletion.Plan.Recycle | internal/service/emby_deletion_sources.go:453-498 | once in a plan's life: success settles every source as exactly one of recycled and, if native, already absent; failure leaves at most one deletion unflagged |
| EmbyDeletion.RecycledOnce | internal/service/emby_deletion_sources.go:453-498 | the recycled IDs of a plan are pairwise distinct |
| EmbyDeletion.RecycleLifetime | internal/service/emby_deletion_sources.go:453-498 | however often recycling is tried, no ID is deleted twice |
| Login.KeepsAdmin | deploy/scripts/http-login.py:261-285 | an update that passes the guard leaves an enabled administrator |
| Login.RemovalKeepsAdmin | deploy/scripts/http-login.py:293-304 | so does a deletion |
| Login.Open | deploy/scripts/http-login.py:101-133 | the service starts exactly from a configuration with an enabled administrator, in a valid state |
| Login.LoginState.constructor | deploy/scripts/http-login.py:101-133 | a configuration with an enabled administrator is a valid state |
| Login.LoginState.FinishLogin | deploy/scripts/http-login.py:186-201 | a session is issued exactly if the password matches and the verified credentials are still the current, enabled ones |
| Login.LoginState.SessionUser | deploy/scripts/http-login.py:203-231 | an accepted session is no older than the account's last password, role or enabled change |
| Login.LoginState.CreateUser | deploy/scripts/http-login.py:237-257 | a new user is in memory, and on disk exactly if the writing succeeded or the process died after it |
| Login.LoginState.UpdateUser | deploy/scripts/http-login.py:259-291 | what was asked for is applied with a new version exactly if something changed; a change is on disk before it is in memory, and no change is not written; an enabled administrator remains in both |
| Login.LoginState.DeleteUser | deploy/scripts/http-login.py:293-304 | nobody deletes themselves or the last administrator; success is in memory and on disk, failure in memory only unless the process died |
| Throttles.KeptIsLive | deploy/scripts/http-login.py:311-322 | whatever order times come in, the kept list holds exactly the accepted attempts that no attempt handled since has pruned |
| Throttles.InOrderCounts | deploy/scripts/http-login.py:311-322 | for times in order those are all accepted attempts of the window, so pruning forgets nothing that counts |
| Throttles.FivePerWindowIff | deploy/scripts/http-login.py:311-322 | with times that lag by at most d, every closed interval of length w holds at most five accepted attempts in all runs if and only if w + d is at most 300 seconds |
| Throttles.SixInAnInterval | deploy/scripts/http-login.py:311-322 | otherwise a run accepts six in such an interval |
| Throttles.LoginWindow.BeginAttempt | deploy/scripts/http-login.py:311-322 | at any time, also one read before a later one was handled, an attempt is accepted exactly if fewer than five accepted ones still count in the window before it |
| Throttles.TwoSharesPerMinute | internal/security/token.go:67-81 | with times that lag by at most d, any half-open interval of at most a minute less d holds at most two windows' shares of accepted uses |
| Throttles.TwoSharesIff | internal/security/token.go:67-81 | for a rate of three or more, twice the rate bounds every half-open interval of length c in all runs if and only if c + d is at most a minute |
| Throttles.ThreeWindowsInAnInterval | internal/security/token.go:67-81 | otherwise uses of three windows fall in one such interval |
| Throttles.TwiceTheRateIff | internal/security/token.go:67-81 | within that length twice the rate is a bound if and only if the rate is positive |
| Throttles.AgentBucket.Take | internal/security/token.go:67-81 | at any time, also one its caller read before a later one was handled, a use is accepted exactly if its window is over or not used up under the limit of the moment |
| Webhook.Debouncer.Notify | internal/service/webhook.go:44-56 | an accepted notification is pending and its callback armed |
| Webhook.Debouncer.Flush | internal/service/webhook.go:58-72 | everything pending is counted by one flush, even by the callback of a timer stopped too late |
| Webhook.Debouncer.Close | internal/service/webhook.go:75-84 | what is pending is dropped and nothing is accepted after |
| FileCheckpoint.Checkpoint.Load | internal/transfer/checkpoint.go:73-98 | another identity, or a state too long to read, is refused; anything else is read back |
| FileCheckpoint.Checkpoint.Save | internal/transfer/checkpoint.go:53-61 | an acknowledged save is what the file is and stays after any crash; a failed one is either in memory and possibly on file, or left no trace |
| FileCheckpoint.Checkpoint.Crash | internal/transfer/checkpoint.go:100-137 | a crash leaves a content meant at or after the last acknowledged one, never a mixture |
| FileCheckpoint.SaveAll | internal/transfer/checkpoint.go:53-61 | any sequence of acknowledged and failed saves means the file to have the maps of its saves, in order |
| FileCheckpoint.SavesThenCrash | internal/transfer/checkpoint.go:53-137 | after any saves, a crash and a load give the map of some save at or after the last acknowledged one, if it is short enough |
| FileCheckpoint.SaveCrashLoad | internal/transfer/checkpoint.go:53-98 | an acknowledged state is read back after a crash if and only if it is short enough |

## Left out

- Replacement.RunReplacement: inspecting share candidates is reduced to verdicts, resolving the original folder is assumed to have succeeded, and only one Series is replaced per run.
- Replacement.RollbackCompletedPack: deadlines, the waiting for Emby to be idle and the text of errors are not modelled.
- ReplacementState.Emby.Restore: while the operation runs nobody else changes user state, except that a parent write may overwrite anything below its item.
- Cloud.Site.ReplacementFolders: a listing page is arbitrary in order and repetition but, in a quiet world, shows only real children and the true total.
- ImportQueue.OneBurstPerTask: what Quark does with a request is arbitrary; redirects an HTTP client may follow are not modelled.
- ImportQueue.StepKeeps: database transactions are atomic steps; the other task types, downloads, uploads and progress are not modelled, and one worker serves the queue as in the source.
- ImportPayload.PublicIsGood: payload values survive being stored as JSON; an array of source identities is taken as decoded; spaces are trimmed as ASCII.
- ImportDiscovery.DiscoverQuarkImport: each folder's listing is one call and fixed while the walk runs; storing the items one by one is not modelled.
- ShareSelection.SelectShareEntries: names are lowered as ASCII; the results hold for any lowering.
- StrmSync.SyncResult: the canonical path of a source is given; writing a file is one atomic step, as the rename in the source makes it; symbolic links and the creation of parent directories are not modelled.
- StrmSync.StrmTree.Prune: the removal of emptied directories and the mount canary are left out; a pointer's target is a given function of its text.
- StrmVerify.VerifyResult: the file system does not change while a verification runs; progress reports are left out.
- NormalizePlan.ResolveDuplicates: identities, destinations and planned names of films and episodes are given.
- NormalizePlan.AugmentSubtitles: suffixes are lowered as ASCII.
- NormalizeApply.Script.Run: the target folders are already resolved, nobody else changes the account during maintenance as the script requires, and a read shows the present name; the variants that handle only singletons, only duplicates or a mounted file system are left out.
- EmbyDeletion.Prepare: the walk over local files with its refusals is a given function; account selection is left out.
- Login.Open: every listed user carries a session version; the format of names and passwords is not checked.
- Login.LoginState.SessionUser: expiry, clock skew and legacy sessions of version 1 are left out.
- Throttles.TwoSharesIff: for rates one and two only the sufficient half is stated (`Throttles.TwoSharesPerMinute`), since two windows' shares then also bound somewhat longer intervals.
- Throttles.LoginWindow.BeginAttempt: one client key; the dictionary that keeps the keys apart is not modelled, nor, for tokens, the map of buckets.
- Webhook.Debouncer.Flush: the enqueueing of the flushed count and its failure are left out.
- Replacement.FinalizeCompletedPack: that no mismatch arises is claimed of an Emby that stores what it is given and whose scans leave items below their parents.
- Replacement.StageCompletedPack: on disk it is not said when the STRM directory is left, only that nothing else is.
- Replacement.SyncStaged: a STRM directory all of whose pointers became stale would be removed; it is assumed that the original's is not.
- FileCheckpoint.Checkpoint.Persist: creating the directory and removing a stale temporary file are part of the steps that may fail; the encoding's length is a given function.
- HTTP, gRPC and SSH clients, decoding, the web interface and the title heuristics are plumbing or given functions.
- The ingest step's conflict suffix is not derived again on resume, so nothing is claimed of its names.
