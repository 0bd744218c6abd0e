# flanforge, verified

A Dafny 4.11 model of the decision cores of `flanforged`, the daemon that turns Forgejo job requests
into one-job virtual machines, with proofs about them. Check it with `dafny verify dfyconfig.toml`.

The model covers four groups.

- **The allocation manager** (`Allocations`, `VmNames`, `History`, `Machine*`, `Lifecycle`). `Machine`
  is a state machine at lock granularity: requests, reloads, workers, operator cancels, updates beside
  an owner and one shutdown interleave freely, stores and cleanups fail freely, workers unwind and
  operators' requests are dropped. A run is any sequence of steps; it is *serial* when every update of
  an allocation is issued by the one worker or cancel that owns it. The other `Machine*` modules are
  about its runs: who is let in, who owns what, what is stored and shown, how work ends and what a
  shutdown awaits and reports. `Lifecycle` holds the same operations as the source writes them, as
  classes whose methods update fields in place. `History` relates the sort-and-remove pruning to a
  one-at-a-time form.
- **Fast forms and the simple forms they agree with** (`Glob`, `RequestHead`, `Expand`, `Jobs`,
  `Runners`). Each loop is a method proved against a recursive or declarative definition.
- **Shared-state protocols** (`KeyCache`, `LogHub`, `Logging`, `EditProtocol`), as state machines whose steps are
  the stretches between awaits or locks.
- **Edits of the configuration tree** (`Document`), as a lens on trees, and the narrowing to editable
  leaves.

The store, the backend, the provider, the socket, the clock and the environment are parameters: an
oracle for each write or cleanup, an event for each answer, a time for each reading.

## What the code does not keep

Ten properties one would expect hold only under a condition. Each has a concrete run or input, and the
exact condition over all runs or inputs.

- *No two live allocations share a machine.* A reload that changes `runtime.vm_prefix` or repoints a
  profile at another repository can break it, since names are built from the configuration a request
  read (`MachineRuns.ChangedPrefixSharesMachine`, `MachineRuns.RepointedProfileSharesMachine`). Exactly
  when: `MachineIdentity.SharedMachineExactly`; never while reloads keep both:
  `MachineRuns.NoSharedMachine`.
- *A finished allocation stays finished.* It does while updates of one allocation do not overlap
  (`MachineRuns.RunOnward`). Otherwise a stale value, the owner's or another's, can revive it. Exactly
  when: `MachineIdentity.RevivedExactly`.
- *An attempt has one live allocation.* The same stale value ends this if the attempt has another live
  allocation by then. Exactly when: `MachineIdentity.UniqueLostExactly`.
- *Store and entry agree when no update is in flight.* An owner dropped inside or after its save leaves
  them apart; a save it was waiting for can land after everything later. Exactly when:
  `MachineRuns.UpdatesAreAllOrNothing`. An operator's cancel that is dropped is never taken up again:
  `MachineProgress.DroppedForGood`.
- *The shutdown report lists every failed cleanup.* It lists those recorded before the leaks are taken,
  and awaited work that is unfinished when the entries are looked at. A failure between the two locks,
  or of work a cancel took up after the snapshot, is missed. Exactly when:
  `MachineReport.ReportExactly`.
- *Key fetches start 30 seconds apart.* The interval is counted from the stamp written before the
  request. Exactly when: `KeyCache.DistanceNeedsPromptness`.
- *Jobs of other runs cannot affect selection.* Below Forgejo v16, where jobs carry no run, they can.
  Exactly when: `Jobs.WhenDecoysChangeNothing`.
- *Edits form a chain.* A change made without the lock is overwritten by the writer that read before it:
  a hand edit, or the rename of a caller that was dropped inside it, which lands after the lock is free.
  Exactly when: `EditProtocol.ChainedExactly`, `EditProtocol.WhenEditsAreLost`. A directory sync that
  fails reports an error for an edit that is already in place, and a token is good again once its text
  is.
- *A head the peer has sent is seen.* Bytes sent ahead, before the write that begins the next wait, are
  not looked at. Exactly when: `RequestHead.NextHeadMissedExactly`.
- *Clearing an absent key changes nothing.* In memory it creates the tables on the way to it:
  `Documents.ClearIsIdleExactly`. In the file these do not show, unless they are part of a value:
  `Documents.ClearUnseenExactly`.

Two comments in the source disagree with the code, and the code is followed. The glob documentation
(crates/flanforge-utils/src/lib.rs:49) speaks of characters where the matcher works on bytes, so `?`
is one byte. The comment on a job's run (crates/flanforge-forgejo/src/models.rs:125-127) says selection
refuses to bind without one, and selection skips the filter instead.

## Model

| member | source | states |
|---|---|---|
| `Allocations.SameAttemptIsEquality` | crates/flanforge-core/src/allocation/model.rs:67-72 | two requests are the same attempt exactly when repository, run, attempt and profile all agree |
| `Allocations.LifecycleIsMonotone` | crates/flanforge-core/src/allocation/state.rs:22-44 | a transition goes one place on, into Cleaning from anything unfinished, over Booting for a claimed machine or over Ready for a running job, and nowhere else; so it only moves forward and leaves no terminal state |
| `Allocations.AppliedAdvances` | crates/flanforge-core/src/allocation/model.rs:181-206 | a change is refused exactly for a transition or a runner id that cannot be; otherwise it sets its own field and the time and nothing else, keeps the identity, and never leaves a terminal state |
| `VmNames.DecimalIsInjective` | crates/flanforge-manager/src/resolve.rs:18-27 | two numbers with one decimal spelling are equal |
| `VmNames.VmTextReads` | crates/flanforge-manager/src/resolve.rs:18-27 | a name is prefix and profile, then digits that read back as the run, then digits that read back as the attempt |
| `VmNames.NamesAreRefusedExactly` | crates/flanforge-manager/src/resolve.rs:18-27 | for a valid request the name is refused exactly when it is over 80 characters or the prefix holds or begins with a character no name may |
| `VmNames.SharedVmName` | crates/flanforge-manager/src/resolve.rs:18-27 | two names coincide exactly when run, attempt and the text prefix plus profile coincide, whatever dashes and digits the parts contain |
| `VmNames.VmNameIsInjective` | crates/flanforge-manager/src/resolve.rs:18-27 | under one prefix the name determines profile, run and attempt |
| `VmNames.PrefixChangeCanCollide` | crates/flanforge-manager/src/resolve.rs:18-27 | under two prefixes it does not: a pair of requests that are not the same attempt and share a name, for every run and attempt |
| `History.KeptIsPruning` | crates/flanforge-manager/src/state.rs:198-219 | dropping the oldest finished record until the limit is met keeps every unfinished one, leaves exactly max(limit, unfinished) when over the limit and everything otherwise, and every record dropped is older than every finished one kept |
| `History.PruningIsUnique` | crates/flanforge-manager/src/state.rs:198-219 | only one set of ids has those properties, so map iteration order cannot show |
| `History.OlderIsUpdatedFirst` | crates/flanforge-manager/src/state.rs:215 | the order is by time of update, then of creation, then by id, earlier first |
| `History.OldestGo` | crates/flanforge-manager/src/state.rs:198-219 | a record that is dropped was finished, and was updated no later than any finished one that stays; of equals the one created first goes, then the smaller id |
| `History.SortByAge` | crates/flanforge-manager/src/state.rs:198-219 | the same records, ascending in update time, then creation time, then id |
| `History.PruneTerminalHistory` | crates/flanforge-manager/src/state.rs:198-219 | the collect, sort and remove loops leave exactly the entries of the one-at-a-time form: everything unfinished, and of the finished those updated last |
| `MachineSafety.SavedBeforeSeen` | crates/flanforge-manager/src/state.rs:172-193 | in every run, with any number of overlapping updates, aborted workers and failing stores, every value an entry or its watch channel holds was saved first |
| `MachineSafety.NextOwned` | crates/flanforge-manager/src/state.rs:164-193 | every step of the manager without overlapping updates keeps each allocation with at most one owner, consistent with what that owner is doing, and moves it only forward |
| `MachineIdentity.RunGenuine` | crates/flanforge-manager/src/state.rs:172-193 | in every run, overlapping updates included, entry, channel, store and every value in flight under an id belong to the allocation created under it, named after the prefix read for it |
| `MachineIdentity.SharedMachineExactly` | crates/flanforge-manager/src/resolve.rs:18-27 | in every run, whatever it reloads and when, two resident allocations share a machine name exactly when run and attempt agree and prefix plus profile, as they were when each was requested, spell the same text |
| `MachineIdentity.RevivedExactly` | crates/flanforge-manager/src/state.rs:172-193 | from every state and over every step, a finished entry becomes live exactly when the step publishes, for the owner or beside it, an unfinished value over it |
| `MachineIdentity.UniqueLostExactly` | crates/flanforge-manager/src/state.rs:172-193 | from every reachable state with at most one live allocation per attempt, a step ends that exactly when it publishes, for the owner or beside it, an unfinished value over a finished entry while the attempt has a live allocation |
| `MachineIdentity.CommitKeys` | crates/flanforge-manager/src/service.rs:248-312 | create inserts at most one entry, and only while admission is open and no live entry has the same attempt; the entry is new, live, and named after the prefix its request read; of the others only finished ones change, which may be dropped |
| `MachineIdentity.CommitInserts` | crates/flanforge-manager/src/service.rs:248-312 | create does insert unless it is closed, refused, without a name, unsaved or under an id in use, or a live allocation agrees in repository, run, attempt and profile; and what a new entry, its store row and its worker are |
| `MachineSafety.DrivenOwned` | crates/flanforge-manager/src/lifecycle.rs:85-146 | every step of a worker, of teardown or of an operator's cancel, under any store and cleanup outcome and wherever it is dropped, keeps that ownership invariant |
| `MachineSafety.TrimmedOnlyFinished` | crates/flanforge-manager/src/state.rs:198-219 | trimming after a create removes only finished entries and changes no other |
| `MachineSafety.CommitOwned` | crates/flanforge-manager/src/service.rs:248-312 | the locked section of create keeps the invariant and changes no live allocation |
| `MachineRuns.RunOwned` | crates/flanforge-manager/src/state.rs:172-193 | the ownership invariant holds after every serial run |
| `MachineRuns.RunOnward` | crates/flanforge-manager/src/lifecycle.rs:85-146 | along every serial run states are never revisited, a finished allocation is never live again, and supervision once given up is never regained |
| `MachineRuns.OneLivePerAttempt` | crates/flanforge-manager/src/service.rs:473-490 | in every serial run at most one live allocation exists per run attempt; it follows from the exact condition, since an owner publishes only over its own live entry |
| `MachineAdmission.NobodyComesInUnauthorized` | crates/flanforge-manager/src/service.rs:335-390 | in every run, however it reloads, each allocation was asked for by a valid request, and a configuration in force at some point, the one its name takes the prefix from, pins the profile to that repository |
| `MachineAdmission.HistoryIsBounded` | crates/flanforge-manager/src/state.rs:198-219 | after an insertion there are at most as many entries as the limit, or all of them are live |
| `MachineAdmission.RerunsAreSeparate` | crates/flanforge-core/src/allocation/model.rs:67-72 | a run for every request and other attempt: both attempts are live, each with a machine of its own |
| `MachineStore.AbandonedSavesAreConserved` | crates/flanforge-manager/src/state.rs:172-193 | in every run the abandoned saves of an allocation are exactly those that landed since and those that still may, with multiplicity |
| `MachineStore.BesideShows` | crates/flanforge-manager/src/state.rs:172-193 | an update beside the owner that nothing comes between changes store, entry and channel to the edited value, or none of them when its save fails |
| `MachineRuns.StrandedExactly` | crates/flanforge-manager/src/state.rs:172-193 | in every run the mark of a stranded value is set exactly when an abandoned save landed, at any time, or an owner was dropped after its save, and no owner wrote since; it is the last such value |
| `MachineRuns.UpdatesAreAllOrNothing` | crates/flanforge-manager/src/state.rs:172-193 | in every serial run, whenever no update is in flight, channel and entry agree and the store differs exactly when such a stranded value does, abandoned saves that land late included; a save that fails changes none of the three |
| `MachineRuns.CleanedByCleanup` | crates/flanforge-manager/src/lifecycle.rs:148-176 | an allocation is marked cleaned only by an attempt of its own that was under way in the run and succeeded |
| `MachineRuns.SuccessNeedsCleanup` | crates/flanforge-manager/src/lifecycle.rs:85-146 | in every serial run, Completed or Cancelled stands in store, entry or channel only if an attempt to clean up that allocation was under way at an earlier step and succeeded there |
| `MachineRuns.NoSharedMachine` | crates/flanforge-manager/src/service.rs:248-312 | in every serial run whose reloads keep the prefix and each profile's repository, two live allocations with one machine name are one allocation |
| `MachineRuns.ChangedPrefixSharesMachine` | crates/flanforge-manager/src/service.rs:248-312 | changing the prefix under a live allocation yields two live allocations of different profiles with one machine name |
| `MachineRuns.RepointedProfileSharesMachine` | crates/flanforge-manager/src/service.rs:335-390 | repointing a live profile at another repository yields two live allocations with one machine name |
| `MachineSolo.ClosingReaches` | crates/flanforge-manager/src/lifecycle.rs:126-146 | from the phase after cleanup of an entry in Cleaning, one working save can reach the terminal state with store, entry and channel equal and no owner left |
| `MachineOverlap.TeardownReaches` | crates/flanforge-manager/src/lifecycle.rs:62-146 | a worker that returns from any unfinished state can drive its allocation to Completed, or Cancelled once signalled, with store, entry and channel equal |
| `MachineOverlap.CancelReaches` | crates/flanforge-manager/src/operator/control.rs:39-75 | an operator's cancel of unfinished work can be carried to Cancelled, by its worker or, when nobody owns it, by the cancel itself |
| `MachineProgress.TeardownEnds` | crates/flanforge-manager/src/lifecycle.rs:62-146 | from every reachable state in which an owner is past the worker's return, and over every continuation with anything between its steps and anything failing, it makes fewer than 33 moves while it owns the allocation |
| `MachineProgress.NeverStuck` | crates/flanforge-manager/src/lifecycle.rs:85-146 | such an owner always has a next move, so every schedule that goes on driving it sees it released |
| `MachineProgress.AttemptsAreAccounted` | crates/flanforge-manager/src/lifecycle.rs:148-176 | over every interleaving, an owner is past cleanup only after at least one attempt, makes at most three and at most one once a shutdown has begun, and gives up only after the third failed or the one a deadline allows |
| `MachineProgress.NoneAfterSuccess` | crates/flanforge-manager/src/lifecycle.rs:148-176 | in every run, after an attempt succeeded its owner makes no other while it keeps the allocation |
| `MachineOutcome.DecisionIsKept` | crates/flanforge-manager/src/lifecycle.rs:62-140 | in every serial run, once work is finished: Cancelled exactly when the token was signalled at the decision and a cleanup succeeded since, Completed exactly when the worker returned well, the token was not and a cleanup succeeded, Failed in every other case |
| `MachineOutcome.EndIsRemembered` | crates/flanforge-manager/src/teardown.rs:71-98 | over every interleaving, a worker that returned an error or was dropped has that noted first, and the decision is about how it ended |
| `MachineProgress.DroppedForGood` | crates/flanforge-manager/src/operator/control.rs:39-75 | once an operator's cancel was dropped, no serial run takes the allocation up again: its entry stays unfinished, claimed and unchanged, and so does the store unless an abandoned save of before lands |
| `MachineProgress.DroppedCancelSplitsTheRecord` | crates/flanforge-manager/src/operator/control.rs:39-75 | a serial run in which a cancel dropped between save and publish leaves the store in Cleaning and the entry in Requested with nothing in flight |
| `MachineProgress.LateSaveRewindsTheStore` | crates/flanforge-manager/src/state.rs:172-193 | a serial run in which a dropped worker's save lands last: the entry is Failed, nobody owns it, and the store says Preparing |
| `MachineOverlap.OverlapRevivesFinishedWork` | crates/flanforge-manager/src/state.rs:172-193 | one overlapping update suffices: a run that ends with two live allocations of one attempt |
| `MachineShutdown.ClosedForGood` | crates/flanforge-manager/src/service.rs:248-251 | once shutdown has begun, no step of any run inserts an entry, and shutdown is never undone |
| `MachineShutdown.SnapshotCoversSupervised` | crates/flanforge-manager/src/shutdown.rs:125-160 | in every serial run, every live supervised allocation after the locked section is in the awaited snapshot |
| `MachineSnapshot.SnapshotExactly` | crates/flanforge-manager/src/shutdown.rs:125-147 | in every serial run, shutdown awaits an allocation exactly when it is resident and unfinished and a worker or an operator owns it or an operator's cancel of it was dropped; each once, and exactly those are signalled |
| `MachineSnapshot.ShutdownStarts` | crates/flanforge-manager/src/shutdown.rs:125-147 | from every state before a shutdown there is an order in which it starts |
| `MachineShutdown.CollectedKeeps` | crates/flanforge-manager/src/shutdown.rs:200-222 | an id is in the report exactly when it was recorded before the first lock or is awaited and unfinished under the second; no id is listed twice and recorded leaks come first |
| `MachineShutdown.ReportIsComplete` | crates/flanforge-manager/src/shutdown.rs:125-222 | the report of every serial run lists no id twice and every awaited id still unfinished; when the wait saw every awaited entry terminal it lists every bounded cleanup failure among the awaited ones |
| `MachineReport.LeakedExactly` | crates/flanforge-manager/src/shutdown.rs:227-233 | in every run, until they are taken, the recorded leaks are those of the steps that recorded one |
| `MachineReport.ReportExactly` | crates/flanforge-manager/src/shutdown.rs:200-222 | in every run with a report, an id is listed exactly when a failed cleanup of it was recorded before the take, or it was awaited and still unfinished at the collection |
| `MachineReport.LeaksNameTheirMachine` | crates/flanforge-manager/src/shutdown.rs:48-60 | in every run each listed leak has the machine, the repository and the runner of its allocation, in a state that was saved, and none is listed as unfinished that was finished |
| `MachineReport.LeakedSinceTaken` | crates/flanforge-manager/src/shutdown.rs:200-206 | after a take the record starts over: it holds exactly what was recorded since |
| `MachineTimeout.TimedOutReportMissesFailure` | crates/flanforge-manager/src/shutdown.rs:200-222 | after a timed-out wait a serial run can end with an empty report although the bounded cleanup of an awaited allocation failed between the two locks |
| `MachineTimeout.UnawaitedFailureIsNotReported` | crates/flanforge-manager/src/operator/control.rs:39-75 | a serial run with a complete wait and an empty report although a bounded cleanup failed and its allocation is unfinished: a cancel took it up after the snapshot |
| `Lifecycle.AllocationManager.constructor` | crates/flanforge-manager/src/service.rs:156-184 | a new manager is empty, open and consistent |
| `Lifecycle.AllocationManager.Update` | crates/flanforge-manager/src/state.rs:172-193 | store, entry and channel all take the edited value, or all keep the old one; which of the errors is returned, and whether a write was made |
| `Lifecycle.AllocationManager.EnsureCleaning` | crates/flanforge-manager/src/state.rs:164-170 | one write for unfinished work not yet in Cleaning and none otherwise; no other entry changes |
| `Lifecycle.AllocationManager.CleanupWithRetries` | crates/flanforge-manager/src/lifecycle.rs:148-176 | it stops at the first success and fails after exactly three attempts, or one under a deadline; a failure is recorded as a leak exactly under a deadline |
| `Lifecycle.AllocationManager.RecordLeak` | crates/flanforge-manager/src/shutdown.rs:227-233 | unless one of that allocation is listed, a leak with its id, state, repository, machine and runner is appended |
| `Lifecycle.AllocationManager.EnsureTerminal` | crates/flanforge-manager/src/lifecycle.rs:85-146 | for every pattern of failures: finished work is left alone without a cleanup; otherwise attempts are made as above, Ok names the recorded state and is returned exactly when the last write went through, a state other than Failed is written only after a successful cleanup, and an exhausted one is noted on the record if its own write went through |
| `Lifecycle.AllocationManager.TearDown` | crates/flanforge-manager/src/lifecycle.rs:99-146 | the same for work found unfinished, from the first cleanup on |
| `Lifecycle.AllocationManager.CleanAndNote` | crates/flanforge-manager/src/lifecycle.rs:99-121 | the cleanup attempts, the leak they may leave, and the note of an exhausted one on the record, with nothing else of it changed |
| `Lifecycle.AllocationManager.Conclude` | crates/flanforge-manager/src/lifecycle.rs:122-146 | the requested state is recorded exactly when the last write went through; otherwise the entry stays unfinished |
| `Lifecycle.AllocationManager.FinishWorker` | crates/flanforge-manager/src/lifecycle.rs:62-83 | for unfinished work whose last write went through: Completed exactly when the worker returned well, the token was not signalled and the last cleanup succeeded, Cancelled exactly when it was signalled and the cleanup succeeded, Failed otherwise |
| `Lifecycle.AllocationManager.ReleaseSupervision` | crates/flanforge-manager/src/lifecycle.rs:56-60 | supervision ends and nothing else changes |
| `Lifecycle.AllocationManager.NoteExit` | crates/flanforge-manager/src/teardown.rs:79-86 | a worker's error is on the record exactly when there was one and its write went through, and nothing else of the record changes |
| `Lifecycle.AllocationManager.RunTeardown` | crates/flanforge-manager/src/teardown.rs:71-98 | a worker's teardown of an unfinished entry makes its cleanup attempts, leaves the state of FinishWorker or an unfinished entry if the last write failed, and the note of the worker's or the cleanup's failure; it ends supervision and touches no other entry |
| `Lifecycle.AllocationManager.Idempotent` | crates/flanforge-manager/src/service.rs:473-490 | the search finds a live allocation whose request agrees in repository, run, attempt and profile exactly when there is one |
| `Lifecycle.AllocationManager.Create` | crates/flanforge-manager/src/service.rs:248-312 | a closing manager refuses; a predecessor is returned exactly when a live request agrees in repository, run, attempt and profile; otherwise exactly when the name, then the store, fails; a predecessor and an error change nothing; what a new record holds, and that history is trimmed as pruning allows |
| `Lifecycle.AllocationManager.Insert` | crates/flanforge-manager/src/service.rs:295-311 | the new entry is resident with its channel, and what stays resident is what pruning allows |
| `Lifecycle.AllocationManager.Close` | crates/flanforge-manager/src/shutdown.rs:125-147 | the loop notes exactly the entries that are in no terminal state and are supervised or being terminalized, each once, and signals exactly their tokens: the locked step of the state machine |
| `Lifecycle.AllocationManager.CollectLeaks` | crates/flanforge-manager/src/shutdown.rs:200-222 | the loop computes the report of MachineShutdown.CollectedKeeps and empties the record |
| `Lifecycle.WorkerTeardown.EnsureFinished` | crates/flanforge-manager/src/teardown.rs:34-40 | teardown starts if the claim is still there, takes it, and leaves what the worker's result and the token call for |
| `Lifecycle.WorkerTeardown.Drop` | crates/flanforge-manager/src/teardown.rs:43-59 | teardown starts if the claim is still there and a runtime is, as after a failed worker; otherwise nothing changes |
| `Lifecycle.WorkerScope` | crates/flanforge-manager/src/teardown.rs:17-59 | over the whole scope of a worker, returned or unwound, teardown starts exactly once while there is a runtime for it; the state is Completed only for one that returned well, and otherwise as for FinishWorker |
| `Glob.StarIsAnySuffix` | crates/flanforge-utils/src/lib.rs:47-52 | a leading star matches exactly when the rest of the pattern matches some suffix |
| `Glob.LaterStarSubsumes` | crates/flanforge-utils/src/lib.rs:55-82 | once a second star is reached, whatever giving the first one more bytes could match the second matches too; one backtrack point is enough |
| `Glob.IsGlobMatch` | crates/flanforge-utils/src/lib.rs:55-82 | the iterative matcher decides the recursive meaning for all byte strings in at most (length of value + 1) * (length of pattern + 1) rounds |
| `Glob.IsOnlyStars` | crates/flanforge-utils/src/lib.rs:79-82 | the rest of the pattern is all stars exactly when it matches nothing |
| `Glob.MatchesIsSplitting` | crates/flanforge-utils/src/lib.rs:47-52 | a pattern matches exactly the values that split into one piece per pattern byte, any bytes for a star and one fitting byte otherwise |
| `Glob.LiteralMatchesOnlyItself` | crates/flanforge-utils/src/lib.rs:47-52 | a pattern without wildcards matches only itself |
| `Glob.PrefixMigration` | crates/flanforge-config/src/retired.rs:7-11 | a wildcard-free prefix followed by a star accepts exactly the values that start with it |
| `Glob.QuestionMarksCountBytes` | crates/flanforge-utils/src/lib.rs:55-82 | a pattern of question marks matches exactly the values of that many bytes |
| `RequestHead.ScannedFinds` | crates/flanforge-router/src/listener.rs:137-149 | the matcher completes in a read exactly when the terminator is contiguous in everything read by its end; its restart rule loses and invents no match |
| `RequestHead.SplittingDoesNotMatter` | crates/flanforge-router/src/listener.rs:137-149 | however a stream is cut into reads, the head is complete exactly when the terminator (section 2.1 of RFC 9112) is in the concatenation |
| `RequestHead.FirstCompleteRead` | crates/flanforge-router/src/listener.rs:174-182 | the first read to complete the head is the one in which the terminator first appears |
| `RequestHead.RunRefines` | crates/flanforge-router/src/listener.rs:92-195 | over every sequence of reads, empty polls and writes the connection answers exactly as one that remembers every byte |
| `RequestHead.ReadsNeverExtend` | crates/flanforge-router/src/listener.rs:153-183 | until a write, a connection is done waiting exactly when the terminator is in what it was given since it began to wait; until then it keeps its deadline and refuses every poll, with bytes ready or not, from that moment on |
| `RequestHead.OneHeadTracks` | crates/flanforge-router/src/listener.rs:137-149 | over every stretch for one head, with reads splitting it anywhere and writes moving its deadline, it is complete exactly when the terminator is in what was given since the wait began |
| `RequestHead.NextHeadMissedExactly` | crates/flanforge-router/src/listener.rs:97-149 | for every connection that begins to wait for a head, and all its polls up to the write that begins the next wait and after it: the next head is complete exactly when its terminator came after the write, never early, and the connection waits for one the peer has sent in full exactly when its terminator starts in bytes given before the write and none lies in those after it |
| `RequestHead.HeadSentAheadIsMissed` | crates/flanforge-router/src/listener.rs:97-149 | two heads in one read, an answer and silence: the connection is closed although the second head is there |
| `RequestHead.HeadDeadline.IsComplete` | crates/flanforge-router/src/listener.rs:137-149 | the loop over the bytes computes the match |
| `RequestHead.BoundedStream.PollRead` | crates/flanforge-router/src/listener.rs:153-183 | a poll for input takes the connection and its answer to the next state |
| `RequestHead.BoundedStream.PollWrite` | crates/flanforge-router/src/listener.rs:92-114 | a write moves the deadline, or arms it for a next head that ends quietly |
| `Expand.PairFound` | crates/flanforge-config/src/expand.rs:34-36 | the search returns the first occurrence, or none exists |
| `Expand.CutSpelled` | crates/flanforge-config/src/expand.rs:29-66 | well-formed pieces, spelled out and cut again, are the same pieces |
| `Expand.SpelledCut` | crates/flanforge-config/src/expand.rs:29-66 | an unbroken cut is well-formed and spells the string it was cut from |
| `Expand.NamesAreRefusedExactly` | crates/flanforge-config/src/expand.rs:68-76 | between the braces exactly the names are accepted that are not empty, hold only letters, digits and underscores, and do not begin with a digit |
| `Expand.FallbackStandsIn` | crates/flanforge-config/src/expand.rs:48-55 | for every name, fallback and environment: the value, or the fallback when that is unset or empty, within the limit |
| `Expand.OverflowIsFinal` | crates/flanforge-config/src/expand.rs:56-58 | a prefix already over the limit cannot belong to an expansion within it |
| `Expand.ExpandString` | crates/flanforge-config/src/expand.rs:29-66 | Ok(s) exactly when the expansion without a limit is s and s is at most 65536 bytes; the early exit changes which error is reported but never which inputs succeed, and the size error is raised in exactly the stated cases |
| `Expand.OnlyNamesMatter` | crates/flanforge-config/src/expand.rs:29-66 | environments that agree on the names a string mentions give the same result, text or error, size error included |
| `Expand.ReplacementIsVerbatim` | crates/flanforge-config/src/expand.rs:48-55 | for every string of well-formed pieces: it expands exactly when no variable without a fallback is unset, and names the first one otherwise; each placeholder's stretch of the result is the variable's value, or the fallback when that is unset or empty, copied and never expanded again |
| `Jobs.NotRejected` | crates/flanforge-forgejo/src/jobs.rs:199-217 | the checks in their order let through exactly the job that waits under the authorized name, for this label alone, with fields of the right shape |
| `Jobs.SelectJobHandle` | crates/flanforge-forgejo/src/jobs.rs:100-152 | nothing exactly when no job is admitted; a handle exactly when one job is, and it is well formed, has the authorized name, the status waiting and this label alone; an error otherwise |
| `Jobs.FromRun` | crates/flanforge-forgejo/src/jobs.rs:116-119 | the filter keeps exactly the jobs of the signed run, as often as they were listed |
| `Jobs.SelectionIsUnique` | crates/flanforge-forgejo/src/jobs.rs:100-152 | the multiset of listed jobs determines the answer, so order cannot |
| `Jobs.SelectionExists` | crates/flanforge-forgejo/src/jobs.rs:100-152 | every listing has an answer |
| `Jobs.DecoysChangeNothing` | crates/flanforge-forgejo/src/jobs.rs:110-122 | while another job publishes a run, jobs of other runs in any number leave the answer as it was |
| `Jobs.WhenDecoysChangeNothing` | crates/flanforge-forgejo/src/jobs.rs:110-152 | exactly when they do, over all listings: there are none, or the listing publishes a run, or nothing is listed and they do, or neither publishes and the listing was fatal already |
| `Jobs.OneDecoyUndoesAnUnpublishedJob` | crates/flanforge-forgejo/src/jobs.rs:110-122 | a listing without runs in which one job of another run hides the waiting job, and one without a run makes it ambiguous |
| `Runners.DeleteRunnersNamed` | crates/flanforge-forgejo/src/client.rs:151-189 | some number of pages is read in full; an unreadable page or a malformed match deletes nothing; otherwise every match, by a positive id, is deleted in order until the first refusal, and success means an empty page was seen |
| `Runners.ReadPages` | crates/flanforge-forgejo/src/client.rs:160-178 | the page loop collects the ids of exactly the pages before the one that stopped it |
| `Runners.Collect` | crates/flanforge-forgejo/src/client.rs:169-177 | the matches of a page in order, or none of them when one is malformed |
| `Runners.DeleteAll` | crates/flanforge-forgejo/src/client.rs:179-181 | every id is deleted in order, or the first refusal stops it |
| `Runners.IdsAreExact` | crates/flanforge-forgejo/src/client.rs:169-177 | an id is deleted exactly when a listed runner of the name has it |
| `Runners.FixedListing` | crates/flanforge-forgejo/src/client.rs:151-189 | over any fixed listing and page size with deletes succeeding: exactly the matches of the first ten pages are deleted, with success exactly when the listing fills at most nine |
| `Runners.ReconciliationIsUnique` | crates/flanforge-forgejo/src/client.rs:151-189 | the responses determine the pages read, the ids deleted and the answer |
| `KeyCache.Choose` | crates/flanforge-auth/src/oidc.rs:165-190 | a key is chosen exactly when it is the only one of its id in the set and is an RS256 signature key that may verify (sections 4.2 to 4.5 of RFC 7517); otherwise which rejection |
| `KeyCache.DecodingKey` | crates/flanforge-auth/src/oidc.rs:162-193 | the cached set decides if it knows the id, the refreshed one otherwise, and the id is unknown exactly when both lack it |
| `KeyCache.OidcVerifier.Keys` | crates/flanforge-auth/src/oidc.rs:74-106 | for a caller alone: when the provider is asked, what the cache and the stamp become, which set is handed out or which error is returned; never a set past its lifetime, cooldown or not |
| `KeyCache.AloneAsVerifier` | crates/flanforge-auth/src/oidc.rs:74-106 | a caller that nobody contends with gets from the protocol what the verifier gives: a cached set, a refusal or the provider's answer, and when |
| `KeyCache.NextSound` | crates/flanforge-auth/src/oidc.rs:74-117 | every step of any number of callers, in any order and abandoned anywhere, keeps stamps spaced, fetches paced and every returned set genuine |
| `KeyCache.RunSound` | crates/flanforge-auth/src/oidc.rs:74-117 | that holds after every run |
| `KeyCache.FetchesAreSpaced` | crates/flanforge-auth/src/oidc.rs:82-99 | in every run stamps are 30 seconds apart, and a request sent some delay after its stamp is followed by none for 30 seconds less that delay |
| `KeyCache.OneRequestAtATime` | crates/flanforge-auth/src/oidc.rs:78-99 | in every run at most one caller is past the refresh lock |
| `KeyCache.KeysAreGenuine` | crates/flanforge-auth/src/oidc.rs:74-117 | in every run a set handed out is non-empty, came from the provider, was read within its lifetime, and is no newer than the cache; a forced caller's is under 30 seconds old or it was refused within 30 seconds of an attempt; a key chosen is the only one of its id in such a set; an id is unknown only after a forced look |
| `KeyCache.RefusedOnlyWithoutKeys` | crates/flanforge-auth/src/oidc.rs:83-95 | in every run a caller is refused for the cooldown only within 30 seconds of an attempt and with no set within its lifetime cached |
| `KeyCache.CacheMovesByStoring` | crates/flanforge-auth/src/oidc.rs:99-105 | in every run the cache changes only when the lock's holder stores a non-empty answer; a failed, empty or abandoned fetch leaves it |
| `KeyCache.RequestsCanBeCloser` | crates/flanforge-auth/src/oidc.rs:96-99 | for every delay a run in which two requests come exactly that much closer than 30 seconds |
| `KeyCache.DistanceNeedsPromptness` | crates/flanforge-auth/src/oidc.rs:96-99 | requests stay 30 seconds apart after one sent with a given delay, in all runs, exactly when the delay is zero |
| `Logging.LogHub.constructor` | crates/flanforge-logging/src/hub.rs:40-49 | a new hub has logged nothing |
| `Logging.LogHub.Append` | crates/flanforge-logging/src/hub.rs:59-75 | the locked half numbers the line by its place in the log and keeps the last 1000: one step of the state machine |
| `Logging.LogHub.Send` | crates/flanforge-logging/src/hub.rs:76 | the unlocked half hands a pending line to the channel: one step of the state machine |
| `Logging.LogHub.Push` | crates/flanforge-logging/src/hub.rs:53-77 | undisturbed, the two halves log and send one line |
| `Logging.LogHub.Subscribe` | crates/flanforge-logging/src/hub.rs:82-90 | the tail is the end of the log, of the length asked for up to 1000; undisturbed, it is the machine's subscription followed by its snapshot |
| `LogHubs.TailIsContiguous` | crates/flanforge-logging/src/hub.rs:82-90 | the tail is an unbroken stretch of the log ending where the snapshot was taken |
| `LogHubs.EveryLineOnce` | crates/flanforge-webui-routes/src/sse.rs:109-132 | a line logged after the snapshot is seen exactly once from its send on; a line of the tail exactly once though the channel may carry it too; nothing older than a non-empty tail; older lines at most once after an empty one |
| `LogHubs.RunTaken` | crates/flanforge-logging/src/hub.rs:82-90 | in every run a reader that has its tail took it at one point of the log, after which its subscription misses nothing |
| `LogHubs.RunsLoseNothing` | crates/flanforge-webui-routes/src/sse.rs:109-132 | over every interleaving of appends, sends, subscription and snapshot, every line from the tail's first on that has been sent is seen exactly once |
| `LogHubs.NothingTwice` | crates/flanforge-webui-routes/src/sse.rs:109-132 | in every run the reader sees no line twice, whatever the order of sends |
| `Documents.ApplySucceeds` | crates/flanforge-config/src/edit.rs:200-222 | a change is refused exactly when a value stands where a table is needed |
| `Documents.GetChanged` | crates/flanforge-config/src/edit.rs:200-235 | the changed path reads as the new value, or as nothing after Clear |
| `Documents.GetElsewhere` | crates/flanforge-config/src/edit.rs:200-235 | every path neither a prefix nor an extension of it reads as before |
| `Documents.GetOnTheWay` | crates/flanforge-config/src/edit.rs:210-221 | every proper prefix of the path is a table afterwards |
| `Documents.ChangesCommute` | crates/flanforge-config/src/edit.rs:200-235 | two changes of incomparable paths give the same tree, or fail, in either order |
| `Documents.OrderDoesNotMatter` | crates/flanforge-config/src/edit.rs:134-146 | pairwise incomparable changes give the same tree, or fail, in every order |
| `Documents.ParsedLeaves` | crates/flanforge-config/src/document.rs:113-114 | writing and reading back keeps exactly the values at every path |
| `Documents.ClearIsIdleExactly` | crates/flanforge-config/src/edit.rs:200-222 | in memory, Clear changes nothing exactly when the key is absent from a table that is there |
| `Documents.ClearUnseenExactly` | crates/flanforge-config/src/edit.rs:210-216 | what is written stays as it was exactly when Clear meets nothing printed and creates no table inside a value |
| `Documents.ClearCanCreateTables` | crates/flanforge-config/src/edit.rs:210-216 | clearing guest.ssh.host_key_alias creates tables in memory that are not written, except below an inline table |
| `Documents.FitsByKind` | crates/flanforge-config/src/edit.rs:173-198 | a value fits a key exactly by the key's kind, and only an optional key may be cleared |
| `Documents.ApplyEdits` | crates/flanforge-config/src/edit.rs:134-146 | every key is editable and fits and the result is all changes applied, or the first key that fails is named and why |
| `Documents.RetainEditable` | crates/flanforge-config/src/edit.rs:253-272 | the walk with its path stack computes the narrowed tree |
| `Documents.RetainedLeaves` | crates/flanforge-config/src/edit.rs:253-272 | the view's leaves are exactly the document's leaves whose full path is editable, with their values |
| `Documents.RetainedIsFull` | crates/flanforge-config/src/edit.rs:253-272 | no table below the root of the view is empty |
| `Documents.LeavesDetermineTree` | crates/flanforge-config/src/edit.rs:253-272 | two trees with the same leaves and no empty table below the root are equal, so the two facts above fix the view |
| `Documents.RetainTwice` | crates/flanforge-config/src/edit.rs:253-272 | narrowing twice is narrowing once |
| `EditProtocol.AcquireBlocking` | crates/flanforge-config/src/lock.rs:45-71 | the lock is taken at the first of fifty tries that finds it free; the two errors say that the file cannot be opened and that no try did |
| `EditProtocol.ConfigDocument.Save` | crates/flanforge-config/src/document.rs:113-136 | the file becomes the text exactly when it parses, is valid or lacks only environment with valid profiles, and the rename went through; the document follows exactly when the directory was synced too |
| `EditProtocol.NextSound` | crates/flanforge-config/src/edit.rs:128-158 | every step, late renames of dropped callers included, keeps the lock exclusive and every link's token naming the text it was computed from |
| `EditProtocol.AloneAsEdit` | crates/flanforge-config/src/edit.rs:128-149 | a writer left to itself: the edit is in place exactly when the file was readable, the token named it, the result was valid and the rename went through; reported as done exactly when synced too; the lock is free again in every case |
| `EditProtocol.LockComesBack` | crates/flanforge-config/src/lock.rs:21-36 | in every run the lock is held by a writer at work, and is free again, with the file as it was, if that one gives up |
| `EditProtocol.OnlyRenamesWrite` | crates/flanforge-config/src/edit.rs:128-158 | in every run the file changes by a hand edit, by the lock's holder, or by the late rename of a dropped caller, the last two with a token that named what they read; a writer short of its rename has left nothing |
| `EditProtocol.RefusalWritesNothing` | crates/flanforge-config/src/edit.rs:128-158 | every step but a hand edit and a rename leaves the file as it was: a refusal, an invalid result, a failed rename, and a writer that gives up or is dropped, until a late rename lands |
| `EditProtocol.ChainedExactly` | crates/flanforge-config/src/storage.rs:58-82 | in every run the replacements form one chain exactly when no step was a rename, the holder's or a late one, over a text other than the one it was computed from |
| `EditProtocol.EditsFormAChain` | crates/flanforge-config/src/edit.rs:59-66 | in every run whose hand edits and late renames keep clear of the lock, a late rename finding its text, each replacement was computed from exactly the text its predecessor left |
| `EditProtocol.OneTokenOneText` | crates/flanforge-config/src/edit.rs:151-158 | of two edits with one token the second went through exactly because the text before it was back; for neighbours the first left it unchanged |
| `EditProtocol.WhenEditsAreLost` | crates/flanforge-config/src/lock.rs:14-17 | with hand edits and late renames at any time, a rename replaces the text its token names exactly when none of them followed its read or the last one put the text back |
| `EditProtocol.HandEditCanBeLost` | crates/flanforge-config/src/lock.rs:14-17 | a run in which a hand edit under the lock is overwritten and the chain breaks |
| `EditProtocol.DroppedRenameBreaksTheChain` | crates/flanforge-config/src/storage.rs:77-80 | a run of two writers and no hand edit: a dropped caller's rename lands under the second writer, which overwrites it, both with a valid token |
| `EditProtocol.TokenOutlivesAnEdit` | crates/flanforge-config/src/edit.rs:93-104 | a run in which an edit made with an old token goes through because the text is back |

## Left out

- Signature and claim checking, JWT decoding, the SHA-256 digest, TOML parsing and printing: library code. The digest is taken as injective and documents as plain trees.
- HTTP routing, the web UI, the command line and the example clients: plumbing settled branch by branch.
- VM backends, guests and process control: a cleanup attempt succeeds or fails as an oracle says.
- Admission capacity, the hot pool, warm images and the reaper: a commit step carries whether it was admitted.
- Recovery after a restart: runs start from an empty manager.
- The updates of source, clone source, retention and capacity: they keep the state as the modelled ones do.
- A second call of shutdown, and the runtime ending under a teardown that has started, or a panic inside one, which leave the entry supervised with nobody driving it.
- Time budgets of single cleanup attempts: under a deadline there is one attempt, whenever it ends.
- A create dropped between its save and its insert: recovery takes such rows up after a restart.
- `expand_value`: it applies `expand_string` to every string of a tree.
- Update in place of configuration trees: tables are values without aliases, and decoration and key order are not part of them.
- The lag of a slow log reader, who is told of the gap, and the level and target filters, which drop the same lines from tail and stream.
- Runner and job records are strings of characters where the source counts bytes in some limits.
- Widths of counters: sequence numbers and times are unbounded.
- Lifecycle.AllocationManager.EnsureTerminal: one call at a time, so its re-reads find nothing new; the interleavings are in MachineRuns and MachineProgress.
- KeyCache.OidcVerifier.Keys: one caller at a time and one clock reading for its checks; the interleavings are in KeyCache.NextSound.
- MachineOverlap.TeardownReaches: says that the terminal state can be reached when saves work; that every schedule ends is MachineProgress.TeardownEnds.
- MachineOverlap.CancelReaches: the same, for a cancel of work a worker is doing or nobody owns.
- MachineSolo.ClosingReaches: the same, for the last write alone.
- MachineRuns.SuccessNeedsCleanup: assumes that workers report no terminal state, as all callers of the reporter do; crates/flanforge-manager/src/worker/reporter.rs:39 would let them.
- Documents.ParsedLeaves: what a table prints is taken from the TOML library's rules, that an implicit table without values has no header, an inline one is a value, and what is created below a value is inline.
