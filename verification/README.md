# Verification of the certificate synchroniser

A Dafny 4.11 model of a daemon that copies certificate pairs from local files
or from a Cert Warden server into a Zoraxy certificate directory, and proofs of
what its fault-tolerant state changes guarantee. `dafny verify dfyconfig.toml`
checks everything.

## What is modelled

- **Pair replacement** (`PairNames`, `PairDirectory`, `PairStates`,
  `PairReplace`, `PairTheorems`, `PairTogether`). The target directory is a map
  from names to files. An oracle may refuse any call, so a contract over all
  oracles speaks of every pattern of faults. The directory records every state
  it passes through, and demands of every call that its names are within the
  client's reach. `ReplacePair` stages, backs up, publishes, checks, commits or
  rolls back with the branches of the code. A file knows whether it was synced,
  and the directory which of its states the last granted sync put on disk, so
  that a commit can be told from a run that merely looks like one.
  `FallbackFile` and `SyncMaterial` build on the same directory.
- **Durable single-file saves** (`DurableVolume`, `SaveProtocol`, `SaveSteps`,
  `ConfigStore`, `SecretStore`, `SaveRuns`). Names are bound to inodes. Until a
  directory is synced the disk may hold any state since the last sync, and the
  volume lists them all, at every moment. The repository writes the protocol
  twice; the steps that agree line by line are modelled once, and both stores
  are proved against one statement of what a result means. `SaveRuns` follows it
  over any series of saves, and reads it for a crash (`CrashShowsOldOrNew`) and
  for a recovery by hand (`NamedBackupRecovers`).
- **The manager's threads** (`ManagerState`, `ManagerThreads`,
  `ManagerInvariant`, `ManagerRuns`, `ManagerTheorems`, `ManagerProgress`,
  `ManagerFuel`, `ManagerNotices`, `ManagerOvertaken`,
  `ManagerPublishes`, `ManagerFiles`). Any number of applies,
  syncs (by hand, from watchers, inside an apply), acknowledgements and short
  requests step in any order that the locks allow. A thread
  is a program counter with its data; its locks follow from where it stands, and
  a waiting writer of a read-write lock shuts out new readers. A watcher that is
  being stopped may start callbacks until the join ends. The invariant is per
  thread: each step keeps what holds of its own thread, of the shared state, and
  of any other thread whose locks are compatible.
- **One apply in sequence** (`ApplyWorld`, `Apply`, `ApplyShortfalls`, `Secrets`,
  `ConfigRules`). The manager's fields, the saves with their three outcomes, the
  fallback files, the record of pending restarts and the watchers, with every
  compensation.
- **The watcher** (`WatcherModel`, `Watcher`, `FilePolling`). Every critical
  section, timer, callback and move of the clock is an event; the class with the
  fields of the code is proved to take exactly these steps.
- **Smaller cores**: path canonicalisation over a tree with links (`PathTree`,
  `PathPolicy`), the path-length check against RFC 5280 (`ChainPaths`), the
  digest encoding (`BundleDigest`), the status record (`StatusRecord`).

## Where the code falls short of what it promises

- A replacement whose lstat of an existing key fails with anything but "not
  exist" rolls back by deleting that key. `PairReplace.ReplacePair` says exactly
  when, `PairTheorems.KeyLossForeseen` what a caller can tell beforehand, and
  `PairTheorems.ProbeFailureLosesTheKey` shows one.
- Sweeping stale staging files of `site` also removes temporary files of a
  target named `site-cert-sync`, kept backups included
  (`PairTheorems.NeighbourBackupSurvives` says exactly when).
- A sync does not ask whether its entry is enabled, so a disabled fallback entry
  synced by hand takes over fallback.json: with no apply in flight the files are
  right exactly when no such entry has been written since the last
  reconciliation (`ManagerTheorems.FallbackFilesAreRightExactly`,
  `ManagerInvariant.SyncWritesRightly`,
  `ManagerTheorems.DisabledEntrySpoilsTheFallback`).
- The record of pending restarts and the flags shown beside the entries are
  kept under two locks, and can come apart for good: an acknowledgement is
  overtaken by an activation (`ManagerOvertaken.AcknowledgementIsOvertaken`), a
  destination does not resolve (`ManagerOvertaken.UnresolvedSyncHidesTheRestart`),
  or a directory is marked again while its flag is being cleared. At rest they
  agree exactly where none of these has happened since they were last brought
  together (`ManagerNotices.FlagsFollowTheRecordExactly`,
  `ManagerNotices.WhatSetsThemApart`,
  `ManagerNotices.ActivationShowsTheRecordExactly`).
- A failed apply removes a fallback.json of a directory that only the candidate
  uses (`ApplyShortfalls.RefusedSaveDropsAFile`), and a failed first apply can
  leave the empty configuration that the manager starts with on disk
  (`ApplyShortfalls.FirstApplyWritesTheStub`). The contract of
  `Apply.Manager.ApplyConfigAndSecrets` says, file by file, exactly when a clean
  failure leaves what it found.
- A resolved path with characters outside the safe set is accepted once and in
  general refused when asked for again (`PathPolicy.AcceptedOnceRefusedTwice`);
  `PathPolicy.AskingAgain` gives the exact condition, which trimming makes
  slightly wider than safe characters (`PathPolicy.UnsafeAndTheSame`).

## Assumptions

- A replacement is proved on its own; `PairTogether` carries its answers and its
  files over to any company that leaves its names alone. Nobody else changes the
  files of a target, of a store, or fallback.json while they are worked on.
- lstat tells the truth when it answers. Of the names that readDir lists, the
  sweep uses those it may remove.
- The certificate checks are one fixed partial function from a pair of byte
  strings to a digest, and JSON decoding undoes encoding. Cert Warden answers are
  arbitrary.
- The path policy and the tree of links do not change during an apply; the
  policy is then a fixed map from accepted paths to canonical ones.
- The random part of a temporary name is a string of digits.
- Termination of the plugin, which bumps the generation without the apply lock,
  is not part of the runs.

## Model

| member | source | states |
|---|---|---|
| PairReplace.ReplacePair | internal/sync/sync.go:182-266 | one run under any pattern of faults: the trace of directories splits at the commit; before it each old file is under its own name or its backup and no new certificate stands beside an old key (except after a failed removal in a rollback), from it on the new pair is in place; every outcome says what both names hold; success leaves exactly the old directory without this target's stale staging files, plus the new pair with modes 0644 and 0600 and no backup of this run; the old key ends under neither its name nor its backup, with no new pair in place, if and only if it existed, its probe was reached and refused, and the removal in the rollback was not refused; without a fault the run succeeds, provided only that the names drawn for its backups are free; a refused path is answered before any call; a run commits only if the directory sync and every call before it that the code tests was granted, and the state that the disk then holds has the new pair; a clean end is on disk too; a rollback whose own calls are granted restores what it names; no staging file stays that could be removed |
| PairTheorems.KeyLossForeseen | internal/sync/sync.go:231-235 | what a caller can tell beforehand, with stale staging files and kept backups in the directory or not: when no other call is refused and the names drawn for the backups are free, the key is lost if and only if it is in the directory and its lstat is refused |
| PairReplace.CleanupStaging | internal/sync/sync.go:340-356 | removes exactly the names that start with a staging prefix of the target and end in .tmp, and nothing else at any moment |
| PairReplace.WriteTemp | internal/sync/sync.go:358-385 | success is one new file with the given bytes and mode; any fault touches no other name |
| PairReplace.PrepareBackup | internal/sync/sync.go:268-297 | the old file is moved whole to a name that was free, or stays; a failing lstat is reported as such and leaves `existed` false |
| PairReplace.RestoreEntry | internal/sync/sync.go:319-338 | each of the states unchanged, restored, absent and unknown says what the directory now holds under the name and its backup |
| PairReplace.FailWithRollback | internal/sync/sync.go:299-317 | what a rollback leaves of both files in every intermediate directory, whichever of its calls fail |
| PairReplace.ReadPairAt | internal/sync/sync.go:395-416 | a digest is returned only for two regular files with the right modes that pass the check, and for those it is returned when no call fails |
| PairReplace.Swap | internal/sync/sync.go:237-253 | committed means both new files are in place, pass the check with the expected digest and the directory was synced; turning back before the key was published leaves no key name, that state being the one on disk |
| PairReplace.DropBackups | internal/sync/sync.go:255-265 | the new pair stays in every intermediate directory; a clean end leaves no backup of this run |
| PairTheorems.ProbeFailureLosesTheKey | internal/sync/sync.go:268-276 | a concrete directory in which a refused lstat of the key makes the run delete the key and report it as absent |
| PairTheorems.NeighbourUntouched | internal/sync/sync.go:340-356 | in every intermediate directory all files, staging files and backups of another target are untouched when neither name interferes with the other |
| PairTheorems.NeighbourBackupSurvives | internal/sync/sync.go:345-351 | a kept backup of another target survives a completed replacement if and only if the names do not interfere |
| PairTheorems.NeighbourBackupMeanwhile | internal/sync/sync.go:340-356 | a kept backup of a target that does not interfere is untouched in every intermediate directory of every run; one of a target that does is gone as soon as the sweep is over |
| PairTheorems.InterferenceExists | internal/sync/sync.go:345-351 | two accepted names that do interfere, so the condition is needed |
| PairTheorems.ReplacementsCommute | internal/sync/sync.go:182-266 | complete replacements of two different targets, one after the other, give the same directory in either order |
| PairTogether.TwoReplacementsAtOnce | internal/sync/sync.go:196-200 | two replacements of targets that do not interfere may interleave in any way under any faults: each gets the answers, and finds under its own names the files, that it would have alone |
| PairTogether.CompanyIsInvisible | internal/sync/sync.go:196-200 | whatever others do outside the names a client may use, between any two of its calls, changes none of its answers and none of its files |
| PairTogether.CreateIsPerformed | internal/sync/sync.go:44-53 | creating a temporary file answers and leaves just what the interleaved model says; the same module says so of the other calls |
| PairNames.SweepReach | internal/sync/sync.go:345-351 | a staging prefix of one target reaches a temporary name of another exactly when the names interfere |
| PairNames.TempNameInjective | internal/sync/sync.go:209-234 | target, kind and random part can be read back from a temporary name |
| PairNames.FootprintsDisjoint | internal/sync/sync.go:204-235 | names that belong to one target belong to no other that does not interfere |
| PairNames.OwnBackupIsNotSwept | internal/sync/sync.go:340-356 | a target never sweeps away a backup of its own |
| FallbackFile.EnsureFallback | internal/sync/sync.go:441-505 | fallback.json ends as wanted or as it was, is whole in every intermediate directory, is left alone when it already says what is wanted, and a symbolic link or a bad name is refused; the changed flag is true exactly when the file was written or removed; without a fault it succeeds; a change reported with success is on disk; no scratch file stays that could be removed |
| SyncMaterial.Sync | internal/sync/sync.go:110-163 | success means the destination carries the bundle with the right modes, and for a fallback entry that fallback.json names it; without a fault and with free names it succeeds, installs the new files exactly when the destination does not carry the bundle yet, and reports just that; a destination that already carried it is not written; nothing but the names of the target and fallback.json changes |
| ConfigStore.Save | internal/config/store.go:68-151 | at every moment the path is bound to the whole old or the whole new file, in memory and in every name table that the disk may hold; nil means the new file is durable, a plain error that the old one is, or still nothing, and an error naming a backup that the backup holds the old bytes, in memory and on the disk; other names are kept; without a fault it saves; without success an old file that could be read is still reachable, in memory and on every disk, under its name or under the backup, and where its name no longer leads to it the result names the backup; a failed rollback is only reported where the old file is not back and durable; no temporary file, backup or open descriptor stays that could be removed or closed |
| SaveSteps.MakeBackup | internal/config/store.go:105-118 | the backup is a second name of the old file and is durable before the file is replaced |
| SaveSteps.Replace | internal/config/store.go:120-150 | what a rename, its sync and the removal of the backup leave, and which backup is retained; without success the old file is still reachable under its name or the backup |
| SaveSteps.Rollback | internal/config/store.go:153-165 | no error means the old binding is back and durable; a retained backup means nothing was changed |
| SecretStore.Save | internal/secretstore/secretstore.go:134-220 | the same guarantees for the credential store; data with a blank field is refused before any file is touched, and so are the same leftovers ruled out |
| SaveSteps.Recover | internal/secretstore/secretstore.go:202-217 | a failed sync or a failed removal of the backup is rolled back, and the error names the backup exactly when it is retained; the old file stays reachable in every case, and a rollback that worked is not reported as failed |
| SecretStore.Validate | internal/secretstore/secretstore.go:95-114 | accepts exactly the data in which every entry has a name and all four fields |
| SaveRuns.DiskHoldsLastSave | internal/config/store.go:68-151 | over any series of saves without a failed rollback the disk shows the document of the last save that reported success |
| ManagerTheorems.PublicationsAreCurrent | cmd/cert-sync/main.go:498-529 | in every run each publication is of the entry, and of material fetched with the credentials, of the generation active at that moment; after an activation nothing older is published, and the next one takes the next generation; that publications happen is in the rows below |
| ManagerPublishes.WhatEntersTheHistory | cmd/cert-sync/main.go:664-677 | the history grows by a publication exactly at a step that writes a pair, and by an activation exactly at the step that activates; the publication is of the entry, generation and key of the stepping sync, all of them active at that moment |
| ManagerPublishes.AnEntryCanBePublished | cmd/cert-sync/main.go:613-706 | from every quiet state a request by hand has a run that publishes any active entry, local or remote, fallback or not, under the active generation, a remote one with its stored key |
| ManagerPublishes.AWatcherCanPublish | cmd/cert-sync/main.go:503-529 | from every reachable quiet state the watcher of any enabled entry that syncs by itself is live, and its callback has a run that publishes the entry |
| ManagerPublishes.AutoEntriesAreWatched | cmd/cert-sync/main.go:503-536 | between applies an active entry has a live watcher if and only if it is enabled and syncs by itself, and never two |
| ManagerPublishes.EveryEnabledEntryIsSynced | cmd/cert-sync/main.go:580-586 | in every run an apply that has activated and is over has gone through its own sync of each enabled entry of what it activated, under the generation it took |
| ManagerPublishes.TheStateIsRaceFree | cmd/cert-sync/main.go:623-706 | while another thread owns the state lock no step depends on what is active, and the active configuration and the flags change only when no other thread holds that lock |
| ManagerPublishes.ARefusedApplyNeverActivates | cmd/cert-sync/main.go:476-561 | an apply to which a call is refused before its activation, from the first look at its context to the record of pending restarts, never activates, in any run |
| ManagerPublishes.QueriesAreCurrent | cmd/cert-sync/main.go:708-723 | a query only begins under the active generation, for the entry active then and with its stored key, and behind the lock of its destination |
| ManagerTheorems.NobodyOvertakesAPublication | cmd/cert-sync/main.go:664-700 | while a sync is publishing no activation can take its step, and the sync holds the active generation's entry |
| ManagerTheorems.OneSyncPerDestination | cmd/cert-sync/main.go:647-649 | from its fetch to its publication a sync is the only one working on its destination |
| ManagerTheorems.AnApplyCanSucceed | cmd/cert-sync/main.go:474-587 | from every quiet state there is a run that activates any given admissible candidate in the next generation |
| ManagerTheorems.OnlyEnabledEntriesUnlessByHand | cmd/cert-sync/main.go:503-529 | watcher callbacks and the syncs inside an apply only ever sync enabled entries |
| ManagerTheorems.NoWatcherIsLeftBehind | cmd/cert-sync/main.go:524-560 | between applies exactly the active watchers are live, and every callback that runs is one of theirs and of the active generation |
| ManagerTheorems.FallbackFilesAreRightExactly | cmd/cert-sync/main.go:541-578 | in every reachable state in which no apply is between reconciliation and release, and no compensation has failed since, the fallback files are right if and only if no disabled entry has been written since the last reconciliation |
| ManagerTheorems.WhatRightMeans | cmd/cert-sync/main.go:1002-1032 | right files: each directory's fallback.json names its one enabled fallback entry, or is absent where there is none |
| ManagerTheorems.WhatSpoilsTheFiles | cmd/cert-sync/main.go:541-561 | the files are spoiled exactly by the step of a sync by hand that writes for a disabled entry, and left uncompensated exactly by a reconciliation that fails while an apply is undone |
| ManagerInvariant.SyncWritesRightly | cmd/cert-sync/main.go:623-671 | with right files before it, a sync's write of fallback.json leaves them right if and only if its entry is enabled |
| ManagerTheorems.ActivationHeals | cmd/cert-sync/main.go:541-577 | an activation, and a compensation that succeeds, leave the fallback files right for what is active |
| ManagerTheorems.DisabledEntrySpoilsTheFallback | cmd/cert-sync/main.go:623-640 | from every quiet state a sync by hand of any disabled fallback entry, local or remote, can leave the fallback files wrong |
| ManagerInvariant.SyncKeepsItself | cmd/cert-sync/main.go:623-706 | every step of a sync keeps what is known of it: captured entry, key, generation, locks |
| ManagerInvariant.SyncKeepsShared | cmd/cert-sync/main.go:664-700 | a publication keeps the shared invariant, the soundness of the history included |
| ManagerInvariant.SyncKeepsFallbacks | cmd/cert-sync/main.go:637-671 | syncs keep the account of the files: right, or spoiled by a disabled entry that still stands in one |
| ManagerInvariant.SyncKeepsApply | cmd/cert-sync/main.go:637-640 | no sync disturbs an apply between its reconciliation and its activation, thanks to the fallback lock |
| ManagerInvariant.ApplyKeepsItself | cmd/cert-sync/main.go:474-587 | every step of an apply keeps what is known of it, phase by phase, failure paths included |
| ManagerInvariant.ApplyKeepsShared | cmd/cert-sync/main.go:474-587 | every step of an apply keeps the shared invariant |
| ManagerInvariant.ApplyKeepsSync | cmd/cert-sync/main.go:569-580 | no step of an apply, the activation and the joins included, spoils what a running sync relies on |
| ManagerInvariant.ApplyKeepsFallbacks | cmd/cert-sync/main.go:541-578 | whenever an apply lets go of the fallback lock that account is true, or a compensation failed |
| ManagerRuns.StepKeepsExclusion | cmd/cert-sync/main.go:541-578 | no two threads ever hold a lock in conflicting modes |
| ManagerRuns.StepKeepsInv | cmd/cert-sync/main.go:474-706 | every arrival and every step keeps the whole invariant |
| ManagerRuns.ReachableInv | cmd/cert-sync/main.go:150-164 | the invariant holds in every state reachable from the manager as main builds it |
| ManagerProgress.WaitsAboveWhatItHolds | cmd/cert-sync/main.go:623-706 | whoever holds a lock waits only for locks, or joins, ranked above it |
| ManagerProgress.BlockerWaitsHigher | cmd/cert-sync/main.go:541-580 | whoever stands in the way of a need is free to step or waits higher up |
| ManagerProgress.NoDeadlock | cmd/cert-sync/main.go:306-370 | in every reachable state with a thread left, some thread can step |
| ManagerFuel.StepBurns | cmd/cert-sync/main.go:474-706 | every step of a thread lowers its fuel |
| ManagerFuel.RunsAreFinite | cmd/cert-sync/main.go:474-706 | a run without new arrivals is at most as long as the fuel of its threads |
| ManagerFuel.EveryThreadCanFinish | cmd/cert-sync/main.go:306-370 | from every reachable state the threads that have arrived make finitely many steps in any order and can all get to their end |
| ManagerNotices.FlagsFollowTheRecordExactly | cmd/cert-sync/main.go:562-567 | in every reachable state, wherever no thread is between two steps that belong together, an active fallback entry is flagged as pending a restart exactly when its directory is on record, if and only if none of the four steps below has set the two apart since they were last brought together |
| ManagerNotices.WhatSetsThemApart | cmd/cert-sync/main.go:976-984 | flag and record are set apart exactly by an activation with a flag that an acknowledgement has overtaken, an activation that missed a directory which did not resolve, an acknowledgement that clears the flag of a directory marked again since it emptied the record, and a sync whose destination does not resolve; only an acknowledgement ever empties the record |
| ManagerNotices.ActivationShowsTheRecordExactly | cmd/cert-sync/main.go:562-577 | an activation leaves every flag right if and only if no acknowledgement came after a flag it had set, or, with no acknowledgement, every pending directory resolved when it looked |
| ManagerFiles.ChangesAreOnRecord | cmd/cert-sync/main.go:555-561 | when an apply activates, every directory whose fallback.json is not what it was when the apply took the fallback lock is on record, unless a restart was acknowledged in between |
| ManagerFiles.OnlyItsDirectoriesAreMarked | cmd/cert-sync/main.go:1014-1032 | what an apply puts on record is a directory of its candidate or of the configuration it replaces |
| ManagerFiles.OnlyWrittenDirectoriesAreListed | cmd/cert-sync/main.go:1014-1032 | a directory only comes onto the list of changed ones by a step that wrote its file or made it differ |
| ManagerFiles.WhatTouchesTheFiles | cmd/cert-sync/main.go:637-671 | a step changes at most one fallback file, the one whose own lock it takes, and only with the fallback lock in hand |
| ManagerFiles.WhatIsRecorded | cmd/cert-sync/main.go:693-698 | a directory comes on record exactly by a save of the record that succeeds, of a sync for its own directory or of an apply for those on its list |
| ManagerFiles.WritersGoOnToRecord | cmd/cert-sync/main.go:693-698 | a sync that changes its fallback.json goes straight on to put that directory on record |
| ManagerNotices.OnlyAnEmptiedRecordIsCleared | cmd/cert-sync/main.go:964-979 | an acknowledgement goes on to clear the flags if and only if it has emptied a record that was not empty; a failed one changes neither |
| ManagerNotices.ReachableNotices | cmd/cert-sync/main.go:932-985 | the account of flags and record is kept by every arrival and every step of every run |
| ManagerOvertaken.AcknowledgementIsOvertaken | cmd/cert-sync/main.go:964-985 | from every quiet state with the directory of a disabled fallback entry of an acceptable candidate on record, a run in which that candidate is applied and the restart acknowledged, and which ends at rest with the entry flagged and its directory not on record |
| ManagerOvertaken.UnresolvedSyncHidesTheRestart | cmd/cert-sync/main.go:642-646 | from every quiet state with the directory of an active fallback entry on record, a run of one sync that ends at rest with the directory still on record and the entry not flagged |
| Apply.Manager.ApplyConfigAndSecrets | cmd/cert-sync/main.go:448-467 | all or nothing: a failure leaves configuration, credentials, states, watchers and generation as they were and no candidate watcher running; after a clean failure the credential file agrees if it did before, the configuration file is unchanged if and only if the save had not happened or it held the active configuration, and each fallback file of both configurations says what it said if and only if it carried what the active configuration wants there, all others being untouched; success leaves the staged configuration active and saved, one set of keys per remote entry, every directory reconciled and every changed one recorded as pending; which of the last two saves is refused decides the outcome when all else is granted; whichever call fails, if the calls that undo its stage are granted from the turn behind it, the failure is clean, the files carry what the active configuration wants, and the credential file is what it was; credentials that do not change are not saved |
| ApplyShortfalls.RefusedSaveDropsAFile | cmd/cert-sync/main.go:549-554 | a concrete apply whose configuration save is refused, and which deletes the fallback.json of a directory that only the candidate uses |
| ApplyShortfalls.FirstApplyWritesTheStub | cmd/cert-sync/main.go:150-165 | a concrete first apply, with the real configuration on disk and the pending record refused, that ends with the empty start-up configuration on disk |
| Apply.Manager.ApplyConfigLocked | cmd/cert-sync/main.go:474-587 | the same without the credential file; after a clean failure the configuration file is unchanged, or is the active one if the save had already happened; if every call that undoes the failed stage is granted from the failure on, the failure is clean; a cancelled context is refused before anything is done |
| Apply.Manager.CheckCandidate | cmd/cert-sync/main.go:475-495 | what refuses a candidate before anything outside is touched, and that nothing else does |
| Apply.Manager.PersistCandidate | cmd/cert-sync/main.go:541-561 | fallback files, configuration and pending record in order, with the compensation of each failure; the ghost turn is the one right after the refused call, and if every call that undoes the stage is granted from then on, the failure is clean and every directory of both configurations carries what the active one wants |
| Apply.Manager.Activate | cmd/cert-sync/main.go:569-580 | the active state is replaced as a whole and the old watchers stop |
| Apply.Manager.MarkFallbackPending | cmd/cert-sync/main.go:932-950 | the directories are pending in memory exactly when they are on disk |
| Apply.Manager.AcknowledgeFallbackRestart | cmd/cert-sync/main.go:964-985 | clears the record and every flag, or changes nothing |
| Apply.ReconcileFallbacks | cmd/cert-sync/main.go:987-1034 | success brings every directory of both configurations to what the new one wants; the changed list holds exactly the directories that were written |
| Apply.DesiredFallbacks | cmd/cert-sync/main.go:1002-1013 | the table filled in order is the wanted name of each directory |
| Apply.MakeWatchers | cmd/cert-sync/main.go:502-529 | one watcher per enabled entry that syncs by itself, or none left |
| Apply.Manager.AutoEntriesAreWatched | cmd/cert-sync/main.go:502-536 | in every valid state an active entry has a running watcher if and only if it is enabled and syncs by itself |
| Apply.StartWatchers | cmd/cert-sync/main.go:531-536 | all run, or those that ran before |
| Apply.StopWatchers | cmd/cert-sync/main.go:1141-1145 | exactly the given watchers stop |
| Apply.FlagPending | cmd/cert-sync/main.go:562-567 | a state is flagged exactly when it is a fallback entry of a pending directory |
| Apply.Manager.LoadRuntimeState | cmd/cert-sync/main.go:839-879 | the record is read once, and only if every recorded directory resolves to itself |
| Secrets.PruneSecrets | cmd/cert-sync/main.go:421-434 | keeps the credentials of the remote entries and no others |
| Secrets.ValidateRemoteCredentials | cmd/cert-sync/main.go:404-419 | accepts exactly when each remote entry has both keys, stored for its server and certificate |
| Secrets.SecretsEqual | cmd/cert-sync/main.go:436-446 | the comparison by size and lookup is equality |
| Secrets.StoredSecretsAreTheRemoteOnes | cmd/cert-sync/main.go:483-492 | what is stored has exactly the trimmed names of the remote entries as its keys, because names that trim to the same one are refused |
| ConfigRules.Validate | internal/config/config.go:264-304 | accepts exactly the configurations whose entries are valid and clash in no pair, and names the first entry that breaks a rule |
| ConfigRules.NormalizeInPlace | internal/config/config.go:307-318 | every entry is replaced by its normal form |
| ConfigRules.NormalizedTwice | internal/config/config.go:106-129 | normalising a second time changes nothing |
| ConfigRules.NormalExactly | internal/config/config.go:106-129 | normalising leaves an entry alone exactly when nothing is to be trimmed and neither its type nor its interval is left out |
| ConfigRules.IntervalCanBeLeftOut | internal/config/config.go:122-128 | an interval that is left out is never the fault: the entry is accepted exactly when it would be with any allowed one, and gets 300 seconds if it is remote and 10 if not |
| ConfigRules.IntervalIsChecked | internal/config/config.go:222-227 | an interval that is given is kept, and accepted only within the bounds of its kind |
| ConfigRules.AcceptedSources | internal/config/config.go:156-196 | an accepted local entry has both its paths under the source policy and no remote settings; an accepted remote one has an accepted origin, a certificate name, no local paths and no file watch |
| ConfigRules.WantedIsUnique | internal/config/config.go:296-301 | in an accepted configuration the wanted fallback of a directory does not depend on the order of the entries |
| WatcherModel.ReachableInv | internal/watcher/watcher.go:103-188 | the lifecycle invariant holds after every sequence of events |
| WatcherModel.StopIsFinal | internal/watcher/watcher.go:152-188 | once Stop has returned no callback runs, none is waiting and none will ever start |
| WatcherModel.NoStartOnceStopping | internal/watcher/watcher.go:168-186 | from the moment Stop takes the lock no callback starts and nothing is added to the wait group |
| WatcherModel.OneDonePerAdd | internal/watcher/watcher.go:304-311 | each Add opens one timer and is matched by one Done when that timer is gone for good, however it goes |
| WatcherModel.StopMovesOn | internal/watcher/watcher.go:185-187 | until Stop returns, one of the watcher's own goroutines can move on, and they get fewer moves each time |
| WatcherModel.AcceptedTriggerIsServed | internal/watcher/watcher.go:297-327 | an accepted trigger that no callback has followed yet is served once its delay has passed |
| WatcherModel.OneStartPerBurst | internal/watcher/watcher.go:304-327 | without a new trigger at most one callback starts, and only if one was owed |
| WatcherCode.Watcher.Start | internal/watcher/watcher.go:103-149 | one lifecycle step and a baseline of every path, or a refusal that changes nothing |
| WatcherCode.Watcher.TriggerDebounce | internal/watcher/watcher.go:297-327 | one lifecycle step: the old timer is cancelled with its count and a new one is armed, or nothing happens |
| WatcherCode.Watcher.TimerBody | internal/watcher/watcher.go:310-325 | one lifecycle step: a superseded timer never calls |
| WatcherCode.Watcher.CallbackDone | internal/watcher/watcher.go:311-311 | one lifecycle step: the count of a callback that has returned is given back |
| WatcherCode.Watcher.StopBegin | internal/watcher/watcher.go:152-183 | one lifecycle step up to the waits; a later Stop changes nothing and waits for the first |
| WatcherCode.Watcher.StopJoined | internal/watcher/watcher.go:185-187 | the waits end with no timer left |
| WatcherCode.Watcher.PollChanged | internal/watcher/watcher.go:226-236 | reports a change exactly when some reading was news, and stores every reading |
| FilePolling.PollReportsExactly | internal/watcher/watcher.go:226-236 | a poll of files that hold still reports a change exactly when a stored snapshot is missing or is not the one read |
| FilePolling.SecondPollIsSilent | internal/watcher/watcher.go:226-236 | a change is reported once |
| PathTree.ResolvePath | internal/config/path_policy.go:153-179 | the loop computes the recursive resolution: what exists is made canonical, what does not is appended |
| PathTree.ResolveIsIdempotent | internal/config/path_policy.go:153-179 | resolving a resolved path changes nothing, whatever links the tree holds |
| PathTree.NoLinkInResolved | internal/config/path_policy.go:159-168 | no existing part of a resolved path is a symbolic link |
| PathPolicy.ResolveAllowedPath | internal/config/path_policy.go:128-151 | the loop over the roots gives the answer of the recursive definition, error cases included |
| PathPolicy.AllowedIsContained | internal/config/path_policy.go:137-150 | an accepted path has a resolved root as a component-wise prefix, no link in its existing part, and resolves to itself |
| PathPolicy.WithinIsPrefix | internal/config/path_policy.go:181-187 | the test on the relative path is the test that the root's components are a prefix |
| PathPolicy.AskingAgain | cmd/cert-sync/main.go:870-876 | asking for an accepted path again gives the same path if and only if its trimmed text is clean, has only safe characters and resolves to the path |
| PathPolicy.AskingAgainUntrimmed | cmd/cert-sync/main.go:1020-1025 | where trimming leaves the path alone, that is so if and only if its characters are safe; safe text is always the same again |
| PathPolicy.AcceptedOnceRefusedTwice | internal/config/path_policy.go:128-140 | a concrete tree in which an accepted path is refused when asked for again |
| PathPolicy.UnsafeAndTheSame | internal/config/path_policy.go:128-140 | a concrete tree in which an unsafe path is the same when asked for again, because of trimming |
| PathPolicy.NormalizeRoots | internal/config/path_policy.go:56-76 | accepts exactly a non-empty list of clean absolute roots with safe text, trimmed |
| PathPolicy.ParseRendered | internal/config/path_policy.go:130-132 | text and components are two forms of one path |
| ChainPaths.ValidatePresentedChain | internal/certutil/certutil.go:162-183 | accepts exactly when all links and all path-length constraints hold, and names the first pair that fails and why |
| ChainPaths.CounterExactly | internal/certutil/certutil.go:172-180 | the running counter of RFC 5280 accepts from any position exactly when the counts below every issuer are within its limit |
| ChainPaths.PairwiseIsTheCounter | internal/certutil/certutil.go:172-180 | the pairwise counts accept exactly the chains that the running counter accepts from the length of the path |
| ChainPaths.AcceptedExactly | internal/certutil/certutil.go:162-183 | a linked chain passes exactly when RFC 5280 accepts its path lengths |
| BundleDigest.BundleInput | internal/certutil/certutil.go:196-202 | the hashed bytes are the version tag followed by every part behind its length |
| BundleDigest.WriteDigestPart | internal/certutil/certutil.go:205-210 | eight bytes of length, most significant first, then the data |
| BundleDigest.PartsRoundTrip | internal/certutil/certutil.go:196-210 | what was written can be read back |
| BundleDigest.ReadPartsExactly | internal/certutil/certutil.go:205-210 | whatever can be read is what would have been written |
| BundleDigest.HashedIsInjective | internal/certutil/certutil.go:190-210 | two bundles with the same hashed bytes have the same certificates in the same order and the same key |
| StatusRecord.HealthyExactly | internal/status/status.go:156-181 | after every sequence of recorded steps an entry is Healthy if and only if it is enabled, its last sync succeeded and read the destination back, the last look at the source was valid with that digest, and the last query did not fail |
| StatusRecord.ErrorExactly | internal/status/status.go:156-181 | after every sequence of recorded steps an entry is shown as an error if and only if it is enabled and the last query or sync failed, the source was refused when last judged, or the destination could not be read when last looked at; as disabled exactly when it is; and as unknown in what remains |
| StatusRecord.KeyMatchExactly | internal/status/status.go:146-147 | the key match is shown if and only if the last look at the source found the digest that the last look at the destination read back |
| StatusRecord.HealthyMatches | internal/status/status.go:139-155 | a Healthy entry always shows a key match |
| StatusRecord.FailuresAreNotForgotten | internal/status/status.go:160-168 | a failed query or sync keeps the entry from Healthy until one of its kind succeeds |
| StatusRecord.State.RecordSync | cmd/cert-sync/main.go:783-826 | writes the record exactly as the specification of a sync step says; each time and fingerprint is set or kept as the kind of the attempt says |
| StatusRecord.State.RecordRemoteQuery | cmd/cert-sync/main.go:746-781 | writes the record as the end of a query: both times, the next attempt of a polled entry, the answer's or the error's HTTP status, and a failure kind that a success wipes and an error of another kind keeps |
| StatusRecord.State.BeginQuery | cmd/cert-sync/main.go:715-719 | marks a query as under way and keeps its last status and report |
| StatusRecord.State.RecordValidation | cmd/cert-sync/main.go:1101-1116 | writes the record as a validation, its time and its fingerprint |
| StatusRecord.State.ToCertificateStatus | internal/status/status.go:107-183 | shows the status that the record stands for |

## Left out

- HTTP routes, JSON decoding of requests, the embedded UI, the Cert Warden client and log levels: plumbing around the modelled state.
- X.509 parsing, PEM, signatures and SHA-256: parameters of the model.
- PairReplace.ReplacePair: a crash in the middle of a run is not modelled as such; the trace shows what a crash between two calls would leave in memory, and the disk is followed as the state of the last granted directory sync, not as every state in between.
- ConfigStore.Save: contents of a file are durable once that file was synced, and names once the directory was; a partial directory sync may keep any state in between, but a torn write of a directory is not modelled.
- ManagerRuns.StepKeepsInv: the configuration and credential files and the file behind the record of pending restarts are steps that succeed or fail; what they hold is in `Apply`. A read or write of memory under one lock is one step.
- ManagerNotices.FlagsFollowTheRecordExactly: a run starts with whatever is on record; that the first apply reads it from its file is in `Apply`. A flag is kept by the directory of its entry, of which an accepted configuration has one fallback entry each.
- ManagerTheorems.PublicationsAreCurrent: a publication is one step inside the section that holds the state lock; what it does to the directory is in `PairReplace`.
- ManagerFuel.EveryThreadCanFinish: counts steps of threads; that a fetch or a file operation returns is assumed, and so is that a scheduler goes on choosing a thread that can step.
- Apply.Manager.ApplyConfigAndSecrets: ends where the inline syncs begin; those are in the step system. Error texts are outcomes, and the directories of a reconciliation are visited in any order, of which the sorted one of the code is one case.
- Apply.ReconcileFallbacks: a directory of an accepted configuration always resolves, because the policy is fixed.
- ConfigRules.Validate: the URL parser and the path policy are the sets and maps of the policy value; error texts are one outcome per rule kind.
- SyncMaterial.Sync: takes the validation of the entry as one flag.
- StatusRecord.State.RecordSync: the modification time of the source is not kept, and the restart flag is in `ManagerNotices`.
- StatusRecord.State.ToCertificateStatus: gives the status and the key-match flag; the other fields of the value are copies.
- WatcherCode.Watcher.Start: fsnotify is a flag that says whether it works; which directories it watches is not modelled.
- PathTree.ResolvePath: permission errors of lstat are not in the tree.
- The poller: a join of it behaves as a join of a watcher.
- Aggregated status counters, semantic versions, credential presence flags and the mutation helpers around an apply: each says no more than its body.
- Crash atomicity across the credential file and the configuration file: the code does not provide it.
