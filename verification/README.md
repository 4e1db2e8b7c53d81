# Input Leap GUI: verified crash-safe transactions

A Dafny model of the transactions by which the Input Leap GUI keeps its configuration and
received files intact when the process dies, a write fails or the power goes, together with
the codecs, parsers and bounded caches they rely on. Verify everything with
`dafny verify dfyconfig.toml`.

## How to read it

| file | models |
|---|---|
| `SettingsJournal.dfy`, `SettingsFields.dfy` | a settings save: 19 public keys and one secret, guarded by capsule, journal and commit marker |
| `ProfileStore.dfy` | the environment profile store: generations, pointers, authenticated manifest |
| `SharedProfiles.dfy` | several processes on one profile store, each with a memory of its own |
| `StartUp.dfy` | how the profile controller finds the generation it starts with |
| `ImportTransaction.dfy` | an import: preferences, profiles and secret, guarded by five artifacts |
| `ImportService.dfy` | the import service over arbitrary target callbacks |
| `FileReplacement.dfy` | publishing a received file, with or without replacing an existing one |
| `TransactionLock.dfy` | the reentrant, sealable configuration lock |
| `ProfileController.dfy` | the profile controller and its authorization gate |
| `Framing.dfy`, `IpcReader.dfy` | the incremental IPC reader |
| `JsonScan.dfy`, `JsonAgreement.dfy`, `PackageCodec.dfy` | the one-pass JSON scanner and the package codec |
| `Utf8.dfy`, `SensitivePayload.dfy` | the UTF-8 validator and the sensitive payload |
| `RecoveryCodecs.dfy` | capsule and manifest formats, and the framing that is hashed |
| `ClipboardHistory.dfy`, `ConflictPolicy.dfy` | the clipboard history and the batch conflict cache |
| `Crash.dfy`, `AtomicRegister.dfy`, `Bytes.dfy`, `MapFacts.dfy` | shared vocabulary |

A transaction is a class with its durable state as fields. Every store, removal and read is a
method that may do what it is asked, report an error with or without effect, or end in
`Crashed`; the caller ends at that very point (`:-`), and whatever holds on every exit holds at
every crash point. `Settled` gives the configuration that a state of the stores stands for, that
is, what recovery will leave. Each step keeps it, except the one write that is the commit point.
Run lemmas then quantify over all sequences of calls whose effects the method contracts allow,
and compare them with an atomic register that takes each change whole or not at all. Ghost
counters record what went wrong (`errors`, `refusals`, `troubles`), so that contracts can say what
an operation must answer when nothing did, and what a refusal means when something did.

What is assumed of the environment: a credential account is written, removed and swapped
atomically and removal is idempotent; journal groups and pointers are stored whole or not at
all, ordinary public keys in any subset; hashes and authentication tags are injective, so they
are modelled by what they authenticate; new ids are not in use; a rename that is refused has had
no effect; nobody else writes the same keys during a transaction.

What a reported success of a settings sync means is the same everywhere: a durable flush
(`durableSync`) that reports success is stored, a plain `QSettings::sync()` may have left any part
of the change pending. `SettingsJournal.dfy` and `ImportTransaction.dfy` follow the source in
using the one or the other at each place. `ProfileStore.dfy` has only plain syncs, because the
GUI gives the store no durable one; `lazy` marks a call in which one was reported but not stored.

## What was found

- **Settings journal, blocked recovery.** Recovery is refused only if it reports an error itself,
  or after one save that reported two errors: the journal is stored but reported as failed, its
  removal fails, and the capsule is removed all the same. `NeverBlocked` proves that fewer errors
  never do this, `RecoverEffect` says that exactly an orphaned journal is refused,
  `TwoErrorsCanBlock` gives the run up to the restart, and `StuckForGood` proves that from there
  every recovery is Blocked and no save succeeds.
- **Settings save, size limit.** A state whose encoding is over 64 KiB is refused as a plain
  failure, with no error reported; `Save` states Success as an equivalence. Imports over 1 MiB
  likewise fail to begin.
- **Import, rollback marker before flush.** Abort and recovery publish the cleanup marker before a
  durable flush, whereas commit flushes first. If a plain sync had not reached the disk and the
  power goes, cleanup ends with mixed preferences and no artifact: `UnflushedRollbackMixes`. The
  exact condition of that step is in `CleanupMarkerCondition`. The model marks it with `exposed`;
  the flush that follows mends it, so every finished answer but RollbackFailed holds all the same.
- **Import, cleanup without flush.** Recovery under a marker that sees no journal in memory removes
  capsules and marker without any flush. If a removal of the journal is still pending, a power loss
  leaves a journal that every recovery refuses: `UnflushedCleanupStrands`. The exact condition is in
  `CleanupCondition`; the model marks such a step with `unflushed`. The contracts say that both
  marks are set only after a sync that was reported but not stored, and that every answer and every
  crash that leaves a coherent world keeps its promise whatever was marked.
- **Import, reconstructed journal.** The source has a branch for an open transaction without its
  journal. `OpenIsJournaled` shows that none of the modelled operations leads there; it takes
  somebody else to remove the journal.
- **Profile store, recovery override.** A persist with an explicit recovery generation that is cut
  after its pointer write can be undone if and only if that generation is the active one
  (`OverrideTear`); otherwise the store fails closed.
- **Profile store, latch.** A promotion answers Recovered with the latch of an indeterminate write
  still set, so mutations stay refused until another recovery; `RecoverEffect` and `LatchHolds`
  say which recoveries clear it.
- **Profile store, plain syncs.** Atomicity holds even if syncs are reported and not stored
  (`MutationsAreAtomic`); what is lost then is only that a Success is durable.
- **Profile store, several processes.** A process whose restoring sync failed keeps the old root
  pending, and every later call of it syncs before it is refused. If another process has committed
  meanwhile, that sync puts the old root over the new one. Where the store had a recovery generation,
  one commit has collected it, and the sync ruins the file for good (`OneCommitRuins`,
  `StaleRootRuins`); in a store of a single generation the commit is lost (`StaleRootLosesUpdate`),
  and so is the one after it, though no pending root names the generation it replaced
  (`OlderRootLosesUpdate`). `UpdateLastsIff` gives the exact condition: a stored Success lasts if and
  only if no other process holds a pending root, unless one that names the new generation.
- **Profile store, newer schema.** A file whose active generation a newer program wrote passes every
  test of a promotion (`FutureIsPromotable`). Only `load` keeps recovery from it, and `load` answers
  InvalidSchema when the key cannot be read. So one failed read of the key, followed by a good one in
  the same recovery, promotes the recovery generation over the newer one; without errors the answer
  is always ReadOnlyFutureSchema (`RecoverEffect`).
- **Profile controller, first start after a cut mutation.** `initialize` takes any recovery answer
  but Recovered for a failure, and undoing a cut persist is answered NotNeeded. So the first start
  is refused although the file has been repaired, in memory and, unless a plain sync was not stored,
  on disk, and the next one succeeds (`FindGeneration`).
- **Transaction lock, seal.** With releases in last-in-first-out order a seal holds. For any order
  it holds if and only if every other holder is numbered 1 or beyond the depth
  (`SealHoldsIffGuarded`); after an orderly past this means at most two nested acquisitions
  (`NestingDecides`). Otherwise another holder can lift or replace the seal.
- **Import service, exception at commit.** A commit callback that throws is reported as
  `TargetReadFailed` although the candidate has been applied; `ApplyImport` states that this error
  after a mutation always comes from a callback that threw.
- **Sensitive payload, byte order mark.** If the text library drops a leading byte order mark, a
  decoded code that begins with another one changes when it is encoded and decoded again
  (`DecodedIsStable`, `MarksAreLostOneByOne`).
- **Clipboard history.** An addition that fails because the pinned entries alone leave no room has
  by then evicted every unpinned entry (`AddEffect`).

## Model

| member | source | states |
|---|---|---|
| SettingsJournal.Store.Apply | src/gui/src/AppConfigSettingsJournal.cpp:414-425 | writing the fields one by one leaves exactly the given state in memory, and one sync that may tear it on disk |
| SettingsJournal.Store.LoadJournal | src/gui/src/AppConfigSettingsJournal.cpp:348-395 | a plain refresh, whatever part of it is stored and whatever it reports, keeps what the stores stand for |
| SettingsJournal.Store.Begin | src/gui/src/AppConfigSettingsJournal.cpp:427-487 | capsule and journal are published without changing what the stores stand for, at every crash point; one error at most leaves them recoverable; a refusal without an error means another transaction, an invalid state or one over the size limit |
| SettingsJournal.Store.WriteJournal | src/gui/src/AppConfigSettingsJournal.cpp:475-487 | the journal write and its undoing keep the configuration; a journal can lose its capsule only with two reported errors |
| SettingsJournal.Store.MarkPublicApplied | src/gui/src/AppConfigSettingsJournal.cpp:489-503 | only the journal's state changes; success means it was read back as applied |
| SettingsJournal.Store.Commit | src/gui/src/AppConfigSettingsJournal.cpp:505-521 | the configuration becomes the candidate or stays; success leaves no artifact; failure means an error was reported |
| SettingsJournal.Store.Recover | src/gui/src/AppConfigSettingsJournal.cpp:523-599 | the configuration the stores stand for never moves; a completed recovery leaves exactly it with all artifacts gone; NotNeeded, whatever could not be read, means that memory shows exactly it; refusal without an error if and only if the journal it reads has lost its capsule or is not that capsule's; without errors the answer says whether there was a transaction and which way it went; NotNeeded after an error means that only a read failed |
| SettingsJournal.Store.Decide | src/gui/src/AppConfigSettingsJournal.cpp:563-581 | the direction that is taken is the one the stores stand for |
| SettingsJournal.DirectionIsSettled | src/gui/src/AppConfigSettingsJournal.cpp:563-581 | in a coherent world recovery's tests pass and tell the settled direction |
| SettingsJournal.Store.Settle | src/gui/src/AppConfigSettingsJournal.cpp:582-599 | applying and cleaning up in either direction keeps the configuration at every crash point |
| SettingsJournal.AppConfig.Save | src/gui/src/AppConfig.cpp:291-390 | original or candidate in full at every crash point; Success means that the pairing code is the stored secret, or none if it is empty, that every edited field holds its edit and every other field what it held, and no artifact; without errors the answer is ConcurrentModification if and only if fields or secret have changed since they were loaded, and Success if and only if both states are valid and within the size limit; when further saves are refused |
| SettingsJournal.AppConfig.Precheck | src/gui/src/AppConfig.cpp:291-315 | a save goes on only if it was loaded properly and neither fields nor secret changed since; ConcurrentModification means that one did, Failed that loading or a read failed |
| SettingsJournal.Requested | src/gui/src/AppConfig.cpp:320-353 | what a save asks for, field by field: the edits over what there was, and the pairing code as the secret unless it is empty |
| SettingsJournal.AppConfig.SaveChecked | src/gui/src/AppConfig.cpp:355-390 | the same from the journal on; a failure that does not stop further saves leaves memory with the configuration the stores stand for |
| SettingsJournal.AppConfig.Swap | src/gui/src/AppConfig.cpp:366-389 | the secret swap moves the configuration or not; Failed means an error and further saves refused |
| SettingsJournal.AppConfig.Stage | src/gui/src/AppConfig.cpp:355-364 | nothing before the secret swap moves the configuration; success leaves the candidate's fields stored under the capsule |
| SettingsJournal.OneCommitPoint | src/gui/src/AppConfigSettingsJournal.cpp:572-598 | recovery goes forward if and only if the secret swap is durable, or the marker when the secret does not change |
| SettingsJournal.SavesAreAtomic | src/gui/src/AppConfig.cpp:291-390 | over every run of saves, crashes and recoveries the stores stand for the content of an atomic register; Success took place, ConcurrentModification did not; after a Success the stores hold the code and every edit |
| SettingsJournal.RecoveryIsStable | src/gui/src/AppConfigSettingsJournal.cpp:523-599 | no sequence of crashes inside recovery reverts; the first completed one leaves exactly the settled configuration and no artifact; after NotNeeded, whatever errors it met, memory shows the settled configuration |
| SettingsJournal.NeverBlocked | src/gui/src/AppConfigSettingsJournal.cpp:523-599 | with at most one error per save, recovery is Blocked only if an error was reported during it |
| SettingsJournal.TwoErrorsCanBlock | src/gui/src/AppConfigSettingsJournal.cpp:475-487 | two errors in one save and a restart can leave a journal without its capsule and nothing pending |
| SettingsJournal.StuckForGood | src/gui/src/AppConfigSettingsJournal.cpp:523-560 | from there, over every run, no world changes, every completed recovery is Blocked and no save succeeds |
| SettingsFields.MixedValid | src/gui/src/AppConfigSettingsJournal.cpp:322-337 | fields that each belong to the original or the candidate form a valid state |
| SettingsFields.FieldTypes | src/gui/src/AppConfigSettingsJournal.cpp:91-114 | the type of each of the nineteen settings |
| ProfileStore.Store.Load | src/gui/src/EnvironmentProfileStore.cpp:502-617 | Loaded if and only if the manifest authenticates, the pointers agree with it and the active generation carries its tag; FutureSchema if and only if a newer program wrote the active generation; an unreadable key reads as an invalid file |
| ProfileStore.Store.Persist | src/gui/src/EnvironmentProfileStore.cpp:1163-1286 | at every exit the file stands for what it stood for, or for the old collection, or for the new one exactly when the manifest is the new one, whatever syncs fail or are reported without being stored; without errors only the new generation and its recovery generation are left |
| ProfileStore.Store.WriteGeneration | src/gui/src/EnvironmentProfileStore.cpp:1215-1230 | writing the new generation moves nothing; a failure is undone or latches the store |
| ProfileStore.Store.Flip | src/gui/src/EnvironmentProfileStore.cpp:1233-1260 | the pointer write moves nothing; a failure after it is undone or latches the store |
| ProfileStore.Store.SwitchManifest | src/gui/src/EnvironmentProfileStore.cpp:1262-1286 | the manifest write is the commit point; afterwards only unnamed generations are removed |
| ProfileStore.Store.Restore | src/gui/src/EnvironmentProfileStore.cpp:1233-1255 | the previous root and generations are what is written back, or the store is latched |
| ProfileStore.Store.Collect | src/gui/src/EnvironmentProfileStore.cpp:1267-1285 | garbage collection never removes the active or the recovery generation; without errors every other one is gone |
| ProfileStore.Store.Mutate | src/gui/src/EnvironmentProfileStore.cpp:669-789 | a conditional mutation replaces exactly the expected generation or changes nothing it stands for; Success means that SetActive changed the active kind alone, ReplaceProfile that one profile alone, ReplaceAll everything, that the collection is complete and valid, and that the previous generation is the recovery one; every answer has its reason; on a ruined file it is refused and does no more than the first sync |
| ProfileStore.Store.Prepare | src/gui/src/EnvironmentProfileStore.cpp:669-710 | mutation goes on only from a loaded, unlatched store with the expected generation, never from a ruined file; which refusal is given when |
| ProfileStore.Changed | src/gui/src/EnvironmentProfileStore.cpp:733-785 | what each mutation makes of a collection, told profile by profile |
| ProfileStore.ValidCollection | src/gui/src/EnvironmentProfileStore.cpp:141-158 | a collection is valid if and only if it holds the four kinds and no others, each with a valid profile of that kind |
| ProfileStore.Store.MutateProper | src/gui/src/EnvironmentProfileStore.cpp:684-789 | the same for a change that is not refused unseen |
| ProfileStore.AnswerIsDetermined | src/gui/src/EnvironmentProfileStore.cpp:669-789 | without errors exactly one answer fits, and it is Success for a proper change of a complete collection from the expected generation of a file that loads |
| ProfileStore.Store.MutateLoaded | src/gui/src/EnvironmentProfileStore.cpp:669-789 | from a loaded store a mutation installs exactly its change |
| ProfileStore.Store.Recover | src/gui/src/EnvironmentProfileStore.cpp:828-1056 | recovery keeps the collection the file stands for, ends loaded, and refuses only shapes it does not know; what each answer does to the latch; without errors a newer schema is left alone; a ruined file is refused and stays as it is after the first sync; an indeterminate answer latches, a refusal does not; a file with neither generation left stays as it is |
| ProfileStore.Store.Repair | src/gui/src/EnvironmentProfileStore.cpp:861-1056 | a file that did not load is finished, undone, promoted or left alone; a ruined one is always left alone |
| ProfileStore.Store.FinishPromotion | src/gui/src/EnvironmentProfileStore.cpp:892-937 | a torn promotion is finished, never undone, and clears the latch |
| ProfileStore.Store.UndoPersist | src/gui/src/EnvironmentProfileStore.cpp:939-973 | a torn persist is undone without changing the collection, and clears the latch |
| ProfileStore.Store.Promote | src/gui/src/EnvironmentProfileStore.cpp:975-1056 | promoting the recovery generation loads exactly it and leaves the latch as it was; a failure, also of the reload, is undone or latches |
| ProfileStore.Store.PromoteManifest | src/gui/src/EnvironmentProfileStore.cpp:1028-1056 | the second write of a promotion, its reload, and their undoing |
| ProfileStore.PromotionStages | src/gui/src/EnvironmentProfileStore.cpp:1040-1048 | neither write of a promotion moves what the file stands for, and the second makes it loadable |
| ProfileStore.FutureIsPromotable | src/gui/src/EnvironmentProfileStore.cpp:975-1017 | a file that load leaves to a newer program passes every test of a promotion |
| ProfileStore.SyncKeeps | src/gui/src/EnvironmentProfileStore.cpp:452-469 | a sync, torn, whole or not stored at all, keeps a recoverable file recoverable and of the same meaning as one of the two sides |
| ProfileStore.StepReaches | src/gui/src/EnvironmentProfileStore.cpp:1215-1265 | whatever a sync stores in the course of persisting, the file is one from which the old or the new collection is recovered |
| ProfileStore.OverrideTear | src/gui/src/EnvironmentProfileStore.cpp:1188-1199 | a persist with an override, cut after the pointers, is recoverable if and only if the override is the active generation |
| ProfileStore.StepIsAtomic | src/gui/src/EnvironmentProfileStore.cpp:1163-1286 | one call, whatever fails in it, moves file and memory by its change or not at all |
| ProfileStore.MutationsAreAtomic | src/gui/src/EnvironmentProfileStore.cpp:502-1286 | over every run, with failed, torn and unstored syncs, unreadable keys and crashes, file and memory both stand for the content of an atomic register; a stored Success took place in both, a refusal in neither |
| ProfileStore.ErrorFreeRuns | src/gui/src/EnvironmentProfileStore.cpp:502-1286 | where nothing fails, one choice accounts for every point of the run, and a mutation that ended took place exactly when it answered Success |
| ProfileStore.ReplacedForGood | src/gui/src/EnvironmentProfileStore.cpp:669-789 | a generation replaced by a stored mutation never comes back without a promotion |
| ProfileStore.NoLostUpdates | src/gui/src/EnvironmentProfileStore.cpp:669-789 | for the calls of one process: a stored success from one generation is never followed by another success from it, and it changed exactly that generation's collection |
| ProfileStore.LatchHolds | src/gui/src/EnvironmentProfileStore.cpp:471-474 | after an indeterminate write no mutation succeeds, whatever recoveries are refused, fail or promote meanwhile, until a recovery finds or makes the file coherent; that one clears the latch |
| SharedProfiles.StaysAway | src/gui/src/EnvironmentProfileStore.cpp:669-789 | over every run of several processes a generation that neither the file nor any process shows does not come back |
| SharedProfiles.CommitReplaces | src/gui/src/EnvironmentProfileStore.cpp:1257-1268 | a stored mutation puts the generation it replaced out of sight except for others' pending roots that name it |
| SharedProfiles.NoLostUpdatesShared | src/gui/src/EnvironmentProfileStore.cpp:669-789 | several processes lose no update of a generation that no other process's pending root names |
| SharedProfiles.StaleRootReturns | src/gui/src/EnvironmentProfileStore.cpp:690-699 | the next call of a process whose pending root fits the groups on disk puts the generation it names back, although the call is refused |
| SharedProfiles.UpdateLastsIff | src/gui/src/EnvironmentProfileStore.cpp:669-789 | over every later run of all processes without promotions, and after whichever sync comes next, the file names the stored generation or one made since, if and only if no other process holds a pending root that names another generation |
| SharedProfiles.RunStaysWithin | src/gui/src/EnvironmentProfileStore.cpp:669-789 | from a state that shows one generation only, every run of all processes without promotions shows nothing but that one and those made since |
| SharedProfiles.StaleRootOverwrites | src/gui/src/EnvironmentProfileStore.cpp:690-699 | the sync with which the next call of a process begins writes its pending root, whatever the groups on disk, so the update does not last |
| SharedProfiles.StaleRootLosesUpdate | src/gui/src/EnvironmentProfileStore.cpp:1233-1255 | a run of two processes on a store of a single generation in which a Success is lost |
| SharedProfiles.OlderRootLosesUpdate | src/gui/src/EnvironmentProfileStore.cpp:1233-1285 | a run in which the Success after that one is lost too, though no pending root names the generation it replaced |
| SharedProfiles.StaleRootRuins | src/gui/src/EnvironmentProfileStore.cpp:1274-1285 | a pending root whose active or recovery generation has been collected leaves, with the next sync of its process, a file that nothing accepts |
| SharedProfiles.OneCommitRuins | src/gui/src/EnvironmentProfileStore.cpp:1257-1285 | a run in which one error-free commit, from a store with a recovery generation, is enough for that |
| ImportTransaction.Target.Begin | src/gui/src/ConfigurationAppTarget.cpp:882-1022 | opening a transaction never changes the configuration; success leaves both capsules and the journal; a refusal without an error means another transaction or a snapshot over the size limit; another transaction is answered ConcurrentModification |
| ImportTransaction.Target.BeginVacant | src/gui/src/ConfigurationAppTarget.cpp:919-1022 | prepare marker, capsules, journal and dropping the marker keep the configuration; failure means an error |
| ImportTransaction.Target.WriteCapsules | src/gui/src/ConfigurationAppTarget.cpp:941-987 | both capsules are written under the prepare marker, or everything is taken back |
| ImportTransaction.Target.WriteJournal | src/gui/src/ConfigurationAppTarget.cpp:989-1015 | the journal is stored and read back under the prepare marker, or taken back |
| ImportTransaction.Target.CompareAndApply | src/gui/src/ConfigurationAppTarget.cpp:792-827 | applying a snapshot inside an open transaction keeps the stores recoverable to the original, whatever part is stored; Success means the snapshot without an error, ConcurrentModification exactly that another one was found, Failed that it was taken back |
| ImportTransaction.Target.WritePairingCode | src/gui/src/ConfigurationAppTarget.cpp:842-880 | the secret is swapped or not; ConcurrentModification exactly if it was not the expected one |
| ImportTransaction.Target.Commit | src/gui/src/ConfigurationAppTarget.cpp:1046-1115 | while both capsules are there without a marker the original is kept; once the commit marker is stored the candidate is installed in full; success leaves no artifact |
| ImportTransaction.Target.Abort | src/gui/src/ConfigurationAppTarget.cpp:1139-1198 | the original is kept in every coherent world, and after success, with the artifacts removed; an incoherent world is left only by an exposed marker |
| ImportTransaction.Target.AbortOpen | src/gui/src/ConfigurationAppTarget.cpp:1171-1198 | marker, journal and artifacts in order; the flush mends an exposed marker |
| ImportTransaction.Target.PublishCleanup | src/gui/src/ConfigurationAppTarget.cpp:1171-1184 | publishing the marker keeps the configuration unless the rolled-back settings are still pending |
| ImportTransaction.Target.CleanUp | src/gui/src/ConfigurationAppTarget.cpp:458-529 | under a marker, journal and capsules go and the configuration stays in every coherent world; an incoherent one is left only without a flush while a journal is on disk that memory does not show |
| ImportTransaction.Target.RecoverPending | src/gui/src/ConfigurationAppTarget.cpp:1200-1380 | in every coherent world recovery keeps the configuration, completed recoveries end with all five artifacts gone, and it is refused only with a reported error; Recovered is always so; a journal without artifacts is always refused; of the answers that are not refusals it is Recovered if and only if the transaction was open, and NotNeeded if and only if a marker covered the artifacts or there were none |
| ImportTransaction.Target.RollBack | src/gui/src/ConfigurationAppTarget.cpp:1280-1380 | an open transaction goes back to the old capsule, whatever subset of the candidate was stored; it has its journal, so no journal is ever reconstructed; it then answers Recovered |
| ImportTransaction.Target.PutBack | src/gui/src/ConfigurationAppTarget.cpp:1331-1349 | snapshot and secret are put back without closing the transaction |
| ImportTransaction.Target.RecoverPreferences | src/gui/src/ConfigurationAppTarget.cpp:564-710 | the first startup stage restores only preferences and leaves the artifacts for the second; a journal without artifacts is refused; Recovered if and only if the transaction is open |
| ImportTransaction.Target.Import | src/gui/src/ConfigurationImportService.cpp:148-250 | original or candidate in full in every coherent world, whatever failed or crashed; every answer but JournalCommitFailed says which; only a crash or RollbackFailed after an exposed marker can leave an incoherent world; without errors it fails to begin exactly for a snapshot over the size limit |
| ImportTransaction.Target.ImportBegun | src/gui/src/ConfigurationImportService.cpp:179-250 | the same once the journal is open; the outcome says which of the two applications failed and how |
| ImportTransaction.Target.FailImport | src/gui/src/ConfigurationImportService.cpp:179-224 | a failed application is undone, and answered as a failure only if it is certain that nothing was applied |
| ImportTransaction.Target.ConfirmImport | src/gui/src/ConfigurationImportService.cpp:225-250 | the same from reading the candidate back on |
| ImportTransaction.Target.UndoImport | src/gui/src/ConfigurationImportService.cpp:157-177 | rolling back inside an open transaction keeps the original in every coherent world; success leaves no artifact and exactly the original, also after an exposed marker; it fails only with an error or where the stores hold something else than it expects |
| ImportTransaction.ImportsAreAtomic | src/gui/src/ConfigurationAppTarget.cpp:882-1380 | over every run of imports, resets, crashes and recoveries whose worlds are coherent the three stores move together like one register |
| ImportTransaction.RecoveryIsStable | src/gui/src/ConfigurationAppTarget.cpp:1200-1380 | repeated recoveries keep one configuration and the first completed one leaves exactly it; it is Recovered if and only if the transaction was still open |
| ImportTransaction.OneCommitPoint | src/gui/src/ConfigurationAppTarget.cpp:1046-1115 | open means original and old secret, a commit marker candidate and new secret, a prepare marker original and old secret |
| ImportTransaction.OpenIsJournaled | src/gui/src/ConfigurationAppTarget.cpp:1280-1306 | an open transaction has its journal in memory and on disk |
| ImportTransaction.CleanupMarkerCondition | src/gui/src/ConfigurationAppTarget.cpp:1171-1189 | after the cleanup marker and a power loss the original is kept if and only if it was already stored |
| ImportTransaction.CleanupCondition | src/gui/src/ConfigurationAppTarget.cpp:503-528 | removing artifacts under a marker without a flush, and a power loss, keep the configuration if and only if there was no journal on disk |
| ImportTransaction.UnflushedCleanupStrands | src/gui/src/ConfigurationAppTarget.cpp:503-528 | a run that ends with a journal without artifacts, which every recovery refuses |
| ImportTransaction.UnflushedRollbackMixes | src/gui/src/ConfigurationAppTarget.cpp:1139-1198 | a run from an opened transaction that ends with preferences that are neither original nor candidate |
| ImportService.Target.CheckBefore | src/gui/src/ConfigurationImportService.cpp:79-146 | going on means consents, a backup read back that restores to the original, and the state read twice as expected, all before any mutating call; every refusal names the call that gave the reason, or the consent that was missing |
| ImportService.Target.MakeBackup | src/gui/src/ConfigurationImportService.cpp:101-135 | only a backup that restores to state and secret is accepted; each other outcome has its error |
| ImportService.Target.Rollback | src/gui/src/ConfigurationImportService.cpp:157-177 | success means the original was read back, the secret too if asked for, and then the abort succeeded; the old secret is written back exactly if that is asked for |
| ImportService.Target.ApplyImport | src/gui/src/ConfigurationImportService.cpp:66-254 | for any callbacks: None means the exact trace of a verified, applied, read-back and committed import; the four undone errors mean the original was read back and aborted; every mutation was preceded by a verified backup; an error before that is a refusal, and one at the journal says what it answered |
| ImportService.Target.ApplyBegun | src/gui/src/ConfigurationImportService.cpp:179-224 | each error from the journal on names the call that failed, at its place in the trace, a failed rollback the call where it stopped |
| ImportService.Target.Confirm | src/gui/src/ConfigurationImportService.cpp:225-254 | success means the candidate and its secret were read back before the commit; a commit that throws is reported as a read failure; what could not be read back is undone together with the secret |
| ImportService.Target.GiveUp | src/gui/src/ConfigurationImportService.cpp:225-242 | a reading that threw or differs is answered by its own error once everything is undone |
| ImportService.Target.CommitConfirmed | src/gui/src/ConfigurationImportService.cpp:243-253 | the answer of the commit decides the outcome; only a concurrent change is rolled back, without the secret |
| FileReplacement.Folder.Rename | src/gui/src/FileTransferService.cpp:654-676 | a rename never replaces a file; it moves the one or changes nothing |
| FileReplacement.Folder.AtomicPublish | src/gui/src/FileTransferService.cpp:605-733 | without Replace no existing file changes; with it the original is in place, or where the journal says, or properly replaced, at every crash point; when nothing fails or is in the way, the file is published |
| FileReplacement.Folder.Replace | src/gui/src/FileTransferService.cpp:691-697 | the recovery name is durable before the original moves |
| FileReplacement.Folder.PutInPlace | src/gui/src/FileTransferService.cpp:699-733 | the original is deleted only after the new file is in place and completion is journalled |
| FileReplacement.Folder.Publish | src/gui/src/FileTransferService.cpp:1580-1687 | Unchanged means the original and the partial file are there, Committed the new bytes, CommittedWithRecovery both, RecoveryRequired the original under one of its names; with or without Replace, when no journal write fails, nothing is refused and nothing is in the way, the answer is Committed with the new bytes at the destination |
| FileReplacement.Folder.Reconnect | src/gui/src/FileTransferService.cpp:1300-1371 | each answer under its exact condition: a journalled recovery name is reported while the transfer is not complete, resuming takes a partial file or an unpublished one, and completion the right bytes |
| FileReplacement.Folder.Connect | src/gui/src/FileTransferService.cpp:1300-1687 | one connection, however it ends, keeps the original safe for the next one, and changes nothing once the new file is in place and journalled; a resumed transfer in which nothing fails is completed |
| TransactionLock.KeepsInv | src/gui/src/ConfigurationTransactionLock.h:16-64 | every critical section keeps the invariant of the lock |
| TransactionLock.RunsKeepInv | src/gui/src/ConfigurationTransactionLock.h:16-64 | so does every interleaving of any threads and processes |
| TransactionLock.MutualExclusion | src/gui/src/ConfigurationTransactionLock.h:16-64 | all holders are one thread's, their number is the depth, the file is held exactly meanwhile, and the destructor never ends the process |
| TransactionLock.FreeLockIsGranted | src/gui/src/ConfigurationTransactionLock.h:16-45 | where nobody holds the lock and its file is free, the four sections of a constructor end with the lock held by that thread |
| TransactionLock.HolderReenters | src/gui/src/ConfigurationTransactionLock.h:16-45 | its holder gets it again with the next number, unless it is sealed |
| TransactionLock.ReleaseUndoesFirst | src/gui/src/ConfigurationTransactionLock.h:16-64 | releasing a first acquisition leaves everything as it was |
| TransactionLock.ReleaseUndoesNested | src/gui/src/ConfigurationTransactionLock.h:16-64 | releasing a nested one leaves everything as it was |
| TransactionLock.SealedUntilReleased | src/gui/src/ConfigurationTransactionLock.h:73-82 | with last-in-first-out releases nothing acquires the lock after a seal until the sealing object is released |
| TransactionLock.SealHoldsIffGuarded | src/gui/src/ConfigurationTransactionLock.h:48-60 | for any order of releases a seal holds if and only if every other holder is numbered 1 or beyond the depth |
| TransactionLock.NestingDecides | src/gui/src/ConfigurationTransactionLock.h:73-82 | after an orderly past this is at most two nested acquisitions |
| TransactionLock.GetPast | src/gui/src/ConfigurationTransactionLock.h:48-60 | the run that gets past a seal otherwise |
| TransactionLock.ConfigurationLock.BeginLock | src/gui/src/ConfigurationTransactionLock.h:16-24 | the constructor up to its wait: refused exactly when its own thread has sealed the lock it holds |
| TransactionLock.ConfigurationLock.PassWait | src/gui/src/ConfigurationTransactionLock.h:25-43 | locked, one deeper, exactly when somebody of the thread holds it; nothing else changes |
| TransactionLock.ConfigurationLock.FinishLock | src/gui/src/ConfigurationTransactionLock.h:29-43 | locked if and only if the file was granted and nobody came first; then it is held once, by this thread, under this file; otherwise the file is given up again |
| TransactionLock.ConfigurationLock.Unlock | src/gui/src/ConfigurationTransactionLock.h:46-64 | the destructor, which never terminates the process: one less deep, its own seal lifted, and the file given up at the end |
| TransactionLock.ConfigurationLock.SealReentry | src/gui/src/ConfigurationTransactionLock.h:73-82 | seals if and only if the caller is the thread of the newest holder; a refusal changes nothing |
| ProfileController.Controller.FailClosed | src/gui/src/EnvironmentProfileController.cpp:118-128 | everything is closed before an observer can throw |
| ProfileController.Controller.EffectiveAllows | src/gui/src/EnvironmentProfileController.cpp:761-778 | a permission is granted if and only if the gate is open and the active, valid profile requests it and the registry allows it |
| ProfileController.Controller.Activate | src/gui/src/EnvironmentProfileController.cpp:595-759 | nothing changed, or the gate closed, or the target published with its layout applied, or the previous profile and layout restored and published with all that the store held; an open gate always fits the active profile of the stored generation; Unchanged means that the kind is active; when nothing goes wrong the target is activated and the rest of the collection stays; each refusal under its exact condition |
| ProfileController.Controller.ActivateApplied | src/gui/src/EnvironmentProfileController.cpp:663-754 | the same once the target's layout is applied, through both verifications and the observers |
| ProfileController.Controller.Compensate | src/gui/src/EnvironmentProfileController.cpp:372-394 | success means the store holds again what undoing leads to, and the controller has taken it over; it fails only if a service does |
| ProfileController.Controller.Enter | src/gui/src/EnvironmentProfileController.cpp:598-604 | the tests that every operation begins with; only a call from another thread closes the gate |
| ProfileController.Controller.Handle | src/gui/src/EnvironmentProfileController.cpp:755-758 | an exception closes everything, and goes on only if an observer throws then |
| ProfileController.Controller.Retreat | src/gui/src/EnvironmentProfileController.cpp:653-661 | layout, kind, profile and collection are back, or everything is closed |
| ProfileController.Controller.Undo | src/gui/src/EnvironmentProfileController.cpp:680-697 | an activation that could not be verified is undone with everything closed; which answer follows from which verdict |
| ProfileController.Controller.Reopen | src/gui/src/EnvironmentProfileController.cpp:702-712 | after an observer has thrown, what there was is back and published, or everything is closed |
| ProfileController.Controller.UndoReplacement | src/gui/src/EnvironmentProfileController.cpp:459-479 | the same for a replacement |
| ProfileController.Controller.UndoCapture | src/gui/src/EnvironmentProfileController.cpp:572-584 | after a capture the previous profile goes back, and PersistenceError says that it did |
| ProfileController.Controller.ReplaceUnknown | src/gui/src/EnvironmentProfileController.cpp:401-417 | a replacement of unknown outcome is undone exactly if the store shows another generation |
| ProfileController.Controller.Capture | src/gui/src/EnvironmentProfileController.cpp:502-593 | the gate is afterwards closed, untouched, or open for what the store now holds; success means the store holds exactly the previous collection with the captured profile in it, whichever kind is active; when nothing goes wrong a valid profile is captured; each refusal under its exact condition |
| ProfileController.Controller.ReplaceAll | src/gui/src/EnvironmentProfileController.cpp:330-489 | the gate is afterwards closed, untouched, or open for the selected profile with its layout in effect; success means the store holds exactly the given collection; when nothing goes wrong a valid collection is installed; each refusal under its exact condition |
| ProfileController.Controller.Initialize | src/gui/src/EnvironmentProfileController.cpp:177-299 | success opens the gate for the generation that was found, with its layout in effect; anything else closes it; when nothing goes wrong it succeeds for a usable generation, and a layout applied in vain is put back |
| StartUp.FindGeneration | src/gui/src/EnvironmentProfileController.cpp:197-220 | a generation that is found is the settled one, loaded; without errors a start is refused if and only if a persist was cut after its pointer write or the active generation is of a newer schema; in the first case the file is then repaired in memory and, unless a sync was not stored, on disk |
| StartUp.CutPersistArises | src/gui/src/EnvironmentProfileStore.cpp:1257-1262 | a crash between the two root writes of a mutation leaves such a file |
| ProfileController.AllValid | src/gui/src/EnvironmentProfileController.cpp:15-32 | in a collection with one valid profile of every kind and no more profiles than kinds, the first of a kind is the valid one |
| IpcReader.ReadField | src/gui/src/IpcReader.cpp:18-35 | a complete field is the announced bytes; an incomplete one bounds the buffer |
| Bytes.FromBigEndian | src/gui/src/IpcReader.cpp:18-35 | the first byte of a length is the most significant |
| IpcReader.Reader.AppendData | src/gui/src/IpcReader.cpp:69-179 | the events and the rest are those of reading the buffered stream at once, and the rest stays below the bound |
| IpcReader.FrontIsLawful | src/gui/src/IpcReader.cpp:76-170 | later bytes never change a frame or a violation already seen |
| Framing.ChunkingIsIrrelevant | src/gui/src/IpcReader.cpp:69-170 | every way to cut a stream into chunks gives the events of the whole stream, up to the first violation |
| IpcReader.FrameRoundTrip | src/gui/src/Ipc.cpp:24-31 | a message in its declared format, followed by anything, is read as that message |
| IpcReader.FrameIsEncoding | src/gui/src/IpcReader.cpp:76-170 | whatever is read as a message is the encoding of that message |
| IpcReader.RejectedFor | src/gui/src/IpcReader.cpp:76-170 | which violation is reported, and when |
| IpcReader.WaitsFor | src/gui/src/IpcReader.cpp:76-170 | the reader waits only for a type or inside an incomplete field |
| IpcReader.StreamRoundTrip | src/gui/src/Ipc.cpp:24-31 | any list of messages, encoded and fed in any chunks, comes back |
| JsonScan.ScanRoot | src/gui/src/ConfigurationPackageCodec.cpp:34-103 | the loop with offsets computes the byte-by-byte scan |
| JsonAgreement.ScannerAgrees | src/gui/src/ConfigurationPackageCodec.cpp:34-103 | on every text with an object root a duplicate is reported if and only if some object at some depth repeats an unescaped name, and only the root's version is recorded |
| JsonAgreement.RepeatsFromMeans | src/gui/src/ConfigurationPackageCodec.cpp:50-68 | the scanner's set of names finds exactly the repetitions of the recursive definition |
| JsonAgreement.VersionIsOne | src/gui/src/ConfigurationPackageCodec.cpp:84-95 | the token is 1 if and only if the root's own version member is the number 1 written as one digit |
| PackageCodec.Decode | src/gui/src/ConfigurationPackageCodec.cpp:118-171 | the decoder with its loop computes the specification |
| PackageCodec.AcceptedIff | src/gui/src/ConfigurationPackageCodec.cpp:118-171 | a well-formed text is accepted as a package if and only if its tree means that package |
| PackageCodec.RejectedFor | src/gui/src/ConfigurationPackageCodec.cpp:118-171 | a well-formed text is rejected for the first fault of its tree, in the order of the tests |
| PackageCodec.RejectedUnread | src/gui/src/ConfigurationPackageCodec.cpp:118-130 | a text over 4 MiB, or one that cannot be parsed, is rejected as such |
| PackageCodec.GetMeans | src/gui/src/ConfigurationPackageCodec.cpp:136-146 | a member is found if and only if there is one of that name, with its value |
| PackageCodec.RoundTrip | src/gui/src/ConfigurationPackageCodec.cpp:106-171 | what is written is read back as the same package, or is over the size limit |
| Utf8.Validate | src/gui/src/ConfigurationSensitivePayload.cpp:16-55 | accepts if and only if the bytes are the encodings of Unicode scalar values |
| Utf8.Take | src/gui/src/ConfigurationSensitivePayload.cpp:19-52 | one turn of the loop takes exactly one encoded scalar value or rejects |
| Utf8.ValidStep | src/gui/src/ConfigurationSensitivePayload.cpp:16-55 | a valid string is one value followed by a valid string, and nothing else is |
| Utf8.DecodeEncode | src/gui/src/ConfigurationSensitivePayload.cpp:112-112 | no byte string encodes two texts |
| SensitivePayload.Encode | src/gui/src/ConfigurationSensitivePayload.cpp:58-75 | the buffer filled in place is the format's bytes |
| SensitivePayload.Decode | src/gui/src/ConfigurationSensitivePayload.cpp:77-125 | the decoder computes the specification, errors in order |
| SensitivePayload.AcceptedIffEncoded | src/gui/src/ConfigurationSensitivePayload.cpp:77-125 | exactly the encodings of absent codes and of valid codes with something in them are accepted, and what comes out is the text without its spaces |
| SensitivePayload.CleanIsCore | src/gui/src/ConfigurationSensitivePayload.cpp:112-123 | normalising leaves the text without the spaces around it, told without the loops |
| SensitivePayload.RejectedFor | src/gui/src/ConfigurationSensitivePayload.cpp:77-111 | which problem is reported |
| SensitivePayload.BlankIsMalformed | src/gui/src/ConfigurationSensitivePayload.cpp:112-123 | a valid code is rejected if and only if there is nothing in it |
| SensitivePayload.RoundTrip | src/gui/src/ConfigurationSensitivePayload.cpp:58-125 | a code comes back if and only if it is absent, or non-empty, within 1024 bytes, valid, trimmed and without a mark that would be dropped |
| SensitivePayload.DecodedIsStable | src/gui/src/ConfigurationSensitivePayload.cpp:105-125 | decoding again after encoding gives the same if and only if the text does not begin with a mark that would be dropped |
| SensitivePayload.MarksAreLostOneByOne | src/gui/src/ConfigurationSensitivePayload.cpp:112-123 | the input for which it does not |
| DecimalFraming.FramesAreUnique | src/gui/src/AppConfigSettingsJournal.cpp:143-159 | equal framed bytes mean equal parts |
| RecoveryCodecs.Settings.BindingDetermines | src/gui/src/AppConfigSettingsJournal.cpp:143-159 | the hashed bytes determine the id and both states |
| RecoveryCodecs.Settings.RoundTrip | src/gui/src/AppConfigSettingsJournal.cpp:199-311 | a settings capsule comes back if and only if its id is canonical and both states fit, whatever its flags and secret |
| RecoveryCodecs.Settings.AcceptedIff | src/gui/src/AppConfigSettingsJournal.cpp:258-311 | exactly this is accepted: magic, canonical id, tag, both states with their lengths, two flags, and the secret to the end, each at its place |
| RecoveryCodecs.Import.RoundTrip | src/gui/src/ConfigurationAppTarget.cpp:165-281 | an import capsule comes back if and only if its id is canonical, its snapshot fits and its role is asked for |
| RecoveryCodecs.Import.AcceptedIff | src/gui/src/ConfigurationAppTarget.cpp:234-281 | exactly this is accepted: magic, canonical id, common tag, the role asked for, the capsule's tag, the snapshot with its length, and the secret to the end |
| RecoveryCodecs.Root.RoundTripIff | src/gui/src/EnvironmentProfileStore.cpp:53-127 | a manifest comes back if and only if it is well-formed |
| RecoveryCodecs.Root.OnlyEncodings | src/gui/src/EnvironmentProfileStore.cpp:77-127 | whatever is accepted is the encoding of what it decodes to |
| ClipboardHistory.History.AddEntry | src/gui/src/ClipboardHistoryModel.cpp:88-124 | the result is the candidate before the unexpired list minus the fewest oldest unpinned entries, a refreshed latest entry, or a refusal, each under its exact condition |
| ClipboardHistory.History.MakeRoom | src/gui/src/ClipboardHistoryModel.cpp:107-119 | the eviction loop ends with the fewest evictions that make room, or with the pinned entries alone when even they do not fit |
| ClipboardHistory.History.Expire | src/gui/src/ClipboardHistoryModel.cpp:135-143 | exactly the expired unpinned entries go |
| ClipboardHistory.LiveMeans | src/gui/src/ClipboardHistoryModel.cpp:135-143 | exactly the unpinned entries whose time is up go, entry by entry |
| ClipboardHistory.AddMeans | src/gui/src/ClipboardHistoryModel.cpp:88-124 | an addition in numbers: when it succeeds, what comes first, that nothing is evicted where there is room and not one entry too many otherwise |
| ClipboardHistory.History.SetPinned | src/gui/src/ClipboardHistoryModel.cpp:126-133 | one flag changes, for a row that exists |
| ClipboardHistory.KeepNext | src/gui/src/ClipboardHistoryModel.cpp:109-118 | removing the last unpinned row is one eviction more |
| ClipboardHistory.AddKeepsPins | src/gui/src/ClipboardHistoryModel.cpp:88-124 | no addition removes, reorders or changes a pinned entry, apart from its time of capture |
| ClipboardHistory.AddIsDetermined | src/gui/src/ClipboardHistoryModel.cpp:88-124 | the description of an addition leaves no choice |
| ClipboardHistory.PinsSurvive | src/gui/src/ClipboardHistoryModel.cpp:88-143 | over every run of additions and expiries the pinned entries stay as they are, apart from their times of capture |
| ClipboardHistory.RunsStayWithinLimits | src/gui/src/ClipboardHistoryModel.cpp:88-153 | over every run all item, byte and count limits hold |
| ConflictPolicy.Policy.Resolve | src/gui/src/ConflictResolutionPolicy.cpp:11-45 | it asks unless the request is the next item of a cached batch; an answer without asking is the latest answer for the rest of that batch, for an item after everything since |
| ConflictPolicy.Policy.Ask | src/gui/src/ConflictResolutionPolicy.cpp:27-44 | a new answer is remembered for the rest of the batch, within 64 batches |
| ConflictPolicy.OneAnswerServesAll | src/gui/src/ConflictResolutionPolicy.cpp:11-45 | one answer for all serves every later item of the batch in order |
| ConflictPolicy.AnswerIsLocal | src/gui/src/ConflictResolutionPolicy.cpp:11-45 | a request changes its own batch only; the others stay, or go together when the cache is full |
| ConflictPolicy.LastIsForgotten | src/gui/src/ConflictResolutionPolicy.cpp:11-45 | nothing is remembered after the last item |
| ConflictPolicy.InvalidIsForgotten | src/gui/src/ConflictResolutionPolicy.cpp:11-45 | an item without a proper identity asks, and nothing is remembered after it |
| ConflictPolicy.Policy.RecordNonConflict | src/gui/src/ConflictResolutionPolicy.cpp:47-58 | an item without conflict counts as seen, an invalid one drops the batch |
| ConflictPolicy.Policy.CompleteBatch | src/gui/src/ConflictResolutionPolicy.cpp:60-65 | only the batch with that count is dropped |
| ConflictPolicy.Policy.ResetPeer | src/gui/src/ConflictResolutionPolicy.cpp:67-73 | the batches whose keys begin with the peer are dropped |
| ConflictPolicy.ResetIsExact | src/gui/src/ConflictResolutionPolicy.cpp:67-73 | those are the peer's batches and no others |
| ConflictPolicy.NextIsJustified | src/gui/src/ConflictResolutionPolicy.cpp:18-25 | the next item of a batch that agrees with the history may reuse its answer |
| ConflictPolicy.RecentBeginsWithAnswer | src/gui/src/ConflictResolutionPolicy.cpp:11-45 | what a reuse rests on begins with an answer the user gave for that peer and batch |
| ConflictPolicy.ScopeInjective | src/gui/src/ConflictResolutionPolicy.cpp:5-9 | a key belongs to one peer and one batch |

## Left out

- First-run initialisation and schema-1 profile stores: with no manifest yet there is nothing to recover from, so runs start from a loaded schema-2 store.
- Per-key tearing of journal groups: the code answers Blocked, so journal writes are atomic here.
- Writers outside the modelled transactions, such as another program changing the pairing secret during a save: the capsule does not hold the original secret.
- ProfileStore.Store.Persist: with a recovery override only the kept collection and the manifest are stated after a tear, because such a tear is recoverable only in the case `OverrideTear` gives.
- ImportTransaction.ImportsAreAtomic: speaks of runs whose worlds are coherent, because atomicity fails where a call leaves an incoherent one, as the runs above show.
- ImportTransaction.Target.RollBack: the branch for a reconstructed journal has no body, because it is unreachable without an outside removal of the journal.
- ImportTransaction.Target.ReplaceProfiles: the profile collection is one value that is stored atomically, because its own store is modelled separately.
- Loading of authentication keys is part of the readability of an account; hashes, authentication tags and encryption are injective functions or parameters.
- JSON and QSettings conversion: reading a text, unescaping and trimming are library functions and parameters here; `PackageCodec.RoundTrip` takes the library's own round trip as its premise.
- UTF-16 details of the text library, except for trimming and the byte order mark.
- ProfileController.Controller.Initialize: the generation that is found is a parameter, which `StartUp.FindGeneration` gives; first saving is left out; after a failure observers may be told once more than in the source.
- SharedProfiles.StaleRootReturns: a whole call is followed only where the file it syncs is recoverable; otherwise `StaleRootOverwrites` and `StaleRootRuins` give the file after its sync, and `Mutate` and `Recover` say that nothing more happens to a ruined one.
- SharedProfiles.UpdateLastsIff: speaks of runs without promotions, because a promotion goes back to the recovery generation on purpose.
- ProfileController.Controller.Activate: whether the server is busy or externally configured is a parameter, as it is of Capture and ReplaceAll.
- ProfileController.Controller.Capture: how a profile is put together from the layout and the registry is a parameter.
- ImportService.Target.MakeBackup: building, writing and decoding the backup is one step whose result is what the file restores to.
- FileReplacement.Folder.AtomicPublish: checks of names, handles and directories are one condition `ready`; receiving, hashing and resuming the partial file are not modelled.
- Memory wiping, signals to views, image limits and previews of the clipboard history.
- TransactionLock.MutualExclusion: waiting times and fairness are not modelled; a wait may end in a timeout at any moment.
- Stale lock files, retries, sockets, TLS, throttling and all dialogs, widgets, hotkeys, diagnostics and scripts.
- `DeviceRegistry` and `LocalDeviceIdentity` generation saves: simpler repeats of the profile store.
