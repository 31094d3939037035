# AegisKeys: a verified model of the credential broker, vault file and overlays

AegisKeys keeps API secrets in an encrypted vault and hands them to programs.
This project models the parts of it whose correctness spans several functions,
several files on disk or several threads, and proves what they promise.

**Credential broker.** Authorisation lives in two separately written files:
`broker.json` (bindings, grants, pending approval intents) and `vault.enc`
(per-secret policy bits with a provenance: administrative, grant or none).
Every approval, cancellation, recovery, revocation, expiry, rebinding and
deletion is at most one vault write followed by at most one metadata write, and
a crash can fall in between. `BrokerPolicy`, `Metadata`, `VaultRecords` and
`Approval` carry the code, field by field and loop by loop; `ApprovalSafety` is
the transition system whose steps are single file writes; `ApprovalHistory`
speaks about all runs, `ApprovalCalls` about whole calls with every pattern of
file errors, `ApprovalRecovery`, `ApprovalRollback` and `ApprovalOutcome` about
re-running, rolling back and completing. `CallEffects` says of every call, in
the fields of the two files, when it reports no error, what it has then changed
and that nothing else has; `RunEffects` what stays over whole runs, and
`AcceptedFiles` what an accepted file can be relied on for. `Service` is what a
peer gets to see and `PeerAccess` who gets it.

**Session lock.** `SessionLock` has the session object's critical sections and a
transition system of any number of request threads and `Lock` calls;
`SessionTrace` orders the steps every request takes.

**Vault file.** `VaultEnvelope` has the writers that reseal the file under
different keys, salts and KDF metadata; `VaultUnlock` proves that the metadata
always describes the key. The KDF, the cipher and the digest are parameters of
which only this is assumed: opening undoes sealing, a wrong key fails, the KDF
is collision-free, and a serialised envelope is no shorter than its ciphertext.
`VaultWitness` has a cipher and a KDF that satisfy all of it, and the concrete
vaults the program locks out.

**Configuration overlays.** `FileRestore` (snapshot, apply, hash-guarded
restore), `FileApply` (what applying leaves in every file), `DeepMerge`, `JsoncComments`, `ManagedBlock` and `ManagedDocument`,
`XmlMerge`, `XmlOverlay` and `XmlTwice`.

**Stream and shell text.** `StreamBridge`, `StreamEvents` and `StreamLines`
(chat-completion chunks to content-block events), `ShellExport` (environment to shell text and
back).

`Lists` holds the order-keeping filter and the first-match search that the
loops are specified by. Methods are proved against functions of the old state;
the lemmas then say what those functions mean.

## Where the code does less than its comments say

Each of these is kept as the code has it, shown by a lemma at a failing input,
and given the exact condition under which the promise does hold.

- Cancelling is described as policy-neutral because staging never enables
  policy (`internal/broker/approval.go:183-184`). A commit whose context is dead
  on entry cancels a grant that may already be committed
  (`internal/broker/approval.go:131-133`), and the terminal interface's clean-up
  drops intents that recovery still needs (`internal/tui/update.go:827-856`):
  `ApprovalCalls.LateCancelOrphans`, `ApprovalCalls.StaleCleanupOrphans`. Exact
  in `ApprovalCalls.CancelExactly`, and from the two files alone, for whole
  calls, in `CancelCallExactly`, `DeadCommitExactly` and `CleanupCallExactly`.
- A later administrative deny is said to win over an older baseline
  (`internal/broker/approval.go:301-302`). A deny that changes no flag does not,
  and neither does one that changed a flag when another approval on the record
  was staged after it: recovery merges the allow bits of all intents with the
  revision of the last (`internal/broker/approval.go:275-285`).
  `ApprovalRecovery.QuietDenyLoses`, `ApprovalRecovery.LaterStagingRevivesDeny`;
  exact in `ApprovalRecovery.RecoveryPermits` for one recovery and
  `DenyAgainstRecovery` and `DenyAgainstRollback` over a run.
- Manual policy is said to be preserved (`internal/broker/approval.go:197-198`);
  an allow without a source is not, because lifecycle changes reconcile before
  the write normalises: `ApprovalOutcome.UnsourcedAllowLost`, exact in
  `ApprovalOutcome.AllowKeptExactly`.
- A roll-back turns an earlier grant-sourced allow into an administrative one,
  and allows a denied bit that some enabled grant needs:
  `ApprovalRollback.GrantedAllowPromoted`, `ApprovalRollback.NeededDenialLifted`,
  exact in `ApprovalRollback.GateRollsBack`.
- Clamping is said to keep KDF parameters within safe bounds
  (`internal/secret/crypto.go:392-393`); it leaves the time cost unbounded while
  reading refuses more than 10: `VaultWitness.SlowRekeyLocksOut`, exact in
  `VaultUnlock.RekeyExactly`.
- Decryption is said to stay compatible with short salts
  (`internal/secret/crypto.go:621-623`); it is as strict as everything else, so a
  preserving repair can write a vault that cannot be opened:
  `VaultWitness.PreservingRepairLocksOut`, exact in `VaultUnlock.RepairExactly`.
  Diagnosis is laxer than unlocking: `VaultWitness.DiagnosedButLocked`, exact in
  `VaultUnlock.DiagnosisExactly`.
- Overlay roll-back cannot undo a write too large to read back:
  `FileRestore.OversizedStays`, exact in `FileRestore.FailureUndone`.
- Managed blocks are said to leave user content intact
  (`internal/adapter/filewriter.go:660-661`); two updates drop everything behind
  a start marker that was left unclosed: `ManagedBlock.StrayStartLoses`, exact in
  `ManagedBlock.UserTextSurvivesExactly`, with what any stray marker leads to in
  `ManagedBlock.StrayMarkersExactly`.
- XML identity ignores namespaces and can move:
  `XmlOverlay.NamespacedIdentityMoves`, exact in `XmlOverlay.IdentityExactly`. A
  child without identity among several namesakes is appended by every update:
  `XmlTwice.AmbiguousChildGrows`, exact in `XmlTwice.MergeTwiceExactly`.
- Text that starts after a tool call takes an index already in use:
  `StreamEvents.LateTextCollides`, exact in `StreamEvents.WellFormedExactly`.
- The comment stripper slices past its input on an unterminated string that
  ends in a lone backslash: `JsoncComments.UnterminatedEscape`, exact in
  `JsoncComments.UndefinedExactly`.

## Hypotheses

Grant ids are fresh (they are random) and record ids in a vault are distinct
(`Vault.Add` refuses duplicates). A run of the protocol starts from absent
metadata and a vault no grant has touched. A cancel by itself, and a clean-up of
stale grants, are assumed to drop no pending intent whose commit has reached the
vault; `CancelExactly` and its companions cover the rest.

A rotation holds the metadata lock, so it comes between operations. An
administrative edit may come between any two steps, in the middle of an
operation included, and so may any other vault write, records added, removed,
archived or edited, that keeps ids distinct and makes no bit grant-sourced that
was not. An operation's own vault write is one step: the program holds the vault
lock from reading to writing.

A keyring key is random, so no password derives it; the overlay hash is
collision-free; salts are 16 bytes and nonces 12, as the program draws them.
XML overlays are idempotent for incoming children that are unambiguous in the
sense of `XmlTwice.Unambiguous`, and managed blocks of several profiles coexist
when contents contain no other profile's markers and no key is a prefix of
another (`ManagedDocument.Compatible`, `ManagedDocument.PrefixKeys`). A block's
content does not contain its own end marker.

## Model

| member | source | states |
|---|---|---|
| BrokerPolicy.SecretPolicy.NormalizeProvenance | internal/secret/secret.go:77-101 | the assignments in their order leave each capability as `NormalizeGate` says: an administrative flag forces an administrative allow, an unsourced allow becomes administrative, a grant source on a denied bit is cleared |
| BrokerPolicy.SecretPolicy.MarkAdministrative | internal/secret/secret.go:103-127 | sets both capabilities as asked; the revision moves, modulo 2^64, exactly when a flag changes |
| BrokerPolicy.SecretPolicy.ReconcileCurrent | internal/broker/lifecycle.go:46-77 | what an administrator holds is pinned and kept, everything else is what enabled grants need |
| BrokerPolicy.SecretPolicy.ReconcileForSecret | internal/broker/approval.go:300-336 | as `ReconcileCurrent` but also keeping the baseline, unless the administrative revision has moved since it was taken |
| BrokerPolicy.SecretPolicy.SourceAfter | internal/broker/approval.go:311-330 | the provenance decided by three assignments in order: baseline or current administrator, else grant need, else none |
| BrokerPolicy.SecretPolicy.ApplyGrant | internal/broker/approval.go:338-360 | succeeds exactly when every capability is known; then exactly the listed bits are allowed and an administrative source is never downgraded |
| BrokerPolicy.NormalizationSettles | internal/secret/secret.go:77-101 | normalising twice, or migrating a normalised policy, changes nothing |
| BrokerPolicy.LifecycleAbsorbs | internal/broker/lifecycle.go:46-77 | a lifecycle reconciliation that was written and is then repeated with other needs ends where the later one alone would have |
| BrokerPolicy.RollbackAbsorbs | internal/broker/approval.go:300-336 | the same for a roll-back, whatever its baseline |
| Metadata.BrokerFile.Validate | internal/broker/store.go:26-95 | the loops with seen-sets accept exactly the files that satisfy the declarative `ValidFile` |
| Metadata.BrokerFile.FindBinding | internal/broker/model.go:160-167 | the first binding with the name, or none |
| Metadata.BrokerFile.FindGrant | internal/broker/model.go:183-199 | the first grant that is on the binding, enabled, unexpired, has the capability and matches the client |
| Metadata.BrokerFile.Matches | internal/broker/model.go:210-238 | every pinned identifier must match; a shared interpreter only through an acknowledged interpreter-wide grant |
| Metadata.BrokerFile.FindBindingByNameOrID | internal/broker/lifecycle.go:172-180 | a name wins over an equal generated id |
| Metadata.BrokerFile.RemoveGrant | internal/broker/approval.go:449-457 | in-place compaction removes every grant with the id and keeps the order of the rest |
| Metadata.BrokerFile.RemoveIntent | internal/broker/approval.go:459-467 | the same for pending intents |
| Metadata.BrokerFile.RemoveStale | internal/tui/update.go:830-852 | the two passes with a seen-map leave the file without every grant whose id belongs to a disabled grant older than the cut-off, and without their intents, in order |
| Metadata.BrokerFile.RequiredBrokerPolicies | internal/broker/approval.go:362-389 | the map built by the loops gives, for every record, exactly the capabilities that some enabled, unexpired grant bound to it lists |
| Metadata.BrokerFile.ApprovalBaselines | internal/broker/approval.go:253-288 | the map built by the loop gives, for every record, the merge in file order of the baselines of the intents naming it, and has no other key |
| Metadata.BrokerFile.Revoke | internal/broker/lifecycle.go:81-94 | disables the grant and reports exactly its binding's record as affected; fails when there is no such grant |
| Metadata.BrokerFile.DisableExpired | internal/broker/lifecycle.go:98-112 | disables exactly the lapsed grants and reports exactly the records they were bound to |
| Metadata.BrokerFile.Rebind | internal/broker/lifecycle.go:116-135 | moves the binding, disables all its grants, reports both records |
| Metadata.BrokerFile.Delete | internal/broker/lifecycle.go:139-170 | removes the binding, its grants and its intents by order-keeping filters, reports its record |
| VaultRecords.Vault.ApplyGrant | internal/broker/approval.go:150-160 | fails exactly when the record is missing or archived or a capability is unknown; otherwise only the target record changes |
| VaultRecords.Vault.Recover | internal/broker/approval.go:217-231 | every record with a baseline is reconciled with its own need and no other record changes |
| VaultRecords.Vault.ReconcileAffected | internal/broker/lifecycle.go:30-39 | every affected record is reconciled with its need and no other record changes |
| VaultRecords.Vault.Rotate | internal/broker/service.go:207-216 | replaces the secret and its time stamps exactly when the record is present, not archived and permits rotation |
| VaultRecords.Vault.NormalizeAll | internal/secret/vault.go:221-228 | every record is normalised before a write |
| Approval.Stores.StageApproval | internal/broker/approval.go:38-118 | the draft is made from the stores as first read, recorded in whatever stores other processes have left when the lock is taken, and refused there when they no longer fit; writes, errors and final stores are those of `StageOutcome` |
| Approval.Stores.CancelStagedApproval | internal/broker/approval.go:185-194 | one metadata write without the grant and its intent; the vault is never touched |
| Approval.Stores.CleanupStaleStagedAccess | internal/tui/update.go:827-856 | one metadata write without the stale grants and their intents; the vault is never touched |
| Approval.Stores.TransactCommit | internal/broker/approval.go:134-175 | policy first, then the metadata: at most one vault write followed by at most one metadata write, with every early exit |
| Approval.Stores.CommitApproval | internal/broker/approval.go:130-181 | the transaction and, after any failure, its roll-back in whatever stores other processes have left in between; a context dead on entry only cancels |
| Approval.Stores.RecoverApprovalGrant | internal/broker/approval.go:391-422 | rolls one staged grant back from its own intent's baseline and the needs of the remaining grants |
| Approval.Stores.DropUnsettled | internal/broker/approval.go:204-210 | after the loop exactly the grants that are enabled or named by no intent are left |
| Approval.Stores.RecoverPendingApprovals | internal/broker/approval.go:199-243 | all pending intents are resolved by one vault write and one metadata write |
| Approval.Stores.MutateBrokerPolicy | internal/broker/lifecycle.go:18-44 | the common owner of revoke, expire, rebind and delete, with its early return |
| Approval.Stores.SaveBrokerFile | internal/broker/store.go:142-161 | refuses an invalid file; otherwise bumps the revision and writes once |
| Approval.Stores.WriteVault | internal/secret/vault.go:218-219 | the vault file becomes the normalised records in memory, in one write |
| Approval.DropStep | internal/broker/approval.go:205-210 | one iteration of the recovery loop filters by exactly one more intent |
| Approval.Undisturbed | internal/broker/approval.go:174-181 | when nobody acts while the lock is free, the stores end as the call's own writes leave them |
| Approval.ChangeKeepsBindings | internal/broker/lifecycle.go:81-170 | no lifecycle change makes binding ids clash or a target empty |
| ApprovalSafety.DraftsAreCoherent | internal/broker/approval.go:71-87 | what staging appends is always a disabled grant and an intent for the same id, binding and capabilities |
| ApprovalSafety.SourceAfterWrite | internal/broker/approval.go:150-160 | a bit is grant-sourced after a vault write only if the edit granted it, a grant needs it, or it was before and the record was not reconciled |
| ApprovalSafety.CommitCovers | internal/broker/approval.go:150-173 | bits a commit grants are explained by the metadata on disk (through the intent) and by the metadata about to be saved (through the enabled grant) |
| ApprovalSafety.RollbackCovers | internal/broker/approval.go:391-420 | the same for a roll-back |
| ApprovalSafety.RecoverCovers | internal/broker/approval.go:204-241 | the same for recovery |
| ApprovalSafety.LifecycleCovers | internal/broker/lifecycle.go:18-44 | the same for every lifecycle change |
| ApprovalSafety.PlannedConsistent | internal/broker/store.go:142-161 | the metadata an operation is about to save is always valid, so no save is refused, except for what a caller newly stages or binds |
| ApprovalSafety.StepKeepsInv | internal/broker/approval.go:130-243 | every vault write, metadata write, crash, administrative edit, rotation and other vault write that makes no bit grant-sourced keeps the two files linked: intents paired with disabled grants, and no grant-sourced bit without an enabled grant or a started intent that asks for it |
| ApprovalHistory.EveryStateLinked | internal/broker/approval.go:130-243 | the link holds in every reachable durable state, in the middle of operations included |
| ApprovalHistory.AuthorisedOnlyByCommit | internal/broker/service.go:108-128 | in every reachable state a peer can resolve or rotate only through an unexpired, matching, enabled grant whose own commit saved its metadata earlier in the run |
| PeerAccess.LetThroughFacts | internal/broker/model.go:183-238 | a peer that is let through has the user id, and the path and hash wherever named, of an enabled unexpired grant on the binding that lists the capability; an interpreter only through an acknowledged interpreter-wide grant, anything else only through a dedicated one; and the record is in use with the bit allowed |
| PeerAccess.LetThrough | internal/broker/model.go:183-238 | and every peer all of this holds for is let through |
| ApprovalHistory.NeverReenabled | internal/broker/lifecycle.go:81-170 | once a committed grant was revoked, expired, rebound away or deleted, no later state has it enabled |
| ApprovalHistory.RecoveryClears | internal/broker/approval.go:199-243 | after a recovery no intent is left and every grant-sourced bit is explained by an enabled grant |
| ApprovalHistory.IntentsArePaired | internal/broker/approval.go:91-114 | in every reachable state each pending intent has exactly one grant with its id, on the same binding, with the same capabilities, disabled |
| ApprovalHistory.AdminAllowSurvives | internal/broker/lifecycle.go:46-77 | over any run, with records added, removed and moved around it, only an administrator or another writer of that record's policy ends its administrative allow, and each write leaves it effective |
| ApprovalCalls.OperationIsSteps | internal/broker/store.go:195-217 | whichever of its file accesses fail, a locked operation is a run of the transition system, and every state it writes can be recovered from |
| ApprovalCalls.CommitCallSafe | internal/broker/approval.go:130-181 | the same for a whole commit with its roll-back, whatever other processes do between the two; only a context dead on entry needs the grant not to have been started |
| ApprovalCalls.OtherCallsSafe | internal/broker/lifecycle.go:18-44 | the same for every other call, needing only fresh grant ids and that what is cancelled or cleaned up was never started |
| ApprovalCalls.CancelExactly | internal/broker/approval.go:185-194 | dropping any set of grants with their intents leaves no bit unexplained if and only if every grant-sourced bit one of them asks for is also asked for by another enabled grant or started intent |
| ApprovalCalls.UnstartedIsCancellable | internal/broker/approval.go:183-194 | that condition holds whenever the commits of the dropped grants never reached the vault |
| ApprovalCalls.RecoverableIsLinkedOnDisk | internal/broker/approval.go:183-194 | whatever commits were started, the files alone show an enabled grant or a pending intent behind every grant-sourced bit |
| ApprovalCalls.CancelCallExactly | internal/broker/approval.go:185-194 | from the two files alone: a cancel keeps that so if and only if it does not reach its write or no grant-sourced bit the grant asks for is left without another enabled grant or pending intent on the record |
| ApprovalCalls.DeadCommitExactly | internal/broker/approval.go:131-133 | the same for a commit whose context is dead on entry |
| ApprovalCalls.CleanupCallExactly | internal/tui/update.go:827-856 | the same for the clean-up, with every stale grant at once |
| ApprovalCalls.LateCancelOrphans | internal/broker/approval.go:131-133 | a second commit of a committed grant with a context dead on entry removes the grant and leaves a grant-sourced allow that nothing explains |
| ApprovalCalls.StaleCleanupOrphans | internal/tui/update.go:827-856 | after a crash between a commit's two writes, cleaning up the stale grant drops the intent recovery needs and leaves a grant-sourced allow that nothing explains |
| CallEffects.RevokeEffect | internal/broker/lifecycle.go:81-94 | a revocation reports no error exactly when the grant exists and both files are written; then the grant is disabled and every other grant, binding and intent is as before |
| CallEffects.ExpireEffect | internal/broker/lifecycle.go:98-112 | after an expiry no enabled grant is past its time and no other grant was touched; when none was due nothing is written |
| CallEffects.RebindEffect | internal/broker/lifecycle.go:116-135 | a rebind reports no error exactly when the binding meant, the new record and both writes are there; then the binding points at the new record, none of its grants is enabled, and all else is as before |
| CallEffects.DeleteEffect | internal/broker/lifecycle.go:139-170 | after a delete no binding, grant or intent of the binding meant is left, and every other one is |
| CallEffects.NothingMeant | internal/broker/lifecycle.go:172-180 | a name or id of no binding is refused and nothing is written |
| CallEffects.LifecyclePolicies | internal/broker/lifecycle.go:18-77 | after a lifecycle call a bit of a record it has to do with is allowed if and only if an administrator's flag or source stands behind it or an enabled, unexpired grant of the saved file lists it, its source says which, and what is held is pinned; every other record is as before |
| CallEffects.CancelEffect | internal/broker/approval.go:185-194 | a cancel leaves exactly the grants and intents of other ids and never touches the vault |
| CallEffects.CleanupEffect | internal/tui/update.go:827-856 | the clean-up leaves exactly the grants that are enabled or not older than the cut-off, and the intents of no other |
| CallEffects.RecoverEffect | internal/broker/approval.go:199-243 | a recovery leaves no intent, and exactly the grants that are enabled or that no intent named |
| CallEffects.CommitEffect | internal/broker/approval.go:130-178 | a commit with a live context reports no error exactly when grant, intent, binding and usable record fit and both files are written; then the grant is enabled, its intent gone, and every other grant and intent as before |
| CallEffects.DeadContextFails | internal/broker/approval.go:131-173 | a context dead at any check is an error, and enables no grant |
| CallEffects.CommitPolicies | internal/broker/approval.go:150-160 | a commit adds exactly the listed bits on the record of its binding, keeps what an administrator holds, and touches no other record |
| CallEffects.RecoverPolicies | internal/broker/approval.go:217-241 | after a recovery a bit of a named record is allowed if and only if an administrator's flag or source, an enabled unexpired grant, or an intent whose revision still holds stands behind it, old intents included, its source says which, and flags and revision stay; every other record is as before |
| CallEffects.RollbackEffect | internal/broker/approval.go:391-422 | rolling one approval back reports no error exactly when its intent exists and both files are written; then exactly its grant and intent are gone |
| CallEffects.RollbackPolicies | internal/broker/approval.go:391-422 | and the policies are those its own intent, the remaining grants and the administrator stand behind |
| CallEffects.StageEffect | internal/broker/approval.go:38-118 | staging reports no error exactly when binding, record, ids and the resulting file fit, before and under the lock; then exactly one disabled grant with the name, client, capabilities, components and expiry asked for, and one intent that remembers the policy, are added |
| CallEffects.AddBindingEffect | cmd/broker.go:329-340 | adding a binding reports no error exactly when its name is free and the file stays valid and is written; then it is there and nothing else has changed |
| CallEffects.AdministratorDecides | internal/secret/secret.go:103-127 | after an administrator's decision both flags and both bits of the record are what was asked, and no other record has changed |
| RunEffects.MaterialKept | internal/secret/vault.go:203-228 | over any run a record keeps its secret, its parts and its exposure settings until a peer rotates it or another writer changes it |
| RunEffects.LegacyUpgraded | internal/secret/secret.go:317-332 | a record of policy version 0 gets the default exposure on the first write, keeping exactly the bits that were allowed, as administrative |
| RunEffects.RevisionCounts | internal/broker/store.go:142-161 | the revision is the number of metadata writes of the run, modulo 2^64 |
| RunEffects.RevisionMoves | internal/broker/store.go:142-161 | so the metadata changes in a step exactly when it is written |
| AcceptedFiles.NamesAreSafe | internal/broker/store.go:22-49 | an accepted binding's name cannot climb, start with a dot, dash or slash, hold white space, quotes, backslashes or control characters, or exceed 128 |
| AcceptedFiles.ReferencesResolve | internal/broker/store.go:33-80 | ids and names in an accepted file are unique and every reference by id resolves to one binding |
| AcceptedFiles.GrantsArePinned | internal/broker/store.go:50-75 | every accepted grant pins a user and an executable, and one for a whole interpreter was acknowledged and names an interpreter |
| AcceptedFiles.IntentsAreComplete | internal/broker/store.go:76-95 | every accepted intent asks for something, once, and knows its provenance |
| AcceptedFiles.BindingAccepted | internal/broker/store.go:26-49 | a binding with a plain free name and a free id can always be added |
| AcceptedFiles.PairAccepted | internal/broker/store.go:50-95 | so can a grant and its intent with new ids, a pinned client and known capabilities |
| ApprovalRecovery.RerunAbsorbs | internal/broker/approval.go:199-243 | an operation interrupted after its vault write and run again at any later time plans the same metadata and ends in the same vault as the later run alone |
| ApprovalRecovery.LaterExpiryAbsorbs | internal/broker/lifecycle.go:98-112 | so does an expiry run again when more grants have lapsed |
| ApprovalRecovery.LaterRebindAbsorbs | internal/broker/lifecycle.go:116-135 | so does a rebind with a later time stamp |
| ApprovalRecovery.NothingAffectedNothingChanged | internal/broker/lifecycle.go:23-29 | the early return discards nothing: a change that affects no record is no change of a valid file |
| ApprovalRecovery.SecondCommitIsInert | internal/broker/approval.go:142-145 | committing a committed grant with a context live on entry writes nothing, whatever else fails |
| ApprovalRecovery.HeldAfterWrite | internal/broker/approval.go:300-336 | exactly when an administrator stands behind a bit after a write |
| ApprovalRecovery.PermittedAfterWrite | internal/broker/approval.go:309-310 | exactly when a reconciled bit is allowed: held, remembered by a baseline no administrator overruled, or needed |
| ApprovalRecovery.RevisionAfterWrite | internal/secret/secret.go:103-110 | only an administrator changing a flag moves the revision |
| ApprovalRecovery.MergedBaseline | internal/broker/approval.go:253-288 | the merged baseline of a record remembers a bit allowed exactly when some intent naming it does, and carries the revision of the last of them only |
| ApprovalRecovery.RecoveryPermits | internal/broker/approval.go:217-231 | after a recovery a bit of a named record is allowed if and only if it is held, needed, or the last intent naming the record carries its current revision while some intent naming it remembers the bit allowed |
| ApprovalRecovery.LaterStagingRevivesDeny | internal/broker/approval.go:275-285 | a deny that changed a flag is undone by a recovery when another approval was staged after it: the allow comes from the first intent, the revision from the second |
| ApprovalRecovery.DenyAgainstRecovery | internal/broker/approval.go:199-243 | over a run, from a deny that changed a flag to the next recovery of the record: the bit ends allowed if and only if a grant needs it, or the last pending intent naming the record was staged at the revision the deny left while some intent naming it remembers the bit |
| ApprovalRecovery.DenyAgainstRollback | internal/broker/approval.go:391-422 | the same against the roll-back of one grant, whose own intent decides alone |
| ApprovalRecovery.DenyWins | internal/broker/approval.go:301-306 | so the deny wins, leaving exactly what enabled grants require, when the last pending intent naming the record was staged before it, or no pending intent remembers the bit |
| ApprovalRecovery.QuietDenyLoses | internal/secret/secret.go:107-109 | a deny that changes no flag moves no revision, so an older baseline that allowed the bit brings it back |
| ApprovalRollback.GateRollsBack | internal/broker/approval.go:300-336 | the allowed bit comes back if and only if it was allowed or neither pinned nor needed; provenance comes back if and only if the allow was not grant-sourced and a denied bit is not needed |
| ApprovalRollback.GrantedAllowPromoted | internal/broker/approval.go:311-330 | an allow that only an earlier grant stands for is administrative after another approval was rolled back |
| ApprovalRollback.NeededDenialLifted | internal/broker/approval.go:309-310 | a bit denied when the approval was staged is allowed by its roll-back when an older enabled grant lists it |
| ApprovalRollback.FailedTransaction | internal/broker/approval.go:134-181 | a failed transaction leaves the metadata as it was, and the vault as it was or with exactly the planned grant |
| ApprovalRollback.FailedApprovalUndone | internal/broker/approval.go:38-181 | stage, fail the commit at any point, roll back: grants and intents are as before staging, no other record changed, the target is restored as far as `RecordUndone` says |
| ApprovalRollback.CancelledApprovalUndone | internal/broker/approval.go:131-133 | stage and cancel, or commit with a context dead on entry: grants and intents are as before staging and the vault was never written |
| ApprovalOutcome.CommitAuthorises | internal/broker/approval.go:130-178 | a commit that reports no error has enabled its grant and the bound record permits every granted capability |
| ApprovalOutcome.LifecycleSettles | internal/broker/lifecycle.go:18-44 | a lifecycle change that reports no error leaves each affected record permitting exactly what is held or needed by the saved metadata |
| ApprovalOutcome.AllowKeptExactly | internal/broker/lifecycle.go:46-77 | of any policy, normalised or not, a lifecycle change leaves allowed exactly what is needed, what an administrator's flag or source stands behind, and every allow of a policy of version 0 |
| ApprovalOutcome.RecoverySettles | internal/broker/approval.go:199-243 | the same for recovery, with what some intent remembers when the last one naming the record carries its revision |
| ApprovalOutcome.UnsourcedAllowLost | internal/broker/lifecycle.go:46-77 | an allow whose source was never set is dropped by a lifecycle change unless needed, although normalising it first would have kept it |
| Service.CollectComponents | internal/broker/service.go:135-146 | the map has exactly the variables of releasable parts, each with the last such part's secret |
| Service.ResolveSnapshot | internal/broker/service.go:108-151 | releases exactly when both gates allow and something is listed by binding and grant; the primary secret and parts released are exactly those both list; otherwise the error of the first check that fails |
| Service.ResolveCredential | internal/broker/service.go:89-106 | an empty name and invalid metadata are refused before anything is looked up; otherwise it releases exactly when and exactly what the snapshot read under the lock allows |
| Service.RotateSecret | internal/broker/service.go:189-217 | at most one vault write, exactly when name, value, metadata and both gates allow it |
| Service.RotationIsNarrow | internal/broker/service.go:186-217 | a rotation changes only the secret and time stamps of the record the binding names |
| Service.RotationNeedsCommit | internal/broker/service.go:199-217 | in every reachable state a rotation that writes goes through a grant committed earlier in the run, and is a step of the protocol |
| PeerAccess.ReleasedParts | internal/broker/service.go:130-148 | what is released, part by part: the primary secret under its own variable if both lists have it, for every variable the last part both lists have that is not empty, and nothing else; an empty list stands for the primary secret |
| PeerAccess.EmptyListIsPrimaryOnly | internal/broker/service.go:171-187 | with an empty list on either side no part leaves but one keyed primary |
| PeerAccess.ListedIsReleased | internal/broker/service.go:130-148 | a peer that is let through gets something exactly when something both lists have is there |
| PeerAccess.RefusedBecause | internal/broker/service.go:108-128 | what each refused peer is told: binding unavailable, access denied or vault locked, by the first check that fails |
| PeerAccess.RotationExactly | internal/broker/service.go:189-217 | a rotation is carried out exactly for a peer that is let through to rotate, and then the new value is on the record the binding names |
| SessionLock.Session.Invalidate | internal/broker/server.go:271-283 | the critical section zeroes every key byte in place, locks, bumps the generation and replaces the context |
| SessionLock.Session.BeginRequest | internal/broker/server.go:306-316 | counts the request and hands out context and generation, or refuses once locked |
| SessionLock.Session.EndRequest | internal/broker/server.go:317-326 | uncounts the request, never below zero |
| SessionLock.CountIsExact | internal/broker/server.go:306-326 | in every reachable state the counter is the number of threads between begin and end, and each works with the key the session was opened with |
| SessionLock.NothingAfterLockReturns | internal/broker/server.go:266-288 | once some `Lock` call has returned, no response is written and no rotation committed, for any number of interleaved requests |
| SessionLock.LastCheckBeforeLock | internal/broker/server.go:390-403 | a request that takes effect after a lock's critical section made no generation check since, even if it copied the key earlier |
| SessionLock.ReadKeyExactly | internal/broker/server.go:297-304 | in every run a thread that asks for the key gets the very bytes the session was opened with if no lock came before, and is turned away without a key otherwise |
| SessionLock.ChecksExactly | internal/broker/server.go:337-344 | in every run a check of the context or the generation turns a request away if and only if a lock came before it |
| SessionTrace.BeginExactly | internal/broker/server.go:306-316 | in every run a thread that begins is registered and counted if no lock came before, and turned away uncounted otherwise |
| SessionTrace.WorkFollowsChecks | internal/broker/server.go:373-440 | before a thread works it copied the key, registered, took the operation mutex and passed both checks, in this order, the last of them before any lock |
| SessionTrace.ResponseFollowsWork | internal/broker/server.go:394-403 | before a thread responds it worked successfully and passed both checks again, the last of them before any lock |
| SessionTrace.EffectsAreChecked | internal/broker/server.go:385-403 | so whatever takes effect was checked under the mutex |
| SessionTrace.LockedOut | internal/broker/server.go:385-403 | a request that takes the mutex after a lock's critical section takes no effect, however early it copied the key |
| SessionTrace.OneAtATime | internal/broker/server.go:385-386 | operations never overlap: between two acquisitions the first thread released the mutex |
| SessionLock.GenerationCountsLocks | internal/broker/server.go:270-283 | generation and context move once per `Lock` call and never otherwise, and exactly the earlier contexts are cancelled |
| SessionLock.StaysLocked | internal/broker/server.go:306-326 | once locked the session stays locked and the count only falls |
| SessionLock.WaitingLockProgresses | internal/broker/server.go:328-334 | while a `Lock` call waits or sleeps, it or some counted request can take a step: no deadlock with the operation mutex, no lost wake-up |
| SessionLock.MeasureFalls | internal/broker/server.go:328-334 | once locked, each helping step shrinks a natural number that newcomers cannot grow |
| SessionLock.LockTerminates | internal/broker/server.go:328-334 | so only boundedly many helping steps fit before every `Lock` call has returned |
| VaultEnvelope.VaultFile.SealWithKey | internal/secret/crypto.go:164-212 | keeps the given salt and parameters, zero ones included; only an empty salt starts a new envelope with the defaults |
| VaultEnvelope.VaultFile.WriteWithKey | internal/secret/vault.go:304-341 | reseals with the file's own salt, mode and KDF metadata, which is what the key was derived with |
| VaultEnvelope.VaultFile.SaveVault | internal/secret/vault.go:236-254 | refuses to overwrite a vault the password does not open |
| VaultEnvelope.VaultFile.SaveVaultWithKey | internal/secret/vault.go:263-278 | refuses to overwrite a vault the key does not open |
| VaultEnvelope.VaultFile.MutateVault | internal/secret/vault.go:180-198 | changes the latest contents or nothing |
| VaultEnvelope.VaultFile.MutateVaultWithKey | internal/secret/vault.go:203-219 | the same with a derived key |
| VaultEnvelope.VaultFile.MutateVaultSession | internal/secret/session.go:22-57 | turns a password into its current key, or uses a non-zero session key, after the preload check |
| VaultEnvelope.VaultFile.RekeyVault | internal/secret/crypto.go:452-543 | a fresh salt and clamped parameters under the same password and contents, or nothing |
| VaultEnvelope.VaultFile.MigrateToKeyring | internal/secret/vault.go:379-404 | reseals under a non-zero key in keyring mode, only for the right password |
| VaultEnvelope.VaultFile.OpenWithRecovery | internal/secret/repair.go:57-78 | the loop returns the first historical derivation that opens the envelope, if its digest is one of the recoverable ones |
| VaultEnvelope.VaultFile.RepairVault | internal/secret/repair.go:128-199 | does nothing when the stored metadata opens the envelope; otherwise copies the file, gives up when it cannot, and reseals what recovery found, in the mode asked for; whenever the file changed, the last copy is the file as it was |
| VaultEnvelope.RecoverFrom | internal/secret/repair.go:43-78 | the first candidate from an index on that opens the envelope, with its key and plaintext, and no earlier one does |
| VaultUnlock.Unlocks | internal/secret/vault.go:62-94 | a file sealed for a password or key opens for exactly that password and that key, to exactly its contents |
| VaultUnlock.StepExactly | internal/secret/vault.go:180-404 | an operation succeeds exactly for the right credential, and the file it leaves holds the access it should if and only if it is within 2 MiB and, for a rekey, the requested time is at most 10 |
| VaultUnlock.EverySequence | internal/secret/vault.go:180-404 | after any sequence of operations with right and wrong credentials the file holds exactly the access the sequence granted |
| VaultUnlock.PasswordStillOpens | internal/secret/crypto.go:156-163 | the same password opens the file to the last accepted contents until a keyring migration; no other password and no key but the current one ever opens it |
| VaultUnlock.RekeyExactly | internal/secret/crypto.go:394-414 | a rekeyed vault is readable if and only if the requested time is at most 10 and the file within the bound: clamping does not bound the time |
| VaultUnlock.RekeyStores | internal/secret/crypto.go:394-414 | a rekeyed vault is labelled with the cost that was asked for: the time unless it was 0, memory and threads as asked within their bounds and the bound crossed beyond them; parameters within all bounds exactly as asked |
| VaultUnlock.SaveStores | internal/secret/vault.go:282-299 | saving under a password, and an upgrading repair, seal with a fresh salt under three passes over 64 MiB on two threads and say so |
| VaultUnlock.KeyedSaveStores | internal/secret/vault.go:304-341 | a keyed save keeps how the key is derived, and a migration says that nothing derives it |
| VaultUnlock.FreshlySealed | internal/secret/crypto.go:164-211 | whatever an operation writes is sealed under the nonce drawn for it and signed over all its other fields |
| VaultUnlock.OpenedIsBounded | internal/secret/crypto.go:719-738 | no vault is opened that is over 2 MiB, was altered since it was signed, or asks for more than ten passes, 512 MiB or eight threads |
| VaultWitness.SlowRekeyLocksOut | internal/secret/crypto.go:394-414 | a concrete vault rekeyed with a time cost of 11: accepted, written, and opened by no password any more |
| VaultUnlock.KeyedCreation | internal/secret/vault.go:263-278 | creating a vault with a bare key writes metadata that does not describe it: a password opens it only if the fresh salt happens to derive that key |
| VaultUnlock.RecoveryFinds | internal/secret/repair.go:57-78 | recovery finds the contents and derivation of every envelope sealed in one of the historical ways, whatever its metadata says |
| VaultUnlock.MislabelledIsRecovered | internal/secret/repair.go:43-78 | an envelope sealed and signed with one of the three derivations ever used and then labelled with any other parameters gives its contents back to its password |
| VaultUnlock.RepairExactly | internal/secret/repair.go:108-199 | repair makes the password open the vault again always when upgrading, and when preserving if and only if the salt is one normal reading accepts |
| VaultUnlock.PreservingStores | internal/secret/repair.go:164-172 | a preserving repair keeps the salt and labels the vault with the derivation that opened it |
| VaultWitness.PreservingRepairLocksOut | internal/secret/repair.go:164-172 | a concrete vault with an 8-byte salt and unrecorded parameters: preserving repair reports success and the password still does not open it |
| VaultUnlock.DiagnosisExactly | internal/secret/repair.go:84-106 | when diagnosis reports that the password works and repair does nothing, normal unlocking works if and only if mode, salt and digest also pass the strict checks |
| VaultWitness.DiagnosedButLocked | internal/secret/repair.go:84-106 | the same vault with its parameters recorded: diagnosed as fine, left alone by repair, not opened by its password |
| FileRestore.Overlay.TakeSnapshots | internal/adapter/filewriter.go:114-146 | one snapshot per path, of what was there; refuses when preflight fails or a file is over 4 MiB |
| FileRestore.Overlay.Complete | internal/adapter/filewriter.go:200-227 | marks the path, reads it back and keeps its hash; a file too large to read back fails the run |
| FileRestore.Overlay.ApplyFileWrites | internal/adapter/filewriter.go:25-95 | the files and bookkeeping after the loop, stopping at the first failure |
| FileRestore.Overlay.RestoreOne | internal/adapter/filewriter.go:155-192 | one snapshot's turn changes at most its own path |
| FileRestore.Overlay.Restore | internal/adapter/filewriter.go:149-198 | the reverse loop restores path by path, reports exactly the kept files, and does nothing the second time |
| FileRestore.Overlay.ApplyWithRestore | internal/adapter/filewriter.go:109-232 | a failed run has been restored when it returns; a successful one is armed for restoring |
| FileApply.AppliedExactly | internal/adapter/filewriter.go:25-95 | a run succeeds exactly when every write goes through; then every path holds what its own writes, in order, make of its earlier content, with the mode of the last; otherwise what those up to the first failure make of it |
| FileApply.OneWrite | internal/adapter/filewriter.go:61-91 | one write that goes through leaves exactly what it rendered |
| FileApply.OthersUntouched | internal/adapter/filewriter.go:25-95 | a path no write names keeps its content and mode |
| FileRestore.FailureUndone | internal/adapter/filewriter.go:228-230 | after a failed run every path has its earlier existence and content if and only if its overlay was not too large to read back, and exactly the others are reported |
| FileRestore.OversizedStays | internal/adapter/filewriter.go:149-198 | a concrete run with one overlay a byte too large: it fails, the overlay stays in place of the file, and is reported |
| FileRestore.RestoreUndoes | internal/adapter/filewriter.go:149-198 | after a successful run nobody edited, restoring gives every path its earlier existence and content, several writes to one path included |
| FileRestore.RestoreKeepsEdits | internal/adapter/filewriter.go:166-181 | a path edited since is left as it is and reported, and every other managed path is put back |
| DeepMerge.JsonObject.DeepMerge | internal/adapter/filewriter.go:538-551 | whatever order the map is iterated in, the object ends as the overlay of incoming on what it was |
| DeepMerge.MergedAt | internal/adapter/filewriter.go:536-551 | the merge seen path by path: incoming wins, objects merge, the base stays where incoming neither reaches nor hides it |
| DeepMerge.IncomingWins | internal/adapter/filewriter.go:536-551 | every incoming atom is found at its path |
| DeepMerge.ExistingSurvives | internal/adapter/filewriter.go:536-551 | every existing value that incoming neither has nor hides survives whole |
| DeepMerge.MergeTwice | internal/adapter/filewriter.go:536-551 | merging the same document again changes nothing |
| JsoncComments.StripComments | internal/adapter/filewriter.go:603-645 | the index loop computes `Strip`, and is undefined exactly where it would slice past its input |
| JsoncComments.StripsSegments | internal/adapter/filewriter.go:600-645 | a text that starts with plain text, string literals and comments is stripped to exactly those segments that are not comments, followed by what its tail is stripped to |
| JsoncComments.StripTwice | internal/adapter/filewriter.go:600-645 | whenever stripping is defined, stripping again changes nothing |
| JsoncComments.UndefinedExactly | internal/adapter/filewriter.go:603-623 | stripping is undefined if and only if the text is whole segments followed by an unterminated string literal that ends in a lone backslash |
| ManagedBlock.ManagedFile.MergeBlock | internal/adapter/filewriter.go:662-729 | first write, append and replacement leave the text `Update` describes |
| ManagedBlock.IndexInLines | internal/adapter/filewriter.go:689-690 | a marker is found within one line, so the first occurrence in a text is the first in its lines |
| ManagedBlock.UpdateTwiceExactly | internal/adapter/filewriter.go:660-729 | repeating an update changes nothing if and only if the file was absent, had the markers in order, or had neither |
| ManagedBlock.StrayMarkersExactly | internal/adapter/filewriter.go:692-723 | what a second update makes of a text it could not replace a block in: behind an unclosed start marker everything is replaced, any other stray marker gets one more block appended, without markers nothing changes |
| ManagedBlock.UserTextSurvivesExactly | internal/adapter/filewriter.go:660-661 | the text that was there is still the beginning of the file after two updates if and only if no start marker was left unclosed in it, or all behind that marker is already what the block starts with |
| ManagedBlock.StrayStartLoses | internal/adapter/filewriter.go:714-723 | a concrete file with an unclosed start marker: after two updates the user's line behind it is gone |
| ManagedDocument.UpdateIsPut | internal/adapter/filewriter.go:660-729 | updating the text of a document of user lines and profile blocks is replacing or appending that one block |
| ManagedDocument.FirstWrite | internal/adapter/filewriter.go:665-680 | the first write makes a document of one block |
| ManagedDocument.TextIsADocument | internal/adapter/filewriter.go:692-712 | any text without the block's markers is updated as a document |
| ManagedDocument.EveryUpdateIsPut | internal/adapter/filewriter.go:647-729 | after any sequence of updates by compatible profiles the file is still such a document, with one block per key |
| ManagedDocument.LastContentWins | internal/adapter/filewriter.go:647-729 | each profile's block holds the content of its own last update |
| ManagedDocument.UserTextKept | internal/adapter/filewriter.go:714-723 | text no profile owns stays in its place, byte for byte |
| ManagedDocument.PrefixKeys | internal/adapter/filewriter.go:651-658 | one key's markers contain another's exactly when that other key is a prefix |
| XmlMerge.Element.Find | internal/adapter/filewriter.go:877-896 | one pass finds the child by identity, or the only one of its name |
| XmlMerge.Element.IdentityText | internal/adapter/filewriter.go:898-907 | the first id, else name, else key attribute, whatever its namespace |
| XmlMerge.Element.MergeFrom | internal/adapter/filewriter.go:850-875 | attributes, text and children are merged in place, recursively |
| XmlOverlay.AttrKept | internal/adapter/filewriter.go:851-863 | attributes keep place and name; the first of each name takes the last incoming value |
| XmlOverlay.AttrsTwice | internal/adapter/filewriter.go:851-863 | overlaying the same attributes again changes nothing, duplicates included |
| XmlOverlay.NothingLost | internal/adapter/filewriter.go:850-875 | no existing child or attribute is deleted or reordered, at any depth |
| XmlOverlay.IdentityExactly | internal/adapter/filewriter.go:877-907 | a matched child keeps its identity if and only if the incoming element gives no other value to the very attribute that identifies it |
| XmlOverlay.IdentityKept | internal/adapter/filewriter.go:877-907 | which always holds when identifying attributes do not differ in namespace only |
| XmlOverlay.NamespacedIdentityMoves | internal/adapter/filewriter.go:898-907 | a namespaced duplicate of the identifying attribute does move the identity |
| XmlOverlay.IdentityDecided | internal/adapter/filewriter.go:898-907 | an id decides whatever else is there, without one a name, without either a key, and without any there is no identity |
| XmlOverlay.FoundById | internal/adapter/filewriter.go:877-896 | an element with an id lands on the first child of its name with the same id, and on none if there is none |
| XmlOverlay.TextReplaced | internal/adapter/filewriter.go:864-866 | text of white space leaves the text that is there, text with a visible ASCII character takes its place |
| XmlTwice.FoundBySlot | internal/adapter/filewriter.go:877-896 | counting namesakes finds the unique child of the slot |
| XmlTwice.MergeTwice | internal/adapter/filewriter.go:850-875 | an overlay whose children are unambiguous at every depth is idempotent |
| XmlTwice.MergeTwiceExactly | internal/adapter/filewriter.go:850-896 | for an overlay whose siblings can be told apart at every depth, applying it twice is applying it once if and only if, at every depth, each child without identity meets at most one namesake |
| XmlTwice.MergeCarries | internal/adapter/filewriter.go:850-875 | such an overlay arrives completely: text, attribute values and children, at every depth |
| XmlTwice.GrowsExactly | internal/adapter/filewriter.go:868-894 | one level: applying the overlay again adds children if and only if one of its children has no identity and several namesakes |
| XmlTwice.AmbiguousChildGrows | internal/adapter/filewriter.go:868-871 | the least case: a child without identity among several namesakes is appended once more each time |
| StreamBridge.Translator.HandleCall | internal/bridge/messages.go:349-363 | opens a block at a call's first fragment and sends each later fragment to the same block |
| StreamBridge.Translator.Translate | internal/bridge/messages.go:303-372 | the loops over lines and calls, with the end mark, emit the stream of the token fold |
| StreamEvents.WellFormedExactly | internal/bridge/messages.go:291-373 | a reader automaton accepts the stream, each block started once, fed while open and stopped once, if and only if text does not first appear after a tool call |
| StreamEvents.LateTextCollides | internal/bridge/messages.go:342-359 | a tool call and then the first text: the two blocks both start, and stop, at index 0 |
| StreamEvents.IndicesContiguous | internal/bridge/messages.go:342-359 | block indices are then 0, 1, 2, ... in the order the blocks start |
| StreamEvents.StreamConserves | internal/bridge/messages.go:342-363 | for every stream the text deltas add up to the upstream text, and each call's deltas to that call's arguments |
| StreamEvents.AlwaysBounded | internal/bridge/messages.go:350-359 | no two calls ever share a block |
| StreamEvents.CallAnnounced | internal/bridge/messages.go:349-359 | every call received is announced by a block start with the id and name of its first fragment |
| StreamEvents.StopReasonTold | internal/bridge/messages.go:339-341 | the stop reason is tool_use exactly when some chunk finished for tool calls |
| StreamLines.AcceptedExactly | internal/bridge/messages.go:291-373 | a reader accepts the stream if and only if the first chunk with text does not come after one with a call |
| StreamLines.LinesConserved | internal/bridge/messages.go:303-363 | against the upstream lines up to the end mark: the reader gets exactly the text of the chunks, and for each call exactly its arguments in a block announced with its first fragment's id and name |
| StreamLines.FramedExactly | internal/bridge/messages.go:303-372 | the stream begins with its start and ends with its stop after the stop reason, which is tool_use exactly when some chunk finished for tool calls |
| ShellExport.BuildShellExport | internal/runner/env.go:20-27 | for valid names and any map order a shell reads the same map back if and only if no value contains a NUL |
| ShellExport.ReplaceQuotes | internal/runner/env.go:23 | every single quote leaves the quotes, appears escaped and re-enters |
| ShellExport.ValueReadsBack | internal/runner/env.go:23-24 | the quoted value reads back as itself, newlines and quotes included |
| ShellExport.ScriptReadsBack | internal/runner/env.go:22-25 | a script reads back as its assignments in order |

## Left out

- Argon2, AES-GCM, SHA-256 and random bytes: parameters of the model.
- File descriptors, symbolic links, permissions and `flock`: a file write is one atomic step and a lock is mutual exclusion.
- Sockets, HTTP, peer credentials, the audit log, proxies, process launching and terminal handling.
- JSON, TOML, XML and YAML parsing and printing by libraries: the merges start from trees; only text the program scans itself is modelled as text.
- `ClassifyExecutable`: whether a path is a shared interpreter is a flag of the path.
- `grantComponentAllowlist`: trimming and deduplicating a new grant's component list happens before the model's grant is made.
- `Session.Close`: its wait loop does not hold the mutex its condition variable needs; the barrier claims are about `Lock`.
- SessionLock.Session.Invalidate: the wait that follows it in `Lock` is a transition of the thread model, since it needs other threads to run.
- SessionLock.LockTerminates: bounds the helping steps; that an enabled thread is eventually scheduled is the scheduler's part.
- Approval.Stores.StageApproval: the context is checked twice between the draft and the locked half; the model has one check there.
- Approval.Stores.CommitApproval: the errors of a failed vault transaction are one error, without its text; the test-only observer between the two writes is a possible crash point instead.
- Approval.Stores.MutateBrokerPolicy: callbacks are the four the program passes, not arbitrary functions.
- VaultEnvelope.VaultFile.MutateVault: vault contents are their serialised text; broker provenance normalisation on save is modelled on records in `VaultRecords`.
- VaultEnvelope.VaultFile.RepairVault: backups are a list of copies, without the time stamps in their names.
- FileRestore.Overlay.ApplyFileWrites: rendering and merging one file is a function of what is there; test hooks are the `CheckFails` fault.
- FileRestore.Overlay.Restore: reads fail only for files over 4 MiB and writes do not fail while restoring.
- DeepMerge.JsonObject.DeepMerge: nested objects are values, so the sharing of an incoming nested map with the result is not captured.
- XmlMerge.Element.MergeFrom: nested elements are values that are merged through an object and put back.
- ManagedBlock.ManagedFile.MergeBlock: the profile key is given; deriving it from the file name is not modelled.
- StreamBridge.Translator.Translate: only the first choice of a chunk exists; chunks that do not parse are skipped lines.
- `toOpenAI`, `contentText` and `fromOpenAI`: translating one request or one complete response is a direct field mapping.
- The command that calls `MarkBrokerAdministrative`: it is the administrative step of the transition system. No claim says that an enabled grant has its policy bit, since an administrator may deny it.
- Adapter tables, provider catalogues, the terminal interface, redaction heuristics, configuration defaults and other small helpers: data, or members whose claims would be easy.
