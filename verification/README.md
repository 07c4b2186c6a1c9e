# Verified model of the identity, folder and access logic

A Dafny 4.11 project about the parts of this repository whose correctness spans
several calls. `dafny verify dfyconfig.toml` checks all of it.

## What is modelled

**The cross-database e-mail identity protocol** (`Identity*.dfy`). A control-plane
row keyed by e-mail moves through PENDING, ACTIVE and RELEASE_PENDING while the
user it names lives on one of many shards, and no transaction spans the two
databases. `IdentityTables` holds the tables and the single statements sent to
them. `IdentityProtocol` is a step relation in which every `await` is one step,
any number of creators, deleters, reconcilers and resolvers interleave, and any of
them may stop for good between two steps; a failed call is such a stop, before or
after its effect. `IdentitySafety` and `IdentityDeletion` prove the invariants over
all runs, `IdentityRecovery` that the reconcilers repair the directory,
`IdentityResolution` that a lookup by e-mail, alone or interleaved with other calls,
agrees with asking every shard.
`IdentityService` is the same code as a class whose calls run without
interference, `IdentityCalls` shows that every process of the protocol that goes on
alone ends in exactly one state, the one the class promises, and `IdentityRuns` that
the assumptions below are needed.

The environment assumptions, which the code does not check:

- user ids are fresh and never drawn twice;
- a shard write that reports failure did not commit;
- there is one clock;
- a shard write is sheltered: its own PENDING row is still stored and no reconciler
  that found no user is about to drop it (`IdentitySafety.ShelteredRun`). This is
  exactly what is needed (`IdentitySafety.CommitIsSafeIff`), and a shard write that
  commits no later than the `expiresAt` of its reservation always has it
  (`IdentitySafety.TimelyRunsAreSheltered`). Without it uniqueness fails: the row may
  be gone (`IdentityRuns.LateCommitBreaksUniqueness`) or about to go
  (`IdentityRuns.StoredReservationIsNotEnough`);
- no user predates the directory (`IdentityProtocol.Initial`).

The reconcilers that `reserveEmail` and `resolveUserByEmail` run inside themselves
write nothing but the directory, so in the protocol they appear as processes of
their own. A comparison with the clock that follows a read is a step of its own,
except that the refresh of a PENDING row by the same user is one step; with fresh
ids no run reaches it. `null` and the empty string are one value, as for the
code's truthiness tests.

**The folder tree and its path index** (`PathStrings`, `FolderTree`,
`FolderRewrite`, `FolderService`, `FolderEffects`, `SharedFolders`). Folders form a `parentId` tree
and also store a globally unique full path. Creating, renaming, moving and deleting
keep the index; renames and moves rewrite a whole subtree with `String.replace` in
one transaction; share links trust the path prefix. `FolderEffects` tells in terms of
the tree what each accepted call does, when each refusal comes, and that no call
touches another owner's folders. Each service call is atomic,
`startsWith` is a true string prefix, and `listed` is the order in which `findMany`
returns the descendants.

**State machines around these.** `Authority`, `AuthorityEffects` and
`AuthorityService`: effective
permissions, the grant policy, the user-management calls and workspace ownership;
`OwnershipRaces`: ownership when the checks and writes of different calls
interleave, over a database that has ownerId's foreign key and the partial unique
index on OWNER
(`prisma/migrations/20260806000000_baseline/migration.sql:117-129`).
`RefreshSessions`: the Redis set of refresh tokens, with jti as in section 4.1.7 of
RFC 7519 and rotation in the style of section 4.14.2 of RFC 9700; the cache class
keeps each user's set in step with a run of session events. `StorageBridge`:
the circuit breaker. `SignedTokens`: the local provider's token map and its sweeper.
`RequestContext`: `createContext` and `Protect`, where the cache must be only a hint.

## Where the code and its description part

- `docs/ARCHITECTURE.md` says that marking before the shard delete cannot leave an
  undiscoverable ACTIVE orphan. A release reconciler that sees the user before the
  shard delete and writes after it leaves exactly that
  (`IdentityRuns.OverlappingRestoreLeavesAnOrphan`). `IdentityDeletion` proves the
  promise for every run without that overlap and gives the exact condition for a
  run.
- The guard of `moveFolder` compares bare string prefixes, so it also refuses
  targets that are not in the subtree (`FolderService.GuardRefusesSiblings`; exactly
  which, in `FolderService.GuardRefusesMoreThanTheSubtree`), and a move cannot
  always be undone (`FolderService.MoveBack`, `FolderService.MoveBackCanBeRefused`).
- The path is unique over all owners but the services look only at the caller's own
  folders first, so a name another owner uses at the root fails in the database,
  and nothing else does (`FolderService.CreateViolatesIff`, `RenameViolatesIff`,
  `MoveViolatesIff`, `FindOrCreateRoot`).
- `docs/ARCHITECTURE.md` says that the unique index enforces one OWNER per workspace.
  It does, in every interleaving (`OwnershipRaces.OneNamedOwnerAlways`,
  `OwnershipRaces.LosingTransferRollsBack`), but the owner need not stay ACTIVE:
  checks and writes are separate statements and the transfer's transaction asks for
  no isolation level. A transfer between the check and the write of
  `updateUserStatus` suspends the new owner
  (`Authority.TransferDuringSuspendBreaksOwnership`); a suspension between the reads
  and the writes of a transfer promotes a suspended user
  (`OwnershipRaces.SuspendDuringTransferBreaksOwnership`).
  `OwnershipRaces.OneOwnerIff` gives the exact condition over all interleavings.

## Model

| member | source | states |
|---|---|---|
| IdentitySafety.EveryShelteredRunIsSafe | src/identity/email-reservation.service.ts:31-357 | in every run of interleaved creators, deleters, reconcilers, failures and crashes whose shard writes are sheltered, whatever the clock says, every live user owns the complete row of its e-mail and no e-mail has two live users on any shards |
| IdentitySafety.EveryTimelyRunIsSafe | src/identity/email-reservation.service.ts:31-357 | the same for every run whose shard writes commit no later than their rows expire |
| IdentitySafety.TimelyRunsAreSheltered | src/identity/email-reservation.service.ts:121-129 | a shard write on time always finds its own row, and no reconciler about to drop it |
| IdentitySafety.ShelteredRunsKeepInv | src/identity/email-reservation.service.ts:31-468 | the protocol invariant, which also says what every call in flight may rely on, survives every sheltered run |
| IdentitySafety.TimelyRunsKeepInv | src/identity/email-reservation.service.ts:31-468 | the invariant survives every timely run |
| IdentitySafety.CommitIsSafeIff | src/modules/user-management/services/user-management.service.ts:177-200 | a shard write, late or not, keeps every user owning its row in all continuations with sheltered writes if and only if it is sheltered itself |
| IdentitySafety.UnshelteredCommitBreaks | src/identity/email-reservation.service.ts:105-130 | a shard write without shelter breaks ownership at once or by the next step of a reconciler that is running already |
| IdentitySafety.PendingIsDue | src/identity/email-reservation.service.ts:166-185 | the expiry of a PENDING row is the deadline of the only shard write still to come for its user |
| IdentitySafety.ExpiredIsSettled | src/identity/email-reservation.service.ts:34-40 | a row read PENDING at any time and tested expired after the read: a shard write of its user still to come is late, and for that e-mail |
| IdentitySafety.InsertKeepsInv | src/identity/email-reservation.service.ts:166-185 | inserting the PENDING row keeps the invariant against every other call in flight |
| IdentitySafety.CommitKeepsInv | src/modules/auth/services/auth.service.ts:181-231 | a sheltered shard write keeps it |
| IdentitySafety.EraseKeepsInv | src/modules/user-management/services/user-management.service.ts:306-309 | the shard delete keeps it, and the deleted id never comes back |
| IdentitySafety.DeleterKeepsInv | src/modules/user-management/services/user-management.service.ts:301-323 | every step of a deletion keeps it |
| IdentitySafety.ExpiredReaderKeepsInv | src/identity/email-reservation.service.ts:31-130 | reading a PENDING row, testing its expiry afterwards and looking at its shard keeps it, so a missing user stays missing while the row is dropped |
| IdentitySafety.ReleaseReaderKeepsInv | src/identity/email-reservation.service.ts:373-440 | the same for the release reconciler's two reads |
| IdentitySafety.ResolverKeepsInv | src/identity/resolve-user-by-email.ts:123-136 | the same for a resolver that meets a PENDING row |
| IdentitySafety.ConditionalWriteKeepsInv | src/identity/email-reservation.service.ts:105-130 | the conditional writes that follow those reads keep it however stale the reads are |
| IdentityDeletion.InterruptedDeletionsAreDiscoverable | src/identity/email-reservation.service.ts:258-357 | in every run whose restores each meet a live user that no deleter is about to delete, every ACTIVE row has a live user and a row whose user is gone is RELEASE_PENDING, at every crash point |
| IdentityDeletion.FactsHoldIff | src/identity/email-reservation.service.ts:373-468 | the deletion facts hold at every point of a run if and only if each of its restores that writes meets that condition |
| IdentityDeletion.ExclusiveRunsRestoreSafely | src/identity/email-reservation.service.ts:189-209 | runs in which no restore overlaps a deletion past its mark meet it |
| IdentityDeletion.RestoreIsSafeIff | src/identity/email-reservation.service.ts:442-456 | the reconciler's restore keeps those facts if and only if the user is live and no deleter of that user is past its mark |
| IdentityRecovery.RecoveryConverges | src/identity/email-reservation.service.ts:31-130 | from any reachable state with nothing in flight and all expiries past, one pass of the reconcilers in any order makes the directory exactly the live users, all ACTIVE on their own routes, and a second pass changes nothing |
| IdentityRecovery.PassRepairs | src/identity/email-reservation.service.ts:373-468 | a pass over any list of e-mails repairs each listed one, breaks none, and leaves a directory in step with the shards alone |
| IdentityRecovery.RepairOne | src/identity/email-reservation.service.ts:442-467 | one reconciler call repairs its own e-mail and touches no other |
| IdentityResolution.ResolutionAgreesWithScan | src/identity/resolve-user-by-email.ts:64-174 | in every reachable state an answer is the exhaustive scan's and the only possible one, and an error comes exactly for blocked, unreachable or unfinished identities |
| IdentityResolution.InterleavedAnswersAreLinear | src/identity/resolve-user-by-email.ts:64-174 | with any other calls between the lookup's own reads, an answer is the exhaustive scan's only possible one at a point of the call: a user's when the shard was looked at, nobody when the directory was read |
| IdentityResolution.IntegrityErrorMeansDeletedMeanwhile | src/identity/resolve-user-by-email.ts:138-171 | if restores have been safe, an ACTIVE row without its user means that a deletion erased the user during the call |
| IdentityResolution.OnlyTheRecordedShardMatters | src/identity/resolve-user-by-email.ts:71-173 | while the row survives, two worlds that agree on the row, the clock and the recorded shard give the same answer and the same row |
| IdentityService.IdentityService.ReconcileExpiredPending | src/identity/email-reservation.service.ts:31-130 | which verdict means what for the row, that no other row moves, and that an unreachable shard preserves the row |
| IdentityService.IdentityService.ReserveEmail | src/identity/email-reservation.service.ts:136-186 | a reservation succeeds exactly when the e-mail is free after reconciliation or pending for the same user, and otherwise only the reconciliation remains |
| IdentityService.IdentityService.CreateUser | src/modules/user-management/services/user-management.service.ts:170-202 | success leaves a live user with its ACTIVE row, failure leaves only what the reconciliation did, and ownership is kept |
| IdentityService.IdentityService.MarkReleasePendingBeforeDelete | src/identity/email-reservation.service.ts:263-321 | the marker is written unless the row belongs to somebody else, and is idempotent |
| IdentityService.IdentityService.DeleteUser | src/modules/user-management/services/user-management.service.ts:301-323 | success frees the e-mail, an interrupted delete keeps the user and leaves a RELEASE_PENDING row, a refused one changes nothing |
| IdentityService.IdentityService.ReconcileReleasePending | src/identity/email-reservation.service.ts:373-468 | when a row is released, restored or kept, and that it fails exactly for an unreachable shard |
| IdentityService.IdentityService.ReconcileAllReleasePending | src/identity/email-reservation.service.ts:471-504 | the loop gives every marked row its own fate; `released` is the shrinkage, `restored` the marked rows found ACTIVE afterwards, `kept` those without a shard or workspace, `errors` those behind a shard that does not answer |
| IdentityService.TallyTells | src/identity/email-reservation.service.ts:477-501 | counting verdict by verdict comes to those four numbers, in any order of the rows |
| IdentityService.BatchSettlesEveryMarkedRow | src/identity/email-reservation.service.ts:366-372 | a reachable marked row ends ACTIVE if its user lives and gone if not, and other rows stay |
| IdentityService.IdentityService.ResolveUserByEmail | src/identity/resolve-user-by-email.ts:64-174 | the documented case table, and that the self-call happens at most once |
| IdentityService.LookupEffect | src/identity/resolve-user-by-email.ts:95-135 | a lookup that answers a PENDING row's user leaves the row ACTIVE, without expiry, on its own route; it drops only expired rows without a user, and moves no other row |
| IdentityService.LookupRefusals | src/identity/resolve-user-by-email.ts:71-171 | which error comes in exactly which state of the row |
| IdentityService.AfterExpiredKeepsOwners | src/identity/email-reservation.service.ts:105-130 | reconciling an e-mail never takes the row of a live user, and a free e-mail has no live user |
| IdentityRuns.Create | src/modules/auth/services/auth.service.ts:167-231 | an uninterrupted creation, which first reconciles an expired row of its e-mail, is a run of the protocol that ends with a live user and an ACTIVE row |
| IdentityCalls.EveryProcessEnds | src/identity/email-reservation.service.ts:31-468 | every process of the protocol that goes on alone ends, within a few steps |
| IdentityCalls.OneEnd | src/identity/email-reservation.service.ts:31-468 | and it ends in one state only |
| IdentityCalls.CreateAlone | src/modules/auth/services/auth.service.ts:167-231 | a creation alone leaves a taken e-mail as it is, gives a refused one back free, and otherwise leaves the user and its ACTIVE row |
| IdentityCalls.CreateCallAlone | src/modules/user-management/services/user-management.service.ts:170-200 | the same with the reconciliation of an expired row that reserveEmail begins with |
| IdentityCalls.RefusedCreate | src/modules/auth/services/auth.service.ts:223-229 | when the shard refuses the write, the release leaves nothing of the reservation |
| IdentityCalls.FailedCreateIsARun | src/identity/email-reservation.service.ts:189-241 | a creation whose shard write is refused is a run, from any reached state and over an expired row, that ends with the e-mail free |
| IdentityCalls.DeleteAlone | src/modules/user-management/services/user-management.service.ts:301-323 | a deletion alone changes nothing for a missing user or somebody else's row, and otherwise removes the user and its row |
| IdentityCalls.StoppedDeleteIsARun | src/identity/email-reservation.service.ts:263-321 | a deletion that stops before its shard delete leaves the user and a RELEASE_PENDING row, and nothing else |
| IdentityCalls.ExpiredReconcilerAlone | src/identity/email-reservation.service.ts:31-130 | the reconciler alone leaves, on every row, exactly what the class method does |
| IdentityCalls.ReleaseReconcilerAlone | src/identity/email-reservation.service.ts:373-468 | the same for the release reconciler |
| IdentityCalls.ResolverAlone | src/identity/resolve-user-by-email.ts:119-136 | a lookup activates exactly the unexpired PENDING row of a live user and leaves every other row |
| IdentityCalls.CallIsARun | src/identity/email-reservation.service.ts:31-468 | a call that nothing interrupts is a run of the protocol from wherever it is made |
| IdentityCalls.ResolverIsARun | src/identity/resolve-user-by-email.ts:119-136 | so a lookup is a timely run |
| IdentityCalls.EraseIsExact | src/modules/user-management/services/user-management.service.ts:310-312 | in every reachable state a delete by id removes the one user meant |
| IdentityCalls.InsertIsExact | src/modules/user-management/services/user-management.service.ts:177-194 | in every reachable state an insert with a fresh id is refused exactly for a taken e-mail, and adds one user only |
| IdentityRuns.DeleteIsARun | src/modules/user-management/services/user-management.service.ts:301-323 | an uninterrupted deletion, first attempt or retry of a marked one, is a run that ends with no user and no row |
| IdentityRuns.ExpiredReconcilerIsARun | src/identity/email-reservation.service.ts:31-130 | the uninterrupted reconciler, on rows with and without a complete route, is a run that ends where the class method does |
| IdentityRuns.ReleaseReconcilerIsARun | src/identity/email-reservation.service.ts:373-468 | the same for the release reconciler |
| IdentityRuns.LateCommitBreaksUniqueness | src/identity/email-reservation.service.ts:121-129 | a run in which a late shard write gives one e-mail two live users |
| IdentityRuns.StoredReservationIsNotEnough | src/identity/email-reservation.service.ts:69-129 | a run in which the one late write still finds its reservation, a reconciler that has looked already drops it, and the e-mail gets two live users |
| IdentityRuns.OverlappingRestoreLeavesAnOrphan | src/identity/email-reservation.service.ts:442-456 | a timely run that ends with an ACTIVE row, no user, nothing running and nothing for the batch |
| PathStrings.SanitizeIsIdempotent | services/storage/src/utils/path.util.ts:21-31 | sanitizing twice is sanitizing once, and a sanitized name holds neither '/' nor '$' |
| PathStrings.KeptAscii | services/storage/src/utils/path.util.ts:21-23 | of the characters below code 128, exactly letters, digits, hyphen, underscore and white space are kept |
| PathStrings.KeepConcat | services/storage/src/utils/path.util.ts:21-23 | the filter works character by character, in order |
| PathStrings.SanitizeTakesOnlySpace | services/storage/src/utils/path.util.ts:21-23 | what is trimmed off the filtered name is white space at its two ends, and nothing else |
| PathStrings.TrimmedEnds | services/storage/src/utils/path.util.ts:21-23 | after trimming no white space is left at either end |
| PathStrings.ReplaceSwapsPrefix | services/storage/src/services/folder.service.ts:212-217 | first-occurrence replace with JavaScript's '$' patterns swaps the leading prefix and nothing else |
| FolderTree.PathIsJoinOfNames | services/storage/src/services/folder.service.ts:69-90 | an indexed path is the '/'-join of the names up the parentId chain |
| FolderTree.ParentGraphIsAcyclic | services/storage/src/services/folder.service.ts:266-270 | no folder of an indexed table is its own ancestor |
| FolderTree.PrefixIsAncestor | services/storage/src/services/folder.service.ts:206-210 | every slash-terminated prefix of a stored path is the path of an ancestor |
| FolderTree.BelowIffPrefix | services/storage/src/services/folder.service.ts:292-296 | the prefix test and the walk up the tree agree |
| FolderTree.ParentPathIsParents | services/storage/src/services/folder.service.ts:190-192 | cutting a path at its last slash gives the parent's path |
| FolderRewrite.RewriteKeepsIndex | services/storage/src/services/folder.service.ts:219-225 | rewriting a subtree to a free, legal place keeps paths, uniqueness and owners consistent |
| FolderRewrite.RewriteIsExact | services/storage/src/services/folder.service.ts:206-225 | exactly the folder and its strict descendants change, and a descendant keeps its relative path |
| FolderRewrite.NeverCollides | services/storage/src/services/folder.service.ts:298-311 | with any part of the rewrite done, a rewritten path is taken by no other row |
| FolderRewrite.RewriteBackRestores | services/storage/src/services/folder.service.ts:212-225 | rewriting back restores the whole table |
| FolderRewrite.OldPathIsFreeAgain | services/storage/src/services/folder.service.ts:194-204 | after a rewrite no row stands in the old path's way |
| FolderService.EveryReachableTableIsIndexed | services/storage/src/services/folder.service.ts:42-347 | in every history of creates, renames, moves and deletes, every path is the join of names, paths are unique and nobody is his own ancestor |
| FolderService.RenameKeepsIndex | services/storage/src/services/folder.service.ts:172-232 | an accepted rename keeps the index |
| FolderService.MoveKeepsIndex | services/storage/src/services/folder.service.ts:234-318 | an accepted move keeps the index |
| FolderService.CreateKeepsIndex | services/storage/src/services/folder.service.ts:42-93 | an accepted creation keeps the index |
| FolderService.RenameBack | services/storage/src/services/folder.service.ts:172-232 | a rename to a free path is accepted, and renaming back is always accepted and restores every row |
| FolderService.MoveBack | services/storage/src/services/folder.service.ts:234-318 | moving back restores every row unless the prefix guard refuses, which is the only reason for a refusal |
| FolderService.MoveBackCanBeRefused | services/storage/src/services/folder.service.ts:266-270 | a move whose way back is refused |
| FolderService.GuardRefusesMoreThanTheSubtree | services/storage/src/services/folder.service.ts:266-270 | the guard refuses the whole subtree, and wrongly refuses a target if and only if its path continues the folder's path with something other than a slash |
| FolderService.MoveRefusalIsRightIff | services/storage/src/services/folder.service.ts:241-270 | moveFolder's refusal means "into its own subtree", both ways, if and only if the target's path does not continue the folder's name |
| FolderService.GuardRefusesSiblings | services/storage/src/services/folder.service.ts:266-270 | a sibling that the guard refuses |
| FolderService.CreateViolatesIff | services/storage/src/services/folder.service.ts:69-90 | a creation passes the owner's check and fails on the unique path exactly for a root name that another owner uses |
| FolderService.RenameViolatesIff | services/storage/src/services/folder.service.ts:190-225 | the same for a rename |
| FolderService.MoveViolatesIff | services/storage/src/services/folder.service.ts:272-311 | the same for a move |
| FolderService.StrangersRootIsRefused | services/storage/src/services/folder.service.ts:69-90 | a table in which a creation, a rename and a move all pass the owner's check and fail that way |
| FolderEffects.TakenMeansSibling | services/storage/src/services/folder.service.ts:73-78 | the lookups by path ask whether a sibling, or an own sibling, has the name |
| FolderEffects.LabelsDetermineTables | services/storage/src/services/folder.service.ts:69-90 | names, places, owners and visibility determine an indexed table, paths included |
| FolderEffects.CreateEffect | services/storage/src/services/folder.service.ts:42-93 | a creation is accepted exactly in the root or the owner's own folder, for a non-empty name no sibling has, and adds that folder and nothing else |
| FolderEffects.CreateRefusals | services/storage/src/services/folder.service.ts:45-81 | which refusal comes exactly when |
| FolderEffects.RenameEffect | services/storage/src/services/folder.service.ts:172-232 | a rename is accepted exactly for the owner's own folder and a non-empty name no sibling has, and changes that name and nothing but paths |
| FolderEffects.RenameRefusals | services/storage/src/services/folder.service.ts:173-204 | which refusal comes exactly when |
| FolderEffects.MoveEffect | services/storage/src/services/folder.service.ts:234-318 | a move is accepted exactly for the owner's own folder and target, past the guard, where no sibling has the name, and changes that place and nothing but paths |
| FolderEffects.MoveRefusals | services/storage/src/services/folder.service.ts:235-290 | which refusal comes exactly when |
| FolderEffects.DeleteEffect | services/storage/src/services/folder.service.ts:320-347 | a delete is accepted exactly for the owner's own folder without files and children, and removes it alone |
| FolderEffects.CallsSpareOtherOwners | services/storage/src/services/folder.service.ts:172-347 | no call adds, changes or removes a folder of anybody but its caller, subtree rewrites included |
| FolderEffects.OthersNeverTouchMyFolders | services/storage/src/services/folder.service.ts:42-347 | over every history, an owner's folders are the same between two of its own calls |
| FolderService.StatementIsAccepted | services/storage/src/services/folder.service.ts:219-225 | at any point of the transaction the next update, computed with replace, meets no taken path |
| FolderService.FolderService.CreateFolder | services/storage/src/services/folder.service.ts:42-93 | the call does what Create says, keeps the index and changes nothing when refused |
| FolderService.FolderService.RenameFolder | services/storage/src/services/folder.service.ts:172-232 | the statement-by-statement rename equals the one-shot subtree rewrite for any order of the child list |
| FolderService.FolderService.MoveFolder | services/storage/src/services/folder.service.ts:234-318 | the same for moves |
| FolderService.FolderService.Transaction | services/storage/src/services/folder.service.ts:305-311 | the ordered transaction commits exactly when the new path is free and otherwise rolls back |
| FolderService.FolderService.DeleteFolder | services/storage/src/services/folder.service.ts:320-347 | only an owned, empty, childless folder goes, and the index is kept |
| FolderService.FolderService.FindOrCreateRoot | services/storage/src/services/upload.service.ts:49-82 | the caller gets its own root folder of that name, made as createFolder would, and fails exactly when another owner has the path |
| SharedFolders.AuthorizedIffInSubtree | services/storage/src/routes/share.routes.ts:240-243 | the prefix test admits a file exactly when its folder is the shared folder or a descendant of it |
| SharedFolders.LookupIsWalk | services/storage/src/services/share-link.service.ts:322-328 | looking up base path plus sub-path finds exactly the folder a walk by child names reaches |
| SharedFolders.ResolveSharedFolder | services/storage/src/services/share-link.service.ts:302-344 | a sub-path resolves exactly to the end of that walk, always inside the shared subtree |
| Authority.NoAmplification | src/modules/user-management/policies/access-grant.policy.ts:40-92 | over every run of requests by non-owners, from contexts as stale as they like and with other calls between each check and its write, what a workspace's non-owners can do together never grows |
| Authority.WriteStaysWithin | src/modules/user-management/services/user-management.service.ts:116-375 | a member written for a non-owner can do nothing beyond what the actor held and the member's state when written |
| Authority.AssignedRolesAreHeld | src/modules/user-management/policies/access-grant.policy.ts:64-92 | a role handed out by a non-owner exists and carries nothing the actor lacks |
| Authority.AllAreFound | src/modules/user-management/policies/user-management.policy.ts:36-48 | equal counts mean that no role id was missing |
| AuthorityEffects.CountingFindsRoles | src/modules/user-management/policies/user-management.policy.ts:36-48 | comparing counts accepts exactly lists of the workspace's roles without repetition |
| AuthorityEffects.OwnersAreAcceptedIff | src/modules/user-management/policies/access-grant.policy.ts:12-18 | an owner is refused exactly for unknown or repeated roles and targets out of reach |
| AuthorityEffects.MembersAreAcceptedIff | src/modules/user-management/policies/access-grant.policy.ts:20-92 | a member is accepted exactly with the permission of the request, not for its own access or suspension, not for the Admin role, for known roles, and handing out nothing it does not hold |
| AuthorityEffects.RequestEffect | src/modules/user-management/services/user-management.service.ts:116-375 | an accepted request changes its target's one field as asked, roles added to or taken from the old ones, and no other field, member, role or workspace; a refused one changes nothing |
| AuthorityEffects.LateWriteEffect | src/modules/user-management/services/user-management.service.ts:231-375 | so does the write of a call whose checks passed earlier, unless its target is gone or is a named owner to be deleted |
| AuthorityEffects.UninterruptedRequestIsARun | src/modules/user-management/services/user-management.service.ts:116-375 | a request that nothing comes between is a run of the no-amplification machine and ends where the class method does |
| Authority.OneOwnerAlways | src/modules/workspace/services/workspace.service.ts:81-134 | at every point of every run of sign-ups, transfers and user-management calls each workspace has exactly one OWNER, named by ownerId and ACTIVE |
| AuthorityEffects.SignUpEffect | src/modules/auth/services/auth.service.ts:183-222 | the new user owns the new workspace and holds the whole catalog there, the Admin role carries it, and nobody else is touched |
| AuthorityEffects.TransferIsOpenIff | src/modules/workspace/services/workspace.service.ts:87-108 | a transfer is open exactly from the workspace's OWNER to an ACTIVE member of it |
| AuthorityEffects.TransferEffect | src/modules/workspace/services/workspace.service.ts:110-124 | it swaps the two users' types and the named owner, and nothing else |
| Authority.StatusWriteIsSafeIff | src/modules/user-management/services/user-management.service.ts:231-253 | the status write keeps that if and only if it activates or meets a non-owner |
| Authority.TransferDuringSuspendBreaksOwnership | src/modules/user-management/services/user-management.service.ts:239-250 | a transfer between check and write that leaves a suspended owner |
| OwnershipRaces.OneNamedOwnerAlways | prisma/migrations/20260806000000_baseline/migration.sql:117-129 | over every interleaving of checks, writes and crashes of sign-ups, transfers and user management, each workspace has exactly one OWNER and ownerId names it, at every point and without a condition on the writes |
| OwnershipRaces.LosingTransferRollsBack | src/modules/workspace/services/workspace.service.ts:92-124 | of two transfers that read the same owner, the later writer is refused by the unique index and changes nothing |
| OwnershipRaces.IndexRefusesThirdOwners | prisma/migrations/20260806000000_baseline/migration.sql:128-129 | the index refuses exactly the promotions that come after the workspace has gone to a third user |
| OwnershipRaces.OneOwnerIff | src/modules/workspace/services/workspace.service.ts:91-126 | that owner is also ACTIVE at every point of a run if and only if every transfer that goes through writes onto an ACTIVE target and every status write activates or meets a non-owner |
| OwnershipRaces.TransferWriteIsSafeIff | src/modules/workspace/services/workspace.service.ts:110-124 | a transfer's transaction keeps one ACTIVE owner if and only if its target is ACTIVE when written or the index rolls it back |
| OwnershipRaces.CommitIsSafeIff | src/modules/user-management/services/user-management.service.ts:231-253 | the same equivalence for any pending write |
| OwnershipRaces.StepKeepsTidy | src/modules/workspace/services/workspace.service.ts:94-108 | what the checks leave true until the write, in every interleaving: users stay in their workspace and ids in flight are nobody's |
| OwnershipRaces.SuspendDuringTransferBreaksOwnership | src/modules/workspace/services/workspace.service.ts:99-119 | a run in which a suspension between a transfer's read and promotion leaves a suspended owner |
| AuthorityService.ComputeEffectivePermissions | src/authorization/effectivePermissions.ts:4-23 | the merge loops give every catalog permission of a role or the custom list once, and nothing else |
| AuthorityService.MergedIsEffective | src/authorization/effectivePermissions.ts:13-22 | the merged list is the effective set, in whatever order the roles were loaded |
| AuthorityService.UserManagement.AssertCanAssignRoles | src/modules/user-management/policies/access-grant.policy.ts:64-92 | the loop accepts exactly the assignable role lists |
| AuthorityService.UserManagement.CreateUser | src/modules/user-management/services/user-management.service.ts:116-202 | the checks in their order, the workspace, its shard, the reservation and the insert accept exactly the admitted requests; a refusal changes nothing, and ownership is kept |
| AuthorityService.UserManagement.UpdateUserStatus | src/modules/user-management/services/user-management.service.ts:231-253 | the same for status changes |
| AuthorityService.UserManagement.SetUserRoles | src/modules/user-management/services/user-management.service.ts:255-275 | the same for setting roles |
| AuthorityService.UserManagement.SetUserPermissions | src/modules/user-management/services/user-management.service.ts:277-299 | the same for setting custom permissions |
| AuthorityService.UserManagement.AssignRoles | src/modules/user-management/services/user-management.service.ts:325-345 | the same for adding roles |
| AuthorityService.UserManagement.RemoveRoles | src/modules/user-management/services/user-management.service.ts:347-375 | the same for removing roles |
| AuthorityService.UserManagement.DeleteUser | src/modules/user-management/services/user-management.service.ts:301-323 | the member goes exactly when the request is admitted, the reservation marked and the shard delete done; a failed final release is an error after the fact |
| AuthorityService.UserManagement.WriteTransfer | src/modules/workspace/services/workspace.service.ts:110-124 | the transaction's writes from whatever state they meet: rolled back when a user is gone or somebody else owns the workspace, and keeping one ACTIVE owner exactly under the condition above |
| AuthorityService.UserManagement.TransferOwnership | src/modules/workspace/services/workspace.service.ts:81-134 | with nothing committed in between, demote, promote and set ownerId together, or nothing, keeping one active owner |
| RefreshSessions.RotationIsOnce | src/cache/refreshToken.cache.ts:31-66 | each jti rotates successfully at most once, and live jtis map injectively to logins, so they never outnumber them |
| RefreshSessions.ReuseEndsEveryEarlierSession | src/cache/refreshToken.cache.ts:60-64 | after a reuse DEL no jti stored before it is ever accepted again |
| RefreshSessions.LiveFromStoreToEnd | src/cache/refreshToken.cache.ts:9-66 | over every run a token is live exactly from its login or rotation until its own logout or rotation or an end of all sessions, so a login ends nobody's session and a logout only its own |
| RefreshSessions.EndedForGood | src/cache/refreshToken.cache.ts:21-66 | a token that has ended, in whatever way, is never accepted again |
| RefreshSessions.NoSecondRotation | src/cache/refreshToken.cache.ts:31-43 | a token that has rotated never rotates again |
| RefreshSessions.RefreshTokenCache.EverySetIsBounded | src/cache/refreshToken.cache.ts:9-66 | after any calls a user's Redis set holds no more tokens than logins, none that was rotated away and none from before a reuse |
| RefreshSessions.RefreshTokenCache.RotateScript | src/cache/refreshToken.cache.ts:35-43 | the script is the event Rotate of that user's run: it consumes and replaces, or changes no set |
| RefreshSessions.RefreshTokenCache.RotateRefreshToken | src/cache/refreshToken.cache.ts:45-66 | rotation succeeds exactly for a live jti; reuse is Rotate followed by ReuseDel and ends all of that user's sessions; other users are untouched |
| RefreshSessions.RefreshTokenCache.StoreRefreshToken | src/cache/refreshToken.cache.ts:9-13 | storing is the event Login of that user's run, so the theorems about runs go on holding, and no other user's tokens change |
| RefreshSessions.RefreshTokenCache.RevokeRefreshToken | src/cache/refreshToken.cache.ts:21-24 | it is the event Logout: one jti of one user goes |
| RefreshSessions.RefreshTokenCache.RevokeAllRefreshTokens | src/cache/refreshToken.cache.ts:26-29 | it is the event RevokeAll, or ReuseDel when it answers a reuse: no token of the user is accepted afterwards and nobody else loses one |
| RefreshSessions.RefreshTokenCache.RefreshTokens | src/modules/auth/services/auth.service.ts:427-465 | an inactive or missing user or workspace, or an unroutable shard, is noticed before the old token is consumed; otherwise the token decides |
| StorageBridge.CountsTrailingFailures | src/modules/upload/services/storage-bridge.service.ts:71-96 | the failure counter is the length of the trailing run of failed fetches, and the breaker has a deadline exactly from the fifth on |
| StorageBridge.NoFetchWhileOpen | src/modules/upload/services/storage-bridge.service.ts:45-53 | no fetch starts before the deadline of an open breaker |
| StorageBridge.GoesThroughIff | src/modules/upload/services/storage-bridge.service.ts:45-53 | after any history a call reaches the network if and only if fewer than five fetches have failed in a row or the last failure is 30 seconds ago |
| StorageBridge.StreakPaces | src/modules/upload/services/storage-bridge.service.ts:91-98 | in a failing streak the fetches after the fifth failure are a cool-down apart |
| StorageBridge.StreakIsThrottled | src/modules/upload/services/storage-bridge.service.ts:29-32 | in a failing streak at most 5 + floor((t - fifth failure) / 30000) fetches have started by time t |
| StorageBridge.StorageBridgeService.Request | src/modules/upload/services/storage-bridge.service.ts:39-105 | the method follows the breaker the lemmas speak of |
| SignedTokens.SweepingIsInvisible | services/storage/src/providers/local.provider.ts:22-36 | every run of the provider answers exactly like the same run without its sweeps |
| SignedTokens.LocalTokens.ValidateToken | services/storage/src/providers/local.provider.ts:102-122 | a token is accepted exactly while it exists, has the kind asked for and has not expired |
| SignedTokens.LocalTokens.SweepExpired | services/storage/src/providers/local.provider.ts:22-36 | the loop removes exactly the expired tokens and counts them, in any order |
| SignedTokens.LocalTokens.Issue | services/storage/src/providers/local.provider.ts:56-75 | the token opens its key, for its kind only, exactly for the seconds asked for, and no other token's validation changes |
| SignedTokens.TokenLivesUntilItsExpiry | services/storage/src/providers/local.provider.ts:56-122 | after any chronological run that neither reissues nor consumes it, an issued token validates exactly for its kind and until its expiry |
| SignedTokens.LocalTokens.ConsumeUploadToken | services/storage/src/providers/local.provider.ts:124-126 | no validation of any kind at any time accepts the token, and no other token's validation changes |
| SignedTokens.ConsumedStaysRefused | services/storage/src/providers/local.provider.ts:102-126 | after any run that does not reissue it, a consumed token is refused at any time and for any kind |
| RequestContext.CacheIsOnlyAHint | src/middleware/auth.middleware.ts:42-91 | with every user on one shard, a protected resolver runs for exactly the requests the database admits, whatever the cache answers |
| RequestContext.ProtectedRunsIff | src/guards/index.ts:25-80 | the resolver runs exactly with MFA done, user and workspace ACTIVE, the workspace's shard configured or not recorded, and for the OWNER or one whose role and custom lists hold all, or some, of what is needed |
| RequestContext.ContextTells | src/middleware/auth.middleware.ts:93-162 | which stored rows give no context, an unavailable one, or which authenticated one |
| RequestContext.CacheCannotMatterIff | src/middleware/auth.middleware.ts:57-91 | the cache cannot matter if and only if all stored copies of the user agree on admitting the request |
| RequestContext.ContextDecides | src/guards/index.ts:25-80 | the guard's checks on a context amount to conditions on the stored rows: both ACTIVE, MFA done, and OWNER or granted by a role's or the user's own list |
| RequestContext.CreateContext | src/middleware/auth.middleware.ts:22-162 | which row the context is read from, and that missing, inactive or unroutable ones fail closed |

## Left out

- The legacy gap: users that have no control-plane row. With none at the start no run of the protocol has one.
- Loss of the control plane inside a class call of IdentityService; the protocol covers it, since any call may stop at any step.
- IdentityService.IdentityService.ResolveUserByEmail: the two outcomes after reconciliation that need another call in between (still pending, cleanup pending) cannot occur in an uninterrupted call.
- Interleaving of two folder calls: the child list is read outside the transaction, so each call is taken as atomic.
- An empty string as `parentId`, which the code treats as no parent and the foreign key refuses.
- The half-done demote-promote transaction: its writes become visible together at the commit.
- RefreshSessions.RefreshTokenCache.RotateRefreshToken: no other call comes between the script and its DEL; the runs of session events keep the two apart.
- Authority.OneOwnerAlways: each call is atomic; OwnershipRaces.OneNamedOwnerAlways and OwnershipRaces.OneOwnerIff state what holds when checks and writes interleave.
- AuthorityService.UserManagement.TransferOwnership: nothing commits between its reads and writes; AuthorityService.UserManagement.WriteTransfer does not assume that.
- Role edits: the no-amplification result holds role definitions fixed.
- RequestContext.CacheIsOnlyAHint: all shards answer and the 2FA option of the guard is not set.
- StorageBridge.StreakIsThrottled: calls are made one at a time.
- Prisma, Redis, queue and HTTP wiring, cryptography, shard health checks, cloud providers, streaming, templates, logging, pagination, slug and profile validation, view counts, OTP attempts and upload status: plumbing or short branches that would only add easy members.
