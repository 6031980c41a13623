# Verified model of the BetterVault server

BetterVault's server stores encrypted vaults it cannot read, replicates them between nodes, trusts
nodes through a signed list, receives files in chunks, backs itself up and draws the diagrams of its
documentation. This project models those parts in Dafny and proves what they promise, for all inputs
and over all runs.

`dafny verify dfyconfig.toml` checks the whole project. Each file holds one module of the same name.

| part | modules | source |
|---|---|---|
| version vectors and the vault merge | VersionVectors, VaultReplica | server/src/cluster.ts, server/src/app.ts |
| runs of N nodes, restores | Restore, ClusterRuns, Quiescence, ConcreteRuns, MergeLimits, RestoreLimits | server/src/cluster.ts, server/src/backup.ts |
| two nodes | TwoNodes | server/src/cluster.ts, server/src/app.ts |
| bundles of accounts and shared vaults, deletions | ClusterDb, Bundles, Deletions | server/src/cluster.ts |
| change log, pages, cursor | ChangeFeed, CursorSoundness, PullRounds | server/src/cluster.ts |
| cluster trust | Manifest, ManifestRuns, CatchingUp, NodeLists, NodeRequests | server/src/clusterTrust.ts |
| attachments | Uploads, Quota | server/src/attachments.ts |
| backup retention | Retention | server/src/backup.ts |
| diagrams | Layering, Ranks, LineBreaks, WordPieces, WrapText | server/src/diagram.ts |
| Stripe prices | StripePrices | server/src/billing.ts |

## How it is modelled

Code that changes tables, fields or local variables step by step is a class or a method with loops,
proved equal to a function of its input or of the old state; the theorems are about those functions.
Beside that, its contract (or a lemma about the function) says field by field what the result is.
Protocols are runs of events: `Step` gives the effect of one event, an event that cannot happen
changes nothing, and the theorems hold for every sequence of events, so for every interleaving,
duplication, reordering, interruption and delay that the events can express.

- A vault row is a revision, a blob and a vector; its set-aside versions are a map from fingerprint to
  blob. The fingerprint is a parameter `sha`; it is assumed injective only where blobs must be told
  apart. It is a number here because only its order matters (the source compares strings of one length).
- In `ClusterRuns`, bundles stay in flight for ever: a delivery may be late, repeated or out of order.
  The restore of an account reads the row, fetches files, then writes: it begins and finishes in two
  events, and anything may happen to the row between them.
- `covers` records which writes a blob accounts for: its own, those of the blob it replaces, and those
  of the set-aside versions its author acknowledged. Crediting the blob it replaces assumes that its
  author read that blob. A write names only a revision, so the server cannot tell: with two nodes
  `TwoNodes.AcceptedPutReplacesWhatWasRead` proves it, beyond two `MergeLimits.RevisionMayRepeat`
  shows that the blob read and the blob replaced may differ.
- In `CursorSoundness`, a source writes, deletes and compacts while a puller fetches pages, applies
  their items in any order, gives up in the middle, or writes itself. A bundle is fetched in one event
  and applied in another, so the source may have moved on when it is applied.
- In `ManifestRuns`, signatures are ideal (a signed manifest names the key that signed it), root keys
  are fresh, administrative actions are atomic and one node holds the root key. Anything signed with a
  key that is not a root key may reach any node at any time. A joining node may pin the key of any
  epoch so far; `pins` records it.
- In `NodeRequests`, a signature covers the whole request and the clock does not go back.
- In `Uploads`, an append may write any part of a chunk, requests wait for their body while others
  run, and the process may stop between any two effects.
- In `Retention`, the backup of one destination may stop after any operation. The age the destination
  reports is the time of the write.

## What was found

- Blobs do not converge with three nodes or more, nor with two when a bundle is applied late, and
  revisions stop ordering versions with four: `MergeLimits` gives a run from the start for each.
- `restoreAccount` reads the row, waits for missing files, then writes the revision it read plus one. The
  revision rises if and only if the row written over has no greater revision than the row read
  (`ClusterRuns.RestoreAccountPrevails`). Otherwise a device that read a write made meanwhile may
  overwrite the restored vault (`RestoreLimits.RestoreMayRepeatRevision`). The vector always rises.
- A restored account is above the snapshot's own vector exactly when this node has seen every other
  node's write that the snapshot has: `restoreAccount` does not read the snapshot's vector
  (`ClusterRuns.RestoreAccountPrevails`; a run in `RestoreLimits.RestoreMayStandBesideItsSnapshot`).
  `restoreServer` does, and is always above it.
- `publish` does not check the limit of 64 nodes that every receiver checks, so the catch-up rule needs
  it (`CatchingUp.CatchUpRule`; `NodeLists.ListMayOutgrowItsReaders` publishes 65 nodes).
- Deleting then updating an account, and updating then deleting it, leave the same rows; the second
  order also leaves a tombstone for each attachment the update brought
  (`Deletions.AccountOrderIrrelevant`; a run in `Deletions.OrderMayShowInTombstones`).
- A database copy that is kept may lack a file its user deleted while that very copy was being made,
  after the database was read and before the copy was written. No other file is ever missing
  (`Retention.KeptCopiesAreComplete`), and each such file can go missing
  (`Retention.KeptCopyLosesExactly`; a run from the empty server in `DeletionDuringRunMayLoseFile`).
- An id that Stripe answers in an unexpected form is not kept, so the object made with it is made
  again by the next attempt. A tariff that gains its price has more than one in Stripe if and only if
  some answer about it was unusable (`StripePrices.DuplicatesComeFromUnusableIds`; a pair of attempts
  in `UnusableIdMakesTwoPrices`). `RetriesNeverDuplicate` counts objects whose id can be kept.

## Model

| member | source | states |
|---|---|---|
| VersionVectors.CompareVv | server/src/cluster.ts:212-225 | the two flags of the loop give the order of the vectors |
| VersionVectors.MergeVv | server/src/cluster.ts:227-231 | the loop computes the pointwise maximum |
| VersionVectors.PickWinner | server/src/cluster.ts:237-241 | the first is kept if and only if its total is larger, or equal with a fingerprint at least as large |
| VersionVectors.CompareMeaning | server/src/cluster.ts:212-225 | the four answers mean: same counters, strictly ahead, strictly behind, neither |
| VersionVectors.MergeIsJoin | server/src/cluster.ts:227-231 | vectors are a join-semilattice under merge, ordered as compareVv orders them |
| VersionVectors.MergeLeast | server/src/cluster.ts:227-231 | a merge is below every vector that is above both sides |
| VersionVectors.MergeAbsorbs | server/src/cluster.ts:227-231 | merging what is already included changes no counter, and only then |
| VersionVectors.WinnerIsSymmetric | server/src/cluster.ts:233-241 | both nodes of a conflict name the same version unless totals and fingerprints tie |
| VersionVectors.BumpIsNewer | server/src/cluster.ts:62-64 | a local write makes the vector strictly newer |
| VaultReplica.VaultStore.ApplyVaultRow | server/src/cluster.ts:416-442 | newer or unknown: the incoming row; older or equal: no change; concurrent: the blob of the larger total, then fingerprint, under a revision above both and the joined vector, the other blob set aside |
| VaultReplica.VaultStore.ApplyBundle | server/src/cluster.ts:367-388 | a newer bundle replaces row and conflict set; a concurrent one leaves the rows settled and the union of both sets and the loser; an older or equal one changes nothing |
| VaultReplica.VaultStore.PutVault | server/src/app.ts:676-687 | accepted exactly on the revision it names: then the next revision, the new blob, one more write counted, and exactly the first 100 acknowledged conflicts are gone; else nothing changes |
| VaultReplica.ApplyJoinsVectors | server/src/cluster.ts:416-442 | whatever the order, applying a bundle joins its vector into the local one |
| VaultReplica.ApplyIdempotent | server/src/cluster.ts:416-442 | applying a bundle again changes nothing |
| VaultReplica.CrossApplyAgrees | server/src/cluster.ts:233-241 | two nodes that apply each other's concurrent version end with the same blob, vector, revision and conflicts |
| VaultReplica.ApplyAllIsJoin | server/src/cluster.ts:416-442 | after any sequence of bundles the vector is the least above the start and all of them |
| VaultReplica.DeliveryOrderIrrelevant | server/src/cluster.ts:416-442 | order, duplication and repetition of deliveries do not matter to the vector |
| Restore.DominateRow | server/src/backup.ts:401-405 | the loop computes the join of both vectors with this node's counter one higher |
| Restore.RestoreVault | server/src/backup.ts:484-508 | the snapshot's blob under the revision read plus one; the vector joins the one read with the row's present one, the update's own write and one more counted |
| Restore.ReplaceVault | server/src/backup.ts:559-564 | the snapshot's blob and revision under the larger of both counters, one more for this node; set-aside versions stay |
| Restore.DominateIsAbove | server/src/backup.ts:391-410 | the result is strictly newer than the vector before and the one just written |
| Restore.RestoredStands | server/src/backup.ts:391-410 | over a row at or above the one read, the vector is that row's with this node's counter two higher, hence newer than both |
| Restore.LeadingRowPrevails | server/src/cluster.ts:416-442 | a row ahead on its own node's counter is never older or equal, is adopted by peers at or below the previous vector, and keeps both blobs at concurrent ones |
| Restore.RestoredAgainstSnapshot | server/src/backup.ts:484-508 | the new vector is above the snapshot's if and only if this node has seen all other nodes' writes in it |
| ClusterRuns.NoWriteLost | server/src/cluster.ts:367-387 | in every run of N nodes every write counted at a node is covered by its blob or a set-aside one |
| ClusterRuns.AcceptedWriteSurvives | server/src/app.ts:676-687 | a write once accepted is covered at that node after every continuation |
| ClusterRuns.ConcurrentKeepsWhole | server/src/cluster.ts:430-441 | a merge of concurrent versions covers what either side covered |
| ClusterRuns.PutKeepsWhole | server/src/app.ts:676-687 | an accepted write covers what it replaces and what it acknowledges |
| ClusterRuns.OwnCounterLeads | server/src/cluster.ts:116-126 | in every run, restores included, no vector shows more writes of a node than that node counted |
| ClusterRuns.RestoreAccountPrevails | server/src/backup.ts:474-513 | in every run, whatever happened since the row was read, a restored account prevails over every peer; exactly when its revision rises, and exactly when it is above the snapshot |
| ClusterRuns.OwnBackupIsBehind | server/src/backup.ts:474-513 | a restore from a node's own earlier copy is strictly newer than that copy |
| ClusterRuns.RestoreServerPrevails | server/src/backup.ts:520-638 | in every run a restored server's vault prevails and is above both vectors |
| RestoreLimits.RestoreMayRepeatRevision | server/src/backup.ts:484-508 | a run in which a restore writes the revision of a write made meanwhile, whose readers may then overwrite it |
| RestoreLimits.RestoreMayStandBesideItsSnapshot | server/src/backup.ts:474-513 | a run in which the restored vector and the snapshot's are concurrent |
| TwoNodes.TwoNodeAgreement | server/src/cluster.ts:416-442 | with pulls in one step, equal vectors mean equal content and smaller vectors smaller revisions |
| TwoNodes.AcceptedPutReplacesWhatWasRead | server/src/app.ts:676-680 | a write is accepted if and only if the node still holds exactly what its author read |
| TwoNodes.OneRoundConverges | server/src/cluster.ts:377-387 | one pull each way makes both nodes identical |
| MergeLimits.ThreeNodesMayKeepDifferentBlobs | server/src/cluster.ts:416-442 | a run of three nodes from the start that ends, for good, with equal vectors and different blobs |
| MergeLimits.StaleBundleMayKeepDifferentBlobs | server/src/cluster.ts:416-442 | the same with two nodes and a bundle applied late |
| MergeLimits.RevisionMayRepeat | server/src/cluster.ts:439-440 | a run of four nodes from the start with a strictly newer version of the same revision |
| ClusterDb.NodeDb.ApplyUser | server/src/cluster.ts:352-366 | newer: the incoming row; older or equal: the local one; concurrent: address and data of the larger total, then fingerprint, under the joined vector; one log line if written |
| Bundles.CrossedUsersAgree | server/src/cluster.ts:352-366 | two nodes that pull each other's concurrent users row end with the same row |
| ClusterDb.NodeDb.ApplyVault | server/src/cluster.ts:368-388 | the vault part of a bundle, as VaultReplica states it |
| ClusterDb.NodeDb.ApplySubscription | server/src/cluster.ts:390-396 | taken if and only if none is here or it is more recent |
| ClusterDb.NodeDb.ApplyAccount | server/src/cluster.ts:337-406 | an account bundle, as the four lemmas below describe it |
| Bundles.AccountBundleRefused | server/src/cluster.ts:337-352 | refused if and only if the account is tombstoned, or unknown with an address in use; then nothing changes |
| Bundles.AccountBundleBrings | server/src/cluster.ts:337-406 | else only this account's row changes, attachments neither here nor tombstoned come with it, and the log gains lines about it exactly when something is written |
| Bundles.AccountBundleSettles | server/src/cluster.ts:349-396 | user, vault and subscription settled each by its own rule; an unknown account starts with none |
| Bundles.FetchedAccountIsCopied | server/src/cluster.ts:283-293 | an empty node that applies a fetched bundle holds the source's account and its personal attachments |
| ClusterDb.NodeDb.ApplyShared | server/src/cluster.ts:444-477 | a shared bundle, as the three lemmas below describe it |
| Bundles.SharedBundleRefused | server/src/cluster.ts:444-460 | exactly when it is refused, asks for accounts (which), or is rolled back on a missing attachment owner; then nothing changes |
| Bundles.SharedBundleBrings | server/src/cluster.ts:444-477 | else only this vault's row changes, and unseen attachments come with their owners |
| Bundles.SharedBundleSettles | server/src/cluster.ts:455-470 | the row is settled as a personal vault's is, and the owner goes with the row that is kept |
| ClusterDb.NodeDb.DeleteSharedRows | server/src/cluster.ts:480-498 | row by row, shared vaults go with the attachments in them, one tombstone each |
| ClusterDb.NodeDb.DeleteAccountRow | server/src/cluster.ts:480-498 | the account's shared vaults, its attachments, then its row: the whole cascade |
| ClusterDb.NodeDb.ApplyDeletion | server/src/cluster.ts:480-498 | deleting row by row removes exactly the cascade and leaves its tombstones and the pulled one |
| Bundles.DeletionTakes | server/src/cluster.ts:480-498 | exactly the row, the shared vaults of an account and the attachments of either go; all others stay as they are |
| Bundles.DeletionLeaves | server/src/cluster.ts:480-498 | each leaves a tombstone beside the one pulled, and a subscription that falls is logged |
| ClusterDb.InsertUnseen | server/src/cluster.ts:398-404 | the loop adds exactly the attachments neither here nor tombstoned |
| Deletions.DeletionWins | server/src/cluster.ts:160-172 | in every run nothing is both present and tombstoned, and what was once deleted stays deleted |
| Deletions.TombstonedOwnerIsRefused | server/src/cluster.ts:444-452 | a shared vault of a deleted owner changes nothing |
| Deletions.AccountOrderIrrelevant | server/src/cluster.ts:337-340 | delete then update, update then delete: same rows, and exactly which tombstones differ |
| Deletions.SharedOrderIrrelevant | server/src/cluster.ts:444-452 | the same for a shared vault |
| Deletions.AttachmentOrderIrrelevant | server/src/cluster.ts:398-404 | the same for an attachment |
| Deletions.OrderMayShowInTombstones | server/src/cluster.ts:337-340 | two runs with the same bundle and deletion that differ in a tombstone |
| Deletions.ActKeepsClean | server/src/cluster.ts:480-498 | every operation keeps rows and tombstones apart and foreign keys satisfied |
| Quiescence.StepProgress | server/src/cluster.ts:342-369 | every delivery that writes a row strictly decreases the distance to a bound of all vectors |
| Quiescence.WritesAreBounded | server/src/cluster.ts:342-388 | however long the run, no more deliveries write than that distance |
| Quiescence.JoinsBound | server/src/cluster.ts:227-231 | the joins of all vectors held or in flight are such a bound |
| Quiescence.WritesAreFinite | server/src/cluster.ts:342-388 | so from any state no more deliveries write than the nodes lack of the joins |
| Quiescence.NothingNewWritesNothing | server/src/cluster.ts:349-406 | a bundle writes and logs nothing if and only if it reports no change |
| Quiescence.AtRestIsJoin | server/src/cluster.ts:416-442 | in every run, no pull changes anything if and only if every node has what one has and its vectors are the joins of all |
| Quiescence.AtRestVectorsEqual | server/src/cluster.ts:416-442 | nodes at rest have equal vectors |
| ChangeFeed.CompactionInvisible | server/src/cluster.ts:528-543 | every page, for every position, limit and zone, is the same before and after compaction |
| ChangeFeed.PageAdvances | server/src/cluster.ts:528-543 | a page of n entries leaves exactly the rest |
| ChangeFeed.ChangeLog.Compact | server/src/cluster.ts:745-747 | an entry stays if and only if no later one is of its topic; order is kept |
| ChangeFeed.ChangeLog.Changes | server/src/cluster.ts:522-544 | the page holds exactly the visible last entries of their topics after the position, up to where it reaches; it passes as many pending entries as asked (200 at most), or all, and is full exactly in the first case |
| ChangeFeed.PageTellsLog | server/src/cluster.ts:522-544 | the same of the page as a function of the log, for every position, limit and zone |
| ChangeFeed.SyncPeer | server/src/cluster.ts:702-726 | what is applied is exactly the last entries of visible topics between the two cursors, each once, in log order but for accounts going first within a page; k pending entries take k/200 + 1 pages up to the cap, below which nothing is left |
| CursorSoundness.CursorSound | server/src/cluster.ts:702-736 | over every interleaving, with bundles fetched and applied apart, an account whose last entry the cursor passed is at least as recent at the puller, and a deletion passed is known there |
| CursorSoundness.CaughtUp | server/src/cluster.ts:702-726 | with nothing pending every logged account of the zone has been received |
| PullRounds.PullerCanCatchUp | server/src/cluster.ts:702-736 | after every history the puller can, alone, reach a state where each logged account of its zone is at least as recent as at the source |
| PullRounds.RoundAdvances | server/src/cluster.ts:702-726 | a round leaves as many entries fewer pending as it asked for, or none |
| CursorSoundness.BundleSettles | server/src/cluster.ts:337-406 | applying the source's current bundle makes the puller at least as recent |
| CursorSoundness.BundleForward | server/src/cluster.ts:337-406 | applying any bundle, however old, only moves the puller forward |
| Manifest.Follower.AcceptManifest | server/src/clusterTrust.ts:327-357 | taken if and only if newer, of this cluster, at most 64 nodes and signed by the trusted key; then its epoch, root key and list are stored and the node is a member if it was or is listed active |
| Manifest.RootNode.RotateRoot | server/src/clusterTrust.ts:632-641 | the next epoch, same list, names the new key, is signed with the old one, and the new one is then held |
| Manifest.RootNode.ApproveRequest | server/src/clusterTrust.ts:546-557 | exactly a pending node is appended to the next epoch's list, active, with the key and fields it asked with, and its request is dropped |
| Manifest.RootNode.UpdateNode | server/src/clusterTrust.ts:564-588 | exactly which changes are refused; else the row has the status, zone and details asked for and keeps its key, and other rows stay |
| Manifest.RootNode.RevokeNode | server/src/clusterTrust.ts:590-599 | exactly which revocations are refused; else the row is revoked with its key and fields kept and its replacement named, and other rows stay |
| Manifest.RootNode.RemoveNode | server/src/clusterTrust.ts:601-607 | a revoked node leaves the list, and only it |
| Manifest.RequestsWait | server/src/clusterTrust.ts:418-436 | a request waits until it is dropped; a listed node cannot ask |
| Manifest.RekeyMeaning | server/src/clusterTrust.ts:461-470 | a node that is not revoked gets its new key, and nothing else changes |
| ManifestRuns.ManifestAgreement | server/src/clusterTrust.ts:327-357 | in every run a node holds what the root published for its epoch; its trusted key is the one it pinned, or is handed over from it by manifests each signed with the key the one before names |
| ManifestRuns.PinsStay | server/src/clusterTrust.ts:516-544 | the key a node pinned is never replaced in that record |
| ManifestRuns.EpochsIncrease | server/src/clusterTrust.ts:331 | a node's epoch never goes back and only a taken manifest changes it |
| CatchingUp.CatchUpRule | server/src/clusterTrust.ts:327-341 | a later epoch is taken if and only if no rotation lies strictly between and it lists at most 64 nodes |
| CatchingUp.FirstManifestRule | server/src/clusterTrust.ts:516-544 | the same for a node that only has its pinned key |
| CatchingUp.MissedRotationBlocks | server/src/clusterTrust.ts:632-641 | a node behind a rotation, not given that rotation's own manifest, stays behind through every continuation and refuses every later epoch |
| ManifestRuns.OnlyPublishedIsTaken | server/src/clusterTrust.ts:327-357 | what is taken is the root's own manifest of that epoch: nothing signed with another key is |
| ManifestRuns.PublishKeepsChain | server/src/clusterTrust.ts:360-371 | publishing extends the chain: next epoch, signed with the key named before, and no replaced key comes back |
| ManifestRuns.ActKeepsChain | server/src/clusterTrust.ts:546-641 | so does every administrative action, and the root then holds the key the last manifest names |
| NodeLists.ActKeepsList | server/src/clusterTrust.ts:546-607 | one row per node, the root node active, a revoked node never active again unless removed |
| NodeLists.ListStaysWellFormed | server/src/clusterTrust.ts:546-607 | the same over every run, for the last list and from each list to the next |
| NodeLists.RevokedUntilRemoved | server/src/clusterTrust.ts:590-607 | in every run a node revoked at one epoch is revoked, with the same key, at every later one while it stays listed |
| NodeLists.RevocationLasts | server/src/clusterTrust.ts:590-607 | in every run, an allowed revocation leaves the node listed as revoked for as long as it is listed |
| NodeLists.MembersWereListed | server/src/clusterTrust.ts:327-357 | in every run a node is a member only if a list it may have taken showed it active, and is one as soon as its list does |
| NodeLists.ListMayOutgrowItsReaders | server/src/clusterTrust.ts:360-371 | a run that publishes 65 nodes, refused by a node with no rotation in between |
| NodeLists.PeersSymmetric | server/src/clusterTrust.ts:408-413 | at the same epoch two members are each other's peers if and only if both are active in one zone |
| NodeRequests.Verifier.VerifyRequest | server/src/clusterTrust.ts:278-315 | accepted if and only if well formed, within five minutes, signed by the key of a node that may speak, and with a nonce not still known; then remembered, and nothing is forgotten but what a purge may drop |
| NodeRequests.StepGuards | server/src/clusterTrust.ts:309-313 | a nonce is forgotten only when its request is out of the window |
| NodeRequests.AcceptedAtMostOnce | server/src/clusterTrust.ts:264-315 | in every run, purges and restarts included, no request is accepted twice |
| NodeRequests.FreshRequestAccepted | server/src/clusterTrust.ts:278-315 | an authentic request with an unused nonce is accepted in every reachable state |
| NodeRequests.RevokedNodeIsSilent | server/src/clusterTrust.ts:288-298 | no request of a revoked node is ever accepted by the root node |
| NodeRequests.RevocationSilences | server/src/clusterTrust.ts:288-298 | in every run, once a node is revoked no request of it is accepted while it is listed |
| NodeRequests.DisabledNodeIsSilent | server/src/clusterTrust.ts:290-293 | a disabled node is refused where only active nodes may speak, and known by its key elsewhere |
| Uploads.UploadServer.OwnUpload | server/src/attachments.ts:124-134 | the row is lowered to what the disk holds if it claims more |
| Uploads.UploadServer.BeginChunk | server/src/attachments.ts:228-234 | only the smaller of the row's and the disk's position is let through |
| Uploads.UploadServer.FinishChunk | server/src/attachments.ts:235-241 | refused unless the chunk fits and the row still stands at the ticket; else the row advances by the chunk and its bytes are appended |
| Uploads.UploadServer.CompleteUpload | server/src/attachments.ts:244-264 | succeeds exactly when the part has the announced size and the row has got there; then the part is the stored file |
| Uploads.UploadReassemblesExactly | server/src/attachments.ts:228-264 | in every run the part is a prefix of the file and no longer than the row says, nor the row than the size |
| Uploads.CompletesOnlyWhole | server/src/attachments.ts:244-251 | completion succeeds if and only if the part is the whole file |
| Uploads.ResumeCompletes | server/src/attachments.ts:222-226 | from every state, sending the rest from the reported position attaches the whole file |
| Uploads.CancelledIsGone | server/src/attachments.ts:266-272 | a cancelled upload leaves no row and no part, and nothing is attached afterwards |
| Quota.Files.CheckQuota | server/src/attachments.ts:39-44 | used + reserved + size against the payer's quota, summed over the rows |
| Quota.Files.PurgeStaleUploads | server/src/attachments.ts:116-122 | the loop keeps exactly the uploads of the last day, as they were |
| Quota.Files.Start | server/src/attachments.ts:199-219 | after the purge, accepted exactly if it has a size, a payer and room; then exactly its size is reserved for the payer and nothing for others |
| Quota.Files.Put | server/src/attachments.ts:171-195 | accepted exactly if it has a size, a payer and room; then exactly its size is used by the payer, nothing by others, and no reservation changes |
| Quota.Files.Complete | server/src/attachments.ts:253-260 | refused unless pending here; else exactly the announced size goes from reserved to used for the payer, nothing changes for others, and quotas still hold |
| Quota.Files.Cancel | server/src/attachments.ts:266-272 | the payer gets back exactly what was reserved, nobody else's reservation changes, and quotas still hold |
| Quota.Files.DeleteUserAttachments | server/src/attachments.ts:65-70 | the account uses nothing any more, no other file is touched, only files it owned or paid for went, and quotas still hold |
| Quota.QuotaIsKept | server/src/attachments.ts:171-219 | in every run used + reserved stays within every account's quota |
| Quota.QuotaHoldsFromTheStart | server/src/attachments.ts:171-219 | so it does in every run of an empty server |
| Quota.CompletionMovesSize | server/src/attachments.ts:253-260 | completion moves exactly the size from reserved to used for the payer and nothing for others |
| Quota.DeletionGivesBack | server/src/attachments.ts:65-70 | deleting a file frees exactly its size for the one who paid |
| Quota.WhoPays | server/src/attachments.ts:136-146 | the owner of the shared vault, or of the file; nobody in an unknown vault |
| Retention.Backup.SendFiles | server/src/backup.ts:248-258 | the files missing at the destination are all sent, or the run is cut |
| Retention.Backup.DropOld | server/src/backup.ts:264-270 | exactly the copies older than the cutoff but the newest go, or the run is cut |
| Retention.Backup.PurgeExpired | server/src/backup.ts:271-273 | exactly the files deleted before the cutoff go, or the run is cut |
| Retention.Backup.UploadTo | server/src/backup.ts:244-281 | wherever it stops the state is one of the runs'; complete, the copies are the new one and those not past the cutoff, and the files those there or on disk but for deletions past it |
| Retention.KeptCopiesAreComplete | server/src/backup.ts:244-281 | in every run a kept copy has all its files, except those deleted while it was being made |
| Retention.KeptCopyLosesExactly | server/src/backup.ts:244-281 | from every reachable state, a file of a kept copy is safe for ever if and only if it is not on record as deleted before the copy was written |
| Retention.DeletionDuringRunMayLoseFile | server/src/backup.ts:283-299 | a run in which such a file is lost |
| Retention.FilesStay | server/src/backup.ts:271-273 | a file leaves the destination only by the purge of its deletion, older than the cutoff of that run |
| Layering.Search.Visit | server/src/diagram.ts:195-202 | the recursive search keeps: done nodes lead to nodes done before, edges dropped close a cycle with edges kept |
| Layering.Search.Follow | server/src/diagram.ts:197-200 | one edge of the loop: dropped, gone down, or left |
| Layering.Search.Run | server/src/diagram.ts:203 | every node ends up done |
| Ranks.ForwardDescends | server/src/diagram.ts:204 | edges kept only lead to nodes finished earlier |
| Ranks.DescendsIsAcyclic | server/src/diagram.ts:204 | so they form no cycle |
| Ranks.DroppedEdgeClosesCycle | server/src/diagram.ts:195-202 | putting any dropped edge back makes a cycle: none is dropped needlessly |
| Ranks.NothingDroppedWithoutCycles | server/src/diagram.ts:204 | a graph without cycles keeps all its edges |
| Ranks.Pass | server/src/diagram.ts:211-216 | one pass settles one more node and moves nothing only at the fixpoint |
| Ranks.AssignRanks | server/src/diagram.ts:210-218 | at most n + 1 passes; every edge goes down, every nonzero rank is one more than a predecessor's |
| Ranks.WalksAreShort | server/src/diagram.ts:190 | no path to a node is longer than its rank |
| Ranks.WalkOfRankExists | server/src/diagram.ts:190 | and one has exactly that length |
| Ranks.RanksAreDetermined | server/src/diagram.ts:210-218 | the edges kept determine the ranks |
| Ranks.RankNodes | server/src/diagram.ts:190-218 | the whole: acyclic edges, minimal drop, longest-path ranks |
| LineBreaks.FillLines | server/src/diagram.ts:127-135 | the loop puts on each line all the parts that fit |
| LineBreaks.FillBreaks | server/src/diagram.ts:127-135 | lines hold the parts in order, none too wide unless it is one part alone |
| LineBreaks.FillHasFewestLines | server/src/diagram.ts:127-135 | no other breaking of the parts has fewer lines |
| LineBreaks.LinesAreFull | server/src/diagram.ts:127-135 | the first part of a line did not fit on the line before |
| LineBreaks.NeighboursFit | server/src/diagram.ts:127-135 | parts side by side on a line fit together without the others |
| WordPieces.WidthScales | server/src/diagram.ts:103-114 | the width at a scale is the scaled width |
| WordPieces.WordsAreInk | server/src/diagram.ts:137 | the words of a line are its characters other than white space, in order |
| WordPieces.SplitAtSpaces | server/src/diagram.ts:137 | words end at white space and nowhere else |
| WordPieces.SplitAtNewlines | server/src/diagram.ts:136 | wanted lines end at newlines and nowhere else |
| WordPieces.SplitAfterSeparators | server/src/diagram.ts:119 | parts of a word end after a separator and nowhere else |
| LineBreaks.WidthAdds | server/src/diagram.ts:104 | the width of a text is the sum of its characters' widths |
| WordPieces.PlacePart | server/src/diagram.ts:119-123 | one part of a long word, character by character if it does not fit |
| WordPieces.CutWord | server/src/diagram.ts:115-126 | the loops cut a word as filling lines with its parts does |
| WordPieces.PiecesMakeTheWord | server/src/diagram.ts:115-126 | pieces put end to end are the word; each fits or is one character |
| WordPieces.PiecesAreFewest | server/src/diagram.ts:115-126 | no other way to cut at those points gives fewer pieces |
| WordPieces.PiecesStayApart | server/src/diagram.ts:122 | two consecutive pieces never fit on one line with a space between |
| WordPieces.CutsFollowSeparators | server/src/diagram.ts:115-126 | a word whose parts all fit is cut after separators only |
| WrapText.Balance | server/src/diagram.ts:138-146 | the same number of lines, under the tightest limit of the sequence for which the parts still fit in as many |
| WrapText.FeasibleIsAccepted | server/src/diagram.ts:142 | if any lines within a limit exist, in as many lines, the loop accepts that limit |
| WrapText.AcceptedIsFeasible | server/src/diagram.ts:142 | and what it accepts is such a breaking |
| WrapText.WrapLine | server/src/diagram.ts:136-146 | words, pieces and balanced lines of one line |
| WrapText.WrapText | server/src/diagram.ts:113-147 | nothing but white space is lost, every line fits, each wanted line is wrapped on its own, balanced; one that fits comes out as its words on one line, unchanged if it has no white space |
| WrapText.BlockFits | server/src/diagram.ts:108-112 | every line fits, unless it is one character too wide on its own |
| WrapText.BlockIsShortest | server/src/diagram.ts:136-146 | no breaking of the parts has fewer lines than the result |
| WrapText.ShortLineIsKept | server/src/diagram.ts:136-146 | a wanted line whose words fit on one line stays on one |
| WrapText.CutsEndLines | server/src/diagram.ts:115-146 | a word is never shown with a space inside: wherever one is cut, the output goes to a new line |
| WrapText.NothingIsLost | server/src/diagram.ts:108-147 | the whole text comes out in order, less white space |
| StripePrices.ProductOf | server/src/billing.ts:208-216 | one call only for a plan without product; the object made has the plan's name and description, and its id is kept if it is one |
| StripePrices.SendPrice | server/src/billing.ts:217-228 | one call; the object made has the plan, product, amount, currency and period of the tariff, whose id and mode are set if the answer is an id |
| StripePrices.CreatePrice | server/src/billing.ts:206-229 | a tariff is refused, fails with its call, or gets the price made for it |
| StripePrices.CreateNext | server/src/billing.ts:204-229 | one turn of the loop over tariffs, those with a price passed over |
| StripePrices.CreatePlanPrices | server/src/billing.ts:201-233 | the tariffs of a plan in order; on error those done keep their price and the rest is untouched |
| StripePrices.CreateMissingStripePrices | server/src/billing.ts:191-235 | for every pattern of failures: nothing made is lost or made twice, counts add up, success means nothing lacks a price |
| StripePrices.ProgressTwice | server/src/billing.ts:194-199 | attempts in a row do together what one does |
| StripePrices.RetriesNeverDuplicate | server/src/billing.ts:191-235 | over any attempts each lacking tariff gets exactly one price, each plan at most one product, counts sum to what lacked |
| StripePrices.DuplicatesComeFromUnusableIds | server/src/billing.ts:216-227 | the prices made in all are those kept and those answered unusably; a tariff is made twice if and only if an answer about it was unusable |
| StripePrices.UnusableIdMakesTwoPrices | server/src/billing.ts:216-227 | a pair of attempts that makes two prices for one tariff |

## Left out

- Convergence of blobs, and order of revisions, beyond two nodes: the code does not guarantee them (MergeLimits).
- Coverage of writes in shared vaults: a shared bundle does not carry the set-aside versions.
- ClusterRuns.NoWriteLost: excludes restores, which replace content by design; vault replacement during account recovery is left out for the same reason.
- CursorSoundness.CursorSound: assumes addresses are unique across the cluster; a second account with the same address is refused by design. Accounts pulled on behalf of a shared vault are not events of that run.
- Members and roles of shared vaults: their content follows the row's winner and decides nothing here.
- Set-aside rows carry a revision and a date in the source; nothing compares them, so they are not modelled. Parsing of vectors (filtering of keys) and the length check of acknowledged fingerprints are left out.
- Concurrent administrative actions, import of a root key, invitations and their expiry, node rekeying from a node that is not the root: actions are atomic and the root changes keys itself.
- A commit that fails, without the process stopping, after the part was renamed; a maximum size per file; the disk files of deleted attachments.
- Ranks of diagrams with subgraphs, whose floor may chase itself until the bound; everything drawn after ranking; the numbers of nodes a diagram may have.
- Rounding of floating-point widths, which are reals here; texts are sequences of code points, without unpaired surrogates.
- Other backup destinations, full-server restore of other tables, S3, Stripe and SMTP transport, SQLite, timers, cryptography and user interface.
