# Verified model of the messaging cache

The repository is a browser messaging SDK. Its core is one IndexedDB database that several tabs
write at once: messages, an outbox of sends, channels and their sync cursors. This project models
that core in Dafny and proves what it promises. Every Dexie transaction is one atomic step, a
throw inside it aborts it, a unique index refuses a put, and an index range is read in key order.

The pieces, each a value-level specification with the object or loop that updates it proved
against it, and the theorems beside it:

- `Text`, `Records`: strings as IndexedDB compares them; rows and their persisted sort key.
- `Merging`, `CacheTables`, `CacheDb`: merging a write into a row, the tables, and the class whose
  methods are the transactions.
- `IndexAgreement`, `Acks`, `Paging`: the display index, ack absorption, keyset paging.
- `OutboxTable`, `LeaseProtocol`, `LeaseInvariant`, `LeaseTheorems`, `LeaseRelapse`, `RepairLease`,
  `NoOrphans`, `OutboxEngine`: the lease and fencing protocol of the outbox over all interleavings.
- `SyncPages`, `SyncEngine`, `SyncEffects`, `SyncTheorems`, `SyncPts`: one sync page.
- `SyncProtocol`, `SyncSafety`, `SyncRuns`, `SyncCurrent`: any number of tabs paging against a
  growing log.
- `MigrationOrder`, `MigrationMove`, `MigrationKeepers`, `MigrationRelink`, `Migration`,
  `MigrationIndex`, `MigrationSends`, `MigrationTx`: the version 12 upgrade.
- `MessageBuffer`, `MessageStore`, `Invalidation`, `Profiles`, `Upload`, `Attachment`, `Sorting`:
  the memory buffer, the invalidation queue, profile rows, the resumable upload, sealing, and the
  stable sort they share.

How the pieces meet: `IndexAgreement.Sound` is the invariant of the message table. The upgrade
hands it over (`MigrationIndex.UpgradeHandsOverSoundTables`), every runtime operation keeps it
(`IndexAgreement.IndexAlwaysAgrees`, `IndexAgreement.NumbersAlwaysDistinct`,
`SyncTheorems.PageKeepsIndex`), and paging relies on it (`Paging.PagingCoversChannel`). `Acks` says
what the ack of the lease protocol and of a sync page does to the table; `NoOrphans` joins the
protocol's commands to the table's pending rows.

What the model found false of the code, each with the condition under which it does hold; the
lemmas named `...ExactlyWhen` state it both ways:

- `local_data_error` is final exactly while no local replay of the row is in flight: that update is
  a get followed by a put, and the put brings `ack_pending` back
  (`LeaseRelapse.LocalDataErrorFinalExactlyWhen`). From a quarantined row nobody is repairing, the
  repair lease is exclusive in every run exactly when no local replay of the row is in flight, in
  whatever phase (`RepairLease.RepairLeaseExclusiveExactlyWhen`, with
  `RepairLease.RepairLeaseCanDouble` as witness).
- A command that has left the outbox stays out of it exactly while no replay of it holds a copy
  between its get and its put (`LeaseRelapse.RetiredFinalExactlyWhen`).
- A wire record that names two messages with its two network ids puts a second row under a pending
  message's local id, and the ack can then settle the other row and retire the command
  (`NoOrphans.PendingAloneExactlyWhen`, `NoOrphans.ConfusedWriteOrphans` as witness).
- Replaying an ack can overwrite another message's row, because the memory buffer and the rehydrate
  branch both trust a link that names somebody else's row
  (`OutboxEngine.ReplayOverwritesExactlyWhen`, `OutboxEngine.ReplayCanOverwrite` as witness).
- An empty sync page writes back the tab's copy of the channel. Unread, cursor and sync state count
  each merged commit once throughout a run exactly when every empty page of it finds that copy
  current (`SyncRuns.EmptyPageCountsExactlyWhen` for a step, `SyncRuns.CountsOnceExactlyWhen` for a
  run). When another tab merged a page in between, its unread messages are lost from the count for
  good (`SyncRuns.LateEmptyPageLosesUnread`, `SyncCurrent.RaceHappens` as witness). A copy is
  current until another tab commits (`SyncCurrent.CopyIsCurrentSince`), and with one tab always
  when it matters (`SyncCurrent.OneTabIsCareful`).
- The unread bump of a page is exact exactly when no counted commit is listed twice
  (`SyncTheorems.BumpExactExactlyWhen`, `SyncTheorems.RepeatedCommitCountsTwice` as witness).
- The upgrade aborts exactly when two old rows carry an empty server id
  (`Migration.UpgradeAbortsExactlyWhen`); a kept row that says pts "0" can escape the degraded mode
  the runtime requires (`MigrationIndex.UpgradeDegradesExactlyWhen`); and a send is queued again,
  beside its stored message, exactly when its row was merged away and its local id with it
  (`MigrationSends.QueuedAgainExactlyWhen`, `MigrationIndex.MergeCanQueueASendAgain` as witness).
- The upgrade's redirects need not lead to a stored row: one leads to the row that first beat its
  own, or to the keeper it met, and stops short when that row was beaten in turn
  (`MigrationKeepers.RedirectStoredExactlyWhen`, `MigrationKeepers.ChainStopsShort` as witness).
- The upgrade numbers rows by a comparator that is not the sort key's: of two kept rows the number
  and key orders agree exactly when the key columns do not contradict the comparator
  (`MigrationIndex.NumberAndKeyAgreeExactlyWhen`; `MigrationIndex.ZeroIdMisorders` and
  `MigrationIndex.PendingPtsMisorder` as witnesses).
- Declaring an order mode for the first time does not sort the memory buffer
  (`MessageBuffer.DeclaringTidiesExactlyWhen`).
- Profiles converge but the friend flag does not: an outdated record is dropped whole
  (`Profiles.FriendExactlyWhen`, `Profiles.FriendFlagDependsOnOrder` as witness).
- A profile batch that names one user twice merges every record with the row read before the batch,
  so the last put wins, and it can be the older of two (`Profiles.LastPutWins`,
  `Profiles.OlderRecordCanWin` as witness).
- The merged send time depends on the order of arrival exactly for readings that are not order-free
  (`Merging.SentAtOrderFreeExactlyWhen`); an unreadable millisecond time after a good second time is
  the witness (`Merging.ZeroReadingErasesTime`).

## Model

| member | source | states |
|---|---|---|
| Records.DisplayOrderIsNumeric | src/cache/types.ts:547-620 | comparing two persisted sort keys as text is comparing (pending, order column, server id, sequence) as numbers, in either order mode, for all u64 ids; equal keys exactly for equal ranks |
| Merging.SentAtIgnoresArrivalOrder | src/cache/canonical-inbound.ts:34-73 | for consistent positive readings the merged send time is the same in every arrival order, is the millisecond reading if there was one, and no conflict is reported |
| Merging.SentAtOrderFreeExactlyWhen | src/cache/canonical-inbound.ts:34-73 | for any readings at all, the merged send time is the same in every order exactly when the readable millisecond times agree, or, with none, the readable second times agree and no unreadable millisecond reading is there, or, with none, all readings are one |
| Merging.ZeroReadingErasesTime | src/cache/canonical-inbound.ts:34-73 | a witness of readings that are not order-free: an unreadable millisecond time after a good second time |
| Merging.RedeliveryKeepsFacts | src/cache/indexeddb-store.ts:176-247 | over any mix of writes and push merges a row keeps its id, position and revocation, never loses a body, and shows the author, type and content of the last delivery that carried a body |
| Merging.SentStaysSent | src/cache/merge.ts:52-110 | bodiless deliveries never take back the sent status |
| Merging.RepeatedWriteIsNoOp | src/cache/indexeddb-store.ts:176-247 | writing the same record again changes nothing |
| Merging.RepeatedPushIsNoOp | src/cache/merge.ts:52-110 | absorbing the same push again changes nothing |
| CacheTables.FindByServerSpec | src/cache/indexeddb-store.ts:300-336 | the account-wide lookup finds a row with the server id, or there is none |
| CacheTables.FindByLocalSpec | src/cache/indexeddb-store.ts:300-336 | the lookup by channel and local id finds such a row, or there is none |
| CacheTables.FindInChannelSpec | src/cache/indexeddb-store.ts:373-434 | the lookup by channel and server id finds such a row, or there is none |
| CacheDatabase.CacheDb.constructor | src/cache/idb-schema.ts:112-125 | a fresh database is empty and sound |
| CacheDatabase.CacheDb.AllocateOrderSeq | src/cache/indexeddb-store.ts:119-127 | hands out the numbers after the old high-water mark and raises the mark by the count |
| CacheDatabase.CacheDb.ReconcileOrderMode | src/cache/indexeddb-store.ts:802-820 | the loop rekeys the whole channel under the mode it needs, or touches nothing |
| CacheDatabase.CacheDb.WriteOne | src/cache/indexeddb-store.ts:160-250 | one turn of the batch loop: merge with the row found, stamp, put, or refuse |
| CacheDatabase.CacheDb.UpsertMessages | src/cache/indexeddb-store.ts:145-265 | the batch loop is the batch specification; an aborted batch leaves every table as it was |
| CacheDatabase.CacheDb.ApplyAckInPlace | src/cache/indexeddb-store.ts:373-434 | the ack's deletes, put and reconcile are the ack specification, or nothing happened |
| CacheDatabase.CacheDb.CreateLocalMessageQueued | src/cache/indexeddb-store.ts:452-473 | row and command are stored together or not at all |
| CacheDatabase.CacheDb.CommitAckAndRetire | src/cache/indexeddb-store.ts:482-498 | the ack lands and the command goes, together or not at all |
| CacheDatabase.CacheDb.ClaimOutboxEntry | src/cache/outbox-store.ts:241-268 | claims exactly when the row is pending, failed or sending under an expired lease; the claim writes token, lease and status |
| CacheDatabase.CacheDb.CommitOutboxTransition | src/cache/outbox-store.ts:280-292 | patches the row exactly when the caller's token still owns it |
| CacheDatabase.CacheDb.DeleteOutboxEntryIfOwner | src/cache/outbox-store.ts:358-369 | deletes the row exactly when the caller's token still owns it |
| CacheDatabase.CacheDb.ClaimRepairRow | src/cache/outbox-store.ts:303-326 | claims a quarantined row for repair exactly when no repair lease runs and it is due |
| CacheDatabase.CacheDb.CommitRepairTransition | src/cache/outbox-store.ts:329-341 | patches the row exactly when the repair token still owns it |
| CacheDatabase.CacheDb.DeleteOutboxEntryIfRepairOwner | src/cache/outbox-store.ts:344-355 | deletes the row exactly when the repair token still owns it |
| CacheDatabase.CacheDb.ListDueOutboxEntries | src/cache/outbox-store.ts:201-220 | lists every due row exactly once, oldest first |
| IndexAgreement.ReconcileChanges | src/cache/indexeddb-store.ts:802-820 | after reconciling, keys agree with the recorded mode, the mode is server-id order exactly when a gap row exists, and only keys of that channel changed |
| IndexAgreement.UpsertKeeps | src/cache/indexeddb-store.ts:145-265 | whatever its records say, an upsert keeps keys, marks, modes and unique ids, drops no row, and leaves every touched channel in exactly the mode it needs; numbers stay distinct when the ones it brings along fit |
| IndexAgreement.NumbersDistinctExactlyWhen | src/cache/indexeddb-store.ts:176-247 | one write keeps sequence numbers distinct and bounded exactly when the number its record brings along is free, or the row found has its own |
| IndexAgreement.AckKeeps | src/cache/indexeddb-store.ts:373-434 | an ack keeps the index and leaves its channel in exactly the mode it needs, whatever it says; numbers stay distinct when its own fits |
| IndexAgreement.EnqueueKeepsExactlyWhen | src/cache/indexeddb-store.ts:452-473 | queueing a message keeps the index exactly when the row is no gap row or its channel is degraded already; its number is always new |
| IndexAgreement.IndexAlwaysAgrees | src/cache/indexeddb-store.ts:145-498 | over every run of upserts, acks, enqueues and deletes, with any records, each row's sort key and gap mark are those of its channel's recorded mode, gap rows degrade their channel and server ids are unique |
| IndexAgreement.NumbersAlwaysDistinct | src/cache/indexeddb-store.ts:145-498 | where numbers that come from outside are free when used, sequence numbers stay distinct and bounded over every such run |
| Acks.AckLeavesOneRow | src/cache/indexeddb-store.ts:373-434 | exactly one row describes the acknowledged message, carrying both network ids under the optimistic row's id, else the caller's; every other row keeps all its fields |
| Acks.AckKeepsPlace | src/cache/indexeddb-store.ts:373-434 | the row keeps the optimistic row's position, else the network copy's, else takes the next number |
| Acks.AckLosesAnotherExactlyWhen | src/cache/indexeddb-store.ts:373-434 | an ack loses another message exactly when there is no optimistic row and the caller's id names a row of another message |
| Acks.AckAbortsExactlyWhen | src/cache/indexeddb-store.ts:373-434 | an ack aborts exactly when a row of another channel has its server id, unless the ack is written over that row |
| Acks.AckTwiceIsOnce | src/cache/indexeddb-store.ts:373-434 | applying an ack twice is applying it once |
| Paging.TimelineIsSortedChannel | src/cache/indexeddb-store.ts:505-544 | the index range of a channel is each of its rows once, in strictly ascending numeric display order |
| Paging.ScrollBackIsTail | src/cache/indexeddb-store.ts:505-544 | the window followed by any number of older pages is the newest part of that order |
| Paging.PagingCoversChannel | src/cache/indexeddb-store.ts:505-544 | window and pages together yield the whole sorted channel, each row once |
| LeaseInvariant.StepKeeps | src/outbox-engine.ts:372-932 | every step of sends, local replays, repairs, crashes, clock, wire writes and sync acks keeps the protocol invariant |
| LeaseTheorems.DeliveredIsFinal | src/cache/outbox-store.ts:241-341 | once a row says the server has the message, no interleaving makes it claimable for sending or takes it back to an unsent state, and its recorded server id never changes |
| LeaseTheorems.OneLiveLease | src/cache/outbox-store.ts:241-268 | at most one unexpired send lease exists per row, and the row carries its token and says sending |
| LeaseTheorems.SupersededNeverWrites | src/outbox-engine.ts:640-833 | once an attempt has lost its lease, whatever it ends with after any continuation changes no table, whether it failed, was rejected, committed or failed to commit |
| LeaseTheorems.SupersededForever | src/cache/outbox-store.ts:280-292 | an attempt that has lost its lease never owns the row again |
| LeaseTheorems.LiveLeaseLands | src/outbox-engine.ts:640-833 | while its lease runs an attempt is never fenced out: its failure is recorded, its delivery stored |
| LeaseRelapse.LocalDataErrorFinalExactlyWhen | src/cache/outbox-store.ts:103-113 | a row given up stays given up, or is retired, in every run exactly when no local replay of it is in flight |
| LeaseRelapse.LocalDataErrorCanRelapse | src/outbox-engine.ts:696-816 | from every state with an acknowledged row a run gives the row up and one more step brings it back |
| LeaseRelapse.RetiredFinalExactlyWhen | src/cache/outbox-store.ts:103-113 | a command that was queued and has left the outbox stays out of it in every run exactly when no local replay of it holds a copy to put back |
| RepairLease.RepairLeaseExclusiveExactlyWhen | src/cache/outbox-store.ts:103-341 | from any state of the protocol with a quarantined row nobody is repairing, every run has at most one unexpired repair lease on it exactly when no local replay of the row is in flight, whichever phase it is in |
| RepairLease.OneRepairLease | src/cache/outbox-store.ts:303-341 | with no replay in flight, the row carries the token of the one pass whose lease runs |
| RepairLease.QuarantinedByItsSend | src/outbox-engine.ts:696-816 | the step by which a send attempt quarantines its row leaves it with no replay in flight and nobody repairing it |
| RepairLease.SupersededRepairNeverWrites | src/outbox-engine.ts:372-489 | from a quarantined row nobody is repairing, with no replay in flight, a repair pass that later loses the row changes no table after any continuation |
| RepairLease.RepairLeaseCanDouble | src/cache/outbox-store.ts:103-113 | a witness: a replay holding a copy whose own repair lease is over lets a run end with two repair leases running on the row |
| NoOrphans.EveryPendingHasACommand | src/cache/indexeddb-store.ts:452-498 | in every careful run each pending message has an outbox command of its channel, local id and row id |
| NoOrphans.PendingAloneExactlyWhen | src/cache/indexeddb-store.ts:176-247 | a write from the wire keeps every pending row alone under its local id exactly when its two network ids do not name two rows |
| NoOrphans.ConfusedWriteOrphans | src/cache/indexeddb-store.ts:373-498 | a witness run: such a write, then the ack of the send, leave a pending row with no command |
| OutboxEngine.EngineAckFits | src/outbox-engine.ts:853-1025 | whatever row a command resolves to, the ack built from it names the command's channel, local id and the server's id |
| OutboxEngine.ReplayOverwritesExactlyWhen | src/outbox-engine.ts:853-1025 | whatever the buffer holds, replaying an ack overwrites another message exactly when no row has the command's local id, its link names another message's row, and the buffer has its record or its message was fetched back |
| OutboxEngine.ReplayCanOverwrite | src/outbox-engine.ts:945-1025 | for every acknowledged command there are tables on which its replay does so, either way |
| SyncEngineClass.SyncEngine.MergeCommits | src/sync-engine.ts:472-717 | the page transaction is the page specification or nothing; the tab's copy of the channel becomes what is on disk |
| SyncEngineClass.SyncEngine.PersistEmptyPage | src/sync-engine.ts:350-379 | an empty page writes back the tab's copy of the channel and its cursor, no more |
| SyncTheorems.PageStores | src/sync-engine.ts:497-630 | after a page the channel holds exactly what it held and the page, one row per commit, and no row became pending |
| SyncPts.PageStands | src/sync-engine.ts:534-630 | every commit of the page has a row in the channel at the commit's own pts, whether written, acknowledged or found equal |
| SyncTheorems.BumpCountsPositions | src/sync-engine.ts:590-613 | for any page of the log, repeats included, the bump is the number of positions holding an unread commit not stored before |
| SyncTheorems.BumpExactExactlyWhen | src/sync-engine.ts:590-613 | it is the number of distinct such commits exactly when none is listed twice |
| SyncTheorems.BumpIsNewUnread | src/sync-engine.ts:590-613 | in particular on pages that list every commit once |
| SyncTheorems.PageMovesChannel | src/sync-engine.ts:622-662 | unread grows by exactly those commits, latest_pts becomes the maximum of its old value and the page, sync state repeats it, and other channels are untouched |
| SyncTheorems.PageKeepsIndex | src/sync-engine.ts:569-630 | a page keeps the display index, and the numbering with it |
| SyncTheorems.RepeatedCommitCountsTwice | src/sync-engine.ts:590-613 | a witness: one commit listed twice counts twice |
| SyncSafety.StepKeeps | src/sync-engine.ts:198-317 | every step of any tab keeps all positions covered: disk cursor, sync state, memory copies, requests and pages in flight |
| SyncRuns.SyncNeverSkips | src/sync-engine.ts:198-317 | in every run, each server commit above the starting floor and at or below any cursor the disk or a tab relies on has exactly one row |
| SyncRuns.FinishedSyncHoldsEverything | src/sync-engine.ts:250-304 | a run that ends with has_more=false holds every commit the server had when it answered |
| SyncRuns.PagesTakeEffectOnce | src/sync-engine.ts:497-696 | over every interleaving of overlapping pages whose empty pages find the tab's copy current, unread has grown by exactly the distinct foreign unread commits merged and not stored before, the cursor is the running maximum and equals sync state, and each merged commit has one row |
| SyncRuns.EmptyPageCountsExactlyWhen | src/sync-engine.ts:350-379 | from a state that counts each merged commit once, an empty page leaves one exactly when the tab's copy says what the disk says |
| SyncRuns.CountsOnceExactlyWhen | src/sync-engine.ts:198-379 | a run of any number of tabs counts once at every moment exactly when every empty page of it finds the tab's copy current |
| SyncCurrent.CopyIsCurrentSince | src/sync-engine.ts:198-379 | a tab's copy of the channel is current, and its empty page harmless, as long as no other tab's page committed since the tab hydrated or its own page committed |
| SyncCurrent.OneTabIsCareful | src/sync-engine.ts:198-379 | in every run of one tab, failed and unpublished pages included, no empty page writes back a stale copy |
| SyncCurrent.OneTabCountsOnce | src/sync-engine.ts:198-696 | so with one tab pages take effect exactly once, with nothing assumed of its empty pages |
| SyncRuns.LateEmptyPageLosesUnread | src/sync-engine.ts:350-379 | two enabled steps, a page of unread news by one tab and then an empty page by another whose copy was current: the news are stored, no longer counted, and never counted by a later merge |
| SyncCurrent.RaceHappens | src/sync-engine.ts:198-379 | a witness: two tabs answered before and after one foreign commit satisfy the invariant and can take those two steps |
| MigrationOrder.OrderedSpec | src/cache/idb-schema.ts:427-473 | the numbering order holds every old row once, under its channel's mode, each channel in display order |
| MigrationMove.MoveAllKeeps | src/cache/idb-schema.ts:491-546 | the move loop finishes exactly when at most one row has an empty server id; then every row is stored under its number, merged or quarantined, and each network id has one holder at least as complete as what it absorbed |
| MigrationMove.MoveAllRedirects | src/cache/idb-schema.ts:475-535 | every row that was not stored is redirected, and every redirect stays within one network id; its target may have been set aside itself |
| MigrationKeepers.RedirectStoredExactlyWhen | src/cache/idb-schema.ts:475-546 | read off the old rows: a row that is not kept leads to the first row that beat it, if it was the keeper at its turn, else to the keeper it met; it is redirected there, and that row is stored exactly when it is the final keeper |
| MigrationKeepers.ChainStopsShort | src/cache/idb-schema.ts:491-546 | a witness of three claims of one channel, each more complete than the last: the first is redirected to the second, which is gone |
| MigrationKeepers.StoredExactlyWhen | src/cache/idb-schema.ts:475-546 | an old row is stored exactly when it claims no network id or is the keeper of its own: the first most complete claim in the channel that claimed it first |
| Migration.UpgradeAbortsExactlyWhen | src/cache/idb-schema.ts:491-546 | the upgrade aborts exactly when two old rows carry an empty server id |
| Migration.UpgradeConserves | src/cache/idb-schema.ts:475-546 | no two stored rows share a network id; every old row is stored as it was, or lives on in a stored row of its channel and network id at least as complete, or is quarantined because another channel's stored row has that id |
| Migration.UpgradeIsSound | src/cache/idb-schema.ts:491-627 | keys and gap marks are those of the recorded modes, rebuilt rows included; numbers are distinct and at most the stored counter |
| MigrationIndex.UpgradeNumbersInKeyOrder | src/cache/idb-schema.ts:427-627 | within a channel number order is key order, for u64 ids none of which is "0" and pending rows without pts |
| MigrationIndex.NumberAndKeyAgreeExactlyWhen | src/cache/idb-schema.ts:427-546 | of two kept rows of a channel with u64 ids, the one the comparator puts first has the lower number, and has the lower key exactly when (pending, order column, server id) do not put the other first |
| MigrationIndex.ZeroIdMisorders | src/cache/idb-schema.ts:443-473 | a witness: a confirmed row with server id "0" and no pts is numbered before another id and keyed after it |
| MigrationIndex.PendingPtsMisorder | src/cache/idb-schema.ts:443-473 | a witness: two pending rows with pts, in a channel in pts order, are numbered by time and keyed by pts |
| MigrationIndex.UpgradeDegradesExactlyWhen | src/cache/idb-schema.ts:443-470 | gap rows degrade their channel exactly when no old row that is a keeper says pts "0" in a channel no row without pts degrades |
| MigrationIndex.UpgradeHandsOverSoundTables | src/cache/idb-schema.ts:411-643 | the upgraded database satisfies the runtime invariant exactly under that condition |
| MigrationIndex.UpgradeRelinks | src/cache/idb-schema.ts:555-643 | every command comes out linked to a row of its own channel and local id, or marked local_data_error with no link; none is lost or added |
| MigrationSends.QueuedAgainExactlyWhen | src/cache/idb-schema.ts:510-627 | over any old rows and commands, a command gets a second, pending row beside its stored message exactly when it can be rebuilt, an old row of its send was merged into a keeper, and no old row of its send is stored |
| MigrationIndex.MergeCanQueueASendAgain | src/cache/idb-schema.ts:510-627 | a witness of two rows: the kept duplicate lacks the send's local id |
| MigrationRelink.ResolvedOwns | src/cache/idb-schema.ts:560-600 | the row a command resolves to is its own, and it resolves to none only when no stored row has its channel and local id |
| MigrationTx.UpgradeTx.OrderRows | src/cache/idb-schema.ts:427-473 | the grouping and ordering loops give the numbering order and record exactly the degraded modes |
| MigrationTx.GroupByChannel | src/cache/idb-schema.ts:427-433 | the rows of each channel, and the channels in order of first appearance |
| MigrationTx.UpgradeTx.MoveRows | src/cache/idb-schema.ts:491-547 | the move loop with its lookup maps is the move specification |
| MigrationTx.UpgradeTx.RelinkCommands | src/cache/idb-schema.ts:555-643 | the relink loop is the relink specification |
| MigrationTx.UpgradeTx.Run | src/cache/idb-schema.ts:411-644 | the whole transaction is the upgrade specification, or leaves every table as it was |
| MessageBuffer.UpsertTidies | src/cache/message-store.ts:214-240 | an upsert keeps the buffer ordered and each message once; it holds exactly the incoming rows and the old ones none of them duplicates, or nothing changed |
| MessageBuffer.WindowTidies | src/cache/message-store.ts:168-204 | a window keeps exactly the old rows strictly outside its span that it does not duplicate |
| MessageBuffer.ReplaceTidies | src/cache/message-store.ts:251-283 | replacing leaves one row for the message and every unrelated row, in order |
| MessageBuffer.RemoveTidies | src/cache/message-store.ts:285-300 | removing drops that row alone and keeps the order |
| MessageBuffer.DeclaringTidiesExactlyWhen | src/cache/message-store.ts:68-78 | declaring a mode keeps the buffer in order exactly when a mode was declared before, the mode is the default, or no later row ranks before an earlier one by (pending, order column, server id, sequence) |
| MessageBuffer.DisagreeIsNumeric | src/cache/types.ts:547-620 | rows out of the new order are rows whose (pending, order column, server id, sequence) descends |
| MessageBuffer.FirstDeclarationCanMisorder | src/cache/message-store.ts:68-78 | two rows whose pts and server ids disagree are left the wrong way round |
| MessageStoreClass.MessageStore.SetChannelOrderMode | src/cache/message-store.ts:68-78 | records the mode and sorts the buffer again only when a declared mode changed |
| MessageStoreClass.MessageStore.NoteRows | src/cache/message-store.ts:85-88 | rows that prove a gap degrade the channel, and nothing else changes its mode |
| MessageStoreClass.MessageStore.AbsorbDuplicates | src/cache/message-store.ts:420-439 | the loops drop exactly the rows an incoming row describes under another id |
| MessageStoreClass.MessageStore.SetAll | src/cache/message-store.ts:226-235 | the loop sets every record under its id and notes whether one changes what is shown |
| MessageStoreClass.MessageStore.UpsertMessages | src/cache/message-store.ts:214-240 | the upsert loop is its specification and keeps a declared channel tidy; other channels are untouched |
| MessageStoreClass.MessageStore.ReplaceWindow | src/cache/message-store.ts:168-204 | the window replacement is its specification and keeps a declared channel tidy |
| MessageStoreClass.MessageStore.ReplaceMessage | src/cache/message-store.ts:251-283 | the replacement is its specification and keeps the channel tidy |
| MessageStoreClass.MessageStore.RemoveMessage | src/cache/message-store.ts:285-300 | removes that row alone and keeps the channel tidy |
| Invalidation.NoHintIsLost | src/client.ts:3670-3755 | in every history a non-empty queue has a timer armed or a flush running, never both, and the last hint of each key is pending, being synced by a sync begun after it, or was synced by one |
| Invalidation.PendingKeyIsSyncedNext | src/client.ts:3687-3755 | for a pending key some timer, settlement or flush end is always possible, and each brings its sync nearer or starts it |
| Invalidation.Client.QueueInvalidation | src/client.ts:3670-3685 | joins the hint with a pending one under the larger version and arms the timer unless one is armed or a flush runs |
| Invalidation.Client.BeginFlush | src/client.ts:3695-3699 | the flush takes everything pending, unless one runs or the client is disposed |
| Invalidation.Client.SettleSync | src/client.ts:3703-3748 | a failed sync is queued again, joined with a newer hint |
| Invalidation.Client.EndFlush | src/client.ts:3749-3754 | what came in during the flush gets a timer |
| Profiles.VersionNeverDecreases | src/cache/indexeddb-store.ts:621-666 | over any writes the stored version never decreases and a held snapshot is never forgotten |
| Profiles.VersionlessNeverOverwrites | src/cache/indexeddb-store.ts:640-662 | once a snapshot was held, writers without a version never change nickname, avatar, type or a non-empty user name |
| Profiles.HighestVersionWins | src/cache/indexeddb-store.ts:621-666 | whatever the order, and among any versionless writes, the row ends with the highest version's profile |
| Profiles.OrdersAgree | src/cache/indexeddb-store.ts:621-666 | two orders of the same writes end with the same owned fields |
| Profiles.FriendExactlyWhen | src/cache/indexeddb-store.ts:645-660 | the friend flag is set exactly when some write that set it carried no version or was the newest on arrival |
| Profiles.FriendFlagDependsOnOrder | src/cache/indexeddb-store.ts:645-660 | two records in two orders end with different friend flags |
| Profiles.UserTable.UpsertUsers | src/cache/indexeddb-store.ts:621-666 | each user ends as the last record of the batch that is not older than the row read before the batch, merged with that row; users with no such record keep theirs |
| Profiles.LastPutWins | src/cache/indexeddb-store.ts:621-666 | the last put of a user decides his row, merged with the row from before the batch, whatever earlier records of the batch said |
| Profiles.OlderRecordCanWin | src/cache/indexeddb-store.ts:621-666 | a witness: a newer and then an older version in one batch end at the older |
| Upload.ClampFits | src/chunked-upload.ts:89-93 | a request size is a multiple of the base unit between it and the limit, and never more than asked for beyond the base |
| Upload.ChunkSizer.OnSuccess | src/chunked-upload.ts:78-84 | keeps the size in bounds and at most four times the last request |
| Upload.ChunkSizer.OnFailure | src/chunked-upload.ts:85-88 | halves the size, down to the base unit, and forgets the throughput |
| Upload.EveryPutFits | src/chunked-upload.ts:350-360 | against an honest server every PUT lies inside a current gap, starts on the grid and is whole units unless it ends the blob |
| Upload.RunKeeps | src/chunked-upload.ts:350-397 | however far the loop got, its gaps are well formed and cover whatever the server lacks, and every turn has been paid for |
| Upload.CompleteMeansReceived | src/chunked-upload.ts:350-397 | whenever the loop goes on to complete, the server holds every byte of the blob |
| Upload.LoopStops | src/chunked-upload.ts:350-397 | against an honest server the loop ends within a budget of three requests per missing byte and two failures, whatever verdicts and status failures come |
| Upload.UploadLoop | src/chunked-upload.ts:343-397 | the loop with its sizer is the run specification, lost and failed status requests included, asking only for sizes that fit |
| Attachment.SealedLengthIsExact | src/attachment-crypto.ts:33-42 | the sealed blob is exactly as long as the length formula says |
| Attachment.OpeningUndoesSealing | src/attachment-crypto.ts:142-227 | opening a sealed attachment gives back the plaintext, for every plaintext, chunk size and draw whose geometry fits the header |
| Attachment.AadsDistinct | src/attachment-crypto.ts:118-124 | no two chunks of one object authenticate the same data |
| Attachment.SealAttachment | src/attachment-crypto.ts:142-178 | filling the buffer at moving offsets yields the wire format, and only a bad key length or chunk size fails |
| Attachment.DecryptAttachment | src/attachment-crypto.ts:192-227 | the reading loop yields the opening specification, the same error included |

## Left out

- IndexAgreement.NumbersAlwaysDistinct: a number that a record or an ack brings along must be free when it is used; the code trusts it, and one step keeps numbers distinct exactly then.
- IndexAgreement.IndexAlwaysAgrees: a queued message must not be a gap row of a channel in pts order, since enqueue does not reconcile.
- MigrationSends.QueuedAgainExactlyWhen: commands carry local ids, unique as the outbox index of version 11 makes them.
- NoOrphans.EveryPendingHasACommand: wire batches must not name two messages with one record's two network ids, since only then does a write keep pending rows alone (`NoOrphans.PendingAloneExactlyWhen`), and one that does not can leave a pending row without a command (`NoOrphans.ConfusedWriteOrphans`); enqueued local ids are new to the channel.
- SyncRuns.SyncNeverSkips: one channel, commits with rising pts and unreused ids, pts as numbers; the resync answer (20900), push and the lift of latest_pts by a send ack are not steps.
- SyncRuns.PagesTakeEffectOnce: pages list distinct commits, and with several tabs empty pages find the tab's copy current, which `SyncRuns.CountsOnceExactlyWhen` shows to be exact.
- SyncPts.PageStands: of a commit's fields only identity and pts are followed to the row; content may be an older, fuller one.
- MigrationIndex.UpgradeNumbersInKeyOrder: ids of at most twenty digits, no server id "0", no pts on pending rows; otherwise number order and key order may differ (`MigrationIndex.ZeroIdMisorders`, `MigrationIndex.PendingPtsMisorder`), and `MigrationIndex.NumberAndKeyAgreeExactlyWhen` says when for rows the comparator tells apart.
- Profiles.HighestVersionWins: writes of a user come one after the other, each over what the last one left; a batch that names him twice does not, and `Profiles.LastPutWins` says what it does.
- Attachment.OpeningUndoesSealing: the cipher is any pair of functions where opening undoes sealing and tags are sixteen bytes; nothing is said about tampering.
- Upload.CompleteMeansReceived: the server forgets nothing, accepts only what it stores, and reports exactly what it lacks, on the grid.
- MessageStoreClass.MessageStore.UpsertMessages: records are taken as already normalised, and observers and patches are not modelled.
- The outbox engine's counters, events and in-flight map; its methods appear as steps between transactions, with back-off delays, time-outs, verdict classes and the clock as inputs.
- `retryOutboxEntry`, `discardOutboxEntry`, `markOutboxFailed` and the inline send of `sendTextMessage`, which write the outbox without a lease.
- Fresh tokens and minted ids are assumed distinct; `localeCompare` on ids of equally old pending rows is plain string order.
- Fields that no modelled rule reads: channel type, mime type, previews, avatars of channels.
- Decoding of commit content, payload envelopes and rebuildable bodies; they are opaque values here.
- The status request before the upload loop, the S3 data plane, progress reports, token requests and claims.
- Which key id opens an attachment, base64 and key transport.
- The value of `target_version` after a sync: the source does not read it either.
- Upgrades before version 12, and row ids missing from the old table, which version 10 has filled in.
- Connection, transport, authentication, RPC wrappers, codecs, friend and group tables.
