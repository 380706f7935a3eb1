// What each operation of src/cache/outbox-store.ts does to the outbox table.

module OutboxTable {
  import opened Text
  import opened Records
  import opened Merging
  import opened CacheTables

  type Outbox = map<Id, OutboxEntry>

  /** `OutboxStatusPatch`: an absent field is not touched; `lastError` may be cleared. */
  datatype Patch = Patch(
    status: Option<OutboxStatus>,
    attemptCount: Option<nat>,
    localCommitFailures: Option<nat>,
    repairKind: Option<RepairKind>,
    conflictingId: Option<Id>,
    conflictingChannelId: Option<Id>,
    repairUntil: Option<nat>,
    repairNextAt: Option<nat>,
    ackedServerId: Option<Id>,
    ackedSeq: Option<nat>,
    nextAttemptAt: Option<nat>,
    lastError: Option<Option<string>>,
    updatedAt: Option<nat>
  )

  const NO_PATCH := Patch(None, None, None, None, None, None, None, None, None, None, None, None, None)

  function OrKeep<T>(patched: Option<T>, current: T): T
  {
    if patched.Some? then patched.value else current
  }

  /** The patched row; `clock` is the time used when the patch brings no `updatedAt`. */
  function ApplyPatch(row: OutboxEntry, patch: Patch, clock: nat): OutboxEntry
  {
    row.(
      status := OrKeep(patch.status, row.status),
      attemptCount := OrKeep(patch.attemptCount, row.attemptCount),
      localCommitFailures := OrElse(patch.localCommitFailures, row.localCommitFailures),
      repairKind := OrElse(patch.repairKind, row.repairKind),
      conflictingId := OrElse(patch.conflictingId, row.conflictingId),
      conflictingChannelId := OrElse(patch.conflictingChannelId, row.conflictingChannelId),
      repairUntil := OrElse(patch.repairUntil, row.repairUntil),
      repairNextAt := OrElse(patch.repairNextAt, row.repairNextAt),
      ackedServerId := OrElse(patch.ackedServerId, row.ackedServerId),
      ackedSeq := OrElse(patch.ackedSeq, row.ackedSeq),
      nextAttemptAt := OrKeep(patch.nextAttemptAt, row.nextAttemptAt),
      lastError := OrKeep(patch.lastError, row.lastError),
      updatedAt := OrKeep(patch.updatedAt, clock))
  }

  function OrZero(n: Option<nat>): nat
  {
    if n.Some? then n.value else 0
  }

  /** Only an unsent row, or one whose sender's lease ran out, may be taken for sending. */
  predicate Claimable(row: OutboxEntry, now: nat)
  {
    row.status in {OutboxPending, OutboxFailed} || (row.status == Sending && OrZero(row.leaseUntil) <= now)
  }

  function Claimed(row: OutboxEntry, token: string, now: nat, leaseMs: nat): OutboxEntry
  {
    row.(status := Sending, leaseToken := Some(token), leaseUntil := Some(now + leaseMs), updatedAt := now)
  }

  predicate CanClaim(outbox: Outbox, id: Id, now: nat)
  {
    id in outbox && Claimable(outbox[id], now)
  }

  predicate RepairClaimable(row: OutboxEntry, now: nat)
  {
    row.status == IntegrityError && OrZero(row.repairUntil) <= now && OrZero(row.repairNextAt) <= now
  }

  predicate CanClaimRepair(outbox: Outbox, id: Id, now: nat)
  {
    id in outbox && RepairClaimable(outbox[id], now)
  }

  function RepairClaimed(row: OutboxEntry, token: string, now: nat, leaseMs: nat): OutboxEntry
  {
    row.(repairAttempts := Some(OrZero(row.repairAttempts) + 1), repairToken := Some(token),
         repairUntil := Some(now + leaseMs), updatedAt := now)
  }

  predicate OwnsSend(outbox: Outbox, id: Id, token: string)
  {
    id in outbox && outbox[id].leaseToken == Some(token)
  }

  predicate OwnsRepair(outbox: Outbox, id: Id, token: string)
  {
    id in outbox && outbox[id].repairToken == Some(token)
  }

  /** Due for work: unsent, delivered but not settled, or abandoned by its sender. */
  predicate IsDue(row: OutboxEntry, now: nat)
  {
    row.nextAttemptAt <= now &&
    (row.status in {OutboxPending, OutboxFailed, AckPending} ||
     (row.status == Sending && OrZero(row.leaseUntil) <= now))
  }
}
