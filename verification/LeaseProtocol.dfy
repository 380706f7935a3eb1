// The outbox lease protocol (src/outbox-engine.ts over src/cache/outbox-store.ts) as a state
// machine. Any number of send attempts, local ACK replays and repair passes, in any number
// of tabs, interleave at transaction boundaries; any of them may stop for good at any point.

module LeaseProtocol {
  import opened Text
  import opened Records
  import opened Merging
  import opened CacheTables
  import opened OutboxTable

  /** What names a command for life. */
  datatype Ident = Ident(channelId: Id, localId: Id, messageId: Id)

  datatype SendPhase =
    | InFlight
    | Accepted(serverId: Id, seqNo: nat)
    | Uncommitted(serverId: Id, seqNo: nat)

  /** `processRow` after its claim. */
  datatype Attempt = Attempt(entry: OutboxEntry, token: string, until: nat, phase: SendPhase)

  datatype ReplayPhase = Loaded | Unapplied | Holding(copy: OutboxEntry)

  /** `retryLocalCommit` on a snapshot of an `ack_pending` row; no lease guards it. */
  datatype Replay = Replay(entry: OutboxEntry, phase: ReplayPhase)

  datatype RepairPhase = Claiming | Unrepaired

  /** One pass of `repairIntegrityRows` after its claim. */
  datatype Repair = Repair(entry: OutboxEntry, token: string, phase: RepairPhase)

  datatype State = State(
    t: Tables,
    now: nat,
    attempts: map<nat, Attempt>,
    replays: map<nat, Replay>,
    repairs: map<nat, Repair>,
    // History: every token handed out, every command enqueued, every delivery recorded.
    tokens: set<string>,
    commands: map<Id, Ident>,
    delivered: map<Id, Id>
  )

  datatype Step =
    | Enqueued(message: Record, command: OutboxEntry)
    | Tick(later: nat)
    | ClaimSend(actor: nat, id: Id, token: string, leaseMs: nat)
    | ServerAccepts(actor: nat, serverId: Id, seqNo: nat)
    | RecordFailure(actor: nat, nextAt: nat, error: string)
    | CommitSend(actor: nat, acked: Record, aborts: bool)
    | RecordUncommitted(actor: nat, verdict: Verdict)
    | LoadReplay(actor: nat, id: Id)
    | CommitReplay(actor: nat, acked: Record, aborts: bool)
    | ReadForReplay(actor: nat)
    | WriteReplay(actor: nat, verdict: Verdict)
    | ClaimRepair(actor: nat, id: Id, token: string, leaseMs: nat)
    | CommitRepair(actor: nat, acked: Record, aborts: bool)
    | RecordRepair(actor: nat, giveUp: bool, nextAt: nat, error: string)
    | CrashSend(actor: nat)
    | CrashReplay(actor: nat)
    | CrashRepair(actor: nat)
    | Wire(records: seq<Record>)
    | SyncAck(acked: Record)

  /** How a failed local commit is classified: retry locally, or quarantine for repair. */
  datatype Verdict = RetryLocally(nextAt: nat, error: string) | Quarantine(messageId: Id, channelId: Id, error: string)

  // ----- Patches the engine writes -----

  const FROZEN_NEXT_ATTEMPT_AT := 9007199254740991

  /** `handleTransient` and `handleRejected`. */
  function FailurePatch(entry: OutboxEntry, nextAt: nat, error: string, now: nat): Patch
  {
    NO_PATCH.(status := Some(OutboxFailed), attemptCount := Some(entry.attemptCount + 1),
              nextAttemptAt := Some(nextAt), lastError := Some(Some(error)), updatedAt := Some(now))
  }

  /** `handleLocalCommitFailure`: either way the server's answer is stored on the row. */
  function UncommittedPatch(entry: OutboxEntry, serverId: Id, seqNo: nat, verdict: Verdict, now: nat): Patch
  {
    var acked := NO_PATCH.(ackedServerId := Some(serverId), ackedSeq := Some(seqNo), updatedAt := Some(now));
    match verdict
    case RetryLocally(nextAt, error) =>
      acked.(status := Some(AckPending), localCommitFailures := Some(OrZero(entry.localCommitFailures) + 1),
             nextAttemptAt := Some(nextAt), lastError := Some(Some(error)))
    case Quarantine(messageId, channelId, error) =>
      acked.(status := Some(IntegrityError), repairKind := Some(MessageRehydrate), conflictingId := Some(messageId),
             conflictingChannelId := Some(channelId), nextAttemptAt := Some(FROZEN_NEXT_ATTEMPT_AT),
             repairNextAt := Some(now), lastError := Some(Some(error)))
  }

  function RepairPatch(giveUp: bool, nextAt: nat, error: string, now: nat): Patch
  {
    if giveUp then
      NO_PATCH.(status := Some(LocalDataError), repairUntil := Some(0), lastError := Some(Some(error)),
        updatedAt := Some(now))
    else
      NO_PATCH.(repairUntil := Some(0), repairNextAt := Some(nextAt), updatedAt := Some(now))
  }

  // ----- Transactions -----

  /** An ack built for this command and this answer of the server. */
  predicate AckFor(entry: OutboxEntry, serverId: Id, acked: Record)
  {
    && acked.channelId == entry.channelId
    && acked.localId == Some(entry.localId)
    && acked.serverId == Some(serverId)
    && acked.status == Sent
  }

  /** The engine's ack transaction: retire the command and apply the ack, or abort. */
  function RetireAndAck(t: Tables, id: Id, acked: Record, aborts: bool): Result<Tables, StoreError>
  {
    if aborts then Err(ConstraintError) else ApplyAck(t.(outbox := t.outbox - {id}), acked)
  }

  function FencedWrite(t: Tables, owns: bool, id: Id, patch: Patch, clock: nat): Tables
    requires owns ==> id in t.outbox
  {
    if owns then t.(outbox := t.outbox[id := ApplyPatch(t.outbox[id], patch, clock)]) else t
  }

  predicate DeliveredStatus(status: OutboxStatus)
  {
    status in {AckPending, IntegrityError, LocalDataError}
  }

  function IdentOf(entry: OutboxEntry): Ident
  {
    Ident(entry.channelId, entry.localId, entry.messageId)
  }

  function NoteDelivery(delivered: map<Id, Id>, id: Id, serverId: Id): map<Id, Id>
  {
    delivered[id := serverId]
  }

  // ----- Which steps can happen -----

  predicate NewCommand(s: State, message: Record, command: OutboxEntry)
  {
    && message.status == Pending
    && message.serverId == None
    && message.localId == Some(command.localId)
    && message.channelId == command.channelId
    && command.outboxId !in s.commands
    && (forall id :: id in s.commands ==> s.commands[id].localId != command.localId)
    && command.status == OutboxPending
    && command.leaseToken == None
    && command.ackedServerId == None
  }

  predicate Enabled(s: State, step: Step)
  {
    match step
    case Enqueued(message, command) => NewCommand(s, message, command)
    case Tick(later) => s.now <= later
    case ClaimSend(actor, id, token, _) => actor !in s.attempts && token !in s.tokens && CanClaim(s.t.outbox, id, s.now)
    case ServerAccepts(actor, _, _) => actor in s.attempts && s.attempts[actor].phase == InFlight
    case RecordFailure(actor, _, _) => actor in s.attempts && s.attempts[actor].phase == InFlight
    case CommitSend(actor, acked, _) =>
      actor in s.attempts && s.attempts[actor].phase.Accepted? &&
      AckFor(s.attempts[actor].entry, s.attempts[actor].phase.serverId, acked)
    case RecordUncommitted(actor, _) => actor in s.attempts && s.attempts[actor].phase.Uncommitted?
    case LoadReplay(actor, id) => actor !in s.replays && id in s.t.outbox && s.t.outbox[id].status == AckPending
    case CommitReplay(actor, acked, _) =>
      actor in s.replays && s.replays[actor].phase == Loaded && s.replays[actor].entry.ackedServerId.Some? &&
      AckFor(s.replays[actor].entry, s.replays[actor].entry.ackedServerId.value, acked)
    case ReadForReplay(actor) => actor in s.replays && s.replays[actor].phase == Unapplied
    case WriteReplay(actor, _) =>
      actor in s.replays && s.replays[actor].phase.Holding? && s.replays[actor].entry.ackedServerId.Some?
    case ClaimRepair(actor, id, token, _) =>
      actor !in s.repairs && token !in s.tokens && CanClaimRepair(s.t.outbox, id, s.now)
    case CommitRepair(actor, acked, _) =>
      actor in s.repairs && s.repairs[actor].phase == Claiming && s.repairs[actor].entry.ackedServerId.Some? &&
      AckFor(s.repairs[actor].entry, s.repairs[actor].entry.ackedServerId.value, acked)
    case RecordRepair(actor, _, _, _) => actor in s.repairs && s.repairs[actor].phase == Unrepaired
    case CrashSend(actor) => actor in s.attempts
    case CrashReplay(actor) => actor in s.replays
    case CrashRepair(actor) => actor in s.repairs
    case Wire(_) => true
    case SyncAck(_) => true
  }

  // ----- What a step does -----

  function Next(s: State, step: Step): State
    requires Enabled(s, step)
  {
    match step
    case Enqueued(message, command) =>
      var r := Enqueue(s.t, message, command);
      if r.Err? then s
      else s.(t := r.value,
              commands := s.commands[command.outboxId := Ident(command.channelId, command.localId, message.id)])
    case Tick(later) => s.(now := later)
    case ClaimSend(actor, id, token, leaseMs) =>
      var row := Claimed(s.t.outbox[id], token, s.now, leaseMs);
      s.(t := s.t.(outbox := s.t.outbox[id := row]),
         attempts := s.attempts[actor := Attempt(row, token, s.now + leaseMs, InFlight)],
         tokens := s.tokens + {token})
    case ServerAccepts(actor, serverId, seqNo) =>
      s.(attempts := s.attempts[actor := s.attempts[actor].(phase := Accepted(serverId, seqNo))])
    case RecordFailure(actor, nextAt, error) =>
      var a := s.attempts[actor];
      s.(t := FencedWrite(s.t, OwnsSend(s.t.outbox, a.entry.outboxId, a.token), a.entry.outboxId,
                          FailurePatch(a.entry, nextAt, error, s.now), s.now),
         attempts := s.attempts - {actor})
    case CommitSend(actor, acked, aborts) => CommitSendStep(s, actor, acked, aborts)
    case RecordUncommitted(actor, verdict) =>
      var a := s.attempts[actor];
      var owns := OwnsSend(s.t.outbox, a.entry.outboxId, a.token);
      s.(t := FencedWrite(s.t, owns, a.entry.outboxId,
                          UncommittedPatch(a.entry, a.phase.serverId, a.phase.seqNo, verdict, s.now), s.now),
         attempts := s.attempts - {actor},
         delivered := if owns then NoteDelivery(s.delivered, a.entry.outboxId, a.phase.serverId) else s.delivered)
    case LoadReplay(actor, id) => s.(replays := s.replays[actor := Replay(s.t.outbox[id], Loaded)])
    case CommitReplay(actor, acked, aborts) =>
      var r := s.replays[actor];
      var done := RetireAndAck(s.t, r.entry.outboxId, acked, aborts);
      if done.Ok? then s.(t := done.value, replays := s.replays - {actor})
      else s.(replays := s.replays[actor := r.(phase := Unapplied)])
    case ReadForReplay(actor) =>
      // First half of `updateOutboxStatus`: a plain get, outside any transaction.
      var r := s.replays[actor];
      if r.entry.outboxId in s.t.outbox
      then s.(replays := s.replays[actor := r.(phase := Holding(s.t.outbox[r.entry.outboxId]))])
      else s.(replays := s.replays - {actor})
    case WriteReplay(actor, verdict) =>
      // Second half: the patched copy is put back whatever happened in between.
      var r := s.replays[actor];
      var patch := UncommittedPatch(r.entry, r.entry.ackedServerId.value, OrZero(r.entry.ackedSeq), verdict, s.now);
      s.(t := s.t.(outbox := s.t.outbox[r.entry.outboxId := ApplyPatch(r.phase.copy, patch, s.now)]),
         replays := s.replays - {actor})
    case ClaimRepair(actor, id, token, leaseMs) =>
      var row := RepairClaimed(s.t.outbox[id], token, s.now, leaseMs);
      s.(t := s.t.(outbox := s.t.outbox[id := row]),
         repairs := s.repairs[actor := Repair(row, token, Claiming)],
         tokens := s.tokens + {token})
    case CommitRepair(actor, acked, aborts) =>
      var r := s.repairs[actor];
      var done := RetireAndAck(s.t, r.entry.outboxId, acked, aborts);
      if OwnsRepair(s.t.outbox, r.entry.outboxId, r.token) && done.Ok?
      then s.(t := done.value, repairs := s.repairs - {actor})
      else s.(repairs := s.repairs[actor := r.(phase := Unrepaired)])
    case RecordRepair(actor, giveUp, nextAt, error) =>
      var r := s.repairs[actor];
      s.(t := FencedWrite(s.t, OwnsRepair(s.t.outbox, r.entry.outboxId, r.token), r.entry.outboxId,
                          RepairPatch(giveUp, nextAt, error, s.now), s.now),
         repairs := s.repairs - {actor})
    case CrashSend(actor) => s.(attempts := s.attempts - {actor})
    case CrashReplay(actor) => s.(replays := s.replays - {actor})
    case CrashRepair(actor) => s.(repairs := s.repairs - {actor})
    case Wire(records) => s.(t := Commit(s.t, Upsert(s.t, records)))
    case SyncAck(acked) => s.(t := Commit(s.t, ApplyAck(s.t, acked)))
  }

  /** The ack transaction of a send: fenced on the lease, then applied, or rolled back. */
  function CommitSendStep(s: State, actor: nat, acked: Record, aborts: bool): State
    requires actor in s.attempts && s.attempts[actor].phase.Accepted?
  {
    var a := s.attempts[actor];
    var id := a.entry.outboxId;
    var done := RetireAndAck(s.t, id, acked, aborts);
    if aborts || (OwnsSend(s.t.outbox, id, a.token) && done.Err?) then
      s.(attempts := s.attempts[actor := a.(phase := Uncommitted(a.phase.serverId, a.phase.seqNo))])
    else if !OwnsSend(s.t.outbox, id, a.token) then
      s.(attempts := s.attempts - {actor})
    else
      s.(t := done.value, attempts := s.attempts - {actor},
         delivered := NoteDelivery(s.delivered, id, a.phase.serverId))
  }

  // ----- The invariant -----

  ghost predicate RowsKnown(s: State)
  {
    && (forall id :: id in s.t.outbox ==>
          && s.t.outbox[id].outboxId == id
          && id in s.commands
          && IdentOf(s.t.outbox[id]) == s.commands[id]
          && (s.t.outbox[id].leaseToken.Some? ==> s.t.outbox[id].leaseToken.value in s.tokens))
    && (forall id :: id in s.delivered ==> id in s.commands)
  }

  /** An attempt knows its command; while its lease runs it owns the row, and owning means sending. */
  ghost predicate Fenced(s: State, a: Attempt)
  {
    && a.entry.outboxId in s.commands
    && IdentOf(a.entry) == s.commands[a.entry.outboxId]
    && a.token in s.tokens
    && (s.now < a.until ==> OwnsSend(s.t.outbox, a.entry.outboxId, a.token))
    && (OwnsSend(s.t.outbox, a.entry.outboxId, a.token) ==>
          s.t.outbox[a.entry.outboxId].status == Sending && s.t.outbox[a.entry.outboxId].leaseUntil == Some(a.until))
    && (forall id :: id in s.t.outbox && s.t.outbox[id].leaseToken == Some(a.token) ==> id == a.entry.outboxId)
  }

  ghost predicate AttemptsFenced(s: State)
  {
    && (forall k :: k in s.attempts ==> Fenced(s, s.attempts[k]))
    && (forall k, m :: k in s.attempts && m in s.attempts && s.attempts[k].token == s.attempts[m].token ==> k == m)
  }

  /** A row is in a delivered state exactly when its delivery was recorded, under that server id. */
  ghost predicate DeliveredAgree(s: State)
  {
    forall id :: id in s.t.outbox ==>
      && (DeliveredStatus(s.t.outbox[id].status) <==> id in s.delivered)
      && (id in s.delivered ==> s.t.outbox[id].ackedServerId == Some(s.delivered[id]))
  }

  /** A snapshot held by a replay or a repair pass is of a delivered command. */
  ghost predicate Settling(s: State, entry: OutboxEntry)
  {
    && entry.outboxId in s.delivered
    && entry.ackedServerId == Some(s.delivered[entry.outboxId])
    && entry.outboxId in s.commands
    && IdentOf(entry) == s.commands[entry.outboxId]
  }

  /** A copy about to be put back is settled and carries no running attempt's token. */
  ghost predicate HarmlessCopy(s: State, copy: OutboxEntry)
  {
    && Settling(s, copy)
    && DeliveredStatus(copy.status)
    && (copy.leaseToken.Some? ==> copy.leaseToken.value in s.tokens)
    && (forall k :: k in s.attempts ==> copy.leaseToken != Some(s.attempts[k].token))
  }

  ghost predicate ReplaysSettle(s: State)
  {
    forall k :: k in s.replays ==>
      && Settling(s, s.replays[k].entry)
      && (s.replays[k].phase.Holding? ==>
            HarmlessCopy(s, s.replays[k].phase.copy) && s.replays[k].phase.copy.outboxId == s.replays[k].entry.outboxId)
  }

  ghost predicate RepairsSettle(s: State)
  {
    forall k :: k in s.repairs ==> Settling(s, s.repairs[k].entry)
  }

  ghost predicate Inv(s: State)
  {
    RowsKnown(s) && AttemptsFenced(s) && DeliveredAgree(s) && ReplaysSettle(s) && RepairsSettle(s)
  }
}
