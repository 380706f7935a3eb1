// The cache database as a value, and what each transaction of
// src/cache/indexeddb-store.ts does to it. `Err` is an aborted transaction.

module CacheTables {
  import opened Text
  import opened Records
  import opened Merging

  datatype OutboxStatus = OutboxPending | Sending | OutboxFailed | AckPending | IntegrityError | LocalDataError

  datatype RepairKind = IdentityConflict | MessageRehydrate

  /** `OutboxEntry`. `body` is what decoding the payload of a rebuildable command yields. */
  datatype OutboxEntry = OutboxEntry(
    outboxId: Id,
    messageId: Id,
    channelId: Id,
    localId: Id,
    fromUid: Id,
    contentType: string,
    payload: seq<Byte>,
    body: string,
    createdAt: nat,
    updatedAt: nat,
    attemptCount: nat,
    nextAttemptAt: nat,
    lastError: Option<string>,
    localCommitFailures: Option<nat>,
    ackedServerId: Option<Id>,
    ackedSeq: Option<nat>,
    leaseToken: Option<string>,
    leaseUntil: Option<nat>,
    repairAttempts: Option<nat>,
    repairKind: Option<RepairKind>,
    conflictingId: Option<Id>,
    conflictingChannelId: Option<Id>,
    repairToken: Option<string>,
    repairUntil: Option<nat>,
    repairNextAt: Option<nat>,
    status: OutboxStatus
  )

  /** Commands that carry their whole body (src/cache/rebuild.ts). */
  predicate IsRebuildable(contentType: string)
  {
    contentType in {"text", "system"}
  }

  /** The channel projection; decimal cursors are held as the numbers they denote. */
  datatype Channel = Channel(latestPts: nat, readPts: nat, unread: nat, updatedAt: int, serverCurrentPts: nat)

  type Messages = map<Id, Stored>

  datatype Tables = Tables(
    messages: Messages,
    outbox: map<Id, OutboxEntry>,
    orderModes: map<Id, OrderMode>,
    orderSeq: nat,
    channels: map<Id, Channel>,
    syncState: map<Id, nat>
  )

  datatype StoreError = MovedChannel | ServerIdConflict | ConstraintError

  /** An aborted transaction leaves the tables as they were. */
  function Commit(t: Tables, r: Result<Tables, StoreError>): Tables
  {
    if r.Ok? then r.value else t
  }

  // ----- Index lookups -----

  predicate HasServer(row: Stored, serverId: Id)
  {
    row.record.serverId == Some(serverId)
  }

  predicate InChannel(row: Stored, channelId: Id)
  {
    row.record.channelId == channelId
  }

  predicate HasLocal(row: Stored, channelId: Id, localId: Id)
  {
    row.record.channelId == channelId && row.record.localId == Some(localId)
  }

  function RowAt(ms: Messages, key: Option<Id>): Option<Stored>
  {
    if key.Some? && key.value in ms then Some(ms[key.value]) else None
  }

  function FindByServer(ms: Messages, serverId: Id): Option<Stored>
  {
    RowAt(ms, First(set i | i in ms && HasServer(ms[i], serverId)))
  }

  function FindInChannel(ms: Messages, channelId: Id, serverId: Id): Option<Stored>
  {
    RowAt(ms, First(set i | i in ms && InChannel(ms[i], channelId) && HasServer(ms[i], serverId)))
  }

  function FindByLocal(ms: Messages, channelId: Id, localId: Id): Option<Stored>
  {
    RowAt(ms, First(set i | i in ms && HasLocal(ms[i], channelId, localId)))
  }

  function ModeOf(modes: map<Id, OrderMode>, channelId: Id): OrderMode
  {
    if channelId in modes then modes[channelId] else ByPts
  }

  /** `findExisting`: by id, then by server id, then by local id within the channel. */
  function FindExisting(ms: Messages, record: Record): Result<Option<Stored>, StoreError>
  {
    if record.id in ms then Ok(Some(ms[record.id]))
    else
      var byServer := if record.serverId.Some? && record.serverId.value != ""
                      then FindByServer(ms, record.serverId.value) else None;
      if byServer.Some? then
        if byServer.value.record.channelId != record.channelId then Err(ServerIdConflict) else Ok(byServer)
      else if record.localId.Some? && record.localId.value != "" then
        Ok(FindByLocal(ms, record.channelId, record.localId.value))
      else
        Ok(None)
  }

  /** A `put` under the unique `server_message_id` index. */
  predicate Admissible(ms: Messages, row: Stored)
  {
    row.record.serverId.Some? ==>
      forall i :: i in ms && i != row.record.id ==> !HasServer(ms[i], row.record.serverId.value)
  }

  function Put(ms: Messages, row: Stored): Result<Messages, StoreError>
  {
    if Admissible(ms, row) then Ok(ms[row.record.id := row]) else Err(ConstraintError)
  }

  // ----- upsertMessages -----

  /** Progress of a batch: the table, the last sequence number handed out, the rows written. */
  datatype Batch = Batch(messages: Messages, next: nat, written: seq<Stored>)

  function RecordOf(row: Option<Stored>): Option<Record>
  {
    if row.Some? then Some(row.value.record) else None
  }

  predicate TakesFreshSeq(existing: Option<Stored>, record: Record)
  {
    (existing.Some? ==> existing.value.record.orderSeq.None?) && record.orderSeq.None?
  }

  function UpsertOne(b: Batch, modes: map<Id, OrderMode>, record: Record): Result<Batch, StoreError>
  {
    var found := FindExisting(b.messages, record);
    if found.Err? then Err(found.error)
    else if found.value.Some? && found.value.value.record.channelId != record.channelId then Err(MovedChannel)
    else
      var merged := MergeWrite(RecordOf(found.value), record, b.next + 1);
      var stamped := Stamp(merged, ModeOf(modes, record.channelId));
      var put := Put(b.messages, stamped);
      if put.Err? then Err(put.error)
      else Ok(Batch(put.value, if TakesFreshSeq(found.value, record) then
        b.next + 1 else b.next, b.written + [stamped]))
  }

  function UpsertEach(ms: Messages, modes: map<Id, OrderMode>, records: seq<Record>, next: nat): Result<Batch,
                      StoreError>
    decreases |records|
  {
    if records == [] then Ok(Batch(ms, next, []))
    else
      var before := UpsertEach(ms, modes, records[..|records| - 1], next);
      if before.Err? then before else UpsertOne(before.value, modes, records[|records| - 1])
  }

  /** The channels of a batch, each once, in order of first appearance. */
  function ChannelsOf(records: seq<Record>): seq<Id>
    decreases |records|
  {
    if records == [] then []
    else
      var before := ChannelsOf(records[..|records| - 1]);
      var c := records[|records| - 1].channelId;
      if c in before then before else before + [c]
  }

  predicate HasGap(ms: Messages, channelId: Id)
  {
    exists i :: i in ms && InChannel(ms[i], channelId) && ms[i].ptsGap
  }

  function WantedMode(ms: Messages, channelId: Id): OrderMode
  {
    if HasGap(ms, channelId) then ByServerId else ByPts
  }

  function Rekey(ms: Messages, channelId: Id, mode: OrderMode): Messages
  {
    map i | i in ms ::
      if InChannel(ms[i], channelId) then ms[i].(sortKey := DisplaySortKey(ms[i].record, mode)) else ms[i]
  }

  /** `reconcileOrderMode`. */
  function Reconcile(t: Tables, channelId: Id): Tables
  {
    var want := WantedMode(t.messages, channelId);
    if want == ModeOf(t.orderModes, channelId) then t
    else t.(messages := Rekey(t.messages, channelId, want), orderModes := t.orderModes[channelId := want])
  }

  function ReconcileAll(t: Tables, channels: seq<Id>): Tables
    decreases |channels|
  {
    if channels == [] then t
    else Reconcile(ReconcileAll(t, channels[..|channels| - 1]), channels[|channels| - 1])
  }

  function Upsert(t: Tables, records: seq<Record>): Result<Tables, StoreError>
  {
    if records == [] then Ok(t)
    else
      var b := UpsertEach(t.messages, t.orderModes, records, t.orderSeq);
      if b.Err? then Err(b.error)
      else Ok(ReconcileAll(t.(messages := b.value.messages, orderSeq := t.orderSeq + |records|), ChannelsOf(records)))
  }

  // ----- applyAck -----

  function LocalOf(ms: Messages, acked: Record): Option<Stored>
  {
    if acked.localId.Some? then FindByLocal(ms, acked.channelId, acked.localId.value) else None
  }

  function RemoteOf(ms: Messages, acked: Record): Option<Stored>
  {
    if acked.serverId.Some? then FindInChannel(ms, acked.channelId, acked.serverId.value) else None
  }

  function SeqOf(row: Option<Stored>): Option<nat>
  {
    if row.Some? then row.value.record.orderSeq else None
  }

  /** The timeline position an ack inherits; `None` means a new number is allocated. */
  function InheritedSeq(ms: Messages, acked: Record): Option<nat>
  {
    OrElse(SeqOf(LocalOf(ms, acked)), OrElse(SeqOf(RemoteOf(ms, acked)), acked.orderSeq))
  }

  function AckedId(ms: Messages, acked: Record): Id
  {
    var local := LocalOf(ms, acked);
    if local.Some? then local.value.record.id else acked.id
  }

  function AckedRow(t: Tables, acked: Record): Stored
  {
    var seqNo := InheritedSeq(t.messages, acked);
    Stamp(
      acked.(id := AckedId(t.messages, acked), orderSeq := Some(if seqNo.Some? then seqNo.value else t.orderSeq + 1)),
      ModeOf(t.orderModes, acked.channelId))
  }

  /** The rows an ack absorbs: the two it found, except the one it keeps. */
  function Absorbed(ms: Messages, acked: Record): set<Id>
  {
    var (local, remote) := (LocalOf(ms, acked), RemoteOf(ms, acked));
    (if local.Some? then {local.value.record.id} else {}) +
    (if remote.Some? then {remote.value.record.id} else {}) - {AckedId(ms, acked)}
  }

  function ApplyAck(t: Tables, acked: Record): Result<Tables, StoreError>
  {
    var row := AckedRow(t, acked);
    var put := Put(t.messages - Absorbed(t.messages, acked), row);
    if put.Err? then Err(put.error)
    else
      var bumped := if InheritedSeq(t.messages, acked).Some? then t.orderSeq else t.orderSeq + 1;
      Ok(Reconcile(t.(messages := put.value, orderSeq := bumped), acked.channelId))
  }

  // ----- createLocalMessageQueued, commitAck, deletes -----

  /** `outbox.add` under the primary key and the unique `local_message_id` index. */
  predicate Addable(outbox: map<Id, OutboxEntry>, command: OutboxEntry)
  {
    && command.outboxId !in outbox
    && forall k :: k in outbox ==> outbox[k].localId != command.localId
  }

  function QueuedRow(t: Tables, message: Record): Stored
  {
    Stamp(message.(orderSeq := Some(t.orderSeq + 1)), ModeOf(t.orderModes, message.channelId))
  }

  function Enqueue(t: Tables, message: Record, command: OutboxEntry): Result<Tables, StoreError>
  {
    var row := QueuedRow(t, message);
    if message.id in t.messages || !Admissible(t.messages, row) || !Addable(t.outbox, command) then
      Err(ConstraintError)
    else
      Ok(t.(messages := t.messages[message.id := row],
            outbox := t.outbox[command.outboxId := command.(messageId := message.id)],
            orderSeq := t.orderSeq + 1))
  }

  function CommitAck(t: Tables, acked: Record, outboxId: Id): Result<Tables, StoreError>
  {
    var done := ApplyAck(t, acked);
    if done.Err? then done else Ok(done.value.(outbox := done.value.outbox - {outboxId}))
  }

  function DeleteById(t: Tables, id: Id): Tables
  {
    t.(messages := t.messages - {id})
  }

  function DeleteByServerId(t: Tables, channelId: Id, serverId: Id): Tables
  {
    var hits := set i | i in t.messages && InChannel(t.messages[i], channelId) && HasServer(t.messages[i], serverId);
    t.(messages := t.messages - hits)
  }

  function ClearChannel(t: Tables, channelId: Id): Tables
  {
    var hits := set i | i in t.messages && InChannel(t.messages[i], channelId);
    t.(messages := t.messages - hits)
  }

  // ----- Table invariants -----

  /** Rows sit under their own primary key and network ids are unique. */
  ghost predicate WellKeyed(ms: Messages)
  {
    && (forall i :: i in ms ==> ms[i].record.id == i)
    && (forall i, j, s :: i in ms && j in ms && HasServer(ms[i], s) && HasServer(ms[j], s) ==> i == j)
  }

  lemma FindByServerSpec(ms: Messages, serverId: Id)
    ensures var r := FindByServer(ms, serverId);
            && (r.None? ==> forall i :: i in ms ==> !HasServer(ms[i], serverId))
            && (r.Some? ==> exists i :: i in ms && ms[i] == r.value && HasServer(ms[i], serverId))
  {
    var hits := set i | i in ms && HasServer(ms[i], serverId);
    var k := First(hits);
    if k.Some? {
      assert k.value in hits;
    } else {
      assert forall i :: i in ms && HasServer(ms[i], serverId) ==> i in hits;
    }
  }

  lemma FindInChannelSpec(ms: Messages, channelId: Id, serverId: Id)
    ensures var r := FindInChannel(ms, channelId, serverId);
            && (r.None? ==> forall i :: i in ms && InChannel(ms[i], channelId) ==> !HasServer(ms[i], serverId))
            && (r.Some? ==> exists i ::
                 i in ms && ms[i] == r.value && InChannel(ms[i], channelId) && HasServer(ms[i], serverId))
  {
    var hits := set i | i in ms && InChannel(ms[i], channelId) && HasServer(ms[i], serverId);
    var k := First(hits);
    if k.Some? {
      assert k.value in hits;
    } else {
      assert forall i :: i in ms && InChannel(ms[i], channelId) && HasServer(ms[i], serverId) ==> i in hits;
    }
  }

  lemma FindByLocalSpec(ms: Messages, channelId: Id, localId: Id)
    ensures var r := FindByLocal(ms, channelId, localId);
            && (r.None? ==> forall i :: i in ms ==> !HasLocal(ms[i], channelId, localId))
            && (r.Some? ==> exists i :: i in ms && ms[i] == r.value && HasLocal(ms[i], channelId, localId))
  {
    var hits := set i | i in ms && HasLocal(ms[i], channelId, localId);
    var k := First(hits);
    if k.Some? {
      assert k.value in hits;
    } else {
      assert forall i :: i in ms && HasLocal(ms[i], channelId, localId) ==> i in hits;
    }
  }
}
