// Which message row an acknowledged command lands on
// (`resolvePending` and `applyAck` of src/outbox-engine.ts).

module OutboxEngine {
  import opened Text
  import opened Records
  import opened CacheTables
  import opened IndexAgreement
  import opened Acks
  import opened LeaseProtocol

  /** The record carries the channel and local id this entry was queued under. */
  predicate Owns(entry: OutboxEntry, record: Record)
  {
    record.channelId == entry.channelId && record.localId == Some(entry.localId)
  }

  /** The command names a row that is there but belongs to something else. */
  predicate LinkIsWrong(ms: Messages, entry: OutboxEntry)
  {
    entry.messageId in ms && !Owns(entry, ms[entry.messageId].record)
  }

  function Rebuilt(entry: OutboxEntry, id: Id): Record
  {
    Record(id, entry.channelId, None, Some(entry.localId), None, None, entry.fromUid, entry.contentType,
           entry.body, entry.payload, entry.createdAt, None, Pending, None)
  }

  /** The row already stored for the server id this command was acknowledged under. */
  function Rehydrated(ms: Messages, entry: OutboxEntry): Option<Stored>
  {
    if entry.ackedServerId.Some? then FindInChannel(ms, entry.channelId, entry.ackedServerId.value) else None
  }

  /** `memory` is the buffered record under the command's message id, if the buffer has one;
   *  `None` is the rehydrate-required error. */
  function ResolvePending(ms: Messages, memory: Option<Record>, entry: OutboxEntry, newId: Id): Option<Record>
  {
    if memory.Some? && memory.value.id == entry.messageId && Owns(entry, memory.value) then memory
    else
      var named := if entry.messageId in ms && Owns(entry, ms[entry.messageId].record)
                   then Some(ms[entry.messageId]) else None;
      var cached := if named.Some? then named else FindByLocal(ms, entry.channelId, entry.localId);
      if cached.Some? then Some(cached.value.record)
      else if Rehydrated(ms, entry).Some? then
        Some(Rehydrated(ms, entry).value.record.(id := entry.messageId, localId := Some(entry.localId)))
      else if !IsRebuildable(entry.contentType) then None
      else Some(Rebuilt(entry, if LinkIsWrong(ms, entry) then newId else entry.messageId))
  }

  function AckedRecord(resolved: Record, entry: OutboxEntry, serverId: Id, seqNo: nat): Record
  {
    resolved.(serverId := Some(serverId), localId := Some(entry.localId), pts := Some(Numeral(seqNo)), status := Sent)
  }

  /** Whatever branch resolved it, the ack the engine applies is an ack of this command. */
  lemma EngineAckFits(ms: Messages, memory: Option<Record>, entry: OutboxEntry, newId: Id, serverId: Id, seqNo: nat)
    requires WellKeyed(ms)
    requires ResolvePending(ms, memory, entry, newId).Some?
    ensures AckFor(entry, serverId,
                   AckedRecord(ResolvePending(ms, memory, entry, newId).value, entry, serverId, seqNo))
  {
  }

  /** A replayed or repaired ack carries the server id stored on the command. */
  ghost predicate StoredAnswer(entry: OutboxEntry, serverId: Id)
  {
    entry.ackedServerId in {None, Some(serverId)}
  }

  /** The buffer has the command's own record under its message id. */
  predicate MemoryHit(memory: Option<Record>, entry: OutboxEntry)
  {
    memory.Some? && memory.value.id == entry.messageId && Owns(entry, memory.value)
  }

  /** The resolved id, case by case, in terms of the rows that are there. */
  lemma ResolvedId(ms: Messages, memory: Option<Record>, entry: OutboxEntry, newId: Id)
    requires WellKeyed(ms) && LocalsUnique(ms)
    requires ResolvePending(ms, memory, entry, newId).Some?
    ensures var r := ResolvePending(ms, memory, entry, newId).value;
            var local := FindByLocal(ms, entry.channelId, entry.localId);
            if MemoryHit(memory, entry) then r.id == entry.messageId
            else if local.Some? then r.id == local.value.record.id
            else if Rehydrated(ms, entry).Some? then r.id == entry.messageId
            else r.id == if LinkIsWrong(ms, entry) then newId else entry.messageId
  {
    hide First;
    FindByLocalSpec(ms, entry.channelId, entry.localId);
    if entry.messageId in ms && Owns(entry, ms[entry.messageId].record) {
      assert HasLocal(ms[entry.messageId], entry.channelId, entry.localId);
    }
  }

  /** The row the link names is the message the server acknowledged. */
  predicate LinkIsAnswer(ms: Messages, entry: OutboxEntry, serverId: Id)
  {
    entry.messageId in ms && InChannel(ms[entry.messageId], entry.channelId) && HasServer(ms[entry.messageId], serverId)
  }

  /**
   * A replayed ack overwrites somebody else's message exactly when no row has the command's local
   * id, its link names a row of another message, and that link is trusted all the same: the memory
   * buffer still has the command's record, or the message has been fetched back from the server.
   * Only the rebuild branch avoids a rejected link.
   */
  lemma ReplayOverwritesExactlyWhen(t: Tables, memory: Option<Record>, entry: OutboxEntry, newId: Id, serverId: Id,
                                    seqNo: nat)
    requires WellKeyed(t.messages) && LocalsUnique(t.messages) && newId !in t.messages
    requires StoredAnswer(entry, serverId)
    requires ResolvePending(t.messages, memory, entry, newId).Some?
    requires var acked := AckedRecord(ResolvePending(t.messages, memory, entry, newId).value, entry, serverId, seqNo);
             ApplyAck(t, acked).Ok?
    ensures var acked := AckedRecord(ResolvePending(t.messages, memory, entry, newId).value, entry, serverId, seqNo);
            LosesAnother(t, acked) <==>
              && FindByLocal(t.messages, entry.channelId, entry.localId).None?
              && LinkIsWrong(t.messages, entry) && !LinkIsAnswer(t.messages, entry, serverId)
              && (MemoryHit(memory, entry) || Rehydrated(t.messages, entry).Some?)
  {
    hide First, ApplyAck, ResolvePending, FindByLocal, FindInChannel;
    var ms := t.messages;
    var acked := AckedRecord(ResolvePending(ms, memory, entry, newId).value, entry, serverId, seqNo);
    EngineAckFits(ms, memory, entry, newId, serverId, seqNo);
    ResolvedId(ms, memory, entry, newId);
    AckLosesAnotherExactlyWhen(t, acked);
    FindByLocalSpec(ms, entry.channelId, entry.localId);
    if Rehydrated(ms, entry).Some? {
      FindInChannelSpec(ms, entry.channelId, serverId);
    }
  }

  // ----- Both ways do occur -----

  function Unrelated(entry: OutboxEntry): Record
  {
    Record(entry.messageId, entry.channelId, None, None, None, Some(1), "peer", "text", "hello", [], 1, None, Received,
      None)
  }

  /** The message as history brings it back: no local id, another row id. */
  function FromHistory(entry: OutboxEntry, serverId: Id): Record
  {
    Unrelated(entry).(id := entry.messageId + "'", serverId := Some(serverId), pts := Some("7"), orderSeq := Some(2))
  }

  /** A table whose only row under the command's link is somebody else's, with or without the history row. */
  function Mislinked(entry: OutboxEntry, serverId: Id, fetched: bool): Tables
  {
    var rows := map[entry.messageId := Stamp(Unrelated(entry), ByPts)];
    EMPTY.(messages := if fetched then
      rows[FromHistory(entry, serverId).id := Stamp(FromHistory(entry, serverId), ByPts)] else rows)
  }

  lemma MislinkedFits(entry: OutboxEntry, serverId: Id, fetched: bool)
    requires entry.ackedServerId == Some(serverId)
    ensures var ms := Mislinked(entry, serverId, fetched).messages;
            && WellKeyed(ms) && LocalsUnique(ms) && LinkIsWrong(ms, entry) && !LinkIsAnswer(ms, entry, serverId)
            && FindByLocal(ms, entry.channelId, entry.localId).None?
            && (forall i :: i in ms ==> InChannel(ms[i], entry.channelId))
            && (Rehydrated(ms, entry).Some? <==> fetched)
  {
    hide First, DisplaySortKey;
    var ms := Mislinked(entry, serverId, fetched).messages;
    assert entry.messageId + "'" != entry.messageId;
    FindByLocalSpec(ms, entry.channelId, entry.localId);
    FindInChannelSpec(ms, entry.channelId, serverId);
    if fetched {
      assert HasServer(ms[FromHistory(entry, serverId).id], serverId);
    }
  }

  /**
   * For every acknowledged command there is a sound-looking table on which its replay overwrites
   * another message: through the buffer, or through the row fetched back.
   */
  lemma ReplayCanOverwrite(entry: OutboxEntry, serverId: Id, seqNo: nat, newId: Id, throughBuffer: bool)
    requires entry.ackedServerId == Some(serverId)
    requires newId !in {entry.messageId, entry.messageId + "'"}
    ensures var t := Mislinked(entry, serverId, !throughBuffer);
            var memory := if throughBuffer then Some(Rebuilt(entry, entry.messageId)) else None;
            var resolved := ResolvePending(t.messages, memory, entry, newId);
            && resolved.Some?
            && var acked := AckedRecord(resolved.value, entry, serverId, seqNo);
               ApplyAck(t, acked).Ok? && LosesAnother(t, acked)
  {
    hide First, ApplyAck, FindByLocal, FindInChannel, DisplaySortKey, LosesAnother, LocalsUnique, WellKeyed;
    var t := Mislinked(entry, serverId, !throughBuffer);
    var memory := if throughBuffer then Some(Rebuilt(entry, entry.messageId)) else None;
    MislinkedFits(entry, serverId, !throughBuffer);
    var resolved := ResolvePending(t.messages, memory, entry, newId);
    var acked := AckedRecord(resolved.value, entry, serverId, seqNo);
    EngineAckFits(t.messages, memory, entry, newId, serverId, seqNo);
    AckAbortsExactlyWhen(t, acked);
    ReplayOverwritesExactlyWhen(t, memory, entry, newId, serverId, seqNo);
  }
}
