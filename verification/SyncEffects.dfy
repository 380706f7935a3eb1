// Sync pages take effect exactly once (`mergeCommits`, src/sync-engine.ts).

module SyncEffects {
  import opened Text
  import opened Records
  import opened Merging
  import opened CacheTables
  import opened IndexAgreement
  import opened SyncPages

  // ----- What is assumed of the server and of the table -----

  type Log = set<ServerCommit>

  /** One commit per server id and per local id. */
  ghost predicate GoodLog(log: Log)
  {
    && (forall a, b :: a in log && b in log && a.serverId == b.serverId ==> a == b)
    && (forall a, b :: a in log && b in log && a.localId.Some? && a.localId == b.localId ==> a == b)
    && (forall a :: a in log ==> a.serverId != "")
  }

  ghost predicate RecordsCommit(record: Record, channelId: Id, commit: ServerCommit)
  {
    record.channelId == channelId && record.serverId == Some(commit.serverId) && record.localId == commit.localId
  }

  ghost predicate FromLog(record: Record, channelId: Id, log: Log)
  {
    exists c :: c in log && RecordsCommit(record, channelId, c)
  }

  /** A confirmed row that carries a commit's local id is the row of that commit. */
  ghost predicate LogAgrees(ms: Messages, channelId: Id, log: Log)
  {
    forall i, c :: i in ms && c in log && c.localId.Some? && HasLocal(ms[i], channelId, c.localId.value) ==>
      ms[i].record.serverId in {None, Some(c.serverId)}
  }

  /** A pending row has no server id yet. */
  ghost predicate PendingUnconfirmed(ms: Messages)
  {
    forall i :: i in ms && ms[i].record.status == Pending ==> ms[i].record.serverId == None
  }

  ghost predicate Consistent(ms: Messages, channelId: Id, log: Log)
  {
    WellKeyed(ms) && LogAgrees(ms, channelId, log) && PendingUnconfirmed(ms)
  }

  /** The server ids of a channel that are in the message table. */
  ghost function StoredIds(ms: Messages, channelId: Id): set<Id>
  {
    set i | i in ms && InChannel(ms[i], channelId) && ms[i].record.serverId.Some? :: ms[i].record.serverId.value
  }

  lemma StoredIff(ms: Messages, channelId: Id, s: Id)
    ensures s in StoredIds(ms, channelId) <==> exists i :: i in ms && InChannel(ms[i], channelId) && HasServer(ms[i], s)
    ensures s in StoredIds(ms, channelId) <==> FindInChannel(ms, channelId, s).Some?
  {
    hide First;
    FindInChannelSpec(ms, channelId, s);
    if s in StoredIds(ms, channelId) {
      var i :| i in ms && InChannel(ms[i], channelId) && ms[i].record.serverId.Some? &&
        ms[i].record.serverId.value == s;
      assert HasServer(ms[i], s);
    }
  }

  /** No send became pending: the pending rows are among the old ones, unchanged. */
  ghost predicate PendingsWere(ms: Messages, ns: Messages)
  {
    forall i :: i in ns && ns[i].record.status == Pending ==> i in ms && ms[i].record == ns[i].record
  }

  // ----- One row written -----

  /** The table gained or replaced one confirmed row of the channel, losing no other server id. */
  ghost predicate WroteConfirmed(ms: Messages, ns: Messages, row: Stored, gone: set<Id>, channelId: Id, s: Id)
  {
    && ns == (ms - gone)[row.record.id := row]
    && row.record.channelId == channelId && row.record.serverId == Some(s) && row.record.status != Pending
    && (forall i :: i in ms && (i in gone || i == row.record.id) ==>
          ms[i].record.channelId == channelId && ms[i].record.serverId in {None, Some(s)})
  }

  lemma WroteStores(ms: Messages, ns: Messages, row: Stored, gone: set<Id>, channelId: Id, s: Id)
    requires WroteConfirmed(ms, ns, row, gone, channelId, s)
    ensures StoredIds(ns, channelId) == StoredIds(ms, channelId) + {s}
    ensures PendingsWere(ms, ns)
  {
    forall x
      ensures x in StoredIds(ns, channelId) <==> x in StoredIds(ms, channelId) + {s}
    {
      if x in StoredIds(ms, channelId) {
        var i :| i in ms && InChannel(ms[i], channelId) && ms[i].record.serverId == Some(x);
        if i !in gone && i != row.record.id {
          assert i in ns && ns[i] == ms[i];
        } else {
          assert ns[row.record.id] == row && InChannel(row, channelId);
        }
      }
      if x in StoredIds(ns, channelId) {
        var i :| i in ns && InChannel(ns[i], channelId) && ns[i].record.serverId == Some(x);
        if i != row.record.id {
          assert i in ms && ns[i] == ms[i];
        }
      }
      if x == s {
        assert row.record.id in ns && InChannel(ns[row.record.id], channelId);
      }
    }
  }

  lemma WroteConsistent(ms: Messages, ns: Messages, row: Stored, gone: set<Id>, channelId: Id, log: Log,
                        commit: ServerCommit)
    requires GoodLog(log) && Consistent(ms, channelId, log) && commit in log
    requires WroteConfirmed(ms, ns, row, gone, channelId, commit.serverId)
    requires row.record.localId == commit.localId
    requires WellKeyed(ns)
    ensures Consistent(ns, channelId, log)
  {
  }

  // ----- The upsert half of a page -----

  lemma UpsertOneStores(b: Batch, modes: map<Id, OrderMode>, record: Record, channelId: Id, log: Log,
                        commit: ServerCommit)
    requires GoodLog(log) && Consistent(b.messages, channelId, log)
    requires commit in log && RecordsCommit(record, channelId, commit)
    requires record.id !in b.messages && record.status != Pending
    requires UpsertOne(b, modes, record).Ok?
    ensures var ns := UpsertOne(b, modes, record).value.messages;
            && Consistent(ns, channelId, log)
            && StoredIds(ns, channelId) == StoredIds(b.messages, channelId) + {commit.serverId}
            && PendingsWere(b.messages, ns)
            && ns.Keys <= b.messages.Keys + {record.id}
            && FindExisting(b.messages, record).Ok?
            && WroteConfirmed(b.messages, ns, WrittenRow(b, modes, record), {}, channelId, commit.serverId)
  {
    hide DisplaySortKey, MergeWrite, UpsertOne, StoredIds;
    UpsertOneWrites(b, modes, record);
    var row := WrittenRow(b, modes, record);
    var ns := UpsertOne(b, modes, record).value.messages;
    PutKeepsUnique(b.messages, row);
    FoundIsUnconfirmed(b.messages, record, channelId, log, commit);
    WrittenNotPending(b, modes, record);
    assert b.messages - {} == b.messages;
    assert WroteConfirmed(b.messages, ns, row, {}, channelId, commit.serverId);
    WroteStores(b.messages, ns, row, {}, channelId, commit.serverId);
    WroteConsistent(b.messages, ns, row, {}, channelId, log, commit);
  }

  /** The row a commit's record finds carries its server id, or none. */
  lemma FoundIsUnconfirmed(ms: Messages, record: Record, channelId: Id, log: Log, commit: ServerCommit)
    requires GoodLog(log) && Consistent(ms, channelId, log)
    requires commit in log && RecordsCommit(record, channelId, commit) && record.id !in ms
    ensures var f := FindExisting(ms, record);
            f.Ok? && f.value.Some? ==> f.value.value.record.serverId in {None, Some(commit.serverId)}
  {
  }

  ghost predicate FreshBatch(ms: Messages, records: seq<Record>)
  {
    && (forall k :: 0 <= k < |records| ==> records[k].id !in ms && records[k].status != Pending)
    && (forall j, k :: 0 <= j < k < |records| ==> records[j].id != records[k].id)
  }

  ghost function ServerIds(records: seq<Record>): set<Id>
  {
    set k | 0 <= k < |records| && records[k].serverId.Some? :: records[k].serverId.value
  }

  ghost function RecordIds(records: seq<Record>): set<Id>
  {
    set k | 0 <= k < |records| :: records[k].id
  }

  lemma ServerIdsSnoc(records: seq<Record>)
    requires records != [] && records[|records| - 1].serverId.Some?
    ensures ServerIds(records) == ServerIds(records[..|records| - 1]) + {records[|records| - 1].serverId.value}
    ensures RecordIds(records) == RecordIds(records[..|records| - 1]) + {records[|records| - 1].id}
  {
  }

  lemma {:induction false} UpsertEachStores(ms: Messages, modes: map<Id, OrderMode>, records: seq<Record>, next: nat,
                                            channelId: Id, log: Log)
    requires GoodLog(log) && Consistent(ms, channelId, log)
    requires forall k :: 0 <= k < |records| ==> FromLog(records[k], channelId, log)
    requires FreshBatch(ms, records)
    requires UpsertEach(ms, modes, records, next).Ok?
    ensures var ns := UpsertEach(ms, modes, records, next).value.messages;
            && Consistent(ns, channelId, log)
            && StoredIds(ns, channelId) == StoredIds(ms, channelId) + ServerIds(records)
            && PendingsWere(ms, ns)
            && ns.Keys <= ms.Keys + RecordIds(records)
    decreases |records|
  {
    hide UpsertOne, Consistent, StoredIds, GoodLog;
    if records != [] {
      var n := |records| - 1;
      UpsertEachStores(ms, modes, records[..n], next, channelId, log);
      var b := UpsertEach(ms, modes, records[..n], next).value;
      var c :| c in log && RecordsCommit(records[n], channelId, c);
      assert records[n].id !in RecordIds(records[..n]);
      UpsertOneStores(b, modes, records[n], channelId, log, c);
      ServerIdsSnoc(records);
    }
  }

  /** Reconciling rewrites keys, which none of this is about. */
  lemma KeysAside(t: Tables, u: Tables, channels: set<Id>, channelId: Id, log: Log)
    requires SameButKeys(t, u, channels) && Consistent(t.messages, channelId, log)
    ensures Consistent(u.messages, channelId, log) &&
            StoredIds(u.messages, channelId) == StoredIds(t.messages, channelId)
    ensures PendingsWere(t.messages, u.messages)
  {
    forall i, j, s | i in u.messages && j in u.messages && HasServer(u.messages[i], s) && HasServer(u.messages[j], s)
      ensures i == j
    {
      assert HasServer(t.messages[i], s) && HasServer(t.messages[j], s);
    }
    forall i, c | i in u.messages && c in log && c.localId.Some? && HasLocal(u.messages[i], channelId, c.localId.value)
      ensures u.messages[i].record.serverId in {None, Some(c.serverId)}
    {
      assert HasLocal(t.messages[i], channelId, c.localId.value);
    }
    forall s
      ensures s in StoredIds(u.messages, channelId) <==> s in StoredIds(t.messages, channelId)
    {
      if s in StoredIds(t.messages, channelId) {
        var i :| i in t.messages && InChannel(t.messages[i], channelId) && t.messages[i].record.serverId == Some(s);
        assert i in u.messages && InChannel(u.messages[i], channelId);
      }
      if s in StoredIds(u.messages, channelId) {
        var i :| i in u.messages && InChannel(u.messages[i], channelId) && u.messages[i].record.serverId == Some(s);
        assert i in t.messages && InChannel(t.messages[i], channelId);
      }
    }
  }

  lemma UpsertStores(t: Tables, records: seq<Record>, channelId: Id, log: Log)
    requires GoodLog(log) && Consistent(t.messages, channelId, log)
    requires forall k :: 0 <= k < |records| ==> FromLog(records[k], channelId, log)
    requires FreshBatch(t.messages, records)
    requires Upsert(t, records).Ok?
    ensures var u := Upsert(t, records).value;
            && Consistent(u.messages, channelId, log)
            && StoredIds(u.messages, channelId) == StoredIds(t.messages, channelId) + ServerIds(records)
            && PendingsWere(t.messages, u.messages)
            && u.channels == t.channels && u.syncState == t.syncState
  {
    hide UpsertEach, ReconcileAll, Consistent, StoredIds, GoodLog, FromLog;
    if records != [] {
      UpsertEachStores(t.messages, t.orderModes, records, t.orderSeq, channelId, log);
      var b := UpsertEach(t.messages, t.orderModes, records, t.orderSeq).value;
      var mid := t.(messages := b.messages, orderSeq := t.orderSeq + |records|);
      ReconcileAllSame(mid, ChannelsOf(records));
      KeysAside(mid, ReconcileAll(mid, ChannelsOf(records)), (set c | c in ChannelsOf(records)), channelId, log);
    }
  }

  // ----- The ack half of a page -----

  /** The ack names the optimistic row, unconfirmed or confirmed by the same server id. */
  ghost predicate Seated(ms: Messages, acked: Record, channelId: Id)
  {
    && acked.localId.Some? && acked.status == Sent && acked.id in ms
    && HasLocal(ms[acked.id], channelId, acked.localId.value) && ms[acked.id].record.serverId in {None, acked.serverId}
  }

  ghost predicate Placed(ms: Messages, acked: Record, channelId: Id)
  {
    Seated(ms, acked, channelId) && ms[acked.id].record.serverId == None
  }

  /** Unconfirmed rows with another local id are not touched. */
  ghost predicate Spares(ms: Messages, ns: Messages, channelId: Id, locals: set<Id>)
  {
    forall i, l :: i in ms && HasLocal(ms[i], channelId, l) && l !in locals && ms[i].record.serverId == None ==>
      i in ns && ns[i].record == ms[i].record
  }

  /** The put of an ack, before the order mode is reconciled. */
  lemma AckWrites(t: Tables, acked: Record, channelId: Id, log: Log, commit: ServerCommit)
    requires GoodLog(log) && Consistent(t.messages, channelId, log)
    requires commit in log && RecordsCommit(acked, channelId, commit) && Seated(t.messages, acked, channelId)
    requires ApplyAck(t, acked).Ok?
    ensures var m := AckedTables(t, acked);
            && WellKeyed(m.messages)
            && WroteConfirmed(t.messages, m.messages, AckedRow(t, acked), Absorbed(t.messages, acked), channelId,
                 commit.serverId)
            && AckedRow(t, acked).record.localId == commit.localId
            && AckedRow(t, acked).record.id in t.messages
            && m.channels == t.channels && m.syncState == t.syncState
            && ApplyAck(t, acked).value == Reconcile(m, channelId)
  {
    hide DisplaySortKey, First, Reconcile, GoodLog, LogAgrees, PendingUnconfirmed;
    AckLookups(t.messages, acked);
    AckedRowsConfirm(t.messages, acked, channelId, log, commit);
    RemovalKeepsUnique(t.messages, Absorbed(t.messages, acked));
    PutKeepsUnique(t.messages - Absorbed(t.messages, acked), AckedRow(t, acked));
  }

  lemma AckOneStores(t: Tables, acked: Record, channelId: Id, log: Log, commit: ServerCommit)
    requires GoodLog(log) && Consistent(t.messages, channelId, log)
    requires commit in log && RecordsCommit(acked, channelId, commit) && Seated(t.messages, acked, channelId)
    requires ApplyAck(t, acked).Ok?
    ensures var u := ApplyAck(t, acked).value;
            && Consistent(u.messages, channelId, log)
            && StoredIds(u.messages, channelId) == StoredIds(t.messages, channelId) + {commit.serverId}
            && PendingsWere(t.messages, u.messages)
            && Spares(t.messages, u.messages, channelId, {acked.localId.value})
            && u.messages.Keys <= t.messages.Keys
            && u.channels == t.channels && u.syncState == t.syncState
  {
    hide ApplyAck, AckedRow, AckedTables, Absorbed, Reconcile, StoredIds, GoodLog, Consistent, Seated, WellKeyed;
    var m := AckedTables(t, acked);
    var row, gone := AckedRow(t, acked), Absorbed(t.messages, acked);
    AckWrites(t, acked, channelId, log, commit);
    WroteStores(t.messages, m.messages, row, gone, channelId, commit.serverId);
    WroteConsistent(t.messages, m.messages, row, gone, channelId, log, commit);
    ReconcileSame(m, channelId);
    KeysAside(m, Reconcile(m, channelId), {channelId}, channelId, log);
    AckSpares(t, acked, channelId, log, commit);
  }

  lemma AckSpares(t: Tables, acked: Record, channelId: Id, log: Log, commit: ServerCommit)
    requires GoodLog(log) && Consistent(t.messages, channelId, log)
    requires commit in log && RecordsCommit(acked, channelId, commit) && Seated(t.messages, acked, channelId)
    requires ApplyAck(t, acked).Ok?
    ensures var u := ApplyAck(t, acked).value;
            Spares(t.messages, u.messages, channelId, {acked.localId.value}) && u.messages.Keys <= t.messages.Keys
  {
    hide ApplyAck, AckedRow, AckedTables, Absorbed, Reconcile, StoredIds, GoodLog, Consistent, AckedId;
    var m := AckedTables(t, acked);
    AckWrites(t, acked, channelId, log, commit);
    AckedRowsConfirm(t.messages, acked, channelId, log, commit);
    AckedRowId(t, acked);
    ReconcileSame(m, channelId);
  }

  lemma AckedRowId(t: Tables, acked: Record)
    ensures AckedRow(t, acked).record.id == AckedId(t.messages, acked)
  {
  }

  lemma AckedRowsConfirm(ms: Messages, acked: Record, channelId: Id, log: Log, commit: ServerCommit)
    requires GoodLog(log) && Consistent(ms, channelId, log)
    requires commit in log && RecordsCommit(acked, channelId, commit) && Seated(ms, acked, channelId)
    ensures var touched := Absorbed(ms, acked) + {AckedId(ms, acked)};
            forall i :: i in touched ==>
              i in ms && ms[i].record.channelId == channelId && ms[i].record.serverId in {None, Some(commit.serverId)}
              && (ms[i].record.localId == acked.localId || ms[i].record.serverId == Some(commit.serverId))
  {
  }

  ghost function LocalIds(records: seq<Record>): set<Id>
  {
    set k | 0 <= k < |records| && records[k].localId.Some? :: records[k].localId.value
  }

  lemma LocalIdsSnoc(records: seq<Record>)
    requires records != [] && records[|records| - 1].localId.Some?
    ensures LocalIds(records) == LocalIds(records[..|records| - 1]) + {records[|records| - 1].localId.value}
  {
  }

  ghost predicate AcksReady(ms: Messages, acks: seq<Record>, channelId: Id, log: Log)
  {
    && (forall k :: 0 <= k < |acks| ==> Placed(ms, acks[k], channelId) && FromLog(acks[k], channelId, log))
    && (forall j, k :: 0 <= j < k < |acks| ==> acks[j].localId != acks[k].localId)
  }

  lemma {:induction false} AckAllStores(t: Tables, acks: seq<Record>, channelId: Id, log: Log)
    requires GoodLog(log) && Consistent(t.messages, channelId, log)
    requires AcksReady(t.messages, acks, channelId, log)
    requires AckAll(t, acks).Ok?
    ensures var u := AckAll(t, acks).value;
            && Consistent(u.messages, channelId, log)
            && StoredIds(u.messages, channelId) == StoredIds(t.messages, channelId) + ServerIds(acks)
            && PendingsWere(t.messages, u.messages)
            && Spares(t.messages, u.messages, channelId, LocalIds(acks))
            && u.messages.Keys <= t.messages.Keys
            && u.channels == t.channels && u.syncState == t.syncState
    decreases |acks|
  {
    hide ApplyAck, Consistent, StoredIds, GoodLog;
    if acks != [] {
      var n := |acks| - 1;
      AckAllStores(t, acks[..n], channelId, log);
      var b := AckAll(t, acks[..n]).value;
      var c :| c in log && RecordsCommit(acks[n], channelId, c);
      assert acks[n].localId.value !in LocalIds(acks[..n]);
      assert HasLocal(t.messages[acks[n].id], channelId, acks[n].localId.value);
      AckOneStores(b, acks[n], channelId, log, c);
      ServerIdsSnoc(acks);
      LocalIdsSnoc(acks);
      SparesBoth(t.messages, b.messages, ApplyAck(b, acks[n]).value.messages, channelId, LocalIds(acks[..n]),
        acks[n].localId.value);
    }
  }

  lemma SparesBoth(a: Messages, b: Messages, c: Messages, channelId: Id, locals: set<Id>, last: Id)
    requires Spares(a, b, channelId, locals) && Spares(b, c, channelId, {last})
    ensures Spares(a, c, channelId, locals + {last})
  {
  }
}
