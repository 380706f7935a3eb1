// Every commit of a page ends with a row at the commit's own place in the timeline
// (src/sync-engine.ts:534-630).

module SyncPts {
  import opened Text
  import opened Records
  import opened CacheTables
  import opened IndexAgreement
  import opened SyncPages
  import opened SyncEffects
  import opened SyncTheorems

  /** The channel has a row with this server id at this pts. */
  ghost predicate Stands(ms: Messages, channelId: Id, s: Id, pts: string)
  {
    exists i :: i in ms && InChannel(ms[i], channelId) && HasServer(ms[i], s) && ms[i].record.pts == Some(pts)
  }

  /** Rows of other server ids stand where they stood. */
  ghost predicate OthersStand(ms: Messages, ns: Messages, channelId: Id, written: set<Id>)
  {
    forall s, pts :: s !in written && Stands(ms, channelId, s, pts) ==> Stands(ns, channelId, s, pts)
  }

  lemma WroteStands(ms: Messages, ns: Messages, row: Stored, gone: set<Id>, channelId: Id, s: Id, pts: string)
    requires WroteConfirmed(ms, ns, row, gone, channelId, s) && row.record.pts == Some(pts)
    ensures Stands(ns, channelId, s, pts) && OthersStand(ms, ns, channelId, {s})
  {
    assert row.record.id in ns && InChannel(ns[row.record.id], channelId) && HasServer(ns[row.record.id], s);
    forall x, q | x != s && Stands(ms, channelId, x, q)
      ensures Stands(ns, channelId, x, q)
    {
      var i :| i in ms && InChannel(ms[i], channelId) && HasServer(ms[i], x) && ms[i].record.pts == Some(q);
      assert i in ns && ns[i] == ms[i];
    }
  }

  lemma KeysStand(t: Tables, u: Tables, channels: set<Id>, channelId: Id)
    requires SameButKeys(t, u, channels)
    ensures OthersStand(t.messages, u.messages, channelId, {})
  {
    forall x, q | Stands(t.messages, channelId, x, q)
      ensures Stands(u.messages, channelId, x, q)
    {
      var i :| i in t.messages && InChannel(t.messages[i], channelId) && HasServer(t.messages[i], x) &&
        t.messages[i].record.pts == Some(q);
      assert InChannel(u.messages[i], channelId) && HasServer(u.messages[i], x);
    }
  }

  /** Each record's row stands at the record's pts. */
  ghost predicate AllStand(ns: Messages, channelId: Id, records: seq<Record>)
  {
    forall k :: 0 <= k < |records| && records[k].serverId.Some? && records[k].pts.Some? ==>
      Stands(ns, channelId, records[k].serverId.value, records[k].pts.value)
  }

  ghost predicate Placeable(records: seq<Record>)
  {
    && (forall k :: 0 <= k < |records| ==> records[k].serverId.Some? && records[k].pts.Some?)
    && (forall j, k :: 0 <= j < k < |records| ==> records[j].serverId != records[k].serverId)
  }

  lemma PlaceablePrefix(records: seq<Record>)
    requires Placeable(records) && records != []
    ensures var n := |records| - 1;
            && Placeable(records[..n]) && records[n].serverId.Some? && records[n].pts.Some?
            && records[n].serverId.value !in ServerIds(records[..n])
  {
  }

  /** One more write: what stood before still stands, unless it is the row written. */
  lemma OneMoreStands(ms: Messages, b: Messages, ns: Messages, channelId: Id, records: seq<Record>)
    requires Placeable(records) && records != []
    requires var n := |records| - 1;
             && AllStand(b, channelId, records[..n]) && OthersStand(ms, b, channelId, ServerIds(records[..n]))
             && OthersStand(b, ns, channelId, {records[n].serverId.value})
             && Stands(ns, channelId, records[n].serverId.value, records[n].pts.value)
    ensures AllStand(ns, channelId, records) && OthersStand(ms, ns, channelId, ServerIds(records))
  {
    hide Stands, ServerIds;
    var n := |records| - 1;
    ServerIdsSnoc(records);
    forall k | 0 <= k < |records|
      ensures Stands(ns, channelId, records[k].serverId.value, records[k].pts.value)
    {
      if k < n {
        assert records[..n][k] == records[k];
      }
    }
  }

  lemma WrittenPts(b: Batch, modes: map<Id, OrderMode>, record: Record)
    requires FindExisting(b.messages, record).Ok?
    ensures WrittenRow(b, modes, record).record.pts == record.pts
  {
    hide DisplaySortKey;
  }

  lemma {:induction false} UpsertEachStands(ms: Messages, modes: map<Id, OrderMode>, records: seq<Record>, next: nat,
                                            channelId: Id, log: Log)
    requires GoodLog(log) && Consistent(ms, channelId, log)
    requires forall k :: 0 <= k < |records| ==> FromLog(records[k], channelId, log)
    requires FreshBatch(ms, records) && Placeable(records)
    requires UpsertEach(ms, modes, records, next).Ok?
    ensures var ns := UpsertEach(ms, modes, records, next).value.messages;
            AllStand(ns, channelId, records) && OthersStand(ms, ns, channelId, ServerIds(records))
    decreases |records|
  {
    hide UpsertOne, Consistent, StoredIds, GoodLog, Stands, WroteConfirmed, WrittenRow, FindExisting, ServerIds;
    if records != [] {
      var n := |records| - 1;
      PlaceablePrefix(records);
      UpsertEachStands(ms, modes, records[..n], next, channelId, log);
      UpsertEachStores(ms, modes, records[..n], next, channelId, log);
      var b := UpsertEach(ms, modes, records[..n], next).value;
      var ns := UpsertEach(ms, modes, records, next).value.messages;
      var c :| c in log && RecordsCommit(records[n], channelId, c);
      assert records[n].id !in RecordIds(records[..n]);
      UpsertOneStores(b, modes, records[n], channelId, log, c);
      WrittenPts(b, modes, records[n]);
      WroteStands(b.messages, ns, WrittenRow(b, modes, records[n]), {}, channelId, c.serverId, records[n].pts.value);
      OneMoreStands(ms, b.messages, ns, channelId, records);
    }
  }

  lemma UpsertStands(t: Tables, records: seq<Record>, channelId: Id, log: Log)
    requires GoodLog(log) && Consistent(t.messages, channelId, log)
    requires forall k :: 0 <= k < |records| ==> FromLog(records[k], channelId, log)
    requires FreshBatch(t.messages, records) && Placeable(records)
    requires Upsert(t, records).Ok?
    ensures var u := Upsert(t, records).value;
            AllStand(u.messages, channelId, records) &&
              OthersStand(t.messages, u.messages, channelId, ServerIds(records))
  {
    hide UpsertEach, ReconcileAll, Consistent, GoodLog, FromLog, Stands, ServerIds;
    if records != [] {
      UpsertEachStands(t.messages, t.orderModes, records, t.orderSeq, channelId, log);
      var b := UpsertEach(t.messages, t.orderModes, records, t.orderSeq).value;
      var mid := t.(messages := b.messages, orderSeq := t.orderSeq + |records|);
      ReconcileAllSame(mid, ChannelsOf(records));
      KeysStand(mid, Upsert(t, records).value, (set c | c in ChannelsOf(records)), channelId);
    }
  }

  lemma AckedPts(t: Tables, acked: Record)
    ensures AckedRow(t, acked).record.pts == acked.pts
  {
    hide DisplaySortKey;
  }

  lemma {:induction false} AckAllStands(t: Tables, acks: seq<Record>, channelId: Id, log: Log)
    requires GoodLog(log) && Consistent(t.messages, channelId, log)
    requires AcksReady(t.messages, acks, channelId, log) && Placeable(acks) && AckAll(t, acks).Ok?
    ensures var u := AckAll(t, acks).value;
            AllStand(u.messages, channelId, acks) && OthersStand(t.messages, u.messages, channelId, ServerIds(acks))
    decreases |acks|
  {
    hide ApplyAck, Consistent, StoredIds, GoodLog, Stands, WroteConfirmed, AckedRow, AckedTables, Absorbed, Reconcile,
      ServerIds, WellKeyed;
    if acks != [] {
      var n := |acks| - 1;
      PlaceablePrefix(acks);
      AckAllStands(t, acks[..n], channelId, log);
      AckAllStores(t, acks[..n], channelId, log);
      var b := AckAll(t, acks[..n]).value;
      var u := AckAll(t, acks).value;
      var c :| c in log && RecordsCommit(acks[n], channelId, c);
      assert acks[n].localId.value !in LocalIds(acks[..n]);
      assert HasLocal(t.messages[acks[n].id], channelId, acks[n].localId.value);
      AckOneStands(b, acks[n], channelId, log, c);
      OneMoreStands(t.messages, b.messages, u.messages, channelId, acks);
    }
  }

  lemma AckOneStands(t: Tables, acked: Record, channelId: Id, log: Log, commit: ServerCommit)
    requires GoodLog(log) && Consistent(t.messages, channelId, log)
    requires commit in log && RecordsCommit(acked, channelId, commit) && Seated(t.messages, acked, channelId)
    requires ApplyAck(t, acked).Ok? && acked.pts.Some?
    ensures var u := ApplyAck(t, acked).value;
            Stands(u.messages, channelId, commit.serverId, acked.pts.value) &&
              OthersStand(t.messages, u.messages, channelId, {commit.serverId})
  {
    hide ApplyAck, Consistent, GoodLog, Stands, WroteConfirmed, AckedRow, AckedTables, Absorbed, Reconcile, WellKeyed,
      Seated;
    var m := AckedTables(t, acked);
    AckWrites(t, acked, channelId, log, commit);
    AckedPts(t, acked);
    WroteStands(t.messages, m.messages, AckedRow(t, acked), Absorbed(t.messages, acked), channelId, commit.serverId,
      acked.pts.value);
    ReconcileSame(m, channelId);
    KeysStand(m, Reconcile(m, channelId), {channelId}, channelId);
  }

  // ----- What the commit loop collects -----

  /** The record is what the page makes of the commit. */
  predicate MadeOf(r: Record, c: ServerCommit)
  {
    r.serverId == Some(c.serverId) && r.pts == Some(Numeral(c.pts))
  }

  ghost predicate Listed(records: seq<Record>, c: ServerCommit)
  {
    exists k :: 0 <= k < |records| && MadeOf(records[k], c)
  }

  /** The commit's row is in one of the two lists, or stands on disk already. */
  ghost predicate Covers(ms: Messages, channelId: Id, tally: Tally, c: ServerCommit)
  {
    || Listed(tally.upserts, c) || Listed(tally.acks, c)
    || (Stands(ms, channelId, c.serverId, Numeral(c.pts)) && c.serverId !in ServerIds(tally.upserts) &&
         c.serverId !in ServerIds(tally.acks))
  }

  /** The lists name each server id once between them, and only ids of the page. */
  ghost predicate Lists(tally: Tally, ids: set<Id>)
  {
    && Placeable(tally.upserts) && Placeable(tally.acks)
    && ServerIds(tally.upserts) !! ServerIds(tally.acks)
    && ServerIds(tally.upserts) + ServerIds(tally.acks) <= ids
  }

  /** One turn of the loop: the commit joins one list, or its row stands on disk. */
  lemma TallyOneTurn(ms: Messages, reader: Reader, before: Tally, c: ServerCommit, newId: Id)
    ensures var after := TallyOne(ms, reader, before, c, newId);
            || (after.acks == before.acks && exists r :: MadeOf(r, c) && after.upserts == before.upserts + [r])
            || (after.upserts == before.upserts && exists r :: MadeOf(r, c) && after.acks == before.acks + [r])
            || (after.upserts == before.upserts && after.acks == before.acks &&
                 Stands(ms, reader.channelId, c.serverId, Numeral(c.pts)))
  {
    hide PendingEcho, First;
    var next := CommitRecord(c, reader.channelId, reader.self, newId);
    var after := TallyOne(ms, reader, before, c, newId);
    var pending := PendingEcho(ms, reader, before.consumed, c);
    FindInChannelSpec(ms, reader.channelId, c.serverId);
    if pending.Some? {
      var r := EchoAck(pending.value.record, next);
      assert MadeOf(r, c) && after.acks == before.acks + [r];
    } else if after.upserts != before.upserts {
      assert MadeOf(next, c) && after.upserts == before.upserts + [next];
    }
  }

  lemma SnocListed(records: seq<Record>, r: Record)
    requires Placeable(records) && r.serverId.Some? && r.pts.Some? && r.serverId.value !in ServerIds(records)
    ensures Placeable(records + [r]) && ServerIds(records + [r]) == ServerIds(records) + {r.serverId.value}
  {
    var all := records + [r];
    assert all[..|all| - 1] == records;
    ServerIdsSnoc(all);
    forall k | 0 <= k < |records|
      ensures records[k].serverId != r.serverId
    {
      assert records[k].serverId.value in ServerIds(records);
    }
  }

  lemma {:induction false} TallyListsAll(ms: Messages, reader: Reader, zero: Tally, commits: seq<ServerCommit>,
                                         newIds: seq<Id>, log: Log)
    requires |newIds| == |commits| && Authentic(commits, log) && zero.upserts == [] && zero.acks == []
    ensures var tally := TallyAll(ms, reader, zero, commits, newIds);
            Lists(tally, CommitIds(commits)) && forall k :: 0 <= k < |commits| ==>
              Covers(ms, reader.channelId, tally, commits[k])
    decreases |commits|
  {
    hide TallyOne, Stands, Placeable, ServerIds, CommitIds;
    if commits == [] {
      NothingListed(zero);
    } else {
      var n := |commits| - 1;
      TallyListsAll(ms, reader, zero, commits[..n], newIds[..n], log);
      CommitIdsSnoc(commits);
      NotInPrefix(commits, log);
      TurnLists(ms, reader, TallyAll(ms, reader, zero, commits[..n], newIds[..n]), commits, newIds[n]);
    }
  }

  lemma NothingListed(zero: Tally)
    requires zero.upserts == [] && zero.acks == []
    ensures Lists(zero, {}) && CommitIds([]) == {}
  {
    NoServerIds();
  }

  lemma NotInPrefix(commits: seq<ServerCommit>, log: Log)
    requires commits != [] && Authentic(commits, log)
    ensures commits[|commits| - 1].serverId !in CommitIds(commits[..|commits| - 1])
  {
  }

  lemma TurnLists(ms: Messages, reader: Reader, before: Tally, commits: seq<ServerCommit>, newId: Id)
    requires commits != []
    requires var n := |commits| - 1;
             && Lists(before, CommitIds(commits[..n]))
             && (forall k :: 0 <= k < n ==> Covers(ms, reader.channelId, before, commits[..n][k]))
             && commits[n].serverId !in CommitIds(commits[..n])
             && CommitIds(commits) == CommitIds(commits[..n]) + {commits[n].serverId}
    ensures var after := TallyOne(ms, reader, before, commits[|commits| - 1], newId);
            Lists(after, CommitIds(commits)) && forall k :: 0 <= k < |commits| ==>
              Covers(ms, reader.channelId, after, commits[k])
  {
    hide TallyOne, Stands, Placeable, ServerIds, Covers;
    var n := |commits| - 1;
    var c := commits[n];
    var after := TallyOne(ms, reader, before, c, newId);
    TallyOneTurn(ms, reader, before, c, newId);
    if after.upserts != before.upserts {
      var r: Record :| MadeOf(r, c) && after.upserts == before.upserts + [r];
      SnocListed(before.upserts, r);
      JoinedCovers(ms, reader.channelId, before, after, c, r);
    } else if after.acks != before.acks {
      var r: Record :| MadeOf(r, c) && after.acks == before.acks + [r];
      SnocListed(before.acks, r);
      JoinedCovers(ms, reader.channelId, before, after, c, r);
    } else {
      StandingCovers(ms, reader.channelId, before, after, c);
    }
    forall k | 0 <= k < n
      ensures Covers(ms, reader.channelId, after, commits[k])
    {
      assert commits[..n][k] == commits[k];
      assert commits[k].serverId in CommitIds(commits[..n]);
      OldStillCovered(ms, reader.channelId, before, after, c, commits[k]);
    }
  }

  lemma JoinedCovers(ms: Messages, channelId: Id, before: Tally, after: Tally, c: ServerCommit, r: Record)
    requires MadeOf(r, c)
    requires after.upserts == before.upserts + [r] || after.acks == before.acks + [r]
    ensures Covers(ms, channelId, after, c)
  {
    hide ServerIds, Stands;
    if after.upserts == before.upserts + [r] {
      assert after.upserts[|before.upserts|] == r;
    } else {
      assert after.acks[|before.acks|] == r;
    }
  }

  lemma StandingCovers(ms: Messages, channelId: Id, before: Tally, after: Tally, c: ServerCommit)
    requires after.upserts == before.upserts && after.acks == before.acks &&
             Stands(ms, channelId, c.serverId, Numeral(c.pts))
    requires c.serverId !in ServerIds(before.upserts) + ServerIds(before.acks)
    ensures Covers(ms, channelId, after, c)
  {
  }

  lemma OldStillCovered(ms: Messages, channelId: Id, before: Tally, after: Tally, c: ServerCommit, d: ServerCommit)
    requires Covers(ms, channelId, before, d) && d.serverId != c.serverId
    requires |before.upserts| <= |after.upserts| && after.upserts[..|before.upserts|] == before.upserts
    requires |before.acks| <= |after.acks| && after.acks[..|before.acks|] == before.acks
    requires ServerIds(after.upserts) <= ServerIds(before.upserts) + {c.serverId}
    requires ServerIds(after.acks) <= ServerIds(before.acks) + {c.serverId}
    ensures Covers(ms, channelId, after, d)
  {
    hide ServerIds, Stands;
    if k :| 0 <= k < |before.upserts| && MadeOf(before.upserts[k], d) {
      assert after.upserts[k] == before.upserts[k];
    }
    if k :| 0 <= k < |before.acks| && MadeOf(before.acks[k], d) {
      assert after.acks[k] == before.acks[k];
    }
  }

  /** After a page every commit of it has a row in the channel, at the commit's own pts. */
  lemma PageStands(t: Tables, memory: Option<Channel>, channelId: Id, self: Option<Id>, page: Page, newIds: seq<Id>,
                   log: Log, n: nat)
    requires |newIds| == |page.commits| && n < |page.commits|
    requires GoodLog(log) && Authentic(page.commits, log) && NewIds(t.messages, newIds)
    requires Consistent(t.messages, channelId, log)
    requires MergePage(t, memory, channelId, self, page, newIds).Ok?
    ensures Stands(MergePage(t, memory, channelId, self, page, newIds).value.messages, channelId,
                   page.commits[n].serverId, Numeral(page.commits[n].pts))
  {
    hide TallyAll, AckAll, Upsert, StoredIds, Consistent, Authentic, NewIds, GoodLog, AcksReady, Stands, Placeable,
      ServerIds;
    var before := ChannelBefore(t, memory, channelId);
    var reader, zero := ReaderOf(before, channelId, self), ZeroTally(before);
    var tally := PageTally(t, memory, channelId, self, page, newIds);
    TallyUpsertsFit(t.messages, reader, zero, page.commits, newIds, log);
    TallyAcksFit(t.messages, reader, zero, page.commits, newIds, log);
    TallyListsAll(t.messages, reader, zero, page.commits, newIds, log);
    AckAllStores(t, tally.acks, channelId, log);
    AckAllStands(t, tally.acks, channelId, log);
    var mid := AckAll(t, tally.acks).value;
    BatchIsFresh(t.messages, mid.messages, tally, reader, log, newIds);
    UpsertStands(mid, tally.upserts, channelId, log);
    CommitStands(t.messages, mid.messages, Upsert(mid, tally.upserts).value.messages, channelId, tally,
      CommitIds(page.commits), page.commits[n]);
  }

  lemma CommitStands(ms: Messages, mid: Messages, ns: Messages, channelId: Id, tally: Tally, ids: set<Id>,
                     c: ServerCommit)
    requires Covers(ms, channelId, tally, c) && Lists(tally, ids)
    requires AllStand(mid, channelId, tally.acks) && OthersStand(ms, mid, channelId, ServerIds(tally.acks))
    requires AllStand(ns, channelId, tally.upserts) && OthersStand(mid, ns, channelId, ServerIds(tally.upserts))
    ensures Stands(ns, channelId, c.serverId, Numeral(c.pts))
  {
    hide Stands;
    if k :| 0 <= k < |tally.acks| && MadeOf(tally.acks[k], c) {
      assert c.serverId in ServerIds(tally.acks);
    }
  }
}
