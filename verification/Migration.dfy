// The v12 upgrade as a whole: what it conserves, and that it hands the runtime a sound table
// (src/cache/idb-schema.ts:411-644).

module Migration {
  import opened Text
  import opened Records
  import opened CacheTables
  import opened IndexAgreement
  import opened MigrationOrder
  import opened MigrationMove
  import opened MigrationRelink

  datatype Upgraded = Upgraded(tables: Linking, modes: map<Id, OrderMode>)

  /** Only degraded channels get a recorded mode. */
  function ModesAmong(rows: seq<OldRow>, channels: seq<Id>): map<Id, OrderMode>
  {
    map c | c in channels && Degraded(rows, c) :: ByServerId
  }

  function ModesFor(rows: seq<OldRow>): map<Id, OrderMode>
  {
    ModesAmong(rows, ChannelsIn(rows))
  }

  function OutboxOf(commands: seq<Command>): map<Id, Command>
  {
    if commands == [] then map[]
    else OutboxOf(commands[..|commands| - 1])[commands[|commands| - 1].outboxId := commands[|commands| - 1]]
  }

  /** The upgrade transaction; `Err` aborts it. */
  function Upgrade(rows: seq<OldRow>, outbox: map<Id, Command>, commands: seq<Command>, newIds: seq<Id>, now: int)
    : Result<Upgraded, StoreError>
    requires |newIds| == |commands|
  {
    var moved := MoveAll(Ordered(rows));
    if moved.Err? then Err(moved.error)
    else Ok(Upgraded(RelinkAll(Linking(moved.value, outbox), commands, newIds, now), ModesFor(rows)))
  }

  /** What an old database looks like: unique ids, minted ids unused, commands listed once. */
  ghost predicate OldDatabase(rows: seq<OldRow>, outbox: map<Id, Command>, commands: seq<Command>, newIds: seq<Id>)
  {
    && |newIds| == |commands| && DistinctIds(rows) && DistinctCommands(commands)
    && (forall k :: 0 <= k < |commands| ==>
         commands[k].outboxId in outbox && outbox[commands[k].outboxId] == commands[k])
    && (forall x :: x in outbox ==> exists k :: 0 <= k < |commands| && commands[k].outboxId == x)
    && (forall k, r :: 0 <= k < |newIds| && r in rows ==> r.record.id != newIds[k])
    && (forall j, k :: 0 <= j < k < |newIds| ==> newIds[j] != newIds[k])
  }

  // ----- When it aborts -----

  /** A second row stored with an empty network id: the unique index takes "" as a value. */
  ghost predicate TwoEmptyIds(rows: seq<OldRow>)
  {
    exists j, k :: 0 <= j < k < |rows| && EmptyServerId(rows[j]) && EmptyServerId(rows[k])
  }

  lemma TwoEmptyIdsOrdered(rows: seq<OldRow>, t: seq<Numbered>)
    requires DistinctIds(rows) && TwoEmptyIds(rows)
    requires forall r :: r in rows ==> Numbered(r, ModeFor(rows, r.record.channelId)) in t
    ensures !AtMostOneEmptyId(t)
  {
    hide ModeFor, EmptyServerId;
    var j, k :| 0 <= j < k < |rows| && EmptyServerId(rows[j]) && EmptyServerId(rows[k]);
    assert rows[j] in rows && rows[k] in rows && !SameId(rows[j], rows[k]);
    var p :| 0 <= p < |t| && t[p] == Numbered(rows[j], ModeFor(rows, rows[j].record.channelId));
    var q :| 0 <= q < |t| && t[q] == Numbered(rows[k], ModeFor(rows, rows[k].record.channelId));
    assert p < q || q < p;
  }

  lemma OrderedTwoEmptyIds(rows: seq<OldRow>, t: seq<Numbered>)
    requires DistinctNumbered(t) && !AtMostOneEmptyId(t)
    requires forall x :: x in t ==> x.row in rows
    ensures TwoEmptyIds(rows)
  {
    hide EmptyServerId;
    var p, q :| 0 <= p < q < |t| && EmptyServerId(t[p].row) && EmptyServerId(t[q].row);
    assert t[p] in t && t[q] in t;
    var j :| 0 <= j < |rows| && rows[j] == t[p].row;
    var k :| 0 <= k < |rows| && rows[k] == t[q].row;
    assert j < k || k < j;
  }

  lemma EmptyIdsOrdered(rows: seq<OldRow>)
    requires DistinctIds(rows)
    ensures AtMostOneEmptyId(Ordered(rows)) <==> !TwoEmptyIds(rows)
  {
    hide Ordered, ModeFor, EmptyServerId, NumberedInOrder, DistinctIds, DistinctNumbered, TwoEmptyIds, AtMostOneEmptyId;
    OrderedSpec(rows);
    if TwoEmptyIds(rows) {
      TwoEmptyIdsOrdered(rows, Ordered(rows));
    }
    if !AtMostOneEmptyId(Ordered(rows)) {
      OrderedTwoEmptyIds(rows, Ordered(rows));
    }
  }

  lemma UpgradeAbortsExactlyWhen(rows: seq<OldRow>, outbox: map<Id, Command>, commands: seq<Command>, newIds: seq<Id>,
                                 now: int)
    requires OldDatabase(rows, outbox, commands, newIds)
    ensures Upgrade(rows, outbox, commands, newIds, now).Err? <==> TwoEmptyIds(rows)
  {
    hide MoveAll, Ordered, RelinkAll, AtMostOneEmptyId, TwoEmptyIds;
    OrderedSpec(rows);
    EmptyIdsOrdered(rows);
    MoveAllKeeps(Ordered(rows));
  }

  // ----- What a finished upgrade looks like -----

  /** The facts the two loops leave. */
  ghost predicate Finished(rows: seq<OldRow>, outbox: map<Id, Command>, commands: seq<Command>, newIds: seq<Id>,
                           m: Moving, u: Upgraded)
  {
    && MoveAll(Ordered(rows)) == Ok(m)
    && Moved(m, Ordered(rows)) && WellKeyed(m.v2)
    && Relinked(Linking(m, outbox), u.tables, commands, newIds)
    && u.modes == ModesFor(rows)
  }

  lemma MovedWellKeyed(m: Moving, s: seq<Numbered>)
    requires Moved(m, s) && AtMostOneEmptyId(s) && DistinctNumbered(s)
    ensures WellKeyed(m.v2)
  {
    hide NewRow, Fate;
    forall i | i in m.v2
      ensures m.v2[i].record.id == i
    {
      var k :| 0 <= k < |s| && s[k].row.record.id == i && m.v2[i] == NewRow(s[k], k + 1);
      NewRowIs(s[k], k + 1);
    }
    forall i, j, x | i in m.v2 && j in m.v2 && HasServer(m.v2[i], x) && HasServer(m.v2[j], x)
      ensures i == j
    {
      if x == "" {
        var k :| 0 <= k < |s| && s[k].row.record.id == i && m.v2[i] == NewRow(s[k], k + 1);
        var l :| 0 <= l < |s| && s[l].row.record.id == j && m.v2[j] == NewRow(s[l], l + 1);
        NewRowIs(s[k], k + 1);
        NewRowIs(s[l], l + 1);
        assert EmptyServerId(s[k].row) && EmptyServerId(s[l].row);
      }
    }
  }

  lemma UpgradeFinishes(rows: seq<OldRow>, outbox: map<Id, Command>, commands: seq<Command>, newIds: seq<Id>, now: int)
    returns (m: Moving)
    requires OldDatabase(rows, outbox, commands, newIds)
    requires Upgrade(rows, outbox, commands, newIds, now).Ok?
    ensures Finished(rows, outbox, commands, newIds, m, Upgrade(rows, outbox, commands, newIds, now).value)
  {
    hide MoveAll, Ordered, RelinkAll, AtMostOneEmptyId, Moved, WellKeyed, ModesFor, NumberedInOrder, ModeFor;
    var s := Ordered(rows);
    OrderedSpec(rows);
    MoveAllKeeps(s);
    m := MoveAll(s).value;
    MovedWellKeyed(m, s);
    MintedAreNew(rows, outbox, commands, newIds, m);
    RelinkAllKeeps(Linking(m, outbox), commands, newIds, now);
  }

  lemma MintedAreNew(rows: seq<OldRow>, outbox: map<Id, Command>, commands: seq<Command>, newIds: seq<Id>, m: Moving)
    requires OldDatabase(rows, outbox, commands, newIds) && Moved(m, Ordered(rows))
    ensures NewIdsFor(m.v2, newIds)
  {
    hide Ordered, NewRow, Fate, HoldersExact, ModeFor, NumberedInOrder;
    OrderedSpec(rows);
    var s := Ordered(rows);
    forall i | i in m.v2
      ensures exists r :: r in rows && r.record.id == i
    {
      var k :| 0 <= k < |s| && s[k].row.record.id == i && m.v2[i] == NewRow(s[k], k + 1);
      assert s[k] in s;
    }
  }

  // ----- Conservation -----

  /** The message of an old row lives on in row `i`: same network id, same channel. */
  ghost predicate LivesOnIn(v2: Messages, r: OldRow, i: Id)
  {
    i in v2 && v2[i].record.channelId == r.record.channelId && r.record.serverId.Some? &&
      HasServer(v2[i], r.record.serverId.value)
  }

  ghost predicate Kept(v2: Messages, r: OldRow)
  {
    r.record.id in v2 && v2[r.record.id].record == r.record.(orderSeq := v2[r.record.id].record.orderSeq)
  }

  ghost predicate KeptAsEvidence(m: Moving, v2: Messages, r: OldRow)
  {
    && r.record.id in m.quarantine && m.quarantine[r.record.id] == r.record
    && exists i :: i in v2 && r.record.serverId.Some? && HasServer(v2[i], r.record.serverId.value) &&
         v2[i].record.channelId != r.record.channelId
  }

  ghost predicate RowCompleteness(v2: Messages, i: Id, atLeast: nat)
  {
    i in v2 && Completeness(OldRow(v2[i].record, None)) >= atLeast
  }

  /**
   * No message is lost: every old row is stored as it was, merged into a stored row of its own
   * channel and network id that is at least as complete, or quarantined because another channel
   * holds that id. No two stored rows share a network id, and nothing is stored that was neither
   * an old row nor rebuilt from a command.
   */
  lemma UpgradeConserves(rows: seq<OldRow>, outbox: map<Id, Command>, commands: seq<Command>, newIds: seq<Id>,
                         now: int, r: OldRow)
    requires OldDatabase(rows, outbox, commands, newIds) && r in rows
    requires Upgrade(rows, outbox, commands, newIds, now).Ok?
    ensures var m := Upgrade(rows, outbox, commands, newIds, now).value.tables.moved;
            && WellKeyed(m.v2)
            && (|| Kept(m.v2, r)
                || (r.record.id !in m.v2 && exists i ::
                     LivesOnIn(m.v2, r, i) && RowCompleteness(m.v2, i, Completeness(r)))
                || (r.record.id !in m.v2 && KeptAsEvidence(m, m.v2, r)))
  {
    hide Upgrade, Ordered, NewRow, Completeness, ModeFor, NumberedInOrder, Settled, RebuiltApart, ModesFor, Fate, Kept,
      HoldersExact, RowsMoved;
    var m := UpgradeFinishes(rows, outbox, commands, newIds, now);
    var w := Upgrade(rows, outbox, commands, newIds, now).value.tables.moved;
    OrderedSpec(rows);
    var s := Ordered(rows);
    var x := Numbered(r, ModeFor(rows, r.record.channelId));
    assert x in s;
    var k :| 0 <= k < |s| && s[k] == x;
    FateIsConserved(m, w, s, commands, newIds, k);
    assert r.record.id !in newIds;
  }

  lemma FateIsConserved(m: Moving, w: Moving, s: seq<Numbered>, commands: seq<Command>, newIds: seq<Id>, k: nat)
    requires Moved(m, s) && OnlyRebuilt(m, w, commands) && k < |s|
    requires forall i :: i in w.v2 ==> i in m.v2 || i in newIds
    ensures var r := s[k].row;
            || Kept(w.v2, r)
            || (r.record.id !in m.v2 && exists i :: LivesOnIn(w.v2, r, i) && RowCompleteness(w.v2, i, Completeness(r)))
            || (r.record.id !in m.v2 && KeptAsEvidence(w, w.v2, r))
  {
    hide NewRow, Completeness, RebuiltRow;
    var r := s[k].row;
    assert Fate(m, s[k], k + 1);
    if r.record.id in m.v2 {
      KeptRow(s[k], k + 1);
    } else {
      var held := m.holders[r.record.serverId.value];
      var i := held.record.id;
      assert HasServer(w.v2[i], r.record.serverId.value);
      if held.record.channelId == r.record.channelId {
        HolderCompleteness(m, s, r.record.serverId.value);
        assert LivesOnIn(w.v2, r, i) && RowCompleteness(w.v2, i, Completeness(r));
      }
    }
  }

  lemma KeptRow(n: Numbered, seqNo: nat)
    ensures NewRow(n, seqNo).record == n.row.record.(orderSeq := NewRow(n, seqNo).record.orderSeq)
  {
  }

  lemma HolderCompleteness(m: Moving, s: seq<Numbered>, smid: Id)
    requires Moved(m, s) && smid in m.holders
    ensures RowCompleteness(m.v2, m.holders[smid].record.id, Completeness(m.holders[smid]))
  {
    hide NewRow;
    var held := m.holders[smid];
    var j :| 0 <= j < |s| && s[j].row == held;
    assert Fate(m, s[j], j + 1);
    KeptRow(s[j], j + 1);
  }

  // ----- The table is sound for the runtime -----

  lemma ModesAgree(rows: seq<OldRow>, c: Id)
    ensures ModeOf(ModesFor(rows), c) == ModeFor(rows, c)
  {
  }

  lemma StampedUnder(rows: seq<OldRow>, n: Numbered, seqNo: nat)
    requires n.mode == ModeFor(rows, n.row.record.channelId)
    ensures NewRow(n, seqNo) == Stamp(NewRow(n, seqNo).record,
            ModeOf(ModesFor(rows), NewRow(n, seqNo).record.channelId))
  {
  }

  /** Where a stored row came from. */
  ghost predicate Origin(s: seq<Numbered>, commands: seq<Command>, i: Id, row: Stored, high: nat)
  {
    || (exists k :: 0 <= k < |s| && s[k].row.record.id == i && row == NewRow(s[k], k + 1))
    || (exists k, q :: 0 <= k < |commands| && |s| < q <= high && row == RebuiltRow(commands[k], i, q))
  }

  lemma StoredOrigin(m: Moving, w: Moving, s: seq<Numbered>, commands: seq<Command>, i: Id)
    requires Moved(m, s) && OnlyRebuilt(m, w, commands) && i in w.v2
    ensures Origin(s, commands, i, w.v2[i], w.seqNo)
    ensures i !in m.v2 ==> exists k, q ::
            0 <= k < |commands| && |s| < q <= w.seqNo && w.v2[i] == RebuiltRow(commands[k], i, q)
    ensures i in m.v2 ==> exists k :: 0 <= k < |s| && s[k].row.record.id == i && w.v2[i] == NewRow(s[k], k + 1)
  {
  }

  /** Keys and marks are those of the recorded modes; numbers are distinct and bounded by the counter. */
  lemma UpgradeIsSound(rows: seq<OldRow>, outbox: map<Id, Command>, commands: seq<Command>, newIds: seq<Id>, now: int)
    requires OldDatabase(rows, outbox, commands, newIds)
    requires Upgrade(rows, outbox, commands, newIds, now).Ok?
    ensures var u := Upgrade(rows, outbox, commands, newIds, now).value;
            var w := u.tables.moved;
            WellKeyed(w.v2) && KeysAgree(w.v2, u.modes) && SeqsDistinct(w.v2, w.seqNo)
  {
    hide Upgrade, Ordered, Moved, OnlyRebuilt, RebuiltApart, KeysAgree, SeqsDistinct, WellKeyed, ModesFor, Settled;
    var m := UpgradeFinishes(rows, outbox, commands, newIds, now);
    var w := Upgrade(rows, outbox, commands, newIds, now).value.tables.moved;
    OrderedSpec(rows);
    KeysAgreeAfter(rows, m, w, commands);
    SeqsDistinctAfter(m, w, Ordered(rows), commands);
  }

  lemma KeysAgreeAfter(rows: seq<OldRow>, m: Moving, w: Moving, commands: seq<Command>)
    requires Moved(m, Ordered(rows)) && OnlyRebuilt(m, w, commands) && DistinctIds(rows)
    ensures KeysAgree(w.v2, ModesFor(rows))
  {
    hide Moved, OnlyRebuilt, Ordered, NewRow, RebuiltRow, ModesFor, ModeFor, Stamp, NumberedInOrder;
    var s := Ordered(rows);
    OrderedSpec(rows);
    forall i | i in w.v2
      ensures w.v2[i] == Stamp(w.v2[i].record, ModeOf(ModesFor(rows), w.v2[i].record.channelId))
    {
      StoredOrigin(m, w, s, commands, i);
      if k :| 0 <= k < |s| && s[k].row.record.id == i && w.v2[i] == NewRow(s[k], k + 1) {
        assert s[k] in s;
        StampedUnder(rows, s[k], k + 1);
      } else {
        var k, q :| 0 <= k < |commands| && |s| < q <= w.seqNo && w.v2[i] == RebuiltRow(commands[k], i, q);
        RebuiltRowIs(commands[k], i, q);
      }
    }
  }

  lemma NumberOf(m: Moving, w: Moving, s: seq<Numbered>, commands: seq<Command>, i: Id)
    requires Moved(m, s) && OnlyRebuilt(m, w, commands) && i in w.v2
    ensures w.v2[i].record.orderSeq.Some? && w.v2[i].record.orderSeq.value <= w.seqNo
    ensures i in m.v2 <==> w.v2[i].record.orderSeq.value <= |s|
    ensures i in m.v2 ==> w.v2[i].record.orderSeq.value > 0 && s[w.v2[i].record.orderSeq.value - 1].row.record.id == i
    ensures i in m.v2 ==> w.v2[i] == NewRow(s[w.v2[i].record.orderSeq.value - 1], w.v2[i].record.orderSeq.value)
  {
  }

  lemma SeqsDistinctAfter(m: Moving, w: Moving, s: seq<Numbered>, commands: seq<Command>)
    requires Moved(m, s) && OnlyRebuilt(m, w, commands) && RebuiltApart(m, w) && DistinctNumbered(s)
    ensures SeqsDistinct(w.v2, w.seqNo)
  {
    hide Moved, OnlyRebuilt, NewRow;
    forall i, j | i in w.v2 && j in w.v2 && w.v2[i].record.orderSeq == w.v2[j].record.orderSeq
      ensures i == j
    {
      NumberOf(m, w, s, commands, i);
      NumberOf(m, w, s, commands, j);
    }
    forall i | i in w.v2
      ensures w.v2[i].record.orderSeq.Some? && w.v2[i].record.orderSeq.value <= w.seqNo
    {
      NumberOf(m, w, s, commands, i);
    }
  }
}
