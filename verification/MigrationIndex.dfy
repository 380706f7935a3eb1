// The v12 upgrade and the display index: numbering agrees with the keys, and every command is
// settled (src/cache/idb-schema.ts:427-643).

module MigrationIndex {
  import opened Text
  import opened Records
  import opened CacheTables
  import opened IndexAgreement
  import opened MigrationOrder
  import opened MigrationMove
  import opened MigrationRelink
  import opened MigrationKeepers
  import opened Migration

  // ----- Numbering follows the keys -----

  /** Ids and pts are u64 numerals, no id is "0", and a pending row has no pts. */
  ghost predicate TameRow(record: Record)
  {
    && FitsWidth(record.serverId) && FitsWidth(record.pts) && record.serverId != Some("0")
    && (record.serverId in {None, Some("")} ==> ColumnNumber(record.pts) == 0)
  }

  ghost predicate Tame(rows: seq<OldRow>)
  {
    forall r :: r in rows ==> TameRow(r.record)
  }

  const COUNTER_LIMIT := 100000000000000000000

  lemma OrderIsRank(mode: OrderMode, a: Record, b: Record)
    requires TameRow(a) && TameRow(b) && a.orderSeq.Some? && b.orderSeq.Some?
    requires a.orderSeq.value < b.orderSeq.value < COUNTER_LIMIT
    requires var (x, y) := (OldRow(a, None), OldRow(b, None));
             (IsConfirmed(y) ==> IsConfirmed(x) && !ConfirmedBefore(mode, y, x))
    ensures RankLess(RankOf(a, mode), RankOf(b, mode))
  {
    hide EncodeSortKey;
    EncodeOrder(a.serverId, b.serverId);
    EncodeOrder(b.serverId, a.serverId);
    EncodeOrder(b.pts, a.pts);
    ColumnsOrdered(b.pts, a.pts, b.pts);
    if a.serverId == Some("") {
      assert ColumnNumber(a.serverId) == 0;
    }
    if b.serverId == Some("") {
      assert ColumnNumber(b.serverId) == 0;
    }
  }

  lemma KeysFollow(mode: OrderMode, x: Stored, y: Stored)
    requires TameRow(x.record) && TameRow(y.record) && x.record.orderSeq.Some? && y.record.orderSeq.Some?
    requires x.record.orderSeq.value < y.record.orderSeq.value < COUNTER_LIMIT
    requires x == Stamp(x.record, mode) && y == Stamp(y.record, mode)
    requires var (a, b) := (OldRow(x.record, None), OldRow(y.record, None));
             (IsConfirmed(b) ==> IsConfirmed(a) && !ConfirmedBefore(mode, b, a))
    ensures Less(x.sortKey, y.sortKey) && !Less(y.sortKey, x.sortKey)
  {
    hide DisplaySortKey, RankLess, RankOf, ConfirmedBefore, TameRow;
    assert Keyable(x.record) && Keyable(y.record) by {
      TameKeyable(x.record);
      TameKeyable(y.record);
    }
    OrderIsRank(mode, x.record, y.record);
    DisplayOrderIsNumeric(x.record, y.record, mode);
    LessAsymmetric(x.sortKey, y.sortKey);
  }

  lemma TameKeyable(record: Record)
    requires TameRow(record) && record.orderSeq.Some? && record.orderSeq.value < COUNTER_LIMIT
    ensures Keyable(record)
  {
  }

  /** Two stored rows of a channel, the first numbered lower: may they follow each other? */
  lemma NumberedFollows(m: Moving, w: Moving, rows: seq<OldRow>, commands: seq<Command>, i: Id, j: Id)
    requires DistinctIds(rows) && Tame(rows)
    requires Moved(m, Ordered(rows)) && OnlyRebuilt(m, w, commands)
    requires i in w.v2 && j in w.v2 && w.v2[i].record.channelId == w.v2[j].record.channelId
    requires w.v2[i].record.orderSeq.Some? && w.v2[j].record.orderSeq.Some?
    requires w.v2[i].record.orderSeq.value < w.v2[j].record.orderSeq.value
    ensures TameRow(w.v2[i].record) && TameRow(w.v2[j].record)
    ensures var (a, b) := (OldRow(w.v2[i].record, None), OldRow(w.v2[j].record, None));
            IsConfirmed(b) ==> IsConfirmed(a) && !ConfirmedBefore(ModeFor(rows, a.record.channelId), b, a)
  {
    hide Ordered, Moved, OnlyRebuilt, NewRow, RebuiltRow, ModeFor, TameRow, PendingBefore;
    var s := Ordered(rows);
    OrderedSpec(rows);
    NumberOf(m, w, s, commands, i);
    NumberOf(m, w, s, commands, j);
    StoredIsTame(m, w, rows, commands, i);
    StoredIsTame(m, w, rows, commands, j);
    if j in m.v2 {
      var k, l := w.v2[i].record.orderSeq.value - 1, w.v2[j].record.orderSeq.value - 1;
      NewRowIs(s[k], k + 1);
      NewRowIs(s[l], l + 1);
      KeptRow(s[k], k + 1);
      KeptRow(s[l], l + 1);
      assert s[l] in s;
      assert MayPrecede(s[l].mode, s[k].row, s[l].row);
    } else {
      StoredOrigin(m, w, s, commands, j);
      var k, q :| 0 <= k < |commands| && |s| < q <= w.seqNo && w.v2[j] == RebuiltRow(commands[k], j, q);
      RebuiltRowIs(commands[k], j, q);
    }
  }

  lemma StoredIsTame(m: Moving, w: Moving, rows: seq<OldRow>, commands: seq<Command>, i: Id)
    requires DistinctIds(rows) && Tame(rows) && Moved(m, Ordered(rows)) && OnlyRebuilt(m, w, commands) && i in w.v2
    ensures TameRow(w.v2[i].record)
  {
    hide Ordered, Moved, OnlyRebuilt, NewRow, RebuiltRow, ModeFor, NumberedInOrder;
    var s := Ordered(rows);
    OrderedSpec(rows);
    StoredOrigin(m, w, s, commands, i);
    if k :| 0 <= k < |s| && s[k].row.record.id == i && w.v2[i] == NewRow(s[k], k + 1) {
      assert s[k] in s;
      KeptRow(s[k], k + 1);
    } else {
      var k, q :| 0 <= k < |commands| && |s| < q <= w.seqNo && w.v2[i] == RebuiltRow(commands[k], i, q);
      RebuiltRowIs(commands[k], i, q);
    }
  }

  /** Within a channel, the number order is the key order. */
  lemma UpgradeNumbersInKeyOrder(rows: seq<OldRow>, outbox: map<Id, Command>, commands: seq<Command>, newIds: seq<Id>,
                                 now: int,
                                 i: Id, j: Id)
    requires OldDatabase(rows, outbox, commands, newIds) && Tame(rows)
    requires Upgrade(rows, outbox, commands, newIds, now).Ok?
    requires var w := Upgrade(rows, outbox, commands, newIds, now).value.tables.moved;
             && w.seqNo < COUNTER_LIMIT
             && i in w.v2 && j in w.v2 && w.v2[i].record.channelId == w.v2[j].record.channelId
    ensures var w := Upgrade(rows, outbox, commands, newIds, now).value.tables.moved;
            && w.v2[i].record.orderSeq.Some? && w.v2[j].record.orderSeq.Some?
            && (w.v2[i].record.orderSeq.value < w.v2[j].record.orderSeq.value <==>
                 Less(w.v2[i].sortKey, w.v2[j].sortKey))
  {
    hide Upgrade, Ordered, Moved, OnlyRebuilt, RebuiltApart, Settled, Tame, TameRow, ModesFor, ModeFor,
      ConfirmedBefore, Stamp, WellKeyed;
    var u := Upgrade(rows, outbox, commands, newIds, now).value;
    var w := u.tables.moved;
    var m := UpgradeFinishes(rows, outbox, commands, newIds, now);
    UpgradeIsSound(rows, outbox, commands, newIds, now);
    var c := w.v2[i].record.channelId;
    ModesAgree(rows, c);
    if w.v2[i].record.orderSeq.value < w.v2[j].record.orderSeq.value {
      NumberedFollows(m, w, rows, commands, i, j);
      KeysFollow(ModeFor(rows, c), w.v2[i], w.v2[j]);
    } else if i != j {
      NumberedFollows(m, w, rows, commands, j, i);
      KeysFollow(ModeFor(rows, c), w.v2[j], w.v2[i]);
    } else {
      LessIrreflexive(w.v2[i].sortKey);
    }
  }

  // ----- Where they part -----

  predicate Numerals(r: OldRow)
  {
    FitsWidth(r.record.serverId) && FitsWidth(r.record.pts)
  }

  /** Where the keys put an old row, its number aside. */
  function PlaceOf(r: OldRow, mode: OrderMode): Rank
    requires Numerals(r)
  {
    RankOf(r.record.(orderSeq := None), mode)
  }

  /** A row the upgrade kept was moved, not rebuilt: it has the number of its turn. */
  lemma KeptNumber(rows: seq<OldRow>, m: Moving, w: Moving, commands: seq<Command>, r: OldRow) returns (k: nat)
    requires DistinctIds(rows) && Moved(m, Ordered(rows)) && OnlyRebuilt(m, w, commands)
    requires r in rows && Kept(w.v2, r)
    ensures k < |Ordered(rows)| && Ordered(rows)[k] == Numbered(r, ModeFor(rows, r.record.channelId))
    ensures w.v2[r.record.id].record == r.record.(orderSeq := Some(k + 1)) && k + 1 <= w.seqNo
  {
    hide Ordered, OnlyRebuilt, NewRow, RebuiltRow, ModeFor, NumberedInOrder, HoldersExact, RowsMoved;
    var s := Ordered(rows);
    OrderedSpec(rows);
    k :| k < |s| && s[k] == Numbered(r, ModeFor(rows, r.record.channelId));
    assert Fate(m, s[k], k + 1);
    if r.record.id !in m.v2 {
      StoredOrigin(m, w, s, commands, r.record.id);
      var id := r.record.id;
      var l, q :| 0 <= l < |commands| && |s| < q <= w.seqNo && w.v2[id] == RebuiltRow(commands[l], id, q);
      RebuiltRowIs(commands[l], id, q);
      assert false;
    }
    NumberOf(m, w, s, commands, r.record.id);
    NewRowIs(s[k], k + 1);
    KeptRow(s[k], k + 1);
  }

  /**
   * Of two kept rows, the one the upgrade's comparator puts first has the lower number; it has the
   * lower key exactly when the key columns do not put the other first.
   */
  lemma NumberAndKeyAgreeExactlyWhen(rows: seq<OldRow>, outbox: map<Id, Command>, commands: seq<Command>,
                                     newIds: seq<Id>, now: int, a: OldRow, b: OldRow)
    requires OldDatabase(rows, outbox, commands, newIds)
    requires Upgrade(rows, outbox, commands, newIds, now).Ok?
    requires var w := Upgrade(rows, outbox, commands, newIds, now).value.tables.moved;
             w.seqNo < COUNTER_LIMIT && Kept(w.v2, a) && Kept(w.v2, b)
    requires a in rows && b in rows && a.record.channelId == b.record.channelId && Numerals(a) && Numerals(b)
    requires !MayPrecede(ModeFor(rows, a.record.channelId), b, a)
    ensures var v2 := Upgrade(rows, outbox, commands, newIds, now).value.tables.moved.v2;
            var (x, y) := (v2[a.record.id], v2[b.record.id]);
            var mode := ModeFor(rows, a.record.channelId);
            && x.record.orderSeq.Some? && y.record.orderSeq.Some?
            && x.record.orderSeq.value < y.record.orderSeq.value
            && (Less(x.sortKey, y.sortKey) <==> !RankLess(PlaceOf(b, mode), PlaceOf(a, mode)))
  {
    hide Upgrade, Ordered, Moved, OnlyRebuilt, RebuiltApart, Settled, ModesFor, ModeFor, MayPrecede, Stamp, WellKeyed,
      DisplaySortKey, Less, FitsWidth, ColumnNumber, SeqsDistinct, DistinctIds;
    var w := Upgrade(rows, outbox, commands, newIds, now).value.tables.moved;
    var m := UpgradeFinishes(rows, outbox, commands, newIds, now);
    UpgradeIsSound(rows, outbox, commands, newIds, now);
    OrderedSpec(rows);
    ModesAgree(rows, a.record.channelId);
    var k := KeptNumber(rows, m, w, commands, a);
    var l := KeptNumber(rows, m, w, commands, b);
    SameRowMayPrecede(ModeFor(rows, a.record.channelId), a);
    KeysCompare(a, b, k + 1, l + 1, ModeFor(rows, a.record.channelId));
    var (x, y) := (w.v2[a.record.id], w.v2[b.record.id]);
    StampedKey(x, ModeFor(rows, a.record.channelId));
    StampedKey(y, ModeFor(rows, a.record.channelId));
  }

  lemma StampedKey(x: Stored, mode: OrderMode)
    requires x == Stamp(x.record, mode)
    ensures x.sortKey == DisplaySortKey(x.record, mode)
  {
  }

  lemma SameRowMayPrecede(mode: OrderMode, a: OldRow)
    ensures MayPrecede(mode, a, a)
  {
    hide EncodeSortKey, Less;
    ColumnsOrdered(a.record.pts, a.record.pts, a.record.pts);
    ColumnsOrdered(a.record.serverId, a.record.serverId, a.record.serverId);
    TextOrdered(a.record.id, a.record.id, a.record.id);
  }

  lemma KeysCompare(a: OldRow, b: OldRow, p: nat, q: nat, mode: OrderMode)
    requires Numerals(a) && Numerals(b) && p < q < COUNTER_LIMIT
    ensures var (x, y) := (a.record.(orderSeq := Some(p)), b.record.(orderSeq := Some(q)));
            Less(DisplaySortKey(x, mode), DisplaySortKey(y, mode)) <==> !RankLess(PlaceOf(b, mode), PlaceOf(a, mode))
  {
    hide DisplaySortKey, Less, FitsWidth, ColumnNumber;
    DisplayOrderIsNumeric(a.record.(orderSeq := Some(p)), b.record.(orderSeq := Some(q)), mode);
  }

  /** A confirmed row with id "0" and no pts is numbered before the other ids but keyed after them. */
  lemma ZeroIdMisorders(rows: seq<OldRow>, outbox: map<Id, Command>, commands: seq<Command>, newIds: seq<Id>,
                        now: int, a: OldRow, b: OldRow)
    requires OldDatabase(rows, outbox, commands, newIds)
    requires Upgrade(rows, outbox, commands, newIds, now).Ok?
    requires var w := Upgrade(rows, outbox, commands, newIds, now).value.tables.moved;
             w.seqNo < COUNTER_LIMIT && Kept(w.v2, a) && Kept(w.v2, b)
    requires a in rows && b in rows && a.record.channelId == b.record.channelId && Numerals(a) && Numerals(b)
    requires a.record.serverId == Some("0") && LacksPts(a) && IsConfirmed(b) && ColumnNumber(b.record.serverId) > 0
    ensures var v2 := Upgrade(rows, outbox, commands, newIds, now).value.tables.moved.v2;
            var (x, y) := (v2[a.record.id], v2[b.record.id]);
            && x.record.orderSeq.Some? && y.record.orderSeq.Some?
            && x.record.orderSeq.value < y.record.orderSeq.value && !Less(x.sortKey, y.sortKey)
  {
    hide Upgrade, OldDatabase, Kept, EncodeSortKey, Less;
    var k :| 0 <= k < |rows| && rows[k] == a;
    EncodeOrder(a.record.serverId, b.record.serverId);
    NumberAndKeyAgreeExactlyWhen(rows, outbox, commands, newIds, now, a, b);
  }

  /** Two pending rows with pts, in a channel in pts order: numbered by time, keyed by pts. */
  lemma PendingPtsMisorder(rows: seq<OldRow>, outbox: map<Id, Command>, commands: seq<Command>, newIds: seq<Id>,
                           now: int, a: OldRow, b: OldRow)
    requires OldDatabase(rows, outbox, commands, newIds)
    requires Upgrade(rows, outbox, commands, newIds, now).Ok?
    requires var w := Upgrade(rows, outbox, commands, newIds, now).value.tables.moved;
             w.seqNo < COUNTER_LIMIT && Kept(w.v2, a) && Kept(w.v2, b)
    requires a in rows && b in rows && a.record.channelId == b.record.channelId && Numerals(a) && Numerals(b)
    requires a.record.serverId == None && b.record.serverId == None && a.record.timestamp < b.record.timestamp
    requires !Degraded(rows, a.record.channelId) && ColumnNumber(b.record.pts) < ColumnNumber(a.record.pts)
    ensures var v2 := Upgrade(rows, outbox, commands, newIds, now).value.tables.moved.v2;
            var (x, y) := (v2[a.record.id], v2[b.record.id]);
            && x.record.orderSeq.Some? && y.record.orderSeq.Some?
            && x.record.orderSeq.value < y.record.orderSeq.value && !Less(x.sortKey, y.sortKey)
  {
    hide Upgrade, OldDatabase, Kept, EncodeSortKey, Less;
    NumberAndKeyAgreeExactlyWhen(rows, outbox, commands, newIds, now, a, b);
  }

  // ----- Gap rows degrade their channel, but for pts "0" -----

  /** A stored row that says pts "0": a gap to the runtime, complete to the upgrade. */
  ghost predicate ZeroPts(record: Record)
  {
    record.serverId !in {None, Some(""), Some("0")} && record.pts == Some("0")
  }

  ghost predicate GapRowsDegrade(v2: Messages, modes: map<Id, OrderMode>)
  {
    forall i :: i in v2 && v2[i].ptsGap ==> ModeOf(modes, v2[i].record.channelId) == ByServerId
  }

  /** An old row the upgrade keeps, saying pts "0", in a channel nothing degrades. */
  ghost predicate ZeroPtsKept(rows: seq<OldRow>)
  {
    exists k: nat :: k < |Ordered(rows)| && Keeper(Ordered(rows), k) && ZeroPts(Ordered(rows)[k].row.record) &&
      !Degraded(rows, Ordered(rows)[k].row.record.channelId)
  }

  /** Kept rows are the stored ones that say pts "0": the same question, before and after. */
  lemma ZeroPtsStored(rows: seq<OldRow>, m: Moving, w: Moving, commands: seq<Command>)
    requires DistinctIds(rows) && MoveAll(Ordered(rows)) == Ok(m)
    requires Moved(m, Ordered(rows)) && OnlyRebuilt(m, w, commands)
    ensures ZeroPtsKept(rows) <==>
              exists i :: i in w.v2 && ZeroPts(w.v2[i].record) && !Degraded(rows, w.v2[i].record.channelId)
  {
    hide MoveAll, Ordered, Moved, OnlyRebuilt, Degraded, Keeper, NewRow, RebuiltRow, HoldersKeep, ModeFor,
      NumberedInOrder;
    var s := Ordered(rows);
    OrderedSpec(rows);
    MoveAllKeepers(s);
    if ZeroPtsKept(rows) {
      var k: nat :| k < |s| && Keeper(s, k) && ZeroPts(s[k].row.record) && !Degraded(rows, s[k].row.record.channelId);
      StoredExactlyWhen(m, s, k);
      StoredAsNumbered(m, w, s, commands, k);
      KeptRow(s[k], k + 1);
    }
    if i :| i in w.v2 && ZeroPts(w.v2[i].record) && !Degraded(rows, w.v2[i].record.channelId) {
      StoredOrigin(m, w, s, commands, i);
      if i in m.v2 {
        var k :| 0 <= k < |s| && s[k].row.record.id == i && w.v2[i] == NewRow(s[k], k + 1);
        KeptRow(s[k], k + 1);
        StoredExactlyWhen(m, s, k);
      } else {
        var k, q :| 0 <= k < |commands| && |s| < q <= w.seqNo && w.v2[i] == RebuiltRow(commands[k], i, q);
        RebuiltRowIs(commands[k], i, q);
      }
    }
  }

  lemma StoredAsNumbered(m: Moving, w: Moving, s: seq<Numbered>, commands: seq<Command>, k: nat)
    requires Moved(m, s) && OnlyRebuilt(m, w, commands) && k < |s| && s[k].row.record.id in m.v2
    ensures s[k].row.record.id in w.v2 && w.v2[s[k].row.record.id] == NewRow(s[k], k + 1)
  {
    hide NewRow, RebuiltRow, HoldersExact, RowsMoved;
    assert Fate(m, s[k], k + 1);
  }

  /**
   * The runtime's rule that a gap row puts its channel in server-id order holds after the upgrade
   * exactly when, among the old rows, no network id's kept row says pts "0" in a channel that no
   * row without pts degrades.
   */
  lemma UpgradeDegradesExactlyWhen(rows: seq<OldRow>, outbox: map<Id, Command>, commands: seq<Command>,
                                   newIds: seq<Id>, now: int)
    requires OldDatabase(rows, outbox, commands, newIds)
    requires Upgrade(rows, outbox, commands, newIds, now).Ok?
    ensures var u := Upgrade(rows, outbox, commands, newIds, now).value;
            GapRowsDegrade(u.tables.moved.v2, u.modes) <==> !ZeroPtsKept(rows)
  {
    hide Upgrade, Ordered, Moved, OnlyRebuilt, RebuiltApart, Settled, ModesFor, Degraded, DisplaySortKey, WellKeyed,
      SeqsDistinct, ZeroPtsKept;
    var u := Upgrade(rows, outbox, commands, newIds, now).value;
    var w := u.tables.moved;
    var m := UpgradeFinishes(rows, outbox, commands, newIds, now);
    UpgradeIsSound(rows, outbox, commands, newIds, now);
    ZeroPtsStored(rows, m, w, commands);
    forall i | i in w.v2
      ensures w.v2[i].ptsGap ==> ZeroPts(w.v2[i].record) || Degraded(rows, w.v2[i].record.channelId)
      ensures ZeroPts(w.v2[i].record) ==> w.v2[i].ptsGap
      ensures ModeOf(u.modes, w.v2[i].record.channelId) == ByServerId <==> Degraded(rows, w.v2[i].record.channelId)
    {
      ModesAgree(rows, w.v2[i].record.channelId);
      GapWithoutPtsDegrades(m, w, rows, commands, i);
    }
  }

  lemma GapWithoutPtsDegrades(m: Moving, w: Moving, rows: seq<OldRow>, commands: seq<Command>, i: Id)
    requires DistinctIds(rows) && Moved(m, Ordered(rows)) && OnlyRebuilt(m, w, commands) && i in w.v2
    ensures HasPtsGap(w.v2[i].record) && !ZeroPts(w.v2[i].record) ==> Degraded(rows, w.v2[i].record.channelId)
  {
    hide Ordered, Moved, OnlyRebuilt, NewRow, RebuiltRow, ModeFor, NumberedInOrder;
    var s := Ordered(rows);
    OrderedSpec(rows);
    StoredOrigin(m, w, s, commands, i);
    if k :| 0 <= k < |s| && s[k].row.record.id == i && w.v2[i] == NewRow(s[k], k + 1) {
      assert s[k] in s;
      KeptRow(s[k], k + 1);
      var j :| 0 <= j < |rows| && rows[j] == s[k].row;
    } else {
      var k, q :| 0 <= k < |commands| && |s| < q <= w.seqNo && w.v2[i] == RebuiltRow(commands[k], i, q);
      RebuiltRowIs(commands[k], i, q);
    }
  }

  /**
   * The upgrade hands over a sound database, the one every runtime operation keeps sound, exactly
   * when no kept old row says pts "0" in a channel that nothing else degrades.
   */
  lemma UpgradeHandsOverSoundTables(rows: seq<OldRow>, outbox: map<Id, Command>, commands: seq<Command>,
                                    newIds: seq<Id>, now: int,
                                    t: Tables)
    requires OldDatabase(rows, outbox, commands, newIds)
    requires Upgrade(rows, outbox, commands, newIds, now).Ok?
    requires var u := Upgrade(rows, outbox, commands, newIds, now).value;
             t.messages == u.tables.moved.v2 && t.orderModes == u.modes && t.orderSeq == u.tables.moved.seqNo
    ensures Sound(t) <==> !ZeroPtsKept(rows)
  {
    hide Upgrade, OldDatabase, KeysAgree, WellKeyed, SeqsDistinct, ZeroPtsKept;
    UpgradeIsSound(rows, outbox, commands, newIds, now);
    UpgradeDegradesExactlyWhen(rows, outbox, commands, newIds, now);
  }

  // ----- Every command is settled -----

  /**
   * Every command comes out linked to a row of its own channel and local id, or marked
   * unrecoverable with no link; none is lost and none is added.
   */
  lemma UpgradeRelinks(rows: seq<OldRow>, outbox: map<Id, Command>, commands: seq<Command>, newIds: seq<Id>, now: int,
                       x: Id)
    requires OldDatabase(rows, outbox, commands, newIds)
    requires Upgrade(rows, outbox, commands, newIds, now).Ok?
    ensures var t := Upgrade(rows, outbox, commands, newIds, now).value.tables;
            && (x in t.outbox <==> x in outbox)
            && (x in outbox ==> Settled(t.moved.v2, outbox[x], t.outbox[x]))
  {
    hide Upgrade, Ordered, Moved, OnlyRebuilt, RebuiltApart, Settled, ModesFor, WellKeyed;
    var m := UpgradeFinishes(rows, outbox, commands, newIds, now);
    if x in outbox {
      var k :| 0 <= k < |commands| && commands[k].outboxId == x;
    }
  }

  // ----- What a merge can lose -----

  /**
   * The kept row of a merge keeps its own local id only. When the row that carries the send's
   * local id lacks pts and its duplicate has pts but no local id, the duplicate wins, the send's
   * command finds no row, and a text command gets a second, pending row: the send is queued again.
   */
  lemma MergeCanQueueASendAgain(h: OldRow, r: OldRow, mode: OrderMode, c: Command, outbox: map<Id, Command>, newId: Id,
                                now: int)
    requires h.record.id != r.record.id && h.record.channelId == r.record.channelId == c.channelId
    requires IsConfirmed(h) && h.record.serverId == r.record.serverId
    requires c.localId.Some? && h.record.localId == c.localId && r.record.localId == None
    requires LacksPts(h) && !LacksPts(r)
    requires c.messageId == Some(h.record.id) && IsRebuildable(c.contentType)
    requires newId !in {h.record.id, r.record.id}
    ensures var s := [Numbered(h, mode), Numbered(r, mode)];
            && MoveAll(s).Ok?
            && var t := RelinkOne(Linking(MoveAll(s).value, outbox), c, newId, now);
               && t.moved.v2.Keys == {r.record.id, newId}
               && t.moved.v2[r.record.id].record.serverId == h.record.serverId
               && t.moved.v2[newId].record.status == Pending && t.moved.v2[newId].record.localId == h.record.localId
  {
    hide DisplaySortKey, First, Moved, RebuiltRow;
    var s := [Numbered(h, mode), Numbered(r, mode)];
    assert s[..1] == [s[0]] && s[..1][..0] == [];
    MoveAllKeeps(s);
    var m := MoveAll(s).value;
    TwoRowsMerge(s);
    MovedWellKeyed(m, s);
    ResolvedNeedsRow(m, c);
    RebuiltRowIs(c, newId, m.seqNo + 1);
  }

  lemma TwoRowsMerge(s: seq<Numbered>)
    requires |s| == 2 && s[0].row.record.id != s[1].row.record.id &&
             s[0].row.record.channelId == s[1].row.record.channelId
    requires IsConfirmed(s[0].row) && s[0].row.record.serverId == s[1].row.record.serverId
    requires Completeness(s[1].row) > Completeness(s[0].row)
    requires MoveAll(s).Ok?
    ensures MoveAll(s).value.v2 == map[s[1].row.record.id := NewRow(s[1], 2)]
  {
    hide DisplaySortKey, Completeness;
    assert MoveAll(s[..0]) == Ok(NOTHING_MOVED);
    assert s[..1][..0] == s[..0];
    assert MoveAll(s[..1]) == MoveOne(NOTHING_MOVED, s[0]);
    assert MoveAll(s) == MoveOne(MoveAll(s[..1]).value, s[1]);
  }

  lemma ResolvedNeedsRow(m: Moving, c: Command)
    requires WellKeyed(m.v2) && c.localId.Some?
    requires forall i :: i in m.v2 ==> m.v2[i].record.localId != c.localId
    ensures Resolve(m, c).None?
  {
  }
}
