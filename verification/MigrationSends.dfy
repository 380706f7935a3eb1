// When the upgrade queues a send a second time (src/cache/idb-schema.ts:510-627).

module MigrationSends {
  import opened Text
  import opened Records
  import opened CacheTables
  import opened MigrationOrder
  import opened MigrationMove
  import opened MigrationRelink
  import opened MigrationKeepers
  import opened Migration
  import opened MigrationIndex

  /** The outbox index on local ids is unique. */
  ghost predicate UniqueSends(commands: seq<Command>)
  {
    forall j, k :: 0 <= j < k < |commands| && commands[j].localId.Some? ==> commands[j].localId != commands[k].localId
  }

  /** The row is of this command's send. */
  predicate OfSend(record: Record, c: Command)
  {
    c.localId.Some? && record.channelId == c.channelId && record.localId == c.localId
  }

  // ----- What becomes of one command -----

  /** A command is settled in its own turn; the others do not touch it. */
  lemma {:induction false} RelinkedInTurn(t: Linking, commands: seq<Command>, newIds: seq<Id>, now: int, k: nat)
    requires |newIds| == |commands| && DistinctCommands(commands) && k < |commands|
    ensures var u := RelinkAll(t, commands[..k], newIds[..k], now);
            var id := commands[k].outboxId;
            && id in RelinkAll(t, commands, newIds, now).outbox
            && RelinkAll(t, commands, newIds, now).outbox[id] == RelinkOne(u, commands[k], newIds[k], now).outbox[id]
    decreases |commands|
  {
    hide Resolve, RebuiltRow, LostError;
    var n := |commands| - 1;
    if k < n {
      RelinkedInTurn(t, commands[..n], newIds[..n], now, k);
      assert commands[..n][..k] == commands[..k] && newIds[..n][..k] == newIds[..k];
    }
  }

  /** No rebuilt row of another command is of this send. */
  lemma OnlyOldRowsOfSend(m: Moving, w: Moving, commands: seq<Command>, k: nat)
    requires UniqueSends(commands) && k < |commands| && OnlyRebuilt(m, w, commands[..k])
    ensures forall i :: i in w.v2 && OfSend(w.v2[i].record, commands[k]) ==> i in m.v2
  {
    hide RebuiltRow;
    forall i | i in w.v2 && OfSend(w.v2[i].record, commands[k])
      ensures i in m.v2
    {
      if i !in m.v2 {
        var j, q :| 0 <= j < k && m.seqNo < q <= w.seqNo && w.v2[i] == RebuiltRow(commands[..k][j], i, q);
        RebuiltRowIs(commands[j], i, q);
        assert false;
      }
    }
  }

  /** The command comes out linked to a row that was not in the old table. */
  ghost predicate LinkedAnew(m: Moving, d: Command)
  {
    d.messageId.Some? && d.messageId.value !in m.v2
  }

  /** A command gets a new row exactly when it can be rebuilt and no stored row is of its send. */
  lemma LinkedAnewExactlyWhen(t: Linking, commands: seq<Command>, newIds: seq<Id>, now: int, k: nat)
    requires |newIds| == |commands| && WellKeyed(t.moved.v2) && NewIdsFor(t.moved.v2, newIds)
    requires DistinctCommands(commands) && UniqueSends(commands) && k < |commands| && commands[k].localId.Some?
    ensures var c := commands[k];
            var w := RelinkAll(t, commands, newIds, now);
            && c.outboxId in w.outbox
            && (LinkedAnew(t.moved, w.outbox[c.outboxId]) <==>
                  IsRebuildable(c.contentType) && forall i :: i in t.moved.v2 ==> !OfSend(t.moved.v2[i].record, c))
  {
    hide RelinkAll, Resolve, RebuiltRow, LostError, IsRebuildable, WellKeyed, RebuiltApart, Settled;
    var c := commands[k];
    var u := RelinkAll(t, commands[..k], newIds[..k], now);
    PrefixFits(t.moved.v2, commands, newIds, k);
    RelinkedInTurn(t, commands, newIds, now, k);
    RelinkAllKeeps(t, commands[..k], newIds[..k], now);
    ResolvedOwns(u.moved, c);
    OnlyOldRowsOfSend(t.moved, u.moved, commands, k);
    if i :| i in t.moved.v2 && OfSend(t.moved.v2[i].record, c) {
      assert HasLocal(u.moved.v2[i], c.channelId, c.localId.value);
    }
  }

  lemma PrefixFits(v2: Messages, commands: seq<Command>, newIds: seq<Id>, k: nat)
    requires |newIds| == |commands| && k < |commands| && NewIdsFor(v2, newIds) && DistinctCommands(commands)
    ensures NewIdsFor(v2, newIds[..k]) && DistinctCommands(commands[..k]) && newIds[k] !in v2
  {
  }

  // ----- The same, read off the old table -----

  /** An old row of the send survives the merge. */
  ghost predicate SendSurvives(rows: seq<OldRow>, c: Command)
  {
    var s := Ordered(rows);
    exists n: nat :: n < |s| && OfSend(s[n].row.record, c) && (!IsConfirmed(s[n].row) || Keeper(s, n))
  }

  /** An old row of the send was merged: its message lives on in a kept row of its channel. */
  ghost predicate SendMerged(rows: seq<OldRow>, c: Command)
  {
    var s := Ordered(rows);
    exists n: nat, k: nat ::
      n < |s| && k < |s| && OfSend(s[n].row.record, c) && Keeper(s, k) && Rivals(s[k].row, s[n].row) &&
      s[k].row.record.channelId == s[n].row.record.channelId
  }

  /** The command is linked to a new pending row although the message of its send is stored. */
  ghost predicate QueuedAgain(rows: seq<OldRow>, w: Linking, c: Command)
  {
    && c.outboxId in w.outbox && w.outbox[c.outboxId].messageId.Some?
    && var x := w.outbox[c.outboxId].messageId.value;
       && x in w.moved.v2 && w.moved.v2[x].record.status == Pending && OfSend(w.moved.v2[x].record, c)
       && (forall r :: r in rows ==> r.record.id != x)
       && exists r, i :: r in rows && OfSend(r.record, c) && LivesOnIn(w.moved.v2, r, i)
  }

  lemma SurvivesStored(rows: seq<OldRow>, m: Moving, c: Command)
    requires DistinctIds(rows) && MoveAll(Ordered(rows)) == Ok(m) && Moved(m, Ordered(rows))
    ensures SendSurvives(rows, c) <==> exists i :: i in m.v2 && OfSend(m.v2[i].record, c)
  {
    hide MoveAll, Ordered, Moved, Keeper, NewRow, HoldersKeep, ModeFor, NumberedInOrder;
    var s := Ordered(rows);
    OrderedSpec(rows);
    MoveAllKeepers(s);
    if SendSurvives(rows, c) {
      var n: nat :| n < |s| && OfSend(s[n].row.record, c) && (!IsConfirmed(s[n].row) || Keeper(s, n));
      StoredExactlyWhen(m, s, n);
      StoredRow(m, s, n);
      NewRowIs(s[n], n + 1);
    }
    if i :| i in m.v2 && OfSend(m.v2[i].record, c) {
      RowComesFrom(m, s, i);
      var n :| 0 <= n < |s| && s[n].row.record.id == i && m.v2[i] == NewRow(s[n], n + 1);
      NewRowIs(s[n], n + 1);
      StoredExactlyWhen(m, s, n);
    }
  }

  lemma StoredRow(m: Moving, s: seq<Numbered>, n: nat)
    requires Moved(m, s) && n < |s| && s[n].row.record.id in m.v2
    ensures m.v2[s[n].row.record.id] == NewRow(s[n], n + 1)
  {
    hide NewRow, HoldersExact, RowsMoved;
    assert Fate(m, s[n], n + 1);
  }

  lemma RowComesFrom(m: Moving, s: seq<Numbered>, i: Id)
    requires Moved(m, s) && i in m.v2
    ensures exists n :: 0 <= n < |s| && s[n].row.record.id == i && m.v2[i] == NewRow(s[n], n + 1)
  {
    hide NewRow, HoldersExact;
  }

  /** With no row of the send stored, its message is stored exactly when a row of it was merged. */
  lemma MergedLivesOn(rows: seq<OldRow>, m: Moving, w: Moving, commands: seq<Command>, c: Command)
    requires DistinctIds(rows) && MoveAll(Ordered(rows)) == Ok(m) && Moved(m, Ordered(rows)) &&
             OnlyRebuilt(m, w, commands)
    requires !SendSurvives(rows, c)
    ensures SendMerged(rows, c) <==> exists r, i :: r in rows && OfSend(r.record, c) && LivesOnIn(w.v2, r, i)
  {
    hide MoveAll, Ordered, Moved, OnlyRebuilt, Keeper, NewRow, HoldersKeep, ModeFor, NumberedInOrder;
    var s := Ordered(rows);
    OrderedSpec(rows);
    MoveAllKeepers(s);
    if SendMerged(rows, c) {
      var n: nat, k: nat :|
        n < |s| && k < |s| && OfSend(s[n].row.record, c) && Keeper(s, k) && Rivals(s[k].row, s[n].row) &&
        s[k].row.record.channelId == s[n].row.record.channelId;
      assert s[n] in s;
      StoredExactlyWhen(m, s, k);
      StoredAsNumbered(m, w, s, commands, k);
      NewRowIs(s[k], k + 1);
      assert LivesOnIn(w.v2, s[n].row, s[k].row.record.id);
    }
    if r, i :| r in rows && OfSend(r.record, c) && LivesOnIn(w.v2, r, i) {
      var x := Numbered(r, ModeFor(rows, r.record.channelId));
      assert x in s;
      var n :| 0 <= n < |s| && s[n] == x;
      LivingIsKept(m, w, s, commands, n, i);
    }
  }

  /** Where a merged row lives on, a keeper of its channel is stored. */
  lemma LivingIsKept(m: Moving, w: Moving, s: seq<Numbered>, commands: seq<Command>, n: nat, i: Id)
    requires Moved(m, s) && HoldersKeep(m, s) && DistinctNumbered(s) && OnlyRebuilt(m, w, commands)
    requires n < |s| && IsConfirmed(s[n].row) && LivesOnIn(w.v2, s[n].row, i)
    ensures exists k: nat :: k < |s| && Keeper(s, k) && Rivals(s[k].row, s[n].row) &&
              s[k].row.record.channelId == s[n].row.record.channelId
  {
    hide Moved, OnlyRebuilt, Keeper, NewRow, HoldersKeep, RebuiltRow;
    StoredOrigin(m, w, s, commands, i);
    if i in m.v2 {
      var k :| 0 <= k < |s| && s[k].row.record.id == i && w.v2[i] == NewRow(s[k], k + 1);
      NewRowIs(s[k], k + 1);
      StoredExactlyWhen(m, s, k);
    } else {
      var k, q :| 0 <= k < |commands| && |s| < q <= w.seqNo && w.v2[i] == RebuiltRow(commands[k], i, q);
      RebuiltRowIs(commands[k], i, q);
      assert false;
    }
  }

  /**
   * The upgrade queues a send again, beside its stored message, exactly when the command can be
   * rebuilt, some old row of the send was merged into a kept row, and no row of the send survives.
   */
  lemma QueuedAgainExactlyWhen(rows: seq<OldRow>, outbox: map<Id, Command>, commands: seq<Command>, newIds: seq<Id>,
                               now: int, k: nat)
    requires OldDatabase(rows, outbox, commands, newIds) && UniqueSends(commands)
    requires Upgrade(rows, outbox, commands, newIds, now).Ok? && k < |commands| && commands[k].localId.Some?
    ensures var c := commands[k];
            QueuedAgain(rows, Upgrade(rows, outbox, commands, newIds, now).value.tables, c) <==>
              IsRebuildable(c.contentType) && SendMerged(rows, c) && !SendSurvives(rows, c)
  {
    hide MoveAll, Ordered, RelinkAll, Moved, RebuiltApart, Settled, ModesFor, WellKeyed, SendSurvives, SendMerged,
      OnlyRebuilt,
      IsRebuildable, LivesOnIn, RebuiltRow;
    var c := commands[k];
    var m := UpgradeFinishes(rows, outbox, commands, newIds, now);
    var w := Upgrade(rows, outbox, commands, newIds, now).value.tables;
    MintedAreNew(rows, outbox, commands, newIds, m);
    LinkedAnewExactlyWhen(Linking(m, outbox), commands, newIds, now, k);
    SurvivesStored(rows, m, c);
    AnewIsNew(rows, outbox, commands, newIds, m, w, k);
    if !SendSurvives(rows, c) {
      MergedLivesOn(rows, m, w.moved, commands, c);
    }
  }

  /** What a linked command's row is: an old row of its send, or one just minted for it. */
  lemma AnewIsNew(rows: seq<OldRow>, outbox: map<Id, Command>, commands: seq<Command>, newIds: seq<Id>, m: Moving,
                  w: Linking, k: nat)
    requires OldDatabase(rows, outbox, commands, newIds) && k < |commands| && commands[k].localId.Some?
    requires Moved(m, Ordered(rows)) && Relinked(Linking(m, outbox), w, commands, newIds)
    ensures var c := commands[k];
            var d := w.outbox[c.outboxId];
            d.messageId.Some? ==>
              var x := d.messageId.value;
              && x in w.moved.v2 && OfSend(w.moved.v2[x].record, c)
              && (LinkedAnew(m, d) <==> forall r :: r in rows ==> r.record.id != x)
              && (LinkedAnew(m, d) ==> w.moved.v2[x].record.status == Pending)
  {
    hide Ordered, RebuiltApart, WellKeyed, NewRow, RebuiltRow, HoldersExact, Fate;
    var c := commands[k];
    var d := w.outbox[c.outboxId];
    assert Settled(w.moved.v2, c, d);
    OrderedIds(rows, m);
    if d.messageId.Some? && d.messageId.value !in m.v2 {
      var x := d.messageId.value;
      var j, q :| 0 <= j < |commands| && m.seqNo < q <= w.moved.seqNo && w.moved.v2[x] == RebuiltRow(commands[j], x, q);
      RebuiltRowIs(commands[j], x, q);
      assert x in newIds;
    }
  }

  lemma OrderedIds(rows: seq<OldRow>, m: Moving)
    requires DistinctIds(rows) && Moved(m, Ordered(rows))
    ensures forall i :: i in m.v2 ==> exists r :: r in rows && r.record.id == i
  {
    hide Ordered, NewRow, HoldersExact, Fate, ModeFor, NumberedInOrder;
    OrderedSpec(rows);
    var s := Ordered(rows);
    forall i | i in m.v2
      ensures exists r :: r in rows && r.record.id == i
    {
      var n :| 0 <= n < |s| && s[n].row.record.id == i && m.v2[i] == NewRow(s[n], n + 1);
      assert s[n] in s;
    }
  }
}
