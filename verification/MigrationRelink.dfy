// The v12 upgrade, last step: every outbox command finds its message or is marked
// unrecoverable (src/cache/idb-schema.ts:555-643).

module MigrationRelink {
  import opened Text
  import opened Records
  import opened CacheTables
  import opened IndexAgreement
  import opened MigrationOrder
  import opened MigrationMove

  /** An outbox row of the old schema; its links may be missing or stale. */
  datatype Command = Command(
    outboxId: Id,
    messageId: Option<Id>,
    channelId: Id,
    recordKey: Option<string>,
    localId: Option<Id>,
    fromUid: Id,
    contentType: string,
    payload: seq<Byte>,
    body: string,
    createdAt: int,
    updatedAt: int,
    lastError: Option<string>,
    status: OutboxStatus
  )

  /** Row `id` is the optimistic row of this very command: same channel, same local id. */
  predicate OwnsRow(v2: Messages, id: Id, c: Command)
  {
    id in v2 && v2[id].record.channelId == c.channelId && v2[id].record.localId == c.localId
  }

  function Redirected(m: Moving, id: Id): Id
  {
    if id in m.redirect then m.redirect[id] else id
  }

  function ViaKey(m: Moving, c: Command): Option<Id>
  {
    var key := OldKey(c.channelId, if c.recordKey.Some? then c.recordKey.value else "");
    if key in m.oldKeys then Some(m.oldKeys[key]) else None
  }

  function ViaLocal(m: Moving, c: Command): Option<Id>
  {
    var row := if c.localId.Some? then FindByLocal(m.v2, c.channelId, c.localId.value) else None;
    if row.Some? then Some(row.value.record.id) else None
  }

  /** The surviving row of this send: by its own link, its old key, then its idempotency key. */
  function Resolve(m: Moving, c: Command): Option<Id>
  {
    if c.messageId.Some? && OwnsRow(m.v2, Redirected(m, c.messageId.value), c) then
      Some(Redirected(m, c.messageId.value))
    else if ViaKey(m, c).Some? && OwnsRow(m.v2, ViaKey(m, c).value, c) then ViaKey(m, c)
    else ViaLocal(m, c)
  }

  function RebuiltRow(c: Command, newId: Id, seqNo: nat): Stored
  {
    var record := Record(newId, c.channelId, None, c.localId, None, Some(seqNo), c.fromUid, c.contentType, c.body,
                         c.payload, c.createdAt, None, Pending, None);
    Stored(record, DisplaySortKey(record, ByPts), false)
  }

  function LostError(c: Command): string
  {
    "local message row lost; a " + c.contentType + " payload cannot rebuild it"
  }

  function WithRebuilt(w: Moving, c: Command, newId: Id): Moving
  {
    w.(seqNo := w.seqNo + 1, v2 := w.v2[newId := RebuiltRow(c, newId, w.seqNo + 1)])
  }

  /** Tables as the relink loop sees them. */
  datatype Linking = Linking(moved: Moving, outbox: map<Id, Command>)

  function RelinkOne(t: Linking, c: Command, newId: Id, now: int): Linking
  {
    var m := t.moved;
    var link := Resolve(m, c);
    if link.Some? then t.(outbox := t.outbox[c.outboxId := c.(messageId := link)])
    else if IsRebuildable(c.contentType) then
      Linking(WithRebuilt(m, c, newId), t.outbox[c.outboxId := c.(messageId := Some(newId))])
    else
      t.(outbox := t.outbox[c.outboxId :=
                     c.(messageId := None, status := LocalDataError, lastError := Some(LostError(c)),
                       updatedAt := now)])
  }

  function RelinkAll(t: Linking, commands: seq<Command>, newIds: seq<Id>, now: int): Linking
    requires |newIds| == |commands|
    decreases |commands|
  {
    if commands == [] then t
    else
      var n := |commands| - 1;
      RelinkOne(RelinkAll(t, commands[..n], newIds[..n], now), commands[n], newIds[n], now)
  }

  // ----- What the loop keeps -----

  /** The command has a row of its own send, or says that it has none. */
  ghost predicate Settled(v2: Messages, c: Command, d: Command)
  {
    || (d.messageId.Some? && OwnsRow(v2, d.messageId.value, c) && d == c.(messageId := d.messageId))
    || (d.messageId.None? && d.status == LocalDataError && !IsRebuildable(c.contentType) &&
        d == c.(messageId := None, status := LocalDataError, lastError := Some(LostError(c)), updatedAt := d.updatedAt))
  }

  /** Rows already there stay; what is new is a pending row of one of these commands. */
  ghost predicate OnlyRebuilt(m: Moving, w: Moving, commands: seq<Command>)
  {
    && (forall i :: i in m.v2 ==> i in w.v2 && w.v2[i] == m.v2[i])
    && (forall i :: i in w.v2 && i !in m.v2 ==>
          exists k, q :: 0 <= k < |commands| && m.seqNo < q <= w.seqNo && w.v2[i] == RebuiltRow(commands[k], i, q))
    && w == m.(v2 := w.v2, seqNo := w.seqNo) && m.seqNo <= w.seqNo
  }

  /** Rebuilt rows are numbered apart. */
  ghost predicate RebuiltApart(m: Moving, w: Moving)
  {
    forall i, j ::
      (i in w.v2 && j in w.v2 && i !in m.v2 && j !in m.v2 && w.v2[i].record.orderSeq == w.v2[j].record.orderSeq) ==>
        i == j
  }

  ghost predicate NewIdsFor(v2: Messages, newIds: seq<Id>)
  {
    && (forall k :: 0 <= k < |newIds| ==> newIds[k] !in v2)
    && (forall j, k :: 0 <= j < k < |newIds| ==> newIds[j] != newIds[k])
  }

  ghost predicate DistinctCommands(commands: seq<Command>)
  {
    forall j, k :: 0 <= j < k < |commands| ==> commands[j].outboxId != commands[k].outboxId
  }

  lemma ResolvedOwns(m: Moving, c: Command)
    requires WellKeyed(m.v2)
    ensures Resolve(m, c).Some? ==> OwnsRow(m.v2, Resolve(m, c).value, c)
    ensures Resolve(m, c).None? ==> forall i :: i in m.v2 && c.localId.Some? ==>
            !HasLocal(m.v2[i], c.channelId, c.localId.value)
  {
    hide First;
    if c.localId.Some? {
      FindByLocalSpec(m.v2, c.channelId, c.localId.value);
    }
  }

  lemma RebuiltRowIs(c: Command, newId: Id, seqNo: nat)
    ensures var row := RebuiltRow(c, newId, seqNo).record;
            && row.id == newId && row.channelId == c.channelId && row.localId == c.localId
            && row.serverId == None && row.status == Pending && row.orderSeq == Some(seqNo) && row.pts == None
    ensures forall mode :: RebuiltRow(c, newId, seqNo) == Stamp(RebuiltRow(c, newId, seqNo).record, mode)
  {
  }

  lemma RebuiltKeyed(m: Moving, c: Command, newId: Id)
    requires WellKeyed(m.v2) && newId !in m.v2
    ensures WellKeyed(WithRebuilt(m, c, newId).v2)
  {
    hide RebuiltRow;
    RebuiltRowIs(c, newId, m.seqNo + 1);
  }

  lemma RelinkOneKeeps(t: Linking, c: Command, newId: Id, now: int)
    requires WellKeyed(t.moved.v2) && newId !in t.moved.v2
    ensures var u := RelinkOne(t, c, newId, now);
            && WellKeyed(u.moved.v2)
            && c.outboxId in u.outbox && Settled(u.moved.v2, c, u.outbox[c.outboxId])
            && u.outbox == t.outbox[c.outboxId := u.outbox[c.outboxId]]
            && (u.moved == t.moved || u.moved == WithRebuilt(t.moved, c, newId))
  {
    hide Resolve, RebuiltRow, LostError, IsRebuildable, WellKeyed;
    ResolvedOwns(t.moved, c);
    RebuiltRowIs(c, newId, t.moved.seqNo + 1);
    RebuiltKeyed(t.moved, c, newId);
  }

  lemma SettledStays(v2: Messages, w2: Messages, c: Command, d: Command)
    requires Settled(v2, c, d) && forall i :: i in v2 ==> i in w2 && w2[i] == v2[i]
    ensures Settled(w2, c, d)
  {
  }

  lemma RebuiltNumbered(m: Moving, w: Moving, commands: seq<Command>)
    requires OnlyRebuilt(m, w, commands)
    ensures forall i :: i in w.v2 && i !in m.v2 ==>
            w.v2[i].record.orderSeq.Some? && w.v2[i].record.orderSeq.value <= w.seqNo
  {
    hide RebuiltRow;
    forall i | i in w.v2 && i !in m.v2
      ensures w.v2[i].record.orderSeq.Some? && w.v2[i].record.orderSeq.value <= w.seqNo
    {
      var k, q :| 0 <= k < |commands| && m.seqNo < q <= w.seqNo && w.v2[i] == RebuiltRow(commands[k], i, q);
      RebuiltRowIs(commands[k], i, q);
    }
  }

  lemma RebuiltStaysApart(m: Moving, w: Moving, commands: seq<Command>, c: Command, newId: Id)
    requires OnlyRebuilt(m, w, commands) && RebuiltApart(m, w) && newId !in w.v2
    ensures RebuiltApart(m, WithRebuilt(w, c, newId))
  {
    hide RebuiltRow, OnlyRebuilt;
    RebuiltRowIs(c, newId, w.seqNo + 1);
    RebuiltNumbered(m, w, commands);
  }

  lemma RebuiltJoins(m: Moving, w: Moving, commands: seq<Command>, c: Command, newId: Id)
    requires OnlyRebuilt(m, w, commands) && newId !in w.v2
    ensures OnlyRebuilt(m, WithRebuilt(w, c, newId), commands + [c])
  {
    hide RebuiltRow;
    var x := WithRebuilt(w, c, newId);
    var all := commands + [c];
    forall i | i in x.v2 && i !in m.v2
      ensures exists k, q :: 0 <= k < |all| && m.seqNo < q <= x.seqNo && x.v2[i] == RebuiltRow(all[k], i, q)
    {
      if i == newId {
        assert all[|commands|] == c;
      } else {
        var k, q :| 0 <= k < |commands| && m.seqNo < q <= w.seqNo && w.v2[i] == RebuiltRow(commands[k], i, q);
        assert all[k] == commands[k];
      }
    }
  }

  lemma RebuiltMore(m: Moving, w: Moving, commands: seq<Command>, c: Command)
    requires OnlyRebuilt(m, w, commands)
    ensures OnlyRebuilt(m, w, commands + [c])
  {
    hide RebuiltRow;
    var all := commands + [c];
    forall i | i in w.v2 && i !in m.v2
      ensures exists k, q :: 0 <= k < |all| && m.seqNo < q <= w.seqNo && w.v2[i] == RebuiltRow(all[k], i, q)
    {
      var k, q :| 0 <= k < |commands| && m.seqNo < q <= w.seqNo && w.v2[i] == RebuiltRow(commands[k], i, q);
      assert all[k] == commands[k];
    }
  }

  /** The loop ran to here. */
  ghost predicate Relinked(t: Linking, u: Linking, commands: seq<Command>, newIds: seq<Id>)
  {
    && WellKeyed(u.moved.v2)
    && OnlyRebuilt(t.moved, u.moved, commands) && RebuiltApart(t.moved, u.moved)
    && (forall i :: i in u.moved.v2 ==> i in t.moved.v2 || i in newIds)
    && (forall k :: 0 <= k < |commands| ==>
          commands[k].outboxId in u.outbox && Settled(u.moved.v2, commands[k], u.outbox[commands[k].outboxId]))
    && u.outbox.Keys == t.outbox.Keys + set k | 0 <= k < |commands| :: commands[k].outboxId
  }

  lemma {:induction false} RelinkAllKeeps(t: Linking, commands: seq<Command>, newIds: seq<Id>, now: int)
    requires |newIds| == |commands| && WellKeyed(t.moved.v2)
    requires NewIdsFor(t.moved.v2, newIds) && DistinctCommands(commands)
    ensures Relinked(t, RelinkAll(t, commands, newIds, now), commands, newIds)
    decreases |commands|
  {
    hide RelinkOne, Settled, WellKeyed, OnlyRebuilt, RebuiltApart, RebuiltRow;
    if commands == [] {
      NothingRelinked(t);
    } else {
      var n := |commands| - 1;
      RelinkAllKeeps(t, commands[..n], newIds[..n], now);
      var u := RelinkAll(t, commands[..n], newIds[..n], now);
      assert newIds[n] !in newIds[..n];
      assert newIds[n] !in u.moved.v2;
      RelinkOneKeeps(u, commands[n], newIds[n], now);
      RelinkedJoins(t, u, RelinkAll(t, commands, newIds, now), commands, newIds);
    }
  }

  lemma NothingRelinked(t: Linking)
    requires WellKeyed(t.moved.v2)
    ensures Relinked(t, t, [], [])
  {
  }

  lemma RelinkedJoins(t: Linking, u: Linking, w: Linking, commands: seq<Command>, newIds: seq<Id>)
    requires commands != [] && |newIds| == |commands| && DistinctCommands(commands)
    requires var n := |commands| - 1;
             var c := commands[n];
             && Relinked(t, u, commands[..n], newIds[..n]) && newIds[n] !in u.moved.v2
             && WellKeyed(w.moved.v2)
             && c.outboxId in w.outbox && Settled(w.moved.v2, c, w.outbox[c.outboxId])
             && w.outbox == u.outbox[c.outboxId := w.outbox[c.outboxId]]
             && (w.moved == u.moved || w.moved == WithRebuilt(u.moved, c, newIds[n]))
    ensures Relinked(t, w, commands, newIds)
  {
    hide Settled, WellKeyed, OnlyRebuilt, RebuiltApart, RebuiltRow;
    var n := |commands| - 1;
    assert commands == commands[..n] + [commands[n]];
    if w.moved == u.moved {
      RebuiltMore(t.moved, u.moved, commands[..n], commands[n]);
    } else {
      RebuiltJoins(t.moved, u.moved, commands[..n], commands[n], newIds[n]);
      RebuiltStaysApart(t.moved, u.moved, commands[..n], commands[n], newIds[n]);
    }
    forall k | 0 <= k < |commands|
      ensures commands[k].outboxId in w.outbox && Settled(w.moved.v2, commands[k], w.outbox[commands[k].outboxId])
    {
      if k < n {
        assert commands[..n][k] == commands[k];
        SettledStays(u.moved.v2, w.moved.v2, commands[k], u.outbox[commands[k].outboxId]);
      }
    }
    forall x
      ensures x in w.outbox.Keys <==> x in t.outbox.Keys + set k | 0 <= k < |commands| :: commands[k].outboxId
    {
      assert forall k :: 0 <= k < n ==> commands[..n][k] == commands[k];
      if x in w.outbox && x != commands[n].outboxId && x !in t.outbox {
        var k :| 0 <= k < n && commands[..n][k].outboxId == x;
        assert commands[k].outboxId == x;
      }
    }
  }
}
