// The in-memory message store as an object: a buffer and an order mode per channel
// (src/cache/message-store.ts).

module MessageStoreClass {
  import opened Text
  import opened Records
  import opened Sorting
  import opened MessageBuffer

  class MessageStore {
    var buffers: map<Id, Buffer>
    var orderModes: map<Id, OrderMode>

    constructor ()
      ensures buffers == map[] && orderModes == map[]
    {
      buffers, orderModes := map[], map[];
    }

    function BufferOf(channelId: Id): Buffer
      reads this
    {
      if channelId in buffers then buffers[channelId] else []
    }

    function Declared(channelId: Id): Option<OrderMode>
      reads this
    {
      if channelId in orderModes then Some(orderModes[channelId]) else None
    }

    ghost predicate ChannelTidy(channelId: Id)
      reads this
    {
      Tidy(BufferOf(channelId), ModeIn(Declared(channelId)))
    }

    /** Only this channel's buffer and mode may change. */
    twostate predicate OthersSame(channelId: Id)
      reads this
    {
      && (forall c :: c != channelId ==>
           (c in buffers <==> c in old(buffers)) && (c in buffers ==> buffers[c] == old(buffers[c])))
      && (forall c :: c != channelId ==>
            (c in orderModes <==> c in old(orderModes)) && (c in orderModes ==> orderModes[c] == old(orderModes[c])))
    }

    method SetChannelOrderMode(channelId: Id, mode: OrderMode)
      modifies this
      ensures orderModes == old(orderModes)[channelId := mode] && OthersSame(channelId)
      ensures BufferOf(channelId) == Redeclared(old(BufferOf(channelId)), old(Declared(channelId)), mode)
    {
      if channelId in orderModes && orderModes[channelId] != mode && channelId in buffers {
        buffers := buffers[channelId := Sort(buffers[channelId], Order(mode))];
      }
      orderModes := orderModes[channelId := mode];
    }

    /** Rows that prove a gap put the channel in server-id order. */
    method NoteRows(channelId: Id, records: seq<Record>)
      modifies this
      ensures OthersSame(channelId)
      ensures ModeIn(Declared(channelId)) == NotedMode(old(ModeIn(Declared(channelId))), records)
      ensures BufferOf(channelId) == Noted(old(BufferOf(channelId)), old(Declared(channelId)), records)
    {
      hide Redeclared;
      if channelId in orderModes && orderModes[channelId] == ByServerId {
        return;
      }
      if Gapped(records) {
        SetChannelOrderMode(channelId, ByServerId);
      }
    }

    /** Drop the rows that an incoming row describes under another id. */
    method AbsorbDuplicates(rows: Buffer, incoming: seq<Record>) returns (kept: Buffer)
      ensures kept == Absorb(rows, incoming)
    {
      var serverIds, localIds, ids := {}, {}, {};
      var k := 0;
      while k < |incoming|
        invariant 0 <= k <= |incoming|
        invariant ids == set j | 0 <= j < k :: incoming[j].id
        invariant serverIds == set j | 0 <= j < k && incoming[j].serverId.Some? :: incoming[j].serverId.value
        invariant localIds == set j | 0 <= j < k && incoming[j].localId.Some? :: incoming[j].localId.value
      {
        var r := incoming[k];
        ids := ids + {r.id};
        if r.serverId.Some? {
          serverIds := serverIds + {r.serverId.value};
        }
        if r.localId.Some? {
          localIds := localIds + {r.localId.value};
        }
        k := k + 1;
      }
      kept, k := [], 0;
      while k < |rows|
        invariant 0 <= k <= |rows|
        invariant kept == Absorb(rows[..k], incoming)
      {
        var m := rows[k];
        assert rows[..k + 1][..k] == rows[..k];
        assert HasRow(incoming, m.id) <==> m.id in ids;
        assert SharesNetworkId(m, incoming) <==>
          (m.serverId.Some? && m.serverId.value in serverIds) || (m.localId.Some? && m.localId.value in localIds);
        if m.id in ids ||
           !((m.serverId.Some? && m.serverId.value in serverIds) || (m.localId.Some? && m.localId.value in localIds)) {
          kept := kept + [m];
        }
        k := k + 1;
      }
      assert rows[..|rows|] == rows;
    }

    /** Set every record under its id, and note whether any of them changes what is shown. */
    method SetAll(existing: Buffer, records: seq<Record>) returns (byKey: Buffer, upserted: bool)
      ensures byKey == SetRows(existing, records) && upserted == AnyChanges(existing, records)
    {
      hide SetRow, Changes;
      byKey, upserted := existing, false;
      var k := 0;
      while k < |records|
        invariant 0 <= k <= |records|
        invariant byKey == SetRows(existing, records[..k])
        invariant upserted == AnyChanges(existing, records[..k])
      {
        assert records[..k + 1][..k] == records[..k];
        if Changes(byKey, records[k]) {
          upserted := true;
        }
        byKey := SetRow(byKey, records[k]);
        k := k + 1;
      }
      assert records[..|records|] == records;
    }

    method UpsertMessages(channelId: Id, records: seq<Record>)
      modifies this
      ensures OthersSame(channelId)
      ensures ModeIn(Declared(channelId)) == NotedMode(old(ModeIn(Declared(channelId))), records)
      ensures BufferOf(channelId) ==
                Upserted(Noted(old(BufferOf(channelId)), old(Declared(channelId)), records),
                  ModeIn(Declared(channelId)), records)
      ensures (old(ChannelTidy(channelId)) && (old(Declared(channelId)).Some? || old(BufferOf(channelId)) == []) &&
               Apart(records, SameMessage)) ==>
                ChannelTidy(channelId)
    {
      hide Tidy, Sort, SetRows, AnyChanges, Absorb, NotedMode, Noted, Apart;
      if old(ChannelTidy(channelId)) && (Declared(channelId).Some? || BufferOf(channelId) == []) &&
        Apart(records, SameMessage) {
        NotedUpsertTidies(BufferOf(channelId), Declared(channelId), records);
      }
      NoteRows(channelId, records);
      var existing := AbsorbDuplicates(BufferOf(channelId), records);
      var byKey, upserted := SetAll(existing, records);
      if upserted {
        buffers := buffers[channelId := Sort(byKey, Order(ModeIn(Declared(channelId))))];
      }
    }

    method ReplaceWindow(channelId: Id, records: seq<Record>)
      modifies this
      ensures OthersSame(channelId)
      ensures ModeIn(Declared(channelId)) == NotedMode(old(ModeIn(Declared(channelId))), records)
      ensures BufferOf(channelId) ==
                Windowed(Noted(old(BufferOf(channelId)), old(Declared(channelId)), records),
                  ModeIn(Declared(channelId)), records)
      ensures (old(ChannelTidy(channelId)) && (old(Declared(channelId)).Some? || old(BufferOf(channelId)) == []) &&
               Apart(records, SameMessage)) ==>
                ChannelTidy(channelId)
    {
      hide Tidy, Sort, SetRows, Absorb, NotedMode, Noted, Outside, Apart;
      if old(ChannelTidy(channelId)) && (Declared(channelId).Some? || BufferOf(channelId) == []) &&
        Apart(records, SameMessage) {
        NotedUpsertTidies(BufferOf(channelId), Declared(channelId), records);
      }
      NoteRows(channelId, records);
      var mode := ModeIn(Declared(channelId));
      var sorted := Sort(records, Order(mode));
      if records == [] || sorted == [] {
        return;
      }
      var lo, hi := sorted[0], sorted[|sorted| - 1];
      var outside := Where(BufferOf(channelId), m => Outside(mode, lo, hi, m));
      var kept := AbsorbDuplicates(outside, sorted);
      buffers := buffers[channelId := Sort(SetRows(SetRows([], kept), sorted), Order(mode))];
    }

    /** The removal reads the buffer before the modes are noted, as the source does. */
    method ReplaceMessage(channelId: Id, replacedId: Id, next: Record)
      modifies this
      ensures OthersSame(channelId)
      ensures ModeIn(Declared(channelId)) == NotedMode(old(ModeIn(Declared(channelId))), [next])
      ensures BufferOf(channelId) == Replaced(old(BufferOf(channelId)), ModeIn(Declared(channelId)), replacedId, next)
      ensures old(ChannelTidy(channelId)) ==> ChannelTidy(channelId)
    {
      var existing := BufferOf(channelId);
      if old(ChannelTidy(channelId)) {
        ReplaceTidies(existing, NotedMode(ModeIn(Declared(channelId)), [next]), replacedId, next);
      }
      var filtered := Where(existing, (m: Record) => m.id != replacedId && !SameMessage(m, next));
      NoteRows(channelId, [next]);
      buffers := buffers[channelId := Sort(filtered + [next], Order(ModeIn(Declared(channelId))))];
    }

    method RemoveMessage(channelId: Id, id: Id)
      modifies this
      ensures OthersSame(channelId) && orderModes == old(orderModes)
      ensures BufferOf(channelId) == Removed(old(BufferOf(channelId)), id)
      ensures old(ChannelTidy(channelId)) ==> ChannelTidy(channelId)
    {
      hide Tidy;
      if ChannelTidy(channelId) {
        RemoveTidies(BufferOf(channelId), ModeIn(Declared(channelId)), id);
      }
      buffers := buffers[channelId := Removed(BufferOf(channelId), id)];
    }
  }
}
