// The v12 upgrade transaction as it runs: tables updated row by row, lookup maps beside them
// (src/cache/idb-schema.ts:411-644).

module MigrationTx {
  import opened Text
  import opened Records
  import opened CacheTables
  import opened Sorting
  import opened MigrationOrder
  import opened MigrationMove
  import opened MigrationRelink
  import opened Migration

  class UpgradeTx {
    var v2: Messages
    var quarantine: map<Id, Record>
    var outbox: map<Id, Command>
    var orderModes: map<Id, OrderMode>
    var orderSeq: nat

    constructor (outbox: map<Id, Command>)
      ensures v2 == map[] && quarantine == map[] && orderModes == map[] && orderSeq == 0 && this.outbox == outbox
    {
      v2, quarantine, orderModes, orderSeq := map[], map[], map[], 0;
      this.outbox := outbox;
    }

    /** Order each channel, and record the degraded modes. */
    method OrderRows(rows: seq<OldRow>) returns (ordered: seq<Numbered>)
      requires orderModes == map[]
      modifies this`orderModes
      ensures ordered == Ordered(rows) && orderModes == ModesFor(rows)
    {
      hide ChannelOrder, Degraded, RowsOf, Where, ChannelsIn, Concatenated, ModesAmong, WithMode;
      var channels, byChannel := GroupByChannel(rows);
      ordered := [];
      NoChannels(rows);
      var k := 0;
      while k < |channels|
        invariant 0 <= k <= |channels|
        invariant ordered == Concatenated(rows, channels[..k])
        invariant orderModes == ModesAmong(rows, channels[..k])
      {
        var c := channels[k];
        var list := byChannel[c];
        var confirmed := Where(list, IsConfirmed);
        var mode := if AnyLacksPts(confirmed) then ByServerId else ByPts;
        MissingIsDegraded(rows, c);
        OneMoreChannel(rows, channels, k);
        ordered := ordered + WithMode(ChannelOrder(list, mode), mode);
        if mode == ByServerId {
          orderModes := orderModes[c := mode];
        }
        k := k + 1;
      }
      assert channels[..|channels|] == channels;
    }

    /** Number and move every row; a refused put aborts the transaction. */
    method MoveRows(ordered: seq<Numbered>) returns (ok: bool, redirect: map<Id, Id>, oldKeys: map<string, Id>,
                    holders: map<Id, OldRow>)
      requires v2 == map[] && quarantine == map[]
      modifies this`v2, this`quarantine, this`orderSeq
      ensures ok <==> MoveAll(ordered).Ok?
      ensures ok ==>
                MoveAll(ordered).value == Moving(v2, quarantine, redirect, holders, oldKeys, orderSeq)
    {
      hide NewRow, Completeness;
      redirect, oldKeys, holders, orderSeq := map[], map[], map[], 0;
      var k := 0;
      while k < |ordered|
        invariant 0 <= k <= |ordered|
        invariant MoveAll(ordered[..k]) == Ok(Moving(v2, quarantine, redirect, holders, oldKeys, orderSeq))
      {
        ghost var m := Moving(v2, quarantine, redirect, holders, oldKeys, orderSeq);
        assert ordered[..k + 1][..k] == ordered[..k];
        assert MoveAll(ordered[..k + 1]) == MoveOne(m, ordered[k]);
        var r := ordered[k].row;
        var id := r.record.id;
        orderSeq := orderSeq + 1;
        if r.recordKey.Some? {
          oldKeys := oldKeys[OldKey(r.record.channelId, r.recordKey.value) := id];
        }
        var aside := false;
        if IsConfirmed(r) {
          var smid := r.record.serverId.value;
          if smid in holders {
            var held := holders[smid];
            if held.record.channelId != r.record.channelId {
              quarantine := quarantine[id := r.record];
              redirect := redirect[id := held.record.id];
              aside := true;
            } else if Completeness(r) > Completeness(held) {
              v2 := v2 - {held.record.id};
              redirect := redirect[held.record.id := id];
              holders := holders[smid := r];
            } else {
              redirect := redirect[id := held.record.id];
              aside := true;
            }
          } else {
            holders := holders[smid := r];
          }
        }
        if !aside {
          var put := Put(v2, NewRow(ordered[k], orderSeq));
          if put.Err? {
            MoveFailureStays(ordered, k + 1);
            return false, redirect, oldKeys, holders;
          }
          v2 := put.value;
        }
        k := k + 1;
      }
      assert ordered[..|ordered|] == ordered;
      ok := true;
    }

    /** Link or mark every command; `redirect` and `oldKeys` are what the move left. */
    method RelinkCommands(commands: seq<Command>, newIds: seq<Id>, now: int, redirect: map<Id, Id>,
                          oldKeys: map<string, Id>,
                          holders: map<Id, OldRow>)
      requires |newIds| == |commands|
      modifies this`v2, this`outbox, this`orderSeq
      ensures var m := Moving(old(v2), old(quarantine), redirect, holders, oldKeys, old(orderSeq));
              RelinkAll(Linking(m, old(outbox)), commands, newIds, now) ==
                Linking(m.(v2 := v2, seqNo := orderSeq), outbox)
    {
      hide First, RebuiltRow, LostError;
      ghost var t := Linking(Moving(v2, quarantine, redirect, holders, oldKeys, orderSeq), outbox);
      var k := 0;
      while k < |commands|
        invariant 0 <= k <= |commands|
        invariant RelinkAll(t, commands[..k], newIds[..k], now) ==
                  Linking(t.moved.(v2 := v2, seqNo := orderSeq), outbox)
      {
        assert commands[..k + 1][..k] == commands[..k] && newIds[..k + 1][..k] == newIds[..k];
        var c := commands[k];
        var link: Option<Id> := None;
        if c.messageId.Some? {
          var target := if c.messageId.value in redirect then redirect[c.messageId.value] else c.messageId.value;
          if OwnsRow(v2, target, c) {
            link := Some(target);
          }
        }
        if link.None? {
          var key := OldKey(c.channelId, if c.recordKey.Some? then c.recordKey.value else "");
          if key in oldKeys && OwnsRow(v2, oldKeys[key], c) {
            link := Some(oldKeys[key]);
          }
        }
        if link.None? && c.localId.Some? {
          var row := FindByLocal(v2, c.channelId, c.localId.value);
          if row.Some? {
            link := Some(row.value.record.id);
          }
        }
        assert link == Resolve(t.moved.(v2 := v2, seqNo := orderSeq), c);
        if link.Some? {
          outbox := outbox[c.outboxId := c.(messageId := link)];
        } else if IsRebuildable(c.contentType) {
          orderSeq := orderSeq + 1;
          v2 := v2[newIds[k] := RebuiltRow(c, newIds[k], orderSeq)];
          outbox := outbox[c.outboxId := c.(messageId := Some(newIds[k]))];
        } else {
          outbox := outbox[c.outboxId :=
            c.(messageId := None, status := LocalDataError, lastError := Some(LostError(c)), updatedAt := now)];
        }
        k := k + 1;
      }
      assert commands[..|commands|] == commands && newIds[..|newIds|] == newIds;
    }

    /** The whole callback. When it fails the transaction aborts and nothing has changed. */
    method Run(rows: seq<OldRow>, commands: seq<Command>, newIds: seq<Id>, now: int) returns (ok: bool)
      requires |newIds| == |commands| && v2 == map[] && quarantine == map[] && orderModes == map[]
      modifies this
      ensures var r := Upgrade(rows, old(outbox), commands, newIds, now);
              && (ok <==> r.Ok?)
              && (if ok then
                    && v2 == r.value.tables.moved.v2 && quarantine == r.value.tables.moved.quarantine
                    && outbox == r.value.tables.outbox && orderModes == r.value.modes &&
                         orderSeq == r.value.tables.moved.seqNo
                  else
                    v2 == map[] && quarantine == map[] && orderModes == map[] && orderSeq == old(orderSeq) &&
                      outbox == old(outbox))
    {
      hide MoveAll, Ordered, RelinkAll, ModesFor;
      var before := orderSeq;
      var ordered := OrderRows(rows);
      var moved, redirect, oldKeys, holders := MoveRows(ordered);
      if !moved {
        v2, quarantine, orderModes, orderSeq := map[], map[], map[], before;
        return false;
      }
      RelinkCommands(commands, newIds, now, redirect, oldKeys, holders);
      return true;
    }
  }

  lemma NoChannels(rows: seq<OldRow>)
    ensures Concatenated(rows, []) == [] && ModesAmong(rows, []) == map[]
  {
  }

  lemma OneMoreChannel(rows: seq<OldRow>, channels: seq<Id>, k: nat)
    requires k < |channels|
    ensures Concatenated(rows, channels[..k + 1]) == Concatenated(rows, channels[..k]) + OneChannel(rows, channels[k])
    ensures ModesAmong(rows, channels[..k + 1]) ==
              if Degraded(rows, channels[k]) then ModesAmong(rows, channels[..k])[channels[k] := ByServerId]
              else ModesAmong(rows, channels[..k])
  {
    hide OneChannel, Degraded;
    assert channels[..k + 1] == channels[..k] + [channels[k]];
    assert channels[..k + 1][..k] == channels[..k];
  }

  /** The rows of each channel, and the channels in order of first appearance. */
  method GroupByChannel(rows: seq<OldRow>) returns (channels: seq<Id>, byChannel: map<Id, seq<OldRow>>)
    ensures channels == ChannelsIn(rows)
    ensures forall c :: c in channels ==> c in byChannel && byChannel[c] == RowsOf(rows, c)
  {
    hide RowsOf;
    byChannel, channels := map[], [];
    var k := 0;
    while k < |rows|
      invariant 0 <= k <= |rows|
      invariant channels == ChannelsIn(rows[..k])
      invariant forall c :: c in byChannel <==> c in channels
      invariant forall c :: c in byChannel ==> byChannel[c] == RowsOf(rows[..k], c)
    {
      var c := rows[k].record.channelId;
      assert rows[..k + 1][..k] == rows[..k];
      forall d: Id
        ensures RowsOf(rows[..k + 1], d) == RowsOf(rows[..k], d) + (if d == c then [rows[k]] else [])
      {
        RowsOfSnoc(rows[..k + 1], d);
      }
      if c in byChannel {
        byChannel := byChannel[c := byChannel[c] + [rows[k]]];
      } else {
        NoRowsOf(rows[..k], c);
        byChannel, channels := byChannel[c := [rows[k]]], channels + [c];
      }
      k := k + 1;
    }
    assert rows[..|rows|] == rows;
  }

  lemma RowsOfSnoc(rows: seq<OldRow>, c: Id)
    requires rows != []
    ensures var n := |rows| - 1;
            RowsOf(rows, c) == RowsOf(rows[..n], c) + (if rows[n].record.channelId == c then [rows[n]] else [])
  {
  }

  lemma {:induction false} NoRowsOf(rows: seq<OldRow>, c: Id)
    requires c !in ChannelsIn(rows)
    ensures RowsOf(rows, c) == []
  {
    if rows != [] {
      NoRowsOf(rows[..|rows| - 1], c);
    }
  }

  predicate AnyLacksPts(s: seq<OldRow>)
  {
    exists j :: 0 <= j < |s| && LacksPts(s[j])
  }

  lemma MissingIsDegraded(rows: seq<OldRow>, c: Id)
    ensures AnyLacksPts(Where(RowsOf(rows, c), IsConfirmed)) <==> Degraded(rows, c)
  {
    hide Where;
    var confirmed := Where(RowsOf(rows, c), IsConfirmed);
    if AnyLacksPts(confirmed) {
      var j :| 0 <= j < |confirmed| && LacksPts(confirmed[j]);
      assert confirmed[j] in confirmed && confirmed[j] in RowsOf(rows, c);
      var k :| 0 <= k < |rows| && rows[k] == confirmed[j];
      assert Of(rows[k], c) && IsConfirmed(rows[k]) && LacksPts(rows[k]);
      assert Degraded(rows, c);
    }
    if Degraded(rows, c) {
      var k :| 0 <= k < |rows| && Of(rows[k], c) && IsConfirmed(rows[k]) && LacksPts(rows[k]);
      assert rows[k] in RowsOf(rows, c);
      var j :| 0 <= j < |confirmed| && confirmed[j] == rows[k];
      assert LacksPts(confirmed[j]);
    }
  }

  lemma {:induction false} MoveFailureStays(s: seq<Numbered>, k: nat)
    requires 0 < k <= |s| && MoveAll(s[..k]).Err?
    ensures MoveAll(s).Err?
    decreases |s| - k
  {
    hide MoveOne;
    if k == |s| {
      assert s[..k] == s;
    } else {
      assert s[..k + 1][..k] == s[..k];
      MoveFailureStays(s, k + 1);
    }
  }
}
