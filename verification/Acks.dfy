// What applying a server acknowledgement leaves behind
// (`applyAck`, src/cache/indexeddb-store.ts).

module Acks {
  import opened Text
  import opened Records
  import opened Merging
  import opened CacheTables
  import opened IndexAgreement

  /** No two rows of one channel carry the same local id. */
  ghost predicate LocalsUnique(ms: Messages)
  {
    forall i, j, c, l :: i in ms && j in ms && HasLocal(ms[i], c, l) && HasLocal(ms[j], c, l) ==> i == j
  }

  /** The row is one of the two that describe the acknowledged message. */
  ghost predicate Describes(row: Stored, acked: Record)
  {
    || (acked.localId.Some? && HasLocal(row, acked.channelId, acked.localId.value))
    || (acked.serverId.Some? && InChannel(row, acked.channelId) && HasServer(row, acked.serverId.value))
  }

  /** An ack as the engines build it: both network ids are known. */
  predicate FullAck(acked: Record)
  {
    acked.localId.Some? && acked.serverId.Some?
  }

  lemma AckedTablesRows(t: Tables, acked: Record)
    requires WellKeyed(t.messages)
    ensures var m := AckedTables(t, acked).messages;
            var id := AckedId(t.messages, acked);
            && id in m && m[id] == AckedRow(t, acked) && m[id].record.id == id
            && m.Keys == t.messages.Keys - Absorbed(t.messages, acked) + {id}
            && forall i :: i in m && i != id ==> m[i] == t.messages[i]
  {
  }

  /**
   * One acknowledged message is one row. It carries both network ids, keeps the optimistic
   * row's id (else the caller's) and the position a row already had; every other message is
   * left with exactly the fields it had.
   */
  lemma AckLeavesOneRow(t: Tables, acked: Record)
    requires WellKeyed(t.messages) && LocalsUnique(t.messages)
    requires FullAck(acked) && ApplyAck(t, acked).Ok?
    ensures var u := ApplyAck(t, acked).value;
            var id := AckedId(t.messages, acked);
            && id in u.messages
            && u.messages[id].record == acked.(id := id, orderSeq := u.messages[id].record.orderSeq)
            && (forall i :: i in u.messages ==> (Describes(u.messages[i], acked) <==> i == id))
            && (forall i :: i in t.messages && i != id && !Describes(t.messages[i], acked) ==>
                  i in u.messages && u.messages[i].record == t.messages[i].record)
            && (forall i :: i in u.messages && i != id ==> i in t.messages)
    ensures var u := ApplyAck(t, acked).value;
            LocalsUnique(u.messages) && u.outbox == t.outbox
  {
    hide DisplaySortKey, First, Reconcile, Describes, LocalOf, RemoteOf, InheritedSeq;
    var id := AckedId(t.messages, acked);
    var m := AckedTables(t, acked);
    AckedTablesRows(t, acked);
    AckPutsOnce(t, acked);
    ReconcileSame(m, acked.channelId);
    var u := Reconcile(m, acked.channelId);
    forall i | i in u.messages
      ensures Describes(u.messages[i], acked) <==> i == id
    {
      SameDescribes(m.messages[i], u.messages[i], acked);
    }
    forall i, j, c, l | i in u.messages && j in u.messages && HasLocal(u.messages[i], c, l) &&
      HasLocal(u.messages[j], c, l)
      ensures i == j
    {
      assert HasLocal(m.messages[i], c, l) && HasLocal(m.messages[j], c, l);
      if i == id && j != id {
        LocalDescribes(m.messages[j], acked);
      } else if j == id && i != id {
        LocalDescribes(m.messages[i], acked);
      } else if i != id && j != id {
        assert HasLocal(t.messages[i], c, l) && HasLocal(t.messages[j], c, l);
      }
    }
  }

  /**
   * Being acknowledged does not move a message: the row keeps the optimistic row's id and
   * position, else the caller's id at the network copy's position, else takes the next number.
   */
  lemma AckKeepsPlace(t: Tables, acked: Record)
    requires Sound(t) && LocalsUnique(t.messages)
    requires FullAck(acked) && ApplyAck(t, acked).Ok?
    ensures var u := ApplyAck(t, acked).value;
            var optimistic := set i | i in t.messages && HasLocal(t.messages[i], acked.channelId, acked.localId.value);
            var copies := set i | i in t.messages && InChannel(t.messages[i], acked.channelId) &&
                                  HasServer(t.messages[i], acked.serverId.value);
            && (forall i :: i in optimistic ==>
                  i in u.messages && Describes(u.messages[i], acked) &&
                  u.messages[i].record.orderSeq == t.messages[i].record.orderSeq)
            && (optimistic == {} ==> acked.id in u.messages && Describes(u.messages[acked.id], acked))
            && (forall i :: optimistic == {} && i in copies ==>
                  u.messages[acked.id].record.orderSeq == t.messages[i].record.orderSeq)
            && (optimistic == {} && copies == {} && acked.orderSeq.None? ==>
                  u.messages[acked.id].record.orderSeq == Some(t.orderSeq + 1))
  {
    hide DisplaySortKey, First, Reconcile;
    AckLeavesOneRow(t, acked);
    AckPutsOnce(t, acked);
    AckedTablesRows(t, acked);
    AckLookups(t.messages, acked);
    ReconcileSame(AckedTables(t, acked), acked.channelId);
  }

  lemma SameDescribes(a: Stored, b: Stored, acked: Record)
    requires a.record == b.record
    ensures Describes(a, acked) <==> Describes(b, acked)
  {
  }

  lemma LocalDescribes(row: Stored, acked: Record)
    ensures acked.localId.Some? && HasLocal(row, acked.channelId, acked.localId.value) ==> Describes(row, acked)
  {
  }

  /** Before the reconcile: only the acknowledged row describes the message. */
  lemma AckPutsOnce(t: Tables, acked: Record)
    requires WellKeyed(t.messages) && LocalsUnique(t.messages)
    requires FullAck(acked) && ApplyAck(t, acked).Ok?
    ensures var m := AckedTables(t, acked).messages;
            var id := AckedId(t.messages, acked);
            && ApplyAck(t, acked).value == Reconcile(AckedTables(t, acked), acked.channelId)
            && (forall i :: i in m ==> (Describes(m[i], acked) <==> i == id))
            && (forall i :: i in t.messages && !Describes(t.messages[i], acked) ==> i in m)
  {
  }

  // ----- The one message an ack can lose -----

  /** Some message the ack is not about is gone or changed afterwards. */
  ghost predicate LosesAnother(t: Tables, acked: Record)
    requires ApplyAck(t, acked).Ok?
  {
    var u := ApplyAck(t, acked).value;
    exists i :: i in t.messages && !Describes(t.messages[i], acked) &&
      (i !in u.messages || u.messages[i].record != t.messages[i].record)
  }

  /**
   * The caller's id is trusted when the optimistic row is gone. Another message is lost exactly
   * when that id already names a row that is not this message.
   */
  lemma AckLosesAnotherExactlyWhen(t: Tables, acked: Record)
    requires WellKeyed(t.messages) && LocalsUnique(t.messages)
    requires FullAck(acked) && ApplyAck(t, acked).Ok?
    ensures LosesAnother(t, acked) <==>
              LocalOf(t.messages, acked).None? && acked.id in t.messages && !Describes(t.messages[acked.id], acked)
  {
    hide DisplaySortKey, First, ApplyAck, Describes;
    AckLeavesOneRow(t, acked);
    AckLookups(t.messages, acked);
    var id := AckedId(t.messages, acked);
    var u := ApplyAck(t, acked).value;
    if LocalOf(t.messages, acked).Some? {
      LocalDescribes(t.messages[id], acked);
    } else if id in t.messages && !Describes(t.messages[id], acked) {
      SameDescribesOrDiffers(u.messages[id], t.messages[id], acked);
      assert u.messages[id].record != t.messages[id].record;
    }
  }

  lemma SameDescribesOrDiffers(a: Stored, b: Stored, acked: Record)
    requires Describes(a, acked) && !Describes(b, acked)
    ensures a.record != b.record
  {
  }

  // ----- When an ack is refused -----

  /**
   * An ack aborts exactly when its server id is taken by a row of another channel, unless that
   * row is the one the ack is written over.
   */
  lemma AckAbortsExactlyWhen(t: Tables, acked: Record)
    requires WellKeyed(t.messages) && FullAck(acked)
    ensures ApplyAck(t, acked).Err? <==>
              exists i :: i in t.messages && HasServer(t.messages[i], acked.serverId.value) &&
                !InChannel(t.messages[i], acked.channelId) && i != AckedId(t.messages, acked)
  {
    hide DisplaySortKey, First, Reconcile;
    AckLookups(t.messages, acked);
    var row := AckedRow(t, acked);
    var rest := t.messages - Absorbed(t.messages, acked);
    assert row.record.serverId == acked.serverId && row.record.id == AckedId(t.messages, acked);
    if i :| i in t.messages && HasServer(t.messages[i], acked.serverId.value) &&
            !InChannel(t.messages[i], acked.channelId) && i != AckedId(t.messages, acked) {
      assert i in rest && HasServer(rest[i], acked.serverId.value);
    }
  }

  // ----- Applying an ack twice -----

  lemma AckTwiceIsOnce(t: Tables, acked: Record)
    requires Sound(t) && LocalsUnique(t.messages) && AckNumberIsOwn(t, acked)
    requires FullAck(acked) && ApplyAck(t, acked).Ok?
    ensures var u := ApplyAck(t, acked).value;
            ApplyAck(u, acked) == Ok(u)
  {
    hide DisplaySortKey, First, Describes, FindByLocal, FindInChannel;
    AckLeavesOneRow(t, acked);
    AckKeeps(t, acked);
    var id := AckedId(t.messages, acked);
    var u := ApplyAck(t, acked).value;
    SecondAckFindsRow(u, acked, id);
    RepeatedAck(u, acked, id);
  }

  lemma SecondAckFindsRow(u: Tables, acked: Record, id: Id)
    requires Sound(u) && FullAck(acked) && id in u.messages
    requires u.messages[id].record == acked.(id := id, orderSeq := u.messages[id].record.orderSeq)
    requires forall i :: i in u.messages ==> (Describes(u.messages[i], acked) <==> i == id)
    ensures LocalOf(u.messages, acked) == Some(u.messages[id])
    ensures RemoteOf(u.messages, acked) == Some(u.messages[id])
  {
    hide DisplaySortKey, First;
    AckLookups(u.messages, acked);
    assert HasLocal(u.messages[id], acked.channelId, acked.localId.value);
    assert InChannel(u.messages[id], acked.channelId) && HasServer(u.messages[id], acked.serverId.value);
  }

  lemma RepeatedAck(u: Tables, acked: Record, id: Id)
    requires Sound(u) && FullAck(acked) && id in u.messages && ModeExact(u, acked.channelId)
    requires u.messages[id].record == acked.(id := id, orderSeq := u.messages[id].record.orderSeq)
    requires LocalOf(u.messages, acked) == Some(u.messages[id])
    requires RemoteOf(u.messages, acked) == Some(u.messages[id])
    ensures ApplyAck(u, acked) == Ok(u)
  {
    hide DisplaySortKey, LocalOf, RemoteOf, HasGap;
    assert Absorbed(u.messages, acked) == {};
    assert AckedRow(u, acked) == u.messages[id];
    assert u.messages - {} == u.messages;
    assert u.messages[id := u.messages[id]] == u.messages;
    assert Admissible(u.messages, u.messages[id]);
  }
}
