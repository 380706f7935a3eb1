// The IndexedDB tables as one mutable object. Every method is one transaction
// (src/cache/indexeddb-store.ts, src/cache/outbox-store.ts): it commits, or it
// reports an error and leaves the tables as they were.

module CacheDatabase {
  import opened Text
  import opened Records
  import opened Merging
  import opened CacheTables
  import opened OutboxTable
  import opened IndexAgreement
  import opened Sorting

  class CacheDb {
    var messages: Messages
    var outbox: map<Id, OutboxEntry>
    var orderModes: map<Id, OrderMode>
    var orderSeq: nat
    var channels: map<Id, Channel>
    var syncState: map<Id, nat>

    function View(): Tables
      reads this
    {
      Tables(messages, outbox, orderModes, orderSeq, channels, syncState)
    }

    constructor ()
      ensures View() == EMPTY && Sound(View())
    {
      messages, outbox, orderModes, orderSeq, channels, syncState := map[], map[], map[], 0, map[], map[];
      new;
      EmptyIsSound();
    }

    // ----- Messages -----

    method AllocateOrderSeq(count: nat) returns (start: nat)
      modifies this`orderSeq
      ensures start == old(orderSeq) && orderSeq == old(orderSeq) + count
    {
      start := orderSeq;
      orderSeq := start + count;
    }

    /** Re-decide a channel's order mode and, when it changes, rewrite the channel's keys row by row. */
    method ReconcileOrderMode(channelId: Id) returns (want: OrderMode)
      modifies this`messages, this`orderModes
      ensures View() == Reconcile(old(View()), channelId)
      ensures want == WantedMode(old(messages), channelId)
    {
      var current := ModeOf(orderModes, channelId);
      want := WantedMode(messages, channelId);
      if want == current {
        return;
      }
      ghost var before := messages;
      var rest := messages.Keys;
      while rest != {}
        invariant rest <= before.Keys && messages.Keys == before.Keys
        invariant forall i :: i in rest ==> messages[i] == before[i]
        invariant forall i :: i in before && i !in rest ==> messages[i] == Rekey(before, channelId, want)[i]
        invariant orderModes == old(orderModes)
        decreases |rest|
      {
        var id :| id in rest;
        var row := messages[id];
        if InChannel(row, channelId) {
          messages := messages[id := row.(sortKey := DisplaySortKey(row.record, want))];
        }
        rest := rest - {id};
      }
      orderModes := orderModes[channelId := want];
      assert messages == Rekey(before, channelId, want);
    }

    /** One turn of the write loop: find the row, merge, stamp, put. */
    method WriteOne(record: Record, next: nat, ghost written: seq<Stored>) returns (r: Result<(nat, Stored),
                    StoreError>)
      modifies this`messages
      ensures var one := UpsertOne(Batch(old(messages), next, written), orderModes, record);
              && (r.Ok? ==> one == Ok(Batch(messages, r.value.0, written + [r.value.1])))
              && (r.Err? ==> one == Err(r.error) && messages == old(messages))
    {
      hide MergeWrite, DisplaySortKey, FindExisting, Admissible;
      var found := FindExisting(messages, record);
      if found.Err? {
        return Err(found.error);
      }
      // An id held in another channel would be a message moved between conversations: refuse.
      if found.value.Some? && found.value.value.record.channelId != record.channelId {
        return Err(MovedChannel);
      }
      var merged := MergeWrite(RecordOf(found.value), record, next + 1);
      var stamped := Stamp(merged, ModeOf(orderModes, record.channelId));
      var put := Put(messages, stamped);
      if put.Err? {
        return Err(put.error);
      }
      messages := put.value;
      return Ok((if TakesFreshSeq(found.value, record) then next + 1 else next, stamped));
    }

    /** Write rows; identity and order come off the row already on disk when there is one. */
    method UpsertMessages(records: seq<Record>) returns (r: Result<(), StoreError>)
      modifies this`messages, this`orderModes, this`orderSeq
      ensures r.Ok? <==> Upsert(old(View()), records).Ok?
      ensures r.Ok? ==> View() == Upsert(old(View()), records).value
      ensures r.Err? ==> View() == old(View()) && r.error == Upsert(old(View()), records).error
    {
      hide UpsertOne, Reconcile;
      if records == [] {
        return Ok(());
      }
      ghost var t0 := View();
      var rows, seqBefore := messages, orderSeq;
      var next := AllocateOrderSeq(|records|);
      var touched: seq<Id> := [];
      ghost var written: seq<Stored> := [];
      var k := 0;
      while k < |records|
        invariant 0 <= k <= |records|
        invariant UpsertEach(t0.messages, t0.orderModes, records[..k], t0.orderSeq) ==
                  Ok(Batch(messages, next, written))
        invariant touched == ChannelsOf(records[..k])
        invariant View() == t0.(messages := messages, orderSeq := t0.orderSeq + |records|)
      {
        var record := records[k];
        assert records[..k + 1][..k] == records[..k] && records[..k + 1][k] == record;
        var one := WriteOne(record, next, written);
        if one.Err? {
          UpsertFailureStays(t0, records, k + 1);
          messages, orderSeq := rows, seqBefore;
          return Err(one.error);
        }
        next, written := one.value.0, written + [one.value.1];
        if record.channelId !in touched {
          touched := touched + [record.channelId];
        }
        k := k + 1;
      }
      assert records[..|records|] == records;
      ghost var mid := View();
      k := 0;
      while k < |touched|
        invariant 0 <= k <= |touched|
        invariant View() == ReconcileAll(mid, touched[..k])
      {
        assert touched[..k + 1][..k] == touched[..k];
        var _ := ReconcileOrderMode(touched[k]);
        k := k + 1;
      }
      assert touched[..|touched|] == touched;
      return Ok(());
    }

    /** Apply a server ACK in place, absorbing whichever duplicate row was not kept. */
    method ApplyAckInPlace(acked: Record) returns (r: Result<(), StoreError>)
      modifies this`messages, this`orderModes, this`orderSeq
      ensures r.Ok? <==> ApplyAck(old(View()), acked).Ok?
      ensures r.Ok? ==> View() == ApplyAck(old(View()), acked).value
      ensures r.Err? ==> View() == old(View())
    {
      hide DisplaySortKey, LocalOf, RemoteOf, Admissible, Reconcile;
      var seqBefore := orderSeq;
      var local := LocalOf(messages, acked);
      var remote := RemoteOf(messages, acked);
      var id := if local.Some? then local.value.record.id else acked.id;
      var seqNo := OrElse(SeqOf(local), OrElse(SeqOf(remote), acked.orderSeq));
      var position: nat;
      if seqNo.Some? {
        position := seqNo.value;
      } else {
        var start := AllocateOrderSeq(1);
        position := start + 1;
      }
      var stamped := Stamp(acked.(id := id, orderSeq := Some(position)), ModeOf(orderModes, acked.channelId));
      assert stamped == AckedRow(old(View()), acked);
      var gone: set<Id> := {};
      if local.Some? {
        gone := gone + {local.value.record.id};
      }
      if remote.Some? {
        gone := gone + {remote.value.record.id};
      }
      gone := gone - {id};
      assert gone == Absorbed(messages, acked);
      var put := Put(messages - gone, stamped);
      if put.Err? {
        orderSeq := seqBefore;
        return Err(put.error);
      }
      messages := put.value;
      var _ := ReconcileOrderMode(acked.channelId);
      return Ok(());
    }

    /** The local echo and its command, in one transaction. */
    method CreateLocalMessageQueued(message: Record, command: OutboxEntry) returns (r: Result<(), StoreError>)
      modifies this`messages, this`outbox, this`orderSeq
      ensures r.Ok? <==> Enqueue(old(View()), message, command).Ok?
      ensures r.Ok? ==> View() == Enqueue(old(View()), message, command).value
      ensures r.Err? ==> View() == old(View())
    {
      var seqBefore, rows := orderSeq, messages;
      var start := AllocateOrderSeq(1);
      var stored := Stamp(message.(orderSeq := Some(start + 1)), ModeOf(orderModes, message.channelId));
      if stored.record.id in messages || !Admissible(messages, stored) {
        orderSeq := seqBefore;
        return Err(ConstraintError);
      }
      messages := messages[stored.record.id := stored];
      var linked := command.(messageId := stored.record.id);
      if !Addable(outbox, linked) {
        messages, orderSeq := rows, seqBefore;
        return Err(ConstraintError);
      }
      outbox := outbox[linked.outboxId := linked];
      return Ok(());
    }

    /** Apply the ACK and retire the command, in one transaction. */
    method CommitAckAndRetire(acked: Record, outboxId: Id) returns (r: Result<(), StoreError>)
      modifies this`messages, this`orderModes, this`orderSeq, this`outbox
      ensures r.Ok? <==> CommitAck(old(View()), acked, outboxId).Ok?
      ensures r.Ok? ==> View() == CommitAck(old(View()), acked, outboxId).value
      ensures r.Err? ==> View() == old(View())
    {
      r := ApplyAckInPlace(acked);
      if r.Ok? {
        outbox := outbox - {outboxId};
      }
    }

    // ----- Outbox -----

    /** Take a row for one send attempt: re-checked on disk, never on the caller's snapshot. */
    method ClaimOutboxEntry(id: Id, token: string, now: nat, leaseMs: nat) returns (claimed: Option<OutboxEntry>)
      modifies this`outbox
      ensures claimed.Some? <==> old(CanClaim(outbox, id, now))
      ensures claimed.Some? ==> claimed.value == Claimed(old(outbox)[id], token, now, leaseMs)
                                && outbox == old(outbox)[id := claimed.value]
      ensures claimed.None? ==> outbox == old(outbox)
    {
      if id !in outbox {
        return None;
      }
      var row := outbox[id];
      var claimable := row.status == OutboxPending || row.status == OutboxFailed ||
                       (row.status == Sending && OrZero(row.leaseUntil) <= now);
      if !claimable {
        return None;
      }
      var taken := row.(status := Sending, leaseToken := Some(token), leaseUntil := Some(now + leaseMs),
        updatedAt := now);
      outbox := outbox[id := taken];
      return Some(taken);
    }

    /** Apply a terminal transition only while the row is still ours. */
    method CommitOutboxTransition(id: Id, token: string, patch: Patch, clock: nat) returns (owned: bool)
      modifies this`outbox
      ensures owned == old(OwnsSend(outbox, id, token))
      ensures outbox == if owned then old(outbox)[id := ApplyPatch(old(outbox)[id], patch, clock)] else old(outbox)
    {
      if id !in outbox || outbox[id].leaseToken != Some(token) {
        return false;
      }
      outbox := outbox[id := ApplyPatch(outbox[id], patch, clock)];
      return true;
    }

    method DeleteOutboxEntryIfOwner(id: Id, token: string) returns (owned: bool)
      modifies this`outbox
      ensures owned == old(OwnsSend(outbox, id, token))
      ensures outbox == if owned then old(outbox) - {id} else old(outbox)
    {
      if id !in outbox || outbox[id].leaseToken != Some(token) {
        return false;
      }
      outbox := outbox - {id};
      return true;
    }

    /** Take one repair pass; the attempt is counted here. */
    method ClaimRepairRow(id: Id, token: string, now: nat, leaseMs: nat) returns (claimed: Option<OutboxEntry>)
      modifies this`outbox
      ensures claimed.Some? <==> old(CanClaimRepair(outbox, id, now))
      ensures claimed.Some? ==> claimed.value == RepairClaimed(old(outbox)[id], token, now, leaseMs)
                                && outbox == old(outbox)[id := claimed.value]
      ensures claimed.None? ==> outbox == old(outbox)
    {
      if id !in outbox || outbox[id].status != IntegrityError {
        return None;
      }
      var row := outbox[id];
      if OrZero(row.repairUntil) > now || OrZero(row.repairNextAt) > now {
        return None;
      }
      var taken := row.(repairAttempts := Some(OrZero(row.repairAttempts) + 1), repairToken := Some(token),
                        repairUntil := Some(now + leaseMs), updatedAt := now);
      outbox := outbox[id := taken];
      return Some(taken);
    }

    method CommitRepairTransition(id: Id, token: string, patch: Patch, clock: nat) returns (owned: bool)
      modifies this`outbox
      ensures owned == old(OwnsRepair(outbox, id, token))
      ensures outbox == if owned then old(outbox)[id := ApplyPatch(old(outbox)[id], patch, clock)] else old(outbox)
    {
      if id !in outbox || outbox[id].repairToken != Some(token) {
        return false;
      }
      outbox := outbox[id := ApplyPatch(outbox[id], patch, clock)];
      return true;
    }

    method DeleteOutboxEntryIfRepairOwner(id: Id, token: string) returns (owned: bool)
      modifies this`outbox
      ensures owned == old(OwnsRepair(outbox, id, token))
      ensures outbox == if owned then old(outbox) - {id} else old(outbox)
    {
      if id !in outbox || outbox[id].repairToken != Some(token) {
        return false;
      }
      outbox := outbox - {id};
      return true;
    }

    /** The rows ready for work, each once, oldest first. */
    method ListDueOutboxEntries(now: nat) returns (due: seq<OutboxEntry>)
      requires forall k :: k in outbox ==> outbox[k].outboxId == k
      ensures InOrder(due, Older)
      ensures forall row ::
                multiset(due)[row] ==
                (if row.outboxId in outbox && outbox[row.outboxId] == row && IsDue(row, now) then 1 else 0)
    {
      due := [];
      var rest := outbox.Keys;
      while rest != {}
        invariant rest <= outbox.Keys
        invariant InOrder(due, Older)
        invariant forall row ::
                    multiset(due)[row] ==
                    (if row.outboxId in outbox.Keys - rest && outbox[row.outboxId] == row && IsDue(row, now)
                     then 1 else 0)
        decreases |rest|
      {
        hide IsDue, InOrder;
        var id :| id in rest;
        rest := rest - {id};
        var row := outbox[id];
        if IsDue(row, now) {
          OlderIsWeak();
          InsertSpec(due, row, Older, (_, _) => false);
          InsertKeepsAll(due, row, Older);
          due := Insert(due, row, Older);
        }
      }
    }
  }

  predicate Older(a: OutboxEntry, b: OutboxEntry)
  {
    a.createdAt < b.createdAt
  }

  lemma OlderIsWeak()
    ensures WeakOrder(Older)
  {
  }

  /** A batch that fails on a prefix fails as a whole, with the same error. */
  lemma {:induction false} UpsertFailureStays(t: Tables, records: seq<Record>, k: nat)
    requires 0 < k <= |records|
    requires UpsertEach(t.messages, t.orderModes, records[..k], t.orderSeq).Err?
    ensures Upsert(t, records) == Err(UpsertEach(t.messages, t.orderModes, records[..k], t.orderSeq).error)
    decreases |records| - k
  {
    if k == |records| {
      assert records[..k] == records;
    } else {
      assert records[..k + 1][..k] == records[..k];
      UpsertFailureStays(t, records, k + 1);
    }
  }
}
