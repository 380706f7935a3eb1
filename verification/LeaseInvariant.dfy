// Every step of the lease protocol keeps its invariant.

module LeaseInvariant {
  import opened Text
  import opened Records
  import opened CacheTables
  import opened OutboxTable
  import opened LeaseProtocol

  lemma AckKeepsOutbox(t: Tables, acked: Record)
    ensures ApplyAck(t, acked).Ok? ==> ApplyAck(t, acked).value.outbox == t.outbox
  {
  }

  lemma {:induction false} ReconcileAllKeepsOutbox(t: Tables, channels: seq<Id>)
    ensures ReconcileAll(t, channels).outbox == t.outbox
    decreases |channels|
  {
    hide Rekey, WantedMode;
    if channels != [] {
      ReconcileAllKeepsOutbox(t, channels[..|channels| - 1]);
    }
  }

  lemma UpsertKeepsOutbox(t: Tables, records: seq<Record>)
    ensures Upsert(t, records).Ok? ==> Upsert(t, records).value.outbox == t.outbox
  {
    hide UpsertEach, ReconcileAll;
    if records != [] && Upsert(t, records).Ok? {
      var b := UpsertEach(t.messages, t.orderModes, records, t.orderSeq).value;
      ReconcileAllKeepsOutbox(t.(messages := b.messages, orderSeq := t.orderSeq + |records|), ChannelsOf(records));
    }
  }

  /** Nothing but phases, crashes, time and the message table changed. */
  ghost predicate Quiet(s: State, u: State)
  {
    && u.t.outbox == s.t.outbox
    && u.tokens == s.tokens && u.commands == s.commands && u.delivered == s.delivered
    && s.now <= u.now
    && (forall k :: k in u.attempts ==>
          k in s.attempts && u.attempts[k] == s.attempts[k].(phase := u.attempts[k].phase))
    && (forall k :: k in u.replays ==>
          k in s.replays && u.replays[k].entry == s.replays[k].entry &&
          (u.replays[k].phase.Holding? ==> u.replays[k] == s.replays[k]))
    && (forall k :: k in u.repairs ==> k in s.repairs && u.repairs[k].entry == s.repairs[k].entry)
  }

  lemma QuietKeeps(s: State, u: State)
    requires Inv(s) && Quiet(s, u)
    ensures Inv(u)
  {
  }

  // ----- A command added -----

  ghost predicate Added(s: State, u: State, id: Id, row: OutboxEntry)
  {
    && u == s.(t := u.t, commands := s.commands[id := IdentOf(row)])
    && u.t.outbox == s.t.outbox[id := row]
    && id !in s.commands && row.outboxId == id && row.status == OutboxPending && row.leaseToken == None
  }

  lemma AddedRows(s: State, u: State, id: Id, row: OutboxEntry)
    requires RowsKnown(s) && DeliveredAgree(s) && Added(s, u, id, row)
    ensures RowsKnown(u) && DeliveredAgree(u)
  {
  }

  lemma AddedActors(s: State, u: State, id: Id, row: OutboxEntry)
    requires AttemptsFenced(s) && ReplaysSettle(s) && RepairsSettle(s) && Added(s, u, id, row)
    ensures AttemptsFenced(u) && ReplaysSettle(u) && RepairsSettle(u)
  {
    hide DeliveredStatus, IdentOf;
    forall k | k in u.attempts
      ensures Fenced(u, u.attempts[k])
    {
      assert Fenced(s, s.attempts[k]);
    }
    forall k | k in u.replays && u.replays[k].phase.Holding?
      ensures HarmlessCopy(u, u.replays[k].phase.copy)
    {
      assert HarmlessCopy(s, s.replays[k].phase.copy);
    }
  }

  lemma EnqueueKeeps(s: State, message: Record, command: OutboxEntry)
    requires Inv(s) && Enabled(s, Enqueued(message, command))
    ensures Inv(Next(s, Enqueued(message, command)))
  {
    hide Admissible, QueuedRow, Addable, RowsKnown, AttemptsFenced, DeliveredAgree, ReplaysSettle, RepairsSettle;
    var u := Next(s, Enqueued(message, command));
    var row := command.(messageId := message.id);
    if Enqueue(s.t, message, command).Ok? {
      AddedRows(s, u, command.outboxId, row);
      AddedActors(s, u, command.outboxId, row);
    }
  }

  // ----- One row written -----

  /** One row written, by a step that leaves no running attempt owning it. */
  ghost predicate Wrote(s: State, u: State, id: Id, row: OutboxEntry)
  {
    && u.t.outbox == s.t.outbox[id := row]
    && s.tokens <= u.tokens && u.commands == s.commands && u.now == s.now
    && row.outboxId == id && id in s.commands && IdentOf(row) == s.commands[id]
    && (row.leaseToken.Some? ==> row.leaseToken.value in u.tokens)
    && (u.delivered == s.delivered ||
        (id !in s.delivered && id in u.delivered && u.delivered == s.delivered[id := u.delivered[id]]))
    && (DeliveredStatus(row.status) <==> id in u.delivered)
    && (id in u.delivered ==> row.ackedServerId == Some(u.delivered[id]))
  }

  ghost predicate AttemptsLeft(s: State, u: State, id: Id, row: OutboxEntry)
  {
    forall k :: k in u.attempts ==>
      && k in s.attempts && u.attempts[k] == s.attempts[k]
      && row.leaseToken != Some(s.attempts[k].token)
      && (s.attempts[k].entry.outboxId == id ==> s.attempts[k].until <= s.now)
  }

  ghost predicate SettlersLeft(s: State, u: State)
  {
    && (forall k :: k in u.replays ==> k in s.replays && u.replays[k] == s.replays[k])
    && (forall k :: k in u.repairs ==>
         Settling(u, u.repairs[k].entry) || (k in s.repairs && u.repairs[k] == s.repairs[k]))
  }

  lemma WroteRows(s: State, u: State, id: Id, row: OutboxEntry)
    requires RowsKnown(s) && DeliveredAgree(s) && Wrote(s, u, id, row)
    ensures RowsKnown(u) && DeliveredAgree(u)
  {
  }

  lemma WroteAttempts(s: State, u: State, id: Id, row: OutboxEntry)
    requires AttemptsFenced(s) && Wrote(s, u, id, row) && AttemptsLeft(s, u, id, row)
    ensures AttemptsFenced(u)
  {
    hide DeliveredStatus, IdentOf;
    forall k | k in u.attempts
      ensures Fenced(u, u.attempts[k])
    {
      assert Fenced(s, s.attempts[k]);
    }
  }

  lemma WroteSettlers(s: State, u: State, id: Id, row: OutboxEntry)
    requires RowsKnown(s) && ReplaysSettle(s) && RepairsSettle(s)
    requires Wrote(s, u, id, row) && AttemptsLeft(s, u, id, row) && SettlersLeft(s, u)
    ensures ReplaysSettle(u) && RepairsSettle(u)
  {
  }

  lemma WroteKeeps(s: State, u: State, id: Id, row: OutboxEntry)
    requires Inv(s) && Wrote(s, u, id, row) && AttemptsLeft(s, u, id, row) && SettlersLeft(s, u)
    ensures Inv(u)
  {
    hide Wrote, AttemptsLeft, SettlersLeft, RowsKnown, AttemptsFenced, DeliveredAgree, ReplaysSettle, RepairsSettle;
    WroteRows(s, u, id, row);
    WroteAttempts(s, u, id, row);
    WroteSettlers(s, u, id, row);
  }

  /** While an attempt owns its row, no other attempt's lease on that command still runs. */
  lemma OwnerAlone(s: State, actor: nat)
    requires Inv(s) && actor in s.attempts
    requires OwnsSend(s.t.outbox, s.attempts[actor].entry.outboxId, s.attempts[actor].token)
    ensures var id := s.attempts[actor].entry.outboxId;
            && id !in s.delivered
            && s.t.outbox[id].status == Sending
            && forall k :: k in s.attempts && k != actor ==>
                 && s.t.outbox[id].leaseToken != Some(s.attempts[k].token)
                 && (s.attempts[k].entry.outboxId == id ==> s.attempts[k].until <= s.now)
  {
  }

  /** A delivered command's row may be removed or overwritten: no live lease is on it. */
  lemma DeliveredUnowned(s: State, id: Id)
    requires Inv(s) && id in s.delivered
    ensures forall k :: k in s.attempts ==>
              && !OwnsSend(s.t.outbox, id, s.attempts[k].token)
              && (s.attempts[k].entry.outboxId == id ==> s.attempts[k].until <= s.now)
  {
  }

  lemma PatchKeeps(row: OutboxEntry, patch: Patch, clock: nat)
    ensures var p := ApplyPatch(row, patch, clock);
            && p.outboxId == row.outboxId && IdentOf(p) == IdentOf(row) && p.leaseToken == row.leaseToken
            && p.status == OrKeep(patch.status, row.status)
            && p.ackedServerId == (if patch.ackedServerId.Some? then patch.ackedServerId else row.ackedServerId)
  {
  }

  lemma ClaimSendKeeps(s: State, actor: nat, id: Id, token: string, leaseMs: nat)
    requires Inv(s) && Enabled(s, ClaimSend(actor, id, token, leaseMs))
    ensures Inv(Next(s, ClaimSend(actor, id, token, leaseMs)))
  {
    hide Inv;
    var u := Next(s, ClaimSend(actor, id, token, leaseMs));
    var row := Claimed(s.t.outbox[id], token, s.now, leaseMs);
    // First as if nobody held the new lease, then with its holder.
    var w := u.(attempts := s.attempts);
    KnownRow(s, id);
    ClaimableUnowned(s, id, token);
    WroteKeeps(s, w, id, row);
    NewTokenOwns(s, w, id, row, u.attempts[actor]);
    AttemptJoins(w, u, actor);
  }

  /** A token that was never handed out owns the claimed row, and nothing else carries it. */
  lemma NewTokenOwns(s: State, w: State, id: Id, row: OutboxEntry, a: Attempt)
    requires Inv(s) && w.t.outbox == s.t.outbox[id := row] && w.commands == s.commands && w.replays == s.replays
    requires a.token !in s.tokens && a.token in w.tokens && row.leaseToken == Some(a.token)
    requires a.entry == row && row.outboxId == id && id in s.commands && IdentOf(row) == s.commands[id]
    requires row.status == Sending && row.leaseUntil == Some(a.until)
    ensures Fenced(w, a)
    ensures forall k :: k in w.replays && w.replays[k].phase.Holding? ==>
              w.replays[k].phase.copy.leaseToken != Some(a.token)
  {
  }

  lemma ClaimableUnowned(s: State, id: Id, token: string)
    requires Inv(s) && CanClaim(s.t.outbox, id, s.now) && token !in s.tokens
    ensures id !in s.delivered
    ensures forall k :: k in s.attempts ==>
              && token != s.attempts[k].token
              && (s.attempts[k].entry.outboxId == id ==> s.attempts[k].until <= s.now)
  {
  }

  /** The holder of a brand-new token joins. */
  lemma AttemptJoins(w: State, u: State, actor: nat)
    requires Inv(w) && actor !in w.attempts && actor in u.attempts
    requires u == w.(attempts := w.attempts[actor := u.attempts[actor]])
    requires Fenced(w, u.attempts[actor])
    requires forall k :: k in w.attempts ==> w.attempts[k].token != u.attempts[actor].token
    requires forall k :: k in w.replays && w.replays[k].phase.Holding? ==>
               w.replays[k].phase.copy.leaseToken != Some(u.attempts[actor].token)
    ensures Inv(u)
  {
    hide DeliveredStatus, IdentOf;
    forall k | k in u.attempts
      ensures Fenced(u, u.attempts[k])
    {
      assert k != actor ==> Fenced(w, w.attempts[k]);
    }
    forall k | k in u.replays && u.replays[k].phase.Holding?
      ensures HarmlessCopy(u, u.replays[k].phase.copy)
    {
      assert HarmlessCopy(w, w.replays[k].phase.copy);
    }
  }

  lemma RecordFailureKeeps(s: State, actor: nat, nextAt: nat, error: string)
    requires Inv(s) && Enabled(s, RecordFailure(actor, nextAt, error))
    ensures Inv(Next(s, RecordFailure(actor, nextAt, error)))
  {
    hide Inv, ApplyPatch;
    var u := Next(s, RecordFailure(actor, nextAt, error));
    var a := s.attempts[actor];
    var id := a.entry.outboxId;
    if !OwnsSend(s.t.outbox, id, a.token) {
      QuietKeeps(s, u);
    } else {
      OwnerAlone(s, actor);
      KnownRow(s, id);
      var patch := FailurePatch(a.entry, nextAt, error, s.now);
      PatchKeeps(s.t.outbox[id], patch, s.now);
      WroteKeeps(s, u, id, ApplyPatch(s.t.outbox[id], patch, s.now));
    }
  }

  /** What the invariant says about a row that is there. */
  lemma KnownRow(s: State, id: Id)
    requires Inv(s) && id in s.t.outbox
    ensures var row := s.t.outbox[id];
            && row.outboxId == id && id in s.commands && IdentOf(row) == s.commands[id]
            && (row.leaseToken.Some? ==> row.leaseToken.value in s.tokens)
            && (DeliveredStatus(row.status) <==> id in s.delivered)
            && (id in s.delivered ==> row.ackedServerId == Some(s.delivered[id]))
  {
  }

  lemma RecordUncommittedKeeps(s: State, actor: nat, verdict: Verdict)
    requires Inv(s) && Enabled(s, RecordUncommitted(actor, verdict))
    ensures Inv(Next(s, RecordUncommitted(actor, verdict)))
  {
    hide Inv, ApplyPatch;
    var u := Next(s, RecordUncommitted(actor, verdict));
    var a := s.attempts[actor];
    var id := a.entry.outboxId;
    if !OwnsSend(s.t.outbox, id, a.token) {
      QuietKeeps(s, u);
    } else {
      OwnerAlone(s, actor);
      KnownRow(s, id);
      var patch := UncommittedPatch(a.entry, a.phase.serverId, a.phase.seqNo, verdict, s.now);
      PatchKeeps(s.t.outbox[id], patch, s.now);
      WroteKeeps(s, u, id, ApplyPatch(s.t.outbox[id], patch, s.now));
    }
  }

  // ----- One row retired -----

  ghost predicate Retired(s: State, u: State, id: Id)
  {
    && Quiet(s, u.(t := s.t, delivered := s.delivered)) && u.now == s.now
    && u.t.outbox == s.t.outbox - {id} && id in s.commands
    && (u.delivered == s.delivered ||
        (id !in s.delivered && id in u.delivered && u.delivered == s.delivered[id := u.delivered[id]]))
    && (forall k :: k in u.attempts && s.attempts[k].entry.outboxId == id ==> s.attempts[k].until <= s.now)
  }

  lemma RetiredRows(s: State, u: State, id: Id)
    requires RowsKnown(s) && DeliveredAgree(s) && Retired(s, u, id)
    ensures RowsKnown(u) && DeliveredAgree(u)
  {
  }

  lemma RetiredAttempts(s: State, u: State, id: Id)
    requires AttemptsFenced(s) && Retired(s, u, id)
    ensures AttemptsFenced(u)
  {
    hide DeliveredStatus, IdentOf;
    forall k | k in u.attempts
      ensures Fenced(u, u.attempts[k])
    {
      assert Fenced(s, s.attempts[k]);
    }
  }

  lemma RetiredSettlers(s: State, u: State, id: Id)
    requires ReplaysSettle(s) && RepairsSettle(s) && Retired(s, u, id)
    ensures ReplaysSettle(u) && RepairsSettle(u)
  {
    hide DeliveredStatus, IdentOf;
    forall k | k in u.replays && u.replays[k].phase.Holding?
      ensures HarmlessCopy(u, u.replays[k].phase.copy)
    {
      assert HarmlessCopy(s, s.replays[k].phase.copy);
    }
  }

  lemma RetireKeeps(s: State, u: State, id: Id)
    requires Inv(s) && Retired(s, u, id)
    ensures Inv(u)
  {
    hide Retired, RowsKnown, AttemptsFenced, DeliveredAgree, ReplaysSettle, RepairsSettle;
    RetiredRows(s, u, id);
    RetiredAttempts(s, u, id);
    RetiredSettlers(s, u, id);
  }

  /** The ack of a send that does not land leaves the outbox alone. */
  lemma CommitSendQuiet(s: State, actor: nat, acked: Record, aborts: bool)
    requires actor in s.attempts && s.attempts[actor].phase.Accepted?
    requires var id := s.attempts[actor].entry.outboxId;
             aborts || !OwnsSend(s.t.outbox, id, s.attempts[actor].token) || RetireAndAck(s.t, id, acked, aborts).Err?
    ensures Quiet(s, CommitSendStep(s, actor, acked, aborts))
  {
    hide RetireAndAck, OwnsSend;
  }

  /** One that lands retires its row. */
  lemma CommitSendRetires(s: State, actor: nat, acked: Record)
    requires actor in s.attempts && s.attempts[actor].phase.Accepted?
    requires var id := s.attempts[actor].entry.outboxId;
             && OwnsSend(s.t.outbox, id, s.attempts[actor].token) && RetireAndAck(s.t, id, acked, false).Ok?
             && id in s.commands && id !in s.delivered
             && forall k :: k in s.attempts && k != actor && s.attempts[k].entry.outboxId == id ==>
                  s.attempts[k].until <= s.now
    ensures Retired(s, CommitSendStep(s, actor, acked, false), s.attempts[actor].entry.outboxId)
  {
    hide ApplyAck, OwnsSend;
    AckKeepsOutbox(s.t.(outbox := s.t.outbox - {s.attempts[actor].entry.outboxId}), acked);
  }

  lemma CommitSendKeeps(s: State, actor: nat, acked: Record, aborts: bool)
    requires Inv(s) && Enabled(s, CommitSend(actor, acked, aborts))
    ensures Inv(Next(s, CommitSend(actor, acked, aborts)))
  {
    hide Inv, ApplyAck, Quiet, Retired, AckFor;
    var u := Next(s, CommitSend(actor, acked, aborts));
    var a := s.attempts[actor];
    var id := a.entry.outboxId;
    if aborts || !OwnsSend(s.t.outbox, id, a.token) || RetireAndAck(s.t, id, acked, aborts).Err? {
      CommitSendQuiet(s, actor, acked, aborts);
      QuietKeeps(s, u);
    } else {
      OwnerAlone(s, actor);
      KnownRow(s, id);
      CommitSendRetires(s, actor, acked);
      RetireKeeps(s, u, id);
    }
  }

  lemma LoadReplayKeeps(s: State, actor: nat, id: Id)
    requires Inv(s) && Enabled(s, LoadReplay(actor, id))
    ensures Inv(Next(s, LoadReplay(actor, id)))
  {
    var u := Next(s, LoadReplay(actor, id));
    assert Settling(s, s.t.outbox[id]);
    assert forall k :: k in s.attempts ==> Fenced(s, s.attempts[k]) ==> Fenced(u, s.attempts[k]);
  }

  /** What the invariant says about a replay's or a repair pass's command. */
  lemma SettlingEntries(s: State)
    requires Inv(s)
    ensures forall k :: k in s.replays ==> Settling(s, s.replays[k].entry)
    ensures forall k :: k in s.replays && s.replays[k].phase.Holding? ==>
              HarmlessCopy(s, s.replays[k].phase.copy) &&
                s.replays[k].phase.copy.outboxId == s.replays[k].entry.outboxId
    ensures forall k :: k in s.repairs ==> Settling(s, s.repairs[k].entry)
  {
  }

  lemma CommitReplayKeeps(s: State, actor: nat, acked: Record, aborts: bool)
    requires Inv(s) && Enabled(s, CommitReplay(actor, acked, aborts))
    ensures Inv(Next(s, CommitReplay(actor, acked, aborts)))
  {
    hide Inv, ApplyAck;
    var u := Next(s, CommitReplay(actor, acked, aborts));
    var id := s.replays[actor].entry.outboxId;
    AckKeepsOutbox(s.t.(outbox := s.t.outbox - {id}), acked);
    if RetireAndAck(s.t, id, acked, aborts).Ok? {
      SettlingEntries(s);
      DeliveredUnowned(s, id);
      RetireKeeps(s, u, id);
    } else {
      QuietKeeps(s, u);
    }
  }

  lemma CommitRepairKeeps(s: State, actor: nat, acked: Record, aborts: bool)
    requires Inv(s) && Enabled(s, CommitRepair(actor, acked, aborts))
    ensures Inv(Next(s, CommitRepair(actor, acked, aborts)))
  {
    hide Inv, ApplyAck;
    var u := Next(s, CommitRepair(actor, acked, aborts));
    var r := s.repairs[actor];
    AckKeepsOutbox(s.t.(outbox := s.t.outbox - {r.entry.outboxId}), acked);
    if OwnsRepair(s.t.outbox, r.entry.outboxId, r.token) && RetireAndAck(s.t, r.entry.outboxId, acked, aborts).Ok? {
      SettlingEntries(s);
      DeliveredUnowned(s, r.entry.outboxId);
      RetireKeeps(s, u, r.entry.outboxId);
    } else {
      QuietKeeps(s, u);
    }
  }

  lemma ReadForReplayKeeps(s: State, actor: nat)
    requires Inv(s) && Enabled(s, ReadForReplay(actor))
    ensures Inv(Next(s, ReadForReplay(actor)))
  {
    var u := Next(s, ReadForReplay(actor));
    var id := s.replays[actor].entry.outboxId;
    if id in s.t.outbox {
      DeliveredUnowned(s, id);
      KnownRow(s, id);
      assert HarmlessCopy(s, s.t.outbox[id]);
      ReplayHolds(s, u, actor);
    } else {
      QuietKeeps(s, u);
    }
  }

  lemma ReplayHolds(s: State, u: State, actor: nat)
    requires Inv(s) && actor in s.replays && actor in u.replays
    requires u == s.(replays := s.replays[actor := u.replays[actor]])
    requires u.replays[actor].entry == s.replays[actor].entry && u.replays[actor].phase.Holding?
    requires HarmlessCopy(s, u.replays[actor].phase.copy)
    requires u.replays[actor].phase.copy.outboxId == s.replays[actor].entry.outboxId
    ensures Inv(u)
  {
    hide DeliveredStatus, IdentOf;
    forall k | k in u.replays && u.replays[k].phase.Holding?
      ensures HarmlessCopy(u, u.replays[k].phase.copy)
    {
      assert k != actor ==> HarmlessCopy(s, s.replays[k].phase.copy);
    }
    forall k | k in u.attempts
      ensures Fenced(u, u.attempts[k])
    {
      assert Fenced(s, s.attempts[k]);
    }
  }

  lemma WriteReplayKeeps(s: State, actor: nat, verdict: Verdict)
    requires Inv(s) && Enabled(s, WriteReplay(actor, verdict))
    ensures Inv(Next(s, WriteReplay(actor, verdict)))
  {
    hide Inv, ApplyPatch;
    var u := Next(s, WriteReplay(actor, verdict));
    var r := s.replays[actor];
    var id := r.entry.outboxId;
    SettlingEntries(s);
    DeliveredUnowned(s, id);
    var patch := UncommittedPatch(r.entry, r.entry.ackedServerId.value, OrZero(r.entry.ackedSeq), verdict, s.now);
    PatchKeeps(r.phase.copy, patch, s.now);
    WroteKeeps(s, u, id, ApplyPatch(r.phase.copy, patch, s.now));
  }

  lemma ClaimRepairKeeps(s: State, actor: nat, id: Id, token: string, leaseMs: nat)
    requires Inv(s) && Enabled(s, ClaimRepair(actor, id, token, leaseMs))
    ensures Inv(Next(s, ClaimRepair(actor, id, token, leaseMs)))
  {
    hide Inv;
    var u := Next(s, ClaimRepair(actor, id, token, leaseMs));
    KnownRow(s, id);
    DeliveredUnowned(s, id);
    WroteKeeps(s, u, id, RepairClaimed(s.t.outbox[id], token, s.now, leaseMs));
  }

  lemma RecordRepairKeeps(s: State, actor: nat, giveUp: bool, nextAt: nat, error: string)
    requires Inv(s) && Enabled(s, RecordRepair(actor, giveUp, nextAt, error))
    ensures Inv(Next(s, RecordRepair(actor, giveUp, nextAt, error)))
  {
    hide Inv, ApplyPatch;
    var u := Next(s, RecordRepair(actor, giveUp, nextAt, error));
    var r := s.repairs[actor];
    var id := r.entry.outboxId;
    if OwnsRepair(s.t.outbox, id, r.token) {
      SettlingEntries(s);
      KnownRow(s, id);
      DeliveredUnowned(s, id);
      var patch := RepairPatch(giveUp, nextAt, error, s.now);
      PatchKeeps(s.t.outbox[id], patch, s.now);
      WroteKeeps(s, u, id, ApplyPatch(s.t.outbox[id], patch, s.now));
    } else {
      QuietKeeps(s, u);
    }
  }

  lemma WireKeeps(s: State, records: seq<Record>)
    requires Inv(s)
    ensures Inv(Next(s, Wire(records)))
  {
    hide Upsert, Fenced;
    UpsertKeepsOutbox(s.t, records);
    QuietKeeps(s, Next(s, Wire(records)));
  }

  lemma SyncAckKeeps(s: State, acked: Record)
    requires Inv(s)
    ensures Inv(Next(s, SyncAck(acked)))
  {
    hide ApplyAck, Fenced;
    AckKeepsOutbox(s.t, acked);
    QuietKeeps(s, Next(s, SyncAck(acked)));
  }

  lemma StepKeeps(s: State, step: Step)
    requires Inv(s) && Enabled(s, step)
    ensures Inv(Next(s, step))
  {
    hide Inv, ApplyAck, Upsert;
    match step
    case Enqueued(message, command) => EnqueueKeeps(s, message, command);
    case ClaimSend(actor, id, token, leaseMs) => ClaimSendKeeps(s, actor, id, token, leaseMs);
    case RecordFailure(actor, nextAt, error) => RecordFailureKeeps(s, actor, nextAt, error);
    case CommitSend(actor, acked, aborts) => CommitSendKeeps(s, actor, acked, aborts);
    case RecordUncommitted(actor, verdict) => RecordUncommittedKeeps(s, actor, verdict);
    case LoadReplay(actor, id) => LoadReplayKeeps(s, actor, id);
    case CommitReplay(actor, acked, aborts) => CommitReplayKeeps(s, actor, acked, aborts);
    case ReadForReplay(actor) => ReadForReplayKeeps(s, actor);
    case WriteReplay(actor, verdict) => WriteReplayKeeps(s, actor, verdict);
    case ClaimRepair(actor, id, token, leaseMs) => ClaimRepairKeeps(s, actor, id, token, leaseMs);
    case CommitRepair(actor, acked, aborts) => CommitRepairKeeps(s, actor, acked, aborts);
    case RecordRepair(actor, giveUp, nextAt, error) => RecordRepairKeeps(s, actor, giveUp, nextAt, error);
    case Wire(records) => WireKeeps(s, records);
    case SyncAck(acked) => SyncAckKeeps(s, acked);
    case Tick(_) => QuietKeeps(s, Next(s, step));
    case ServerAccepts(_, _, _) => QuietKeeps(s, Next(s, step));
    case CrashSend(_) => QuietKeeps(s, Next(s, step));
    case CrashReplay(_) => QuietKeeps(s, Next(s, step));
    case CrashRepair(_) => QuietKeeps(s, Next(s, step));
  }
}
