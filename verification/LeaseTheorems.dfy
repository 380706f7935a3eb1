// What the lease protocol guarantees over whole runs.

module LeaseTheorems {
  import opened Text
  import opened Records
  import opened CacheTables
  import opened OutboxTable
  import opened LeaseProtocol
  import opened LeaseInvariant

  /** A database with an empty outbox and nobody at work; the messages are arbitrary. */
  predicate Initial(s: State)
  {
    && s.t.outbox == map[] && s.commands == map[] && s.delivered == map[] && s.tokens == {}
    && s.attempts == map[] && s.replays == map[] && s.repairs == map[]
  }

  ghost predicate Legal(s: State, run: seq<Step>)
    decreases |run|
  {
    run != [] ==> Enabled(s, run[0]) && Legal(Next(s, run[0]), run[1..])
  }

  ghost function After(s: State, run: seq<Step>): State
    requires Legal(s, run)
    decreases |run|
  {
    if run == [] then s else After(Next(s, run[0]), run[1..])
  }

  lemma {:induction false} InvAlways(s: State, run: seq<Step>)
    requires Inv(s) && Legal(s, run)
    ensures Inv(After(s, run))
    decreases |run|
  {
    hide Inv, Enabled, Next;
    if run != [] {
      StepKeeps(s, run[0]);
      InvAlways(Next(s, run[0]), run[1..]);
    }
  }

  lemma InitialInv(s: State)
    requires Initial(s)
    ensures Inv(s)
  {
  }

  // ----- Delivered is final -----

  lemma DeliveredStays(s: State, step: Step, id: Id)
    requires Inv(s) && Enabled(s, step) && id in s.delivered
    ensures id in Next(s, step).delivered && Next(s, step).delivered[id] == s.delivered[id]
  {
    hide Inv, ApplyAck, Upsert, ApplyPatch, Enqueue, FailurePatch, UncommittedPatch, RepairPatch, AckFor;
    match step
    case CommitSend(actor, acked, aborts) =>
      if OwnsSend(s.t.outbox, s.attempts[actor].entry.outboxId, s.attempts[actor].token) {
        OwnerAlone(s, actor);
      }
    case RecordUncommitted(actor, _) =>
      if OwnsSend(s.t.outbox, s.attempts[actor].entry.outboxId, s.attempts[actor].token) {
        OwnerAlone(s, actor);
      }
    case _ =>
  }

  lemma {:induction false} DeliveredForever(s: State, run: seq<Step>, id: Id)
    requires Inv(s) && Legal(s, run) && id in s.delivered
    ensures id in After(s, run).delivered && After(s, run).delivered[id] == s.delivered[id]
    decreases |run|
  {
    hide Inv, Enabled, Next;
    if run != [] {
      StepKeeps(s, run[0]);
      DeliveredStays(s, run[0], id);
      DeliveredForever(Next(s, run[0]), run[1..], id);
    }
  }

  /**
   * Once a row says the server has the message, no interleaving of sends, replays, repairs,
   * crashes and lease expiries brings it back to an unsent state or lets anyone claim it for
   * sending, and the server id recorded on it never changes.
   */
  lemma DeliveredIsFinal(start: State, before: seq<Step>, more: seq<Step>, id: Id)
    requires Initial(start) && Legal(start, before) && Legal(After(start, before), more)
    requires var m := After(start, before);
             id in m.t.outbox && DeliveredStatus(m.t.outbox[id].status)
    ensures var m := After(start, before);
            var e := After(m, more);
            && m.t.outbox[id].ackedServerId.Some?
            && !CanClaim(e.t.outbox, id, e.now)
            && (id in e.t.outbox ==>
                  DeliveredStatus(e.t.outbox[id].status) &&
                  e.t.outbox[id].ackedServerId == m.t.outbox[id].ackedServerId)
  {
    hide Inv, Enabled, Next, Legal, After;
    InitialInv(start);
    InvAlways(start, before);
    var m := After(start, before);
    InvAlways(m, more);
    var e := After(m, more);
    KnownRow(m, id);
    DeliveredForever(m, more, id);
    if id in e.t.outbox {
      KnownRow(e, id);
    }
  }

  // ----- Fencing -----

  /** At most one unexpired send lease exists per row, and it is the row's own. */
  lemma OneLiveLease(start: State, run: seq<Step>, k: nat, m: nat)
    requires Initial(start) && Legal(start, run)
    requires var s := After(start, run);
             && k in s.attempts && m in s.attempts
             && s.attempts[k].entry.outboxId == s.attempts[m].entry.outboxId
             && s.now < s.attempts[k].until && s.now < s.attempts[m].until
    ensures k == m
    ensures var s := After(start, run);
            && OwnsSend(s.t.outbox, s.attempts[k].entry.outboxId, s.attempts[k].token)
            && s.t.outbox[s.attempts[k].entry.outboxId].status == Sending
  {
    hide Enabled, Next, Legal, After;
    InitialInv(start);
    InvAlways(start, run);
    var s := After(start, run);
    assert Fenced(s, s.attempts[k]) && Fenced(s, s.attempts[m]);
  }

  /** The three writes a send attempt can end with. */
  predicate EndsAttempt(step: Step, k: nat)
  {
    match step
    case RecordFailure(actor, _, _) => actor == k
    case CommitSend(actor, _, _) => actor == k
    case RecordUncommitted(actor, _) => actor == k
    case _ => false
  }

  /** What an attempt writes after losing its lease changes no table, however its send ended. */
  lemma SupersededIsInert(s: State, step: Step, k: nat)
    requires Enabled(s, step) && EndsAttempt(step, k)
    requires !OwnsSend(s.t.outbox, s.attempts[k].entry.outboxId, s.attempts[k].token)
    ensures Next(s, step).t == s.t && Next(s, step).delivered == s.delivered
  {
  }

  /**
   * The converse: while its lease still runs, an attempt is never fenced out. Recording a
   * failure really marks the row, and recording a delivery really stores the server's answer.
   */
  lemma LiveLeaseLands(s: State, step: Step, k: nat)
    requires Inv(s) && Enabled(s, step) && EndsAttempt(step, k) && s.now < s.attempts[k].until
    ensures var id := s.attempts[k].entry.outboxId;
            var u := Next(s, step);
            match step
            case RecordFailure(_, _, _) => id in u.t.outbox && u.t.outbox[id].status == OutboxFailed
            case RecordUncommitted(_, _) =>
              id in u.t.outbox && u.t.outbox[id].status in {AckPending, IntegrityError} &&
              u.t.outbox[id].ackedServerId == Some(s.attempts[k].phase.serverId)
            case CommitSend(_, acked, aborts) =>
              if aborts || ApplyAck(s.t.(outbox := s.t.outbox - {id}), acked).Err? then u.t == s.t && k in u.attempts
              else id !in u.t.outbox && id in u.delivered
            case _ => true
  {
    hide Inv, ApplyAck;
    RunningOwns(s, k);
    if step.CommitSend? {
      AckKeepsOutbox(s.t.(outbox := s.t.outbox - {s.attempts[k].entry.outboxId}), step.acked);
    }
  }

  lemma RunningOwns(s: State, k: nat)
    requires Inv(s) && k in s.attempts && s.now < s.attempts[k].until
    ensures OwnsSend(s.t.outbox, s.attempts[k].entry.outboxId, s.attempts[k].token)
  {
  }

  /** The row's send token is one it already carried, or no running attempt's. */
  ghost predicate TokenIsOldOrFree(s: State, u: State, id: Id)
  {
    id in u.t.outbox ==>
      || u.t.outbox[id].leaseToken == None
      || (id in s.t.outbox && u.t.outbox[id].leaseToken == s.t.outbox[id].leaseToken)
      || (forall k :: k in s.attempts ==> u.t.outbox[id].leaseToken != Some(s.attempts[k].token))
  }

  lemma RecordKeepsTokens(s: State, step: Step, id: Id)
    requires Inv(s) && Enabled(s, step) && (step.RecordFailure? || step.RecordUncommitted? || step.RecordRepair?)
    ensures TokenIsOldOrFree(s, Next(s, step), id)
  {
    hide Inv, ApplyPatch;
    match step
    case RecordFailure(actor, nextAt, error) =>
      var a := s.attempts[actor];
      if OwnsSend(s.t.outbox, a.entry.outboxId, a.token) {
        PatchKeeps(s.t.outbox[a.entry.outboxId], FailurePatch(a.entry, nextAt, error, s.now), s.now);
      }
    case RecordUncommitted(actor, verdict) =>
      var a := s.attempts[actor];
      if OwnsSend(s.t.outbox, a.entry.outboxId, a.token) {
        PatchKeeps(s.t.outbox[a.entry.outboxId],
          UncommittedPatch(a.entry, a.phase.serverId, a.phase.seqNo, verdict, s.now), s.now);
      }
    case RecordRepair(actor, giveUp, nextAt, error) =>
      var r := s.repairs[actor];
      if OwnsRepair(s.t.outbox, r.entry.outboxId, r.token) {
        PatchKeeps(s.t.outbox[r.entry.outboxId], RepairPatch(giveUp, nextAt, error, s.now), s.now);
      }
  }

  lemma CommitKeepsTokens(s: State, step: Step, id: Id)
    requires Inv(s) && Enabled(s, step) && (step.CommitSend? || step.CommitReplay? || step.CommitRepair?)
    ensures TokenIsOldOrFree(s, Next(s, step), id)
  {
    hide Inv, ApplyAck;
    match step
    case CommitSend(actor, acked, _) => AckKeepsOutbox(s.t.(outbox := s.t.outbox - {s.attempts[actor].entry.outboxId}),
      acked);
    case CommitReplay(actor, acked, _) => AckKeepsOutbox(s.t.(outbox := s.t.outbox - {s.replays[actor].entry.outboxId}),
      acked);
    case CommitRepair(actor, acked, _) => AckKeepsOutbox(s.t.(outbox := s.t.outbox - {s.repairs[actor].entry.outboxId}),
      acked);
  }

  lemma ClaimKeepsTokens(s: State, step: Step, id: Id)
    requires Inv(s) && Enabled(s, step) && (step.ClaimSend? || step.ClaimRepair? || step.WriteReplay? || step.Enqueued?)
    ensures TokenIsOldOrFree(s, Next(s, step), id)
  {
    hide Inv, ApplyPatch, Admissible, QueuedRow, Addable;
    match step
    case ClaimSend(_, claimed, token, _) => ClaimableUnowned(s, claimed, token);
    case WriteReplay(actor, verdict) =>
      SettlingEntries(s);
      var r := s.replays[actor];
      PatchKeeps(r.phase.copy, UncommittedPatch(r.entry, r.entry.ackedServerId.value, OrZero(r.entry.ackedSeq), verdict,
        s.now), s.now);
    case ClaimRepair(_, _, _, _) =>
    case Enqueued(_, _) =>
  }

  /** A step never puts a running attempt's token on a row that did not already carry it. */
  lemma TokensComeFromClaims(s: State, step: Step, id: Id)
    requires Inv(s) && Enabled(s, step)
    ensures TokenIsOldOrFree(s, Next(s, step), id)
  {
    hide Inv, ApplyAck, Upsert;
    if step.RecordFailure? || step.RecordUncommitted? || step.RecordRepair? {
      RecordKeepsTokens(s, step, id);
    } else if step.CommitSend? || step.CommitReplay? || step.CommitRepair? {
      CommitKeepsTokens(s, step, id);
    } else if step.ClaimSend? || step.ClaimRepair? || step.WriteReplay? || step.Enqueued? {
      ClaimKeepsTokens(s, step, id);
    } else if step.Wire? {
      UpsertKeepsOutbox(s.t, step.records);
    } else if step.SyncAck? {
      AckKeepsOutbox(s.t, step.acked);
    }
  }

  /** The attempt is the same one as before, or it holds a token never handed out until now. */
  ghost predicate SameOrNew(s: State, u: State, k: nat)
  {
    k in u.attempts ==>
      || (k in s.attempts && u.attempts[k].token == s.attempts[k].token && u.attempts[k].entry == s.attempts[k].entry)
      || u.attempts[k].token !in s.tokens
  }

  lemma SendKeepsAttempts(s: State, step: Step, k: nat)
    requires Enabled(s, step) && (step.ClaimSend? || step.ServerAccepts? || step.CommitSend?)
    ensures SameOrNew(s, Next(s, step), k)
  {
    hide ApplyAck, OwnsSend;
  }

  /** An attempt's command and token never change while it lives, and its token is never reissued. */
  lemma AttemptsKeepTokens(s: State, step: Step, k: nat)
    requires Enabled(s, step)
    ensures SameOrNew(s, Next(s, step), k)
  {
    if step.ClaimSend? || step.ServerAccepts? || step.CommitSend? {
      SendKeepsAttempts(s, step, k);
    } else {
      OthersKeepAttempts(s, step);
    }
  }

  lemma OthersKeepAttempts(s: State, step: Step)
    requires Enabled(s, step) && !(step.ClaimSend? || step.ServerAccepts? || step.CommitSend?)
    ensures forall k :: k in Next(s, step).attempts ==> k in s.attempts && Next(s, step).attempts[k] == s.attempts[k]
  {
    hide ApplyAck, Upsert, ApplyPatch, Enqueue, CommitSendStep, FencedWrite, RetireAndAck;
  }

  lemma TokensGrow(s: State, step: Step)
    requires Enabled(s, step)
    ensures s.tokens <= Next(s, step).tokens
  {
    hide ApplyAck, Upsert, ApplyPatch, Enqueue, RetireAndAck, FailurePatch, UncommittedPatch, RepairPatch, Claimed,
      RepairClaimed;
  }

  /** An attempt that has been fenced out stays fenced out for as long as it runs. */
  lemma {:induction false} SupersededForever(s: State, run: seq<Step>, k: nat, token: string)
    requires Inv(s) && Legal(s, run) && token in s.tokens
    requires k in s.attempts && s.attempts[k].token == token ==>
               !OwnsSend(s.t.outbox, s.attempts[k].entry.outboxId, token)
    ensures var e := After(s, run);
            k in e.attempts && e.attempts[k].token == token ==>
              !OwnsSend(e.t.outbox, e.attempts[k].entry.outboxId, token)
    decreases |run|
  {
    hide Inv, Enabled, Next;
    if run != [] {
      var u := Next(s, run[0]);
      StepKeeps(s, run[0]);
      TokensGrow(s, run[0]);
      if k in u.attempts {
        AttemptsKeepTokens(s, run[0], k);
        TokensComeFromClaims(s, run[0], u.attempts[k].entry.outboxId);
      }
      SupersededForever(u, run[1..], k, token);
    }
  }

  /**
   * Once an attempt has lost its lease, nothing it ends with changes a table, however long it
   * lives on and whatever the others do meanwhile.
   */
  lemma {:induction false} SupersededNeverWrites(start: State, before: seq<Step>, more: seq<Step>, k: nat, last: Step)
    requires Initial(start) && Legal(start, before) && Legal(After(start, before), more)
    requires var m := After(start, before);
             k in m.attempts && !OwnsSend(m.t.outbox, m.attempts[k].entry.outboxId, m.attempts[k].token)
    requires var m, e := After(start, before), After(After(start, before), more);
             Enabled(e, last) && EndsAttempt(last, k) && k in e.attempts && e.attempts[k].token == m.attempts[k].token
    ensures var e := After(After(start, before), more);
            Next(e, last).t == e.t && Next(e, last).delivered == e.delivered
  {
    hide Enabled, Next, Legal, After;
    InitialInv(start);
    InvAlways(start, before);
    var m := After(start, before);
    assert Fenced(m, m.attempts[k]);
    SupersededForever(m, more, k, m.attempts[k].token);
    SupersededIsInert(After(m, more), last, k);
  }
}
