// `local_data_error` is documented as an end state. It is one exactly while no local replay of
// the row is in flight: `updateOutboxStatus` is a get followed by a put
// (src/cache/outbox-store.ts), and the put can arrive after a repair pass has given up.

module LeaseRelapse {
  import opened Text
  import opened Records
  import opened CacheTables
  import opened OutboxTable
  import opened LeaseProtocol
  import opened LeaseInvariant
  import opened LeaseTheorems

  lemma {:induction false} LegalSnoc(s: State, run: seq<Step>, step: Step)
    requires Legal(s, run) && Enabled(After(s, run), step)
    ensures Legal(s, run + [step]) && After(s, run + [step]) == Next(After(s, run), step)
    decreases |run|
  {
    hide Enabled, Next;
    if run == [] {
      assert run + [step] == [step] && [step][1..] == [];
    } else {
      assert (run + [step])[1..] == run[1..] + [step];
      LegalSnoc(Next(s, run[0]), run[1..], step);
    }
  }

  function AckFrom(entry: OutboxEntry): Record
    requires entry.ackedServerId.Some?
  {
    Record("", entry.channelId, entry.ackedServerId, Some(entry.localId), None, None, "", "", "", [], 0, None, Sent,
      None)
  }

  /** A replay whose local commit aborts reads its row; `held` is the copy it goes on to patch. */
  lemma FailedReplay(s: State, actor: nat, id: Id) returns (run: seq<Step>)
    requires Inv(s) && id in s.t.outbox && s.t.outbox[id].status == AckPending && actor !in s.replays
    ensures Legal(s, run)
    ensures After(s, run) == s.(replays := s.replays[actor := Replay(s.t.outbox[id], Holding(s.t.outbox[id]))])
  {
    hide Inv, ApplyAck;
    var entry := s.t.outbox[id];
    KnownRow(s, id);
    run := [];
    var load, commit, read := LoadReplay(actor, id), CommitReplay(actor, AckFrom(entry), true), ReadForReplay(actor);
    LegalSnoc(s, run, load);
    run := run + [load];
    LegalSnoc(s, run, commit);
    run := run + [commit];
    LegalSnoc(s, run, read);
    run := run + [read];
    assert After(s, run).replays == s.replays[actor := Replay(entry, Holding(entry))];
  }

  /** From a quarantined row a repair pass whose replay aborts can give up at once. */
  lemma AbortedRepair(s: State, actor: nat, id: Id, token: string) returns (run: seq<Step>)
    requires Inv(s) && actor !in s.repairs && token !in s.tokens && CanClaimRepair(s.t.outbox, id, s.now)
    ensures Legal(s, run)
    ensures var e := After(s, run);
            var row := RepairClaimed(s.t.outbox[id], token, s.now, 1);
            && e.replays == s.replays && e.now == s.now
            && id in e.t.outbox && e.t.outbox[id] == row
            && actor in e.repairs && e.repairs[actor] == Repair(row, token, Unrepaired)
  {
    hide Inv, ApplyAck, Enqueue, Upsert, FailurePatch, UncommittedPatch, RepairPatch, Claimed, NoteDelivery;
    KnownRow(s, id);
    run := [];
    var claim := ClaimRepair(actor, id, token, 1);
    var commit := CommitRepair(actor, AckFrom(RepairClaimed(s.t.outbox[id], token, s.now, 1)), true);
    LegalSnoc(s, run, claim);
    run := run + [claim];
    LegalSnoc(s, run, commit);
    run := run + [commit];
  }

  lemma FailedRepair(s: State, actor: nat, id: Id, token: string) returns (run: seq<Step>)
    requires Inv(s) && actor !in s.repairs && token !in s.tokens && CanClaimRepair(s.t.outbox, id, s.now)
    ensures Legal(s, run)
    ensures var e := After(s, run);
            && e.replays == s.replays && e.now == s.now
            && id in e.t.outbox && e.t.outbox[id].status == LocalDataError
  {
    hide Inv, ApplyAck, Enqueue, Upsert, FailurePatch, UncommittedPatch, Claimed, NoteDelivery, RetireAndAck, Legal,
      After;
    KnownRow(s, id);
    run := AbortedRepair(s, actor, id, token);
    var record := RecordRepair(actor, true, 0, "repair failed");
    LegalSnoc(s, run, record);
    run := run + [record];
  }

  /**
   * From every reachable state with an `ack_pending` row there is a run that declares the row
   * `local_data_error` and one more step that makes it `ack_pending` again.
   */
  lemma LocalDataErrorCanRelapse(s: State, id: Id, first: nat, second: nat, token: string)
    returns (run: seq<Step>, last: Step)
    requires Inv(s) && id in s.t.outbox && s.t.outbox[id].status == AckPending
    requires first !in s.replays && second !in s.replays && first != second && 0 !in s.repairs && token !in s.tokens
    requires OrZero(s.t.outbox[id].repairUntil) <= s.now
    ensures Legal(s, run) && Legal(s, run + [last])
    ensures id in After(s, run).t.outbox && After(s, run).t.outbox[id].status == LocalDataError
    ensures id in After(s, run + [last]).t.outbox && After(s, run + [last]).t.outbox[id].status == AckPending
  {
    hide Inv, Enabled, Next, Legal, After;
    var entry := s.t.outbox[id];
    KnownRow(s, id);
    var a := FailedReplay(s, first, id);
    InvAlways(s, a);
    var s1 := After(s, a);
    var b := FailedReplay(s1, second, id);
    InvAlways(s1, b);
    var s2 := After(s1, b);
    var quarantine := WriteReplay(second, Quarantine("", "", "row gone"));
    var s3 := QuarantineStep(s2, second, id, quarantine);
    var c := FailedRepair(s3, 0, id, token);
    InvAlways(s3, c);
    last := WriteReplay(first, RetryLocally(0, "storage"));
    var s4 := After(s3, c);
    PutBack(s4, first, id, last);
    JoinRuns(s, a, b);
    LegalSnoc(s, a + b, quarantine);
    JoinRuns(s, a + b + [quarantine], c);
    run := a + b + [quarantine] + c;
    LegalSnoc(s, run, last);
  }

  lemma {:induction false} JoinRuns(s: State, a: seq<Step>, b: seq<Step>)
    requires Legal(s, a) && Legal(After(s, a), b)
    ensures Legal(s, a + b) && After(s, a + b) == After(After(s, a), b)
    decreases |a|
  {
    hide Enabled, Next;
    if a == [] {
      assert a + b == b;
    } else {
      assert (a + b)[1..] == a[1..] + b;
      JoinRuns(Next(s, a[0]), a[1..], b);
    }
  }

  lemma QuarantineStep(s: State, actor: nat, id: Id, step: Step) returns (u: State)
    requires Inv(s) && actor in s.replays && s.replays[actor].phase.Holding?
    requires s.replays[actor].entry.outboxId == id && s.replays[actor].phase.copy.status == AckPending
    requires OrZero(s.replays[actor].phase.copy.repairUntil) <= s.now
    requires step == WriteReplay(actor, Quarantine("", "", "row gone"))
    ensures Enabled(s, step) && u == Next(s, step) && Inv(u)
    ensures CanClaimRepair(u.t.outbox, id, u.now)
    ensures u.replays == s.replays - {actor} && u.repairs == s.repairs && u.tokens == s.tokens && u.now == s.now
  {
    hide Inv;
    SettlingEntries(s);
    u := Next(s, step);
    StepKeeps(s, step);
  }

  lemma PutBack(s: State, actor: nat, id: Id, step: Step)
    requires Inv(s) && actor in s.replays && s.replays[actor].phase.Holding?
    requires s.replays[actor].entry.outboxId == id
    requires step == WriteReplay(actor, RetryLocally(0, "storage"))
    ensures Enabled(s, step)
    ensures id in Next(s, step).t.outbox && Next(s, step).t.outbox[id].status == AckPending
  {
  }

  // ----- When giving up is final -----

  /** Some local replay of the row is in flight. */
  ghost predicate Replaying(s: State, id: Id)
  {
    exists k :: k in s.replays && s.replays[k].entry.outboxId == id
  }

  /** The row is given up or retired, and nothing is left that could put it back. */
  ghost predicate GivenUp(s: State, id: Id)
  {
    && id in s.commands && id in s.delivered && !Replaying(s, id)
    && (id in s.t.outbox ==> s.t.outbox[id].status == LocalDataError)
  }

  lemma SendStepKeepsGivenUp(s: State, step: Step, id: Id)
    requires Inv(s) && Enabled(s, step) && GivenUp(s, id)
    requires step.RecordFailure? || step.CommitSend? || step.RecordUncommitted?
    ensures GivenUp(Next(s, step), id)
  {
    hide Inv, ApplyAck, ApplyPatch;
    DeliveredStays(s, step, id);
    var a := s.attempts[step.actor];
    if OwnsSend(s.t.outbox, a.entry.outboxId, a.token) {
      OwnerAlone(s, step.actor);
    }
    AckKeepsOutboxOf(s, step);
  }

  /** The ack of a commit step leaves every other outbox row alone. */
  lemma AckKeepsOutboxOf(s: State, step: Step)
    ensures step.CommitSend? && step.actor in s.attempts ==>
              var t := s.t.(outbox := s.t.outbox - {s.attempts[step.actor].entry.outboxId});
              ApplyAck(t, step.acked).Ok? ==> ApplyAck(t, step.acked).value.outbox == t.outbox
    ensures step.CommitReplay? && step.actor in s.replays ==>
              var t := s.t.(outbox := s.t.outbox - {s.replays[step.actor].entry.outboxId});
              ApplyAck(t, step.acked).Ok? ==> ApplyAck(t, step.acked).value.outbox == t.outbox
    ensures step.CommitRepair? && step.actor in s.repairs ==>
              var t := s.t.(outbox := s.t.outbox - {s.repairs[step.actor].entry.outboxId});
              ApplyAck(t, step.acked).Ok? ==> ApplyAck(t, step.acked).value.outbox == t.outbox
    ensures step.SyncAck? && ApplyAck(s.t, step.acked).Ok? ==> ApplyAck(s.t, step.acked).value.outbox == s.t.outbox
  {
    hide ApplyAck;
    if step.CommitSend? && step.actor in s.attempts {
      AckKeepsOutbox(s.t.(outbox := s.t.outbox - {s.attempts[step.actor].entry.outboxId}), step.acked);
    }
    if step.CommitReplay? && step.actor in s.replays {
      AckKeepsOutbox(s.t.(outbox := s.t.outbox - {s.replays[step.actor].entry.outboxId}), step.acked);
    }
    if step.CommitRepair? && step.actor in s.repairs {
      AckKeepsOutbox(s.t.(outbox := s.t.outbox - {s.repairs[step.actor].entry.outboxId}), step.acked);
    }
    if step.SyncAck? {
      AckKeepsOutbox(s.t, step.acked);
    }
  }

  lemma ReplayStepKeepsGivenUp(s: State, step: Step, id: Id)
    requires Inv(s) && Enabled(s, step) && GivenUp(s, id)
    requires step.LoadReplay? || step.CommitReplay? || step.ReadForReplay? || step.WriteReplay?
    ensures GivenUp(Next(s, step), id)
  {
    hide Inv, ApplyAck, ApplyPatch;
    DeliveredStays(s, step, id);
    AckKeepsOutboxOf(s, step);
    if step.LoadReplay? {
      KnownRow(s, step.id);
    }
  }

  lemma RepairStepKeepsGivenUp(s: State, step: Step, id: Id)
    requires Inv(s) && Enabled(s, step) && GivenUp(s, id)
    requires step.ClaimRepair? || step.CommitRepair? || step.RecordRepair?
    ensures GivenUp(Next(s, step), id)
  {
    hide Inv, ApplyAck;
    DeliveredStays(s, step, id);
    AckKeepsOutboxOf(s, step);
  }

  lemma OtherStepKeepsGivenUp(s: State, step: Step, id: Id)
    requires Inv(s) && Enabled(s, step) && GivenUp(s, id)
    requires step.Enqueued? || step.Tick? || step.ClaimSend? || step.ServerAccepts? || step.CrashSend? ||
             step.CrashReplay? ||
             step.CrashRepair? || step.Wire? || step.SyncAck?
    ensures GivenUp(Next(s, step), id)
  {
    hide Inv, ApplyAck, Upsert, Admissible, QueuedRow, Addable;
    DeliveredStays(s, step, id);
    AckKeepsOutboxOf(s, step);
    if step.Wire? {
      UpsertKeepsOutbox(s.t, step.records);
    }
  }

  lemma {:induction false} GivenUpForever(s: State, run: seq<Step>, id: Id)
    requires Inv(s) && Legal(s, run) && GivenUp(s, id)
    ensures GivenUp(After(s, run), id)
    decreases |run|
  {
    hide Inv, Enabled, Next, GivenUp;
    if run != [] {
      var step := run[0];
      StepKeeps(s, step);
      if step.RecordFailure? || step.CommitSend? || step.RecordUncommitted? {
        SendStepKeepsGivenUp(s, step, id);
      } else if step.LoadReplay? || step.CommitReplay? || step.ReadForReplay? || step.WriteReplay? {
        ReplayStepKeepsGivenUp(s, step, id);
      } else if step.ClaimRepair? || step.CommitRepair? || step.RecordRepair? {
        RepairStepKeepsGivenUp(s, step, id);
      } else {
        OtherStepKeepsGivenUp(s, step, id);
      }
      GivenUpForever(Next(s, step), run[1..], id);
    }
  }

  /** A replay that has read the row, or still can, ends by putting `ack_pending` back. */
  lemma ReplayPutsBack(s: State, k: nat, id: Id) returns (run: seq<Step>)
    requires Inv(s) && k in s.replays && s.replays[k].entry.outboxId == id && id in s.t.outbox
    ensures Legal(s, run)
    ensures id in After(s, run).t.outbox && After(s, run).t.outbox[id].status == AckPending
  {
    hide Inv, ApplyAck, Enqueue, Upsert, Enabled, Next, Legal, After;
    run := [];
    var u := s;
    NoSteps(s);
    if u.replays[k].phase == Loaded {
      var abort := CommitReplay(k, AckFrom(ReplayEntry(u, k)), true);
      AbortStep(u, k, abort);
      LegalSnoc(s, run, abort);
      run, u := run + [abort], Next(u, abort);
    }
    if u.replays[k].phase == Unapplied {
      var read := ReadForReplay(k);
      ReadStep(u, k, id, read);
      LegalSnoc(s, run, read);
      run, u := run + [read], Next(u, read);
    }
    var last := WriteReplay(k, RetryLocally(0, "storage"));
    PutBack(u, k, id, last);
    LegalSnoc(s, run, last);
    run := run + [last];
  }

  lemma NoSteps(s: State)
    ensures Legal(s, []) && After(s, []) == s
  {
  }

  /** The snapshot a replay works on; it carries the server's answer. */
  function ReplayEntry(s: State, k: nat): (e: OutboxEntry)
    requires Inv(s) && k in s.replays
    ensures e == s.replays[k].entry && e.ackedServerId.Some?
  {
    s.replays[k].entry
  }

  lemma AbortStep(s: State, k: nat, step: Step)
    requires Inv(s) && k in s.replays && s.replays[k].phase == Loaded
    requires step == CommitReplay(k, AckFrom(ReplayEntry(s, k)), true)
    ensures Enabled(s, step)
    ensures Inv(Next(s, step)) && Next(s, step) == s.(replays := s.replays[k := s.replays[k].(phase := Unapplied)])
  {
    hide Inv;
    StepKeeps(s, step);
  }

  lemma ReadStep(s: State, k: nat, id: Id, step: Step)
    requires Inv(s) && k in s.replays && s.replays[k].phase == Unapplied
    requires s.replays[k].entry.outboxId == id && id in s.t.outbox && step == ReadForReplay(k)
    ensures Enabled(s, step)
    ensures Inv(Next(s, step)) &&
            Next(s, step) == s.(replays := s.replays[k := s.replays[k].(phase := Holding(s.t.outbox[id]))])
  {
    hide Inv;
    StepKeeps(s, step);
  }

  /**
   * A row given up stays given up, or is retired, in every run exactly when no local replay of it
   * is in flight. With one in flight, some run puts the row back.
   */
  lemma LocalDataErrorFinalExactlyWhen(s: State, id: Id)
    requires Inv(s) && id in s.t.outbox && s.t.outbox[id].status == LocalDataError
    ensures !Replaying(s, id) <==>
              forall run :: Legal(s, run) && id in After(s, run).t.outbox ==>
                After(s, run).t.outbox[id].status == LocalDataError
  {
    hide Inv, Legal, After;
    KnownRow(s, id);
    if Replaying(s, id) {
      var k :| k in s.replays && s.replays[k].entry.outboxId == id;
      var run := ReplayPutsBack(s, k, id);
    } else {
      forall run | Legal(s, run) && id in After(s, run).t.outbox
        ensures After(s, run).t.outbox[id].status == LocalDataError
      {
        GivenUpForever(s, run, id);
      }
    }
  }

  // ----- When a retired command stays retired -----

  /** Some local replay of the row holds a copy it is about to put back. */
  ghost predicate HoldsCopy(s: State, id: Id)
  {
    exists k :: k in s.replays && s.replays[k].entry.outboxId == id && s.replays[k].phase.Holding?
  }

  /** The command was enqueued once, is gone from the outbox, and no copy of it is held. */
  ghost predicate LeftOutbox(s: State, id: Id)
  {
    id in s.commands && id !in s.t.outbox && !HoldsCopy(s, id)
  }

  lemma SendStepKeepsRetired(s: State, step: Step, id: Id)
    requires Enabled(s, step) && LeftOutbox(s, id)
    requires step.RecordFailure? || step.CommitSend? || step.RecordUncommitted? || step.ClaimSend? ||
             step.ServerAccepts? || step.CrashSend?
    ensures LeftOutbox(Next(s, step), id)
  {
    hide ApplyAck, ApplyPatch, FailurePatch, UncommittedPatch, RepairPatch, Enqueue, Upsert, AckFor;
    AckKeepsOutboxOf(s, step);
  }

  lemma ReplayStepKeepsRetired(s: State, step: Step, id: Id)
    requires Inv(s) && Enabled(s, step) && LeftOutbox(s, id)
    requires step.LoadReplay? || step.CommitReplay? || step.ReadForReplay? || step.WriteReplay? || step.CrashReplay?
    ensures LeftOutbox(Next(s, step), id)
  {
    hide Inv, ApplyAck, ApplyPatch, FailurePatch, UncommittedPatch, RepairPatch, Enqueue, Upsert, AckFor,
      CommitSendStep, FencedWrite, Claimed, RepairClaimed;
    AckKeepsOutboxOf(s, step);
  }

  lemma OtherStepKeepsRetired(s: State, step: Step, id: Id)
    requires Enabled(s, step) && LeftOutbox(s, id)
    requires step.ClaimRepair? || step.CommitRepair? || step.RecordRepair? || step.CrashRepair? || step.Enqueued? ||
             step.Tick? || step.Wire? || step.SyncAck?
    ensures LeftOutbox(Next(s, step), id)
  {
    hide ApplyAck, ApplyPatch, FailurePatch, UncommittedPatch, RepairPatch, Upsert, AckFor, Admissible, QueuedRow,
      Addable, CommitSendStep, Claimed;
    AckKeepsOutboxOf(s, step);
    if step.Wire? {
      UpsertKeepsOutbox(s.t, step.records);
    }
  }

  lemma {:induction false} RetiredForever(s: State, run: seq<Step>, id: Id)
    requires Inv(s) && Legal(s, run) && LeftOutbox(s, id)
    ensures LeftOutbox(After(s, run), id)
    decreases |run|
  {
    hide Inv, Enabled, Next, Retired;
    if run != [] {
      var step := run[0];
      StepKeeps(s, step);
      if step.RecordFailure? || step.CommitSend? || step.RecordUncommitted? || step.ClaimSend? || step.ServerAccepts? ||
        step.CrashSend? {
        SendStepKeepsRetired(s, step, id);
      } else if step.LoadReplay? || step.CommitReplay? || step.ReadForReplay? || step.WriteReplay? ||
        step.CrashReplay? {
        ReplayStepKeepsRetired(s, step, id);
      } else {
        OtherStepKeepsRetired(s, step, id);
      }
      RetiredForever(Next(s, step), run[1..], id);
    }
  }

  /**
   * A command that has left the outbox stays out of it in every run exactly when no local replay of
   * it holds a copy: the put after the get does not ask whether the row is still there.
   */
  lemma RetiredFinalExactlyWhen(s: State, id: Id)
    requires Inv(s) && id in s.commands && id !in s.t.outbox
    ensures !HoldsCopy(s, id) <==> forall run :: Legal(s, run) ==> id !in After(s, run).t.outbox
  {
    hide Inv, Legal, After, Enabled, Next;
    if HoldsCopy(s, id) {
      var k :| k in s.replays && s.replays[k].entry.outboxId == id && s.replays[k].phase.Holding?;
      var put := WriteReplay(k, RetryLocally(0, "storage"));
      PutBack(s, k, id, put);
      NoSteps(s);
      LegalSnoc(s, [], put);
    } else {
      forall run | Legal(s, run)
        ensures id !in After(s, run).t.outbox
      {
        RetiredForever(s, run, id);
      }
    }
  }
}
