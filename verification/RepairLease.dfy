// The separate lease of repair passes (src/cache/outbox-store.ts, src/outbox-engine.ts). From a
// quarantined row nobody is repairing yet, it stays exclusive in every run exactly when no local
// replay of the row is in flight.

module RepairLease {
  import opened Text
  import opened Records
  import opened CacheTables
  import opened OutboxTable
  import opened LeaseProtocol
  import opened LeaseInvariant
  import opened LeaseTheorems
  import opened LeaseRelapse

  /** Quarantined, given up or retired, with no local replay that could put an old copy back. */
  ghost predicate Quarantined(s: State, id: Id)
  {
    && id in s.commands && id in s.delivered && !Replaying(s, id)
    && (id in s.t.outbox ==> s.t.outbox[id].status in {IntegrityError, LocalDataError})
  }

  predicate RepairLive(s: State, k: nat)
    requires k in s.repairs
  {
    s.now < OrZero(s.repairs[k].entry.repairUntil)
  }

  /** Passes on the row have their own tokens; one whose lease runs owns the row, under that lease. */
  ghost predicate RepairFenced(s: State, id: Id)
  {
    && (forall k :: k in s.repairs && s.repairs[k].entry.outboxId == id ==>
          && s.repairs[k].token in s.tokens
          && (RepairLive(s, k) ==> OwnsRepair(s.t.outbox, id, s.repairs[k].token))
          && (OwnsRepair(s.t.outbox, id, s.repairs[k].token) ==>
               s.t.outbox[id].repairUntil == s.repairs[k].entry.repairUntil))
    && (forall k, m ::
          (k in s.repairs && m in s.repairs && s.repairs[k].entry.outboxId == id == s.repairs[m].entry.outboxId &&
           s.repairs[k].token == s.repairs[m].token) ==> k == m)
  }

  ghost predicate Held(s: State, id: Id)
  {
    Quarantined(s, id) && RepairFenced(s, id)
  }

  /** The row and the passes on it are what they were, tokens only grow, time only passes. */
  ghost predicate RowAside(s: State, u: State, id: Id)
  {
    && id in u.commands && id in u.delivered && s.now <= u.now && s.tokens <= u.tokens
    && (id in u.t.outbox <==> id in s.t.outbox) && (id in s.t.outbox ==> u.t.outbox[id] == s.t.outbox[id])
    && (forall k :: k in u.repairs && u.repairs[k].entry.outboxId == id ==>
          k in s.repairs && u.repairs[k].entry == s.repairs[k].entry && u.repairs[k].token == s.repairs[k].token)
    && !Replaying(u, id)
  }

  lemma AsideHeld(s: State, u: State, id: Id)
    requires Held(s, id) && RowAside(s, u, id)
    ensures Held(u, id)
  {
  }

  lemma SendStepAside(s: State, step: Step, id: Id)
    requires Inv(s) && Enabled(s, step) && Held(s, id)
    requires step.RecordFailure? || step.CommitSend? || step.RecordUncommitted? || step.ClaimSend? ||
             step.ServerAccepts? || step.CrashSend?
    ensures RowAside(s, Next(s, step), id)
  {
    hide Inv, ApplyAck, ApplyPatch, FailurePatch, UncommittedPatch, RepairPatch, Enqueue, Upsert, RepairFenced, AckFor;
    DeliveredStays(s, step, id);
    if step.RecordFailure? || step.CommitSend? || step.RecordUncommitted? {
      var a := s.attempts[step.actor];
      if OwnsSend(s.t.outbox, a.entry.outboxId, a.token) {
        OwnerAlone(s, step.actor);
      }
    }
    AckKeepsOutboxOf(s, step);
  }

  lemma ReadingStepAside(s: State, step: Step, id: Id)
    requires Inv(s) && Enabled(s, step) && Held(s, id)
    requires step.LoadReplay? || step.ReadForReplay? || step.CrashReplay?
    ensures RowAside(s, Next(s, step), id)
  {
    hide Inv, ApplyAck, ApplyPatch, FailurePatch, UncommittedPatch, RepairPatch, Enqueue, Upsert, RepairFenced, AckFor,
      CommitSendStep, FencedWrite, Claimed, RepairClaimed, RetireAndAck;
    if step.LoadReplay? {
      KnownRow(s, step.id);
    }
  }

  lemma ReplayStepAside(s: State, step: Step, id: Id)
    requires Inv(s) && Enabled(s, step) && Held(s, id)
    requires step.LoadReplay? || step.CommitReplay? || step.ReadForReplay? || step.WriteReplay? || step.CrashReplay?
    ensures RowAside(s, Next(s, step), id)
  {
    hide Inv, ApplyAck, ApplyPatch, FailurePatch, UncommittedPatch, RepairPatch, Enqueue, Upsert, RepairFenced, AckFor,
      CommitSendStep, FencedWrite, Claimed, RepairClaimed;
    if step.CommitReplay? || step.WriteReplay? {
      DeliveredStays(s, step, id);
      AckKeepsOutboxOf(s, step);
    } else {
      ReadingStepAside(s, step, id);
    }
  }

  lemma EnqueueAside(s: State, message: Record, command: OutboxEntry, id: Id)
    requires Inv(s) && Enabled(s, Enqueued(message, command)) && Held(s, id)
    ensures RowAside(s, Next(s, Enqueued(message, command)), id)
  {
    hide Inv, Admissible, QueuedRow, Addable, RepairFenced;
  }

  lemma OtherStepAside(s: State, step: Step, id: Id)
    requires Inv(s) && Enabled(s, step) && Held(s, id)
    requires step.Enqueued? || step.Tick? || step.CrashRepair? || step.Wire? || step.SyncAck?
    ensures RowAside(s, Next(s, step), id)
  {
    hide Inv, ApplyAck, Upsert, Enqueue, NewCommand, RepairFenced, AckFor, CommitSendStep, FencedWrite, Claimed,
      RepairClaimed, RetireAndAck, FailurePatch, UncommittedPatch, RepairPatch;
    if step.Enqueued? {
      EnqueueAside(s, step.message, step.command, id);
    } else if step.Wire? {
      UpsertKeepsOutbox(s.t, step.records);
    } else {
      AckKeepsOutboxOf(s, step);
    }
  }

  lemma ClaimRepairHeld(s: State, actor: nat, claimed: Id, token: string, leaseMs: nat, id: Id)
    requires Inv(s) && Held(s, id) && Enabled(s, ClaimRepair(actor, claimed, token, leaseMs))
    ensures Held(Next(s, ClaimRepair(actor, claimed, token, leaseMs)), id)
  {
    hide Inv, ApplyAck, FailurePatch, UncommittedPatch, RepairPatch, Enqueue, Upsert;
    KnownRow(s, claimed);
    assert Quarantined(Next(s, ClaimRepair(actor, claimed, token, leaseMs)), id);
  }

  lemma CommitRepairHeld(s: State, step: Step, id: Id)
    requires Inv(s) && Held(s, id) && Enabled(s, step) && step.CommitRepair?
    ensures Held(Next(s, step), id)
  {
    hide Inv, ApplyAck, FailurePatch, UncommittedPatch, RepairPatch, Enqueue, Upsert, AckFor, ApplyPatch, Commit;
    AckKeepsOutboxOf(s, step);
    assert Quarantined(Next(s, step), id);
  }

  lemma RecordRepairHeld(s: State, step: Step, id: Id)
    requires Inv(s) && Held(s, id) && Enabled(s, step) && step.RecordRepair?
    ensures Held(Next(s, step), id)
  {
    hide Inv, ApplyAck, FailurePatch, UncommittedPatch, Enqueue, Upsert;
    assert Quarantined(Next(s, step), id);
  }

  lemma {:induction false} HeldForever(s: State, run: seq<Step>, id: Id)
    requires Inv(s) && Legal(s, run) && Held(s, id)
    ensures Held(After(s, run), id)
    decreases |run|
  {
    hide Inv, Enabled, Next, Held, RowAside;
    if run != [] {
      var step := run[0];
      var u := Next(s, step);
      StepKeeps(s, step);
      if step.RecordFailure? || step.CommitSend? || step.RecordUncommitted? || step.ClaimSend? || step.ServerAccepts? ||
        step.CrashSend? {
        SendStepAside(s, step, id);
        AsideHeld(s, u, id);
      } else if step.LoadReplay? || step.CommitReplay? || step.ReadForReplay? || step.WriteReplay? ||
        step.CrashReplay? {
        ReplayStepAside(s, step, id);
        AsideHeld(s, u, id);
      } else if step.ClaimRepair? {
        ClaimRepairHeld(s, step.actor, step.id, step.token, step.leaseMs, id);
      } else if step.CommitRepair? {
        CommitRepairHeld(s, step, id);
      } else if step.RecordRepair? {
        RecordRepairHeld(s, step, id);
      } else {
        OtherStepAside(s, step, id);
        AsideHeld(s, u, id);
      }
      HeldForever(u, run[1..], id);
    }
  }

  /** The row is quarantined and no pass is repairing it. */
  ghost predicate NobodyRepairs(s: State, id: Id)
  {
    && id in s.t.outbox && s.t.outbox[id].status == IntegrityError
    && forall k :: k in s.repairs ==> s.repairs[k].entry.outboxId != id
  }

  lemma UnrepairedHeld(s: State, id: Id)
    requires Inv(s) && NobodyRepairs(s, id) && !Replaying(s, id)
    ensures Held(s, id)
  {
    hide Inv;
    KnownRow(s, id);
  }

  /** A send attempt that quarantines its row leaves it so: no replay or repair of it can exist yet. */
  lemma QuarantinedByItsSend(s: State, actor: nat, verdict: Verdict)
    requires Inv(s) && Enabled(s, RecordUncommitted(actor, verdict)) && verdict.Quarantine?
    requires OwnsSend(s.t.outbox, s.attempts[actor].entry.outboxId, s.attempts[actor].token)
    ensures var (u, id) := (Next(s, RecordUncommitted(actor, verdict)), s.attempts[actor].entry.outboxId);
            Inv(u) && NobodyRepairs(u, id) && !Replaying(u, id)
  {
    hide Inv;
    StepKeeps(s, RecordUncommitted(actor, verdict));
    OwnerAlone(s, actor);
    SettlingEntries(s);
    KnownRow(s, s.attempts[actor].entry.outboxId);
  }

  /** Two passes on the row whose leases both run. */
  ghost predicate BothLive(s: State, id: Id, k: nat, m: nat)
  {
    && k in s.repairs && m in s.repairs && s.repairs[k].entry.outboxId == id == s.repairs[m].entry.outboxId
    && RepairLive(s, k) && RepairLive(s, m)
  }

  /** Without a replay in flight, at most one repair lease runs, and the row carries that pass's token. */
  lemma OneRepairLease(s: State, run: seq<Step>, id: Id, k: nat, m: nat)
    requires Inv(s) && NobodyRepairs(s, id) && !Replaying(s, id)
    requires Legal(s, run) && BothLive(After(s, run), id, k, m)
    ensures k == m && OwnsRepair(After(s, run).t.outbox, id, After(s, run).repairs[k].token)
  {
    hide Inv, Legal, After;
    UnrepairedHeld(s, id);
    HeldForever(s, run, id);
  }

  /** The two writes a repair pass can end with. */
  predicate EndsRepair(step: Step, k: nat)
  {
    (step.CommitRepair? || step.RecordRepair?) && step.actor == k
  }

  /** A pass on the row that does not own it: what it may still do changes no table. */
  lemma SupersededRepairIsInert(s: State, step: Step, k: nat)
    requires Enabled(s, step) && EndsRepair(step, k)
    requires !OwnsRepair(s.t.outbox, s.repairs[k].entry.outboxId, s.repairs[k].token)
    ensures Next(s, step).t == s.t
  {
    hide ApplyAck;
  }

  /** A pass that lost the row, or a token that names no pass, never owns it again. */
  ghost predicate Lost(s: State, id: Id, token: string)
  {
    token in s.tokens && !OwnsRepair(s.t.outbox, id, token)
  }

  lemma LostStays(s: State, step: Step, id: Id, token: string)
    requires Inv(s) && Enabled(s, step) && Held(s, id) && Lost(s, id, token)
    ensures Lost(Next(s, step), id, token)
  {
    hide Inv, ApplyAck, RowAside, RepairFenced, Enqueue, Upsert, FailurePatch, UncommittedPatch;
    TokensGrow(s, step);
    if step.RecordFailure? || step.CommitSend? || step.RecordUncommitted? || step.ClaimSend? || step.ServerAccepts? ||
      step.CrashSend? {
      SendStepAside(s, step, id);
      AsideLost(s, Next(s, step), id, token);
    } else if step.LoadReplay? || step.CommitReplay? || step.ReadForReplay? || step.WriteReplay? || step.CrashReplay? {
      ReplayStepAside(s, step, id);
      AsideLost(s, Next(s, step), id, token);
    } else if step.ClaimRepair? || step.CommitRepair? || step.RecordRepair? {
      RepairStepLost(s, step, id, token);
    } else {
      OtherStepAside(s, step, id);
      AsideLost(s, Next(s, step), id, token);
    }
  }

  lemma AsideLost(s: State, u: State, id: Id, token: string)
    requires RowAside(s, u, id) && Lost(s, id, token)
    ensures Lost(u, id, token)
  {
  }

  lemma RepairStepLost(s: State, step: Step, id: Id, token: string)
    requires Enabled(s, step) && Lost(s, id, token)
    requires step.ClaimRepair? || step.CommitRepair? || step.RecordRepair?
    ensures Lost(Next(s, step), id, token)
  {
    hide ApplyAck;
    AckKeepsOutboxOf(s, step);
  }

  lemma {:induction false} LostForever(s: State, run: seq<Step>, id: Id, token: string)
    requires Inv(s) && Legal(s, run) && Held(s, id) && Lost(s, id, token)
    ensures Lost(After(s, run), id, token)
    decreases |run|
  {
    hide Inv, Enabled, Next, Held, Lost;
    if run != [] {
      StepKeeps(s, run[0]);
      LostStays(s, run[0], id, token);
      HeldForever(s, [run[0]], id);
      OneStep(s, run[0]);
      LostForever(Next(s, run[0]), run[1..], id, token);
    }
  }

  lemma OneStep(s: State, step: Step)
    requires Enabled(s, step)
    ensures Legal(s, [step]) && After(s, [step]) == Next(s, step)
  {
    hide Next, Enabled;
    assert [step][1..] == [];
  }

  /**
   * Without a replay in flight, a pass that has lost the row changes no table with whatever it ends,
   * in any continuation.
   */
  lemma SupersededRepairNeverWrites(s: State, before: seq<Step>, more: seq<Step>, id: Id, k: nat, last: Step)
    requires Inv(s) && NobodyRepairs(s, id) && !Replaying(s, id)
    requires Legal(s, before) && Legal(After(s, before), more)
    requires var m := After(s, before);
             k in m.repairs && m.repairs[k].entry.outboxId == id && !OwnsRepair(m.t.outbox, id, m.repairs[k].token)
    requires var (m, e) := (After(s, before), After(After(s, before), more));
             Enabled(e, last) && EndsRepair(last, k) && k in e.repairs && e.repairs[k].token == m.repairs[k].token &&
             e.repairs[k].entry.outboxId == id
    ensures var e := After(After(s, before), more);
            Next(e, last).t == e.t
  {
    hide Inv, Enabled, Next, Legal, After;
    UnrepairedHeld(s, id);
    HeldForever(s, before, id);
    InvAlways(s, before);
    var m := After(s, before);
    LostForever(m, more, id, m.repairs[k].token);
    SupersededRepairIsInert(After(m, more), last, k);
  }

  // ----- With a replay in flight -----

  /** Some number is not among finitely many. */
  lemma {:induction false} NewNumber(used: set<nat>) returns (n: nat)
    ensures forall x :: x in used ==> x < n
    decreases |used|
  {
    if used == {} {
      n := 0;
    } else {
      var x :| x in used;
      var rest := NewNumber(used - {x});
      n := if rest > x then rest else x + 1;
      assert forall y :: y in used ==> y == x || y in used - {x};
    }
  }

  /** Some string is not among finitely many. */
  lemma NewString(used: set<string>) returns (t: string)
    ensures t !in used
  {
    var lengths := set u | u in used :: |u|;
    var n := NewNumber(lengths);
    t := seq(n, _ => 'x');
    assert forall u :: u in used ==> |u| in lengths;
  }

  lemma TickStep(s: State, later: nat)
    requires Inv(s) && s.now <= later
    ensures Enabled(s, Tick(later)) && Next(s, Tick(later)) == s.(now := later) && Inv(s.(now := later))
  {
    hide Inv;
    StepKeeps(s, Tick(later));
  }

  lemma ClaimStep(s: State, actor: nat, id: Id, token: string)
    requires Inv(s) && CanClaimRepair(s.t.outbox, id, s.now) && actor !in s.repairs && token !in s.tokens
    ensures var step := ClaimRepair(actor, id, token, 1);
            && Enabled(s, step) && Inv(Next(s, step))
            && Next(s, step).repairs.Keys == s.repairs.Keys + {actor}
            && Next(s, step).repairs[actor].entry == RepairClaimed(s.t.outbox[id], token, s.now, 1)
            && (forall k :: k in s.repairs ==> Next(s, step).repairs[k] == s.repairs[k])
            && Next(s, step).repairs[actor].entry.outboxId == id
            && Next(s, step).replays == s.replays && Next(s, step).now == s.now &&
               Next(s, step).tokens == s.tokens + {token}
  {
    hide Inv;
    KnownRow(s, id);
    StepKeeps(s, ClaimRepair(actor, id, token, 1));
  }

  lemma PutOldCopy(s: State, j: nat, id: Id, copy: OutboxEntry)
    requires Inv(s) && j in s.replays && s.replays[j].entry.outboxId == id && s.replays[j].phase == Holding(copy)
    requires OrZero(copy.repairUntil) <= s.now
    ensures var step := WriteReplay(j, Quarantine("", "", "row gone"));
            && Enabled(s, step) && Inv(Next(s, step))
            && CanClaimRepair(Next(s, step).t.outbox, id, s.now)
            && Next(s, step).repairs == s.repairs && Next(s, step).now == s.now && Next(s, step).tokens == s.tokens
  {
    hide Inv;
    SettlingEntries(s);
    StepKeeps(s, WriteReplay(j, Quarantine("", "", "row gone")));
  }

  /**
   * A replay holds a copy whose own repair lease is over. Put back after a claim, the copy erases
   * that claim, and the row can be claimed again at once.
   */
  lemma RepairLeaseCanDouble(s: State, id: Id, j: nat, a: nat, b: nat, first: string, second: string)
    returns (run: seq<Step>)
    requires Inv(s) && CanClaimRepair(s.t.outbox, id, s.now)
    requires j in s.replays && s.replays[j].entry.outboxId == id && s.replays[j].phase.Holding?
    requires OrZero(s.replays[j].phase.copy.repairUntil) <= s.now
    requires a !in s.repairs && b !in s.repairs && a != b && first !in s.tokens && second !in s.tokens &&
             first != second
    ensures Legal(s, run) && BothLive(After(s, run), id, a, b)
  {
    hide Inv, ApplyAck, Enqueue, Upsert, Enabled, Next, Legal, After;
    var claim := ClaimRepair(a, id, first, 1);
    var put := WriteReplay(j, Quarantine("", "", "row gone"));
    var again := ClaimRepair(b, id, second, 1);
    ClaimStep(s, a, id, first);
    PutOldCopy(Next(s, claim), j, id, s.replays[j].phase.copy);
    ClaimStep(Next(Next(s, claim), put), b, id, second);
    NoSteps(s);
    assert [] + [claim] == [claim] && [claim] + [put] == [claim, put];
    LegalSnoc(s, [], claim);
    LegalSnoc(s, [claim], put);
    LegalSnoc(s, [claim, put], again);
    run := [claim, put] + [again];
  }

  /** Whatever phase a replay is in, it can get to hold a copy, with no one else moving. */
  lemma ReplayGetsCopy(s: State, j: nat, id: Id) returns (run: seq<Step>)
    requires Inv(s) && j in s.replays && s.replays[j].entry.outboxId == id && id in s.t.outbox
    ensures Legal(s, run)
    ensures var e := After(s, run);
            && Inv(e) && j in e.replays && e.replays[j].entry.outboxId == id && e.replays[j].phase.Holding?
            && e.t == s.t && e.repairs == s.repairs && e.tokens == s.tokens && e.now == s.now
  {
    hide Inv, ApplyAck, Enqueue, Upsert, Enabled, Next, Legal, After;
    run := [];
    var u := s;
    NoSteps(s);
    if u.replays[j].phase == Loaded {
      var abort := CommitReplay(j, AckFrom(ReplayEntry(u, j)), true);
      AbortStep(u, j, abort);
      LegalSnoc(s, run, abort);
      run, u := run + [abort], Next(u, abort);
    }
    if u.replays[j].phase == Unapplied {
      var read := ReadForReplay(j);
      ReadStep(u, j, id, read);
      LegalSnoc(s, run, read);
      run, u := run + [read], Next(u, read);
    }
  }

  function Latest(a: nat, b: nat): nat
  {
    if a > b then a else b
  }

  /** A quarantined row with a replay in flight has a run to two running repair leases. */
  lemma ReplayDoublesLease(s: State, id: Id, j: nat) returns (run: seq<Step>, a: nat, b: nat)
    requires Inv(s) && j in s.replays && s.replays[j].entry.outboxId == id
    requires id in s.t.outbox && s.t.outbox[id].status == IntegrityError
    ensures Legal(s, run) && a != b && BothLive(After(s, run), id, a, b)
  {
    hide Inv, Legal, After, Enabled, Next, ApplyAck, Enqueue, Upsert;
    var get := ReplayGetsCopy(s, j, id);
    var u := After(s, get);
    var row := s.t.outbox[id];
    var free := Latest(OrZero(row.repairUntil), OrZero(row.repairNextAt));
    var over := Latest(OrZero(u.replays[j].phase.copy.repairUntil), free);
    var tick := Tick(Latest(u.now, over));
    TickStep(u, tick.later);
    LegalSnoc(s, get, tick);
    var v := Next(u, tick);
    a := NewNumber(v.repairs.Keys);
    b := a + 1;
    var first := NewString(v.tokens);
    var second := NewString(v.tokens + {first});
    var double := RepairLeaseCanDouble(v, id, j, a, b, first, second);
    JoinRuns(s, get + [tick], double);
    run := get + [tick] + double;
  }

  /**
   * From a quarantined row nobody is repairing, no local replay of it in flight means exactly that
   * at most one repair lease on it runs at any moment of any run.
   */
  lemma RepairLeaseExclusiveExactlyWhen(s: State, id: Id)
    requires Inv(s) && NobodyRepairs(s, id)
    ensures !Replaying(s, id) <==>
              forall run, k, m :: Legal(s, run) && BothLive(After(s, run), id, k, m) ==> k == m
  {
    hide Inv, Legal, After, BothLive;
    if Replaying(s, id) {
      var j :| j in s.replays && s.replays[j].entry.outboxId == id;
      var run, a, b := ReplayDoublesLease(s, id, j);
    } else {
      forall run, k, m | Legal(s, run) && BothLive(After(s, run), id, k, m)
        ensures k == m
      {
        OneRepairLease(s, run, id, k, m);
      }
    }
  }
}
