// No message is left "sending" with nothing to send it: every pending row has its command
// (src/cache/indexeddb-store.ts, src/outbox-engine.ts).

module NoOrphans {
  import opened Text
  import opened Records
  import opened Merging
  import opened CacheTables
  import opened IndexAgreement
  import opened OutboxTable
  import opened LeaseProtocol
  import opened LeaseInvariant
  import opened LeaseTheorems
  import opened LeaseRelapse

  predicate IsPending(row: Stored)
  {
    row.record.status == Pending
  }

  predicate CommandFor(command: OutboxEntry, row: Stored)
  {
    && command.channelId == row.record.channelId
    && Some(command.localId) == row.record.localId
    && command.messageId == row.record.id
  }

  ghost predicate HasCommand(outbox: Outbox, row: Stored)
  {
    exists o :: o in outbox && CommandFor(outbox[o], row)
  }

  /** A pending row is unacknowledged, and the only row of its channel with its local id. */
  ghost predicate PendingAlone(ms: Messages)
  {
    forall i :: i in ms && IsPending(ms[i]) ==>
      && ms[i].record.serverId == None
      && ms[i].record.localId.Some? && ms[i].record.localId.value != ""
      && forall j :: j in ms && HasLocal(ms[j], ms[i].record.channelId, ms[i].record.localId.value) ==> j == i
  }

  ghost predicate PendingHasCommand(t: Tables)
  {
    forall i :: i in t.messages && IsPending(t.messages[i]) ==> HasCommand(t.outbox, t.messages[i])
  }

  ghost predicate Covered(s: State)
  {
    Inv(s) && WellKeyed(s.t.messages) && PendingAlone(s.t.messages) && PendingHasCommand(s.t)
  }

  // ----- Which wire writes are safe -----

  /** A write whose server id and local id do not name two different rows, the second of them pending. */
  ghost predicate NamesOneMessage(ms: Messages, record: Record)
  {
    var found := FindExisting(ms, record);
    found.Ok? && found.value.Some? && record.localId.Some? ==>
      forall i :: i in ms && IsPending(ms[i]) && HasLocal(ms[i], record.channelId, record.localId.value) ==>
        i == found.value.value.record.id
  }

  ghost predicate SafeBatch(ms: Messages, modes: map<Id, OrderMode>, records: seq<Record>, next: nat)
    decreases |records|
  {
    records != [] ==>
      var n := |records| - 1;
      && SafeBatch(ms, modes, records[..n], next)
      && records[n].status != Pending
      && (UpsertEach(ms, modes, records[..n], next).Ok? ==>
            NamesOneMessage(UpsertEach(ms, modes, records[..n], next).value.messages, records[n]))
  }

  /** Steps as the callers make them: fresh non-empty local ids, wire records that are not pending. */
  ghost predicate Careful(s: State, step: Step)
  {
    match step
    case Enqueued(message, command) =>
      command.localId != "" && forall i :: i in s.t.messages ==>
        !HasLocal(s.t.messages[i], command.channelId, command.localId)
    case Wire(records) => SafeBatch(s.t.messages, s.t.orderModes, records, s.t.orderSeq)
    case SyncAck(acked) => acked.status == Sent
    case _ => true
  }

  // ----- The message table -----

  /** The rows that are pending afterwards were pending before, unchanged. */
  ghost predicate PendingShrinks(ms: Messages, ns: Messages)
  {
    forall i :: i in ns && IsPending(ns[i]) ==> i in ms && ns[i].record == ms[i].record
  }

  lemma UpsertOnePending(b: Batch, modes: map<Id, OrderMode>, record: Record)
    requires WellKeyed(b.messages) && PendingAlone(b.messages)
    requires record.status != Pending && NamesOneMessage(b.messages, record)
    requires UpsertOne(b, modes, record).Ok?
    ensures var ns := UpsertOne(b, modes, record).value.messages;
            WellKeyed(ns) && PendingAlone(ns) && PendingShrinks(b.messages, ns)
  {
    hide DisplaySortKey, UpsertOne, MergeWrite, FindExisting;
    UpsertOneWrites(b, modes, record);
    WrittenNotPending(b, modes, record);
    var row := WrittenRow(b, modes, record);
    PutKeepsUnique(b.messages, row);
    var ns := UpsertOne(b, modes, record).value.messages;
    forall i | i in ns && IsPending(ns[i])
      ensures !HasLocal(row, ns[i].record.channelId, ns[i].record.localId.value)
    {
      if HasLocal(row, ns[i].record.channelId, ns[i].record.localId.value) {
        NewRowHasNewLocal(b.messages, record, i);
      }
    }
  }

  /** A write keeps every pending row alone under its local id exactly when it names one message. */
  lemma PendingAloneExactlyWhen(b: Batch, modes: map<Id, OrderMode>, record: Record)
    requires WellKeyed(b.messages) && PendingAlone(b.messages) && record.status != Pending
    requires UpsertOne(b, modes, record).Ok?
    ensures PendingAlone(UpsertOne(b, modes, record).value.messages) <==> NamesOneMessage(b.messages, record)
  {
    hide DisplaySortKey, UpsertOne, MergeWrite, FindExisting, WellKeyed;
    if NamesOneMessage(b.messages, record) {
      UpsertOnePending(b, modes, record);
    } else {
      UpsertOneWrites(b, modes, record);
      var row := WrittenRow(b, modes, record);
      var ns := UpsertOne(b, modes, record).value.messages;
      var i :| i in b.messages && IsPending(b.messages[i]) &&
        HasLocal(b.messages[i], record.channelId, record.localId.value) && i != row.record.id;
      assert ns[i] == b.messages[i] && IsPending(ns[i]);
      assert HasLocal(ns[row.record.id], ns[i].record.channelId, ns[i].record.localId.value);
    }
  }

  /** A record that finds no row does not carry the local id of a pending one. */
  lemma NewRowHasNewLocal(ms: Messages, record: Record, i: Id)
    requires WellKeyed(ms) && PendingAlone(ms) && NamesOneMessage(ms, record)
    requires FindExisting(ms, record).Ok? && i in ms && IsPending(ms[i])
    requires record.localId.Some? && HasLocal(ms[i], record.channelId, record.localId.value)
    ensures FindExisting(ms, record).value == Some(ms[i])
  {
    FoundIsStored(ms, record);
    FindByLocalSpec(ms, record.channelId, record.localId.value);
  }

  lemma {:induction false} UpsertEachPending(ms: Messages, modes: map<Id, OrderMode>, records: seq<Record>, next: nat)
    requires WellKeyed(ms) && PendingAlone(ms) && SafeBatch(ms, modes, records, next)
    requires UpsertEach(ms, modes, records, next).Ok?
    ensures var ns := UpsertEach(ms, modes, records, next).value.messages;
            WellKeyed(ns) && PendingAlone(ns) && PendingShrinks(ms, ns)
    decreases |records|
  {
    hide UpsertOne, PendingAlone, WellKeyed, NamesOneMessage;
    if records != [] {
      var n := |records| - 1;
      UpsertEachPending(ms, modes, records[..n], next);
      UpsertOnePending(UpsertEach(ms, modes, records[..n], next).value, modes, records[n]);
    }
  }

  /** Rewriting keys does not matter. */
  lemma KeysDoNotMatter(t: Tables, u: Tables, channels: set<Id>)
    requires SameButKeys(t, u, channels) && WellKeyed(t.messages) && PendingAlone(t.messages)
    ensures WellKeyed(u.messages) && PendingAlone(u.messages) && PendingShrinks(t.messages, u.messages)
  {
    forall i, j, s | i in u.messages && j in u.messages && HasServer(u.messages[i], s) && HasServer(u.messages[j], s)
      ensures i == j
    {
      assert HasServer(t.messages[i], s) && HasServer(t.messages[j], s);
    }
    forall i, j | i in u.messages && IsPending(u.messages[i]) && j in u.messages &&
                  HasLocal(u.messages[j], u.messages[i].record.channelId, u.messages[i].record.localId.value)
      ensures j == i
    {
      assert IsPending(t.messages[i]);
      assert HasLocal(t.messages[j], t.messages[i].record.channelId, t.messages[i].record.localId.value);
    }
  }

  lemma WirePending(t: Tables, records: seq<Record>)
    requires WellKeyed(t.messages) && PendingAlone(t.messages)
    requires SafeBatch(t.messages, t.orderModes, records, t.orderSeq)
    requires Upsert(t, records).Ok?
    ensures var u := Upsert(t, records).value;
            WellKeyed(u.messages) && PendingAlone(u.messages) && PendingShrinks(t.messages, u.messages)
  {
    hide UpsertEach, ReconcileAll, PendingAlone, WellKeyed, SafeBatch;
    if records != [] {
      UpsertEachPending(t.messages, t.orderModes, records, t.orderSeq);
      var b := UpsertEach(t.messages, t.orderModes, records, t.orderSeq).value;
      var mid := t.(messages := b.messages, orderSeq := t.orderSeq + |records|);
      ReconcileAllSame(mid, ChannelsOf(records));
      KeysDoNotMatter(mid, ReconcileAll(mid, ChannelsOf(records)), set c | c in ChannelsOf(records));
      PendingShrinksTrans(t.messages, mid.messages, ReconcileAll(mid, ChannelsOf(records)).messages);
    }
  }

  lemma PendingShrinksTrans(a: Messages, b: Messages, c: Messages)
    requires PendingShrinks(a, b) && PendingShrinks(b, c)
    ensures PendingShrinks(a, c)
  {
  }

  lemma PendingIsLocal(ms: Messages, acked: Record, i: Id)
    requires WellKeyed(ms) && PendingAlone(ms) && i in ms && IsPending(ms[i])
    requires acked.localId.Some? && HasLocal(ms[i], acked.channelId, acked.localId.value)
    ensures LocalOf(ms, acked) == Some(ms[i])
  {
    hide First;
    AckLookups(ms, acked);
  }

  /** An ack leaves no pending row of its own message, and the others as they were. */
  lemma AckSettles(t: Tables, acked: Record)
    requires WellKeyed(t.messages) && PendingAlone(t.messages)
    requires acked.status == Sent && ApplyAck(t, acked).Ok?
    ensures var u := ApplyAck(t, acked).value;
            && WellKeyed(u.messages) && PendingAlone(u.messages) && PendingShrinks(t.messages, u.messages)
            && forall i :: i in u.messages && IsPending(u.messages[i]) ==>
                 acked.localId.Some? ==> !HasLocal(u.messages[i], acked.channelId, acked.localId.value)
  {
    hide DisplaySortKey, First, Reconcile, KeysAgree;
    var row := AckedRow(t, acked);
    var rest := t.messages - Absorbed(t.messages, acked);
    var m := AckedTables(t, acked);
    AckLookups(t.messages, acked);
    RemovalKeepsUnique(t.messages, Absorbed(t.messages, acked));
    PutKeepsUnique(rest, row);
    forall i | i in m.messages && IsPending(m.messages[i])
      ensures i in t.messages && m.messages[i] == t.messages[i] && i != row.record.id
      ensures acked.localId.Some? ==> !HasLocal(m.messages[i], acked.channelId, acked.localId.value)
    {
      if acked.localId.Some? && HasLocal(t.messages[i], acked.channelId, acked.localId.value) {
        PendingIsLocal(t.messages, acked, i);
      }
    }
    ReconcileSame(m, acked.channelId);
    KeysDoNotMatter(m, Reconcile(m, acked.channelId), {acked.channelId});
  }

  // ----- Commands stay with their messages -----

  /** Commands that are still there still name the same message. */
  lemma CommandsKeep(s: State, u: State, row: Stored, gone: Id)
    requires Inv(s) && Inv(u) && HasCommand(s.t.outbox, row)
    requires forall o :: o in s.t.outbox && o != gone ==> o in u.t.outbox
    requires gone in s.t.outbox && gone !in u.t.outbox ==> !CommandFor(s.t.outbox[gone], row)
    requires forall o :: o in s.commands ==> o in u.commands && u.commands[o] == s.commands[o]
    ensures HasCommand(u.t.outbox, row)
  {
  }

  lemma SameMessages(s: State, u: State)
    requires Covered(s) && Inv(u) && u.t.messages == s.t.messages
    requires s.t.outbox.Keys <= u.t.outbox.Keys
    requires forall o :: o in s.commands ==> o in u.commands && u.commands[o] == s.commands[o]
    ensures Covered(u)
  {
  }

  /** The engine's ack transaction, whichever lease authorised it. */
  lemma RetireCovers(s: State, u: State, entry: OutboxEntry, acked: Record)
    requires Covered(s) && Inv(u) && u.commands == s.commands
    requires entry.outboxId in s.commands && IdentOf(entry) == s.commands[entry.outboxId]
    requires acked.channelId == entry.channelId && acked.localId == Some(entry.localId) && acked.status == Sent
    requires RetireAndAck(s.t, entry.outboxId, acked, false).Ok?
    requires u.t == RetireAndAck(s.t, entry.outboxId, acked, false).value
    ensures Covered(u)
  {
    hide Inv, ApplyAck, PendingAlone, WellKeyed;
    var cut := s.t.(outbox := s.t.outbox - {entry.outboxId});
    AckSettles(cut, acked);
    AckKeepsOutbox(cut, acked);
    forall i | i in u.t.messages && IsPending(u.t.messages[i])
      ensures HasCommand(u.t.outbox, u.t.messages[i])
    {
      var row := s.t.messages[i];
      assert row.record == u.t.messages[i].record;
      if entry.outboxId in s.t.outbox {
        KnownRow(s, entry.outboxId);
      }
      assert HasCommand(s.t.outbox, row);
      CommandsKeep(s, u, row, entry.outboxId);
      KeyIrrelevant(u.t.outbox, row, u.t.messages[i]);
    }
  }

  lemma KeyIrrelevant(outbox: Outbox, a: Stored, b: Stored)
    requires a.record == b.record && HasCommand(outbox, a)
    ensures HasCommand(outbox, b)
  {
  }

  lemma EnqueueCovers(s: State, message: Record, command: OutboxEntry)
    requires Covered(s) && Enabled(s, Enqueued(message, command)) && Careful(s, Enqueued(message, command))
    ensures Covered(Next(s, Enqueued(message, command)))
  {
    hide Inv, DisplaySortKey, Addable;
    var u := Next(s, Enqueued(message, command));
    if Enqueue(s.t, message, command).Ok? {
      EnqueueKeeps(s, message, command);
      var row := QueuedRow(s.t, message);
      PutKeepsUnique(s.t.messages, row);
      assert CommandFor(u.t.outbox[command.outboxId], row);
      forall i | i in s.t.messages && i != message.id && IsPending(s.t.messages[i])
        ensures HasCommand(u.t.outbox, s.t.messages[i])
      {
        CommandsKeep(s, u, s.t.messages[i], "");
      }
    }
  }

  /** Writes of the message table alone. */
  lemma TableCovers(s: State, u: State)
    requires Covered(s) && Inv(u) && u.t.outbox == s.t.outbox
    requires WellKeyed(u.t.messages) && PendingAlone(u.t.messages) && PendingShrinks(s.t.messages, u.t.messages)
    ensures Covered(u)
  {
  }

  lemma AttemptKnown(s: State, k: nat)
    requires Inv(s) && k in s.attempts
    ensures var entry := s.attempts[k].entry;
            entry.outboxId in s.commands && IdentOf(entry) == s.commands[entry.outboxId]
  {
  }

  lemma CommitCovers(s: State, step: Step)
    requires Covered(s) && Enabled(s, step) && (step.CommitSend? || step.CommitReplay? || step.CommitRepair?)
    ensures Covered(Next(s, step))
  {
    hide Inv, ApplyAck, PendingAlone, WellKeyed, PendingHasCommand;
    var u := Next(s, step);
    StepKeeps(s, step);
    SettlingEntries(s);
    var entry := if step.CommitSend? then s.attempts[step.actor].entry
                 else if step.CommitReplay? then s.replays[step.actor].entry
                 else s.repairs[step.actor].entry;
    if step.CommitSend? {
      AttemptKnown(s, step.actor);
    }
    CommitEffect(s, step, entry);
    if u.t != s.t {
      RetireCovers(s, u, entry, step.acked);
    } else {
      SameMessages(s, u);
    }
  }

  /** A commit step either leaves the tables alone or runs the ack transaction of its command. */
  lemma CommitEffect(s: State, step: Step, entry: OutboxEntry)
    requires Enabled(s, step) && (step.CommitSend? || step.CommitReplay? || step.CommitRepair?)
    requires entry == if step.CommitSend? then s.attempts[step.actor].entry
                      else if step.CommitReplay? then s.replays[step.actor].entry
                      else s.repairs[step.actor].entry
    ensures var u := Next(s, step);
            && u.commands == s.commands
            && step.acked.channelId == entry.channelId && step.acked.localId == Some(entry.localId)
            && step.acked.status == Sent
            && (u.t == s.t || (RetireAndAck(s.t, entry.outboxId, step.acked, false).Ok? &&
                               u.t == RetireAndAck(s.t, entry.outboxId, step.acked, false).value))
  {
    hide ApplyAck, OwnsSend, OwnsRepair, NoteDelivery, FailurePatch, UncommittedPatch, RepairPatch, Claimed,
      RepairClaimed, Enqueue, Upsert;
  }

  /** The remaining steps touch no message and remove no command. */
  lemma OtherStepsSpare(s: State, step: Step)
    requires Enabled(s, step)
    requires !(step.CommitSend? || step.CommitReplay? || step.CommitRepair? || step.Wire? || step.SyncAck? ||
             step.Enqueued?)
    ensures var u := Next(s, step);
            u.t.messages == s.t.messages && s.t.outbox.Keys <= u.t.outbox.Keys && u.commands == s.commands
  {
    hide ApplyPatch;
  }

  lemma StepCovers(s: State, step: Step)
    requires Covered(s) && Enabled(s, step) && Careful(s, step)
    ensures Covered(Next(s, step))
  {
    hide Inv, ApplyAck, Upsert, Enqueue, PendingAlone, WellKeyed, PendingHasCommand, SafeBatch;
    var u := Next(s, step);
    StepKeeps(s, step);
    if step.CommitSend? || step.CommitReplay? || step.CommitRepair? {
      CommitCovers(s, step);
    } else if step.Enqueued? {
      EnqueueCovers(s, step.message, step.command);
    } else if step.Wire? {
      if Upsert(s.t, step.records).Ok? {
        UpsertKeepsOutbox(s.t, step.records);
        WirePending(s.t, step.records);
        TableCovers(s, u);
      }
    } else if step.SyncAck? {
      if ApplyAck(s.t, step.acked).Ok? {
        AckKeepsOutbox(s.t, step.acked);
        AckSettles(s.t, step.acked);
        TableCovers(s, u);
      }
    } else {
      OtherStepsSpare(s, step);
      SameMessages(s, u);
    }
  }

  ghost predicate CarefulRun(s: State, run: seq<Step>)
    requires Legal(s, run)
    decreases |run|
  {
    run != [] ==> Careful(s, run[0]) && CarefulRun(Next(s, run[0]), run[1..])
  }

  /**
   * Over every interleaving of enqueues, sends, replays, repairs, crashes, wire writes and
   * sync acks: a persisted message that is still pending has a command with its channel, its
   * local id and its row id.
   */
  lemma {:induction false} EveryPendingHasACommand(s: State, run: seq<Step>)
    requires Covered(s) && Legal(s, run) && CarefulRun(s, run)
    ensures Covered(After(s, run))
    ensures var t := After(s, run).t;
            forall i :: i in t.messages && t.messages[i].record.status == Pending ==>
              exists o :: o in t.outbox && CommandFor(t.outbox[o], t.messages[i])
    decreases |run|
  {
    hide Inv, Enabled, Next, Careful, WellKeyed, PendingAlone;
    if run != [] {
      StepCovers(s, run[0]);
      EveryPendingHasACommand(Next(s, run[0]), run[1..]);
    } else {
      assert PendingHasCommand(s.t);
    }
  }

  // ----- What a write naming two messages can do -----

  /** A row of history, and a row of our own send that is still pending. */
  const HISTORY :=
    Record("a", "c", Some("9"), None, Some("7"), Some(1), "peer", "text", "old", [], 1, Some(Milliseconds), Received,
           None)
  const SENDING :=
    Record("b", "c", None, Some("l"), None, Some(2), "me", "text", "new", [], 2, Some(Milliseconds), Pending, None)
  const COMMAND :=
    OutboxEntry("o", "b", "c", "l", "me", "text", [], "new", 0, 0, 0, 0, None, None, None, None, Some("t"), Some(9),
                None, None, None, None, None, None, None, Sending)

  /** The wire says that history row carries our local id. */
  const CONFUSED := HISTORY.(id := "w", localId := Some("l"))
  const ANSWER := SENDING.(serverId := Some("9"), pts := Some("7"), status := Sent)

  /** The send was claimed and the server has answered. */
  function Answered(): State
  {
    State(Tables(map["a" := Stamp(HISTORY, ByPts), "b" := Stamp(SENDING, ByPts)], map["o" := COMMAND], map[], 2,
                 map[], map[]),
          0, map[0 := Attempt(COMMAND, "t", 9, Accepted("9", 7))], map[], map[],
          {"t"}, map["o" := Ident("c", "l", "b")], map[])
  }

  lemma AnsweredCovered()
    ensures Covered(Answered())
  {
    hide DisplaySortKey;
    var s := Answered();
    assert CommandFor(s.t.outbox["o"], s.t.messages["b"]);
  }

  /** Two rows under one local id: the lookup takes the first. */
  lemma FirstIsFound(ms: Messages, a: Id, b: Id, channelId: Id, localId: Id)
    requires WellKeyed(ms) && ms.Keys == {a, b} && Less(a, b)
    requires HasLocal(ms[a], channelId, localId) && HasLocal(ms[b], channelId, localId)
    ensures FindByLocal(ms, channelId, localId) == Some(ms[a])
  {
    var hits := set i | i in ms && HasLocal(ms[i], channelId, localId);
    assert hits == {a, b} && IsFirst(a, hits);
    FirstUnique(a, First(hits).value, hits);
  }

  /** The ack then settles the wrong one of the two. */
  lemma AckSettlesTheFirst(t: Tables, acked: Record, a: Id, b: Id)
    requires WellKeyed(t.messages) && t.messages.Keys == {a, b} && Less(a, b)
    requires acked.localId.Some? && acked.serverId.Some? && t.messages[b].record.serverId == None
    requires HasLocal(t.messages[a], acked.channelId, acked.localId.value)
    requires HasLocal(t.messages[b], acked.channelId, acked.localId.value)
    requires HasServer(t.messages[a], acked.serverId.value)
    ensures ApplyAck(t, acked).Ok?
    ensures var u := ApplyAck(t, acked).value;
            b in u.messages && u.messages[b].record == t.messages[b].record && u.outbox == t.outbox
  {
    hide DisplaySortKey, First, Reconcile;
    FirstIsFound(t.messages, a, b, acked.channelId, acked.localId.value);
    AckLookups(t.messages, acked);
    LessIrreflexive(a);
    assert Absorbed(t.messages, acked) == {};
    assert Admissible(t.messages - {}, AckedRow(t, acked));
    ReconcileSame(AckedTables(t, acked), acked.channelId);
  }

  lemma ConfusedWrites(t: Tables)
    requires t == Answered().t
    ensures Upsert(t, [CONFUSED]).Ok?
    ensures var u := Upsert(t, [CONFUSED]).value;
            && WellKeyed(u.messages) && u.messages.Keys == {"a", "b"} && u.outbox == t.outbox
            && HasLocal(u.messages["a"], "c", "l") && HasServer(u.messages["a"], "9")
            && u.messages["b"].record == SENDING
  {
    hide DisplaySortKey, First, Reconcile;
    var b0 := Batch(t.messages, t.orderSeq, []);
    FindByServerSpec(t.messages, "9");
    assert [CONFUSED][..0] == [];
    assert FindExisting(t.messages, CONFUSED) == Ok(Some(t.messages["a"]));
    assert UpsertEach(t.messages, t.orderModes, [CONFUSED], t.orderSeq) == UpsertOne(b0, t.orderModes, CONFUSED);
    var row := WrittenRow(b0, t.orderModes, CONFUSED);
    assert Admissible(t.messages, row);
    PutKeepsUnique(t.messages, row);
    var mid := t.(messages := t.messages["a" := row], orderSeq := t.orderSeq + 1);
    ReconcileAllSame(mid, ChannelsOf([CONFUSED]));
    KeysKeepIds(mid, ReconcileAll(mid, ChannelsOf([CONFUSED])), set c | c in ChannelsOf([CONFUSED]));
  }

  lemma KeysKeepIds(t: Tables, u: Tables, channels: set<Id>)
    requires SameButKeys(t, u, channels) && WellKeyed(t.messages)
    ensures WellKeyed(u.messages)
  {
    SameRowsKept(t, u, channels);
  }

  /** The state between the write and the ack. */
  function Between(): State
  {
    Answered().(t := Commit(Answered().t, Upsert(Answered().t, [CONFUSED])))
  }

  lemma ConfusedStep()
    ensures Enabled(Answered(), Wire([CONFUSED])) && Next(Answered(), Wire([CONFUSED])) == Between()
  {
    hide Upsert;
  }

  lemma AnswerStep()
    ensures Enabled(Between(), CommitSend(0, ANSWER, false))
    ensures var t := Next(Between(), CommitSend(0, ANSWER, false)).t;
            "b" in t.messages && IsPending(t.messages["b"]) && !HasCommand(t.outbox, t.messages["b"])
  {
    hide Upsert, ApplyAck;
    ConfusedWrites(Answered().t);
    var u := Between();
    AckSettlesTheFirst(u.t.(outbox := u.t.outbox - {"o"}), ANSWER, "a", "b");
  }

  lemma TwoNamed()
    ensures !NamesOneMessage(Answered().t.messages, CONFUSED)
  {
    hide DisplaySortKey, First;
    var ms := Answered().t.messages;
    FindByServerSpec(ms, "9");
    assert FindExisting(ms, CONFUSED) == Ok(Some(ms["a"]));
    assert HasLocal(ms["b"], "c", "l");
  }

  /**
   * From a covered state, a write whose two network ids name two rows and the ack of the send leave
   * a pending message that nothing will ever send.
   */
  lemma ConfusedWriteOrphans()
    ensures Covered(Answered()) && !NamesOneMessage(Answered().t.messages, CONFUSED)
    ensures var run := [Wire([CONFUSED])] + [CommitSend(0, ANSWER, false)];
            && Legal(Answered(), run)
            && var t := After(Answered(), run).t;
               "b" in t.messages && IsPending(t.messages["b"]) && !HasCommand(t.outbox, t.messages["b"])
  {
    hide Answered, Between, Enabled, Next, Legal, After, Covered, NamesOneMessage;
    AnsweredCovered();
    TwoNamed();
    ConfusedStep();
    AnswerStep();
    NoSteps(Answered());
    LegalSnoc(Answered(), [], Wire([CONFUSED]));
    assert [] + [Wire([CONFUSED])] == [Wire([CONFUSED])];
    LegalSnoc(Answered(), [Wire([CONFUSED])], CommitSend(0, ANSWER, false));
  }
}
