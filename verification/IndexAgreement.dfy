// The persisted display index always agrees with the rows and with the recorded mode of
// their channel (src/cache/indexeddb-store.ts).

module IndexAgreement {
  import opened Text
  import opened Records
  import opened Merging
  import opened CacheTables

  /** Both derived columns of every row are what its channel's recorded mode says. */
  ghost predicate KeysAgree(ms: Messages, modes: map<Id, OrderMode>)
  {
    forall i :: i in ms ==> ms[i] == Stamp(ms[i].record, ModeOf(modes, ms[i].record.channelId))
  }

  /** A channel holding a confirmed row without pts is in server-id order. */
  ghost predicate GapsDegrade(t: Tables)
  {
    forall i :: i in t.messages && t.messages[i].ptsGap ==>
      ModeOf(t.orderModes, t.messages[i].record.channelId) == ByServerId
  }

  /** Every row has a sequence number at most the stored high-water mark, and no two share one. */
  ghost predicate SeqsDistinct(ms: Messages, high: nat)
  {
    && (forall i :: i in ms ==> ms[i].record.orderSeq.Some? && ms[i].record.orderSeq.value <= high)
    && (forall i, j :: i in ms && j in ms && ms[i].record.orderSeq == ms[j].record.orderSeq ==> i == j)
  }

  /** The display index: keys, gap marks and recorded modes tell one story. */
  ghost predicate Indexed(t: Tables)
  {
    WellKeyed(t.messages) && KeysAgree(t.messages, t.orderModes) && GapsDegrade(t)
  }

  ghost predicate Sound(t: Tables)
  {
    Indexed(t) && SeqsDistinct(t.messages, t.orderSeq)
  }

  /** The recorded mode is the wanted one: server-id order exactly when a gap row exists. */
  ghost predicate ModeExact(t: Tables, channelId: Id)
  {
    ModeOf(t.orderModes, channelId) == WantedMode(t.messages, channelId)
  }

  // ----- Reconciling -----

  /** What a reconcile may change: the keys and the mode of the given channels, nothing else. */
  ghost predicate SameButKeys(t: Tables, u: Tables, channels: set<Id>)
  {
    && u.messages.Keys == t.messages.Keys
    && (forall i :: i in t.messages ==>
          && u.messages[i].record == t.messages[i].record
          && u.messages[i].ptsGap == t.messages[i].ptsGap
          && (t.messages[i].record.channelId !in channels ==> u.messages[i] == t.messages[i]))
    && (forall c :: c !in channels ==> ModeOf(u.orderModes, c) == ModeOf(t.orderModes, c))
    && u == t.(messages := u.messages, orderModes := u.orderModes)
  }

  lemma ReconcileSame(t: Tables, c: Id)
    ensures SameButKeys(t, Reconcile(t, c), {c})
  {
    hide DisplaySortKey, HasGap;
  }

  lemma RekeyAgrees(ms: Messages, modes: map<Id, OrderMode>, c: Id, mode: OrderMode)
    requires KeysAgree(ms, modes)
    ensures KeysAgree(Rekey(ms, c, mode), modes[c := mode])
  {
  }

  lemma ReconcileChanges(t: Tables, c: Id)
    requires KeysAgree(t.messages, t.orderModes)
    ensures var u := Reconcile(t, c);
            SameButKeys(t, u, {c}) && KeysAgree(u.messages, u.orderModes) && ModeExact(u, c)
  {
    hide DisplaySortKey, HasGap, KeysAgree;
    var want := WantedMode(t.messages, c);
    ReconcileSame(t, c);
    SameGaps(t.messages, Reconcile(t, c).messages, c);
    if want != ModeOf(t.orderModes, c) {
      hide Rekey;
      RekeyAgrees(t.messages, t.orderModes, c, want);
    }
  }

  lemma SameGaps(ms: Messages, ns: Messages, c: Id)
    requires ms.Keys == ns.Keys
    requires forall i :: i in ms ==> ns[i].record == ms[i].record && ns[i].ptsGap == ms[i].ptsGap
    ensures HasGap(ms, c) <==> HasGap(ns, c)
  {
  }

  lemma {:induction false} ReconcileAllSame(t: Tables, channels: seq<Id>)
    ensures SameButKeys(t, ReconcileAll(t, channels), set c | c in channels)
    decreases |channels|
  {
    hide Reconcile;
    if channels != [] {
      var n := |channels| - 1;
      ReconcileAllSame(t, channels[..n]);
      ReconcileSame(ReconcileAll(t, channels[..n]), channels[n]);
    }
  }

  lemma {:induction false} ReconcileAllChanges(t: Tables, channels: seq<Id>)
    requires KeysAgree(t.messages, t.orderModes)
    ensures var u := ReconcileAll(t, channels);
            && SameButKeys(t, u, set c | c in channels)
            && KeysAgree(u.messages, u.orderModes)
            && forall c :: c in channels ==> ModeExact(u, c)
    decreases |channels|
  {
    hide Reconcile, KeysAgree, HasGap, Rekey;
    if channels != [] {
      var n := |channels| - 1;
      var mid := ReconcileAll(t, channels[..n]);
      var u := Reconcile(mid, channels[n]);
      ReconcileAllChanges(t, channels[..n]);
      ReconcileChanges(mid, channels[n]);
      forall c | c in channels
        ensures ModeExact(u, c)
      {
        if c != channels[n] {
          assert c in channels[..n];
          SameGaps(mid.messages, u.messages, c);
        }
      }
    }
  }

  /** A reconcile moves no row, id or number. */
  lemma SameRowsKept(t: Tables, u: Tables, channels: set<Id>)
    requires SameButKeys(t, u, channels)
    ensures WellKeyed(t.messages) ==> WellKeyed(u.messages)
    ensures forall high :: SeqsDistinct(t.messages, high) ==> SeqsDistinct(u.messages, high)
  {
    forall i, s | i in u.messages
      ensures HasServer(u.messages[i], s) <==> HasServer(t.messages[i], s)
    {
    }
  }

  /** Reconciled channels are exact; the others must have been degraded correctly before. */
  lemma ReconciledIndexed(t: Tables, u: Tables, channels: set<Id>)
    requires WellKeyed(t.messages)
    requires SameButKeys(t, u, channels) && KeysAgree(u.messages, u.orderModes)
    requires forall c :: c in channels ==> ModeExact(u, c)
    requires forall i :: i in t.messages && t.messages[i].ptsGap && t.messages[i].record.channelId !in channels ==>
               ModeOf(t.orderModes, t.messages[i].record.channelId) == ByServerId
    ensures Indexed(u)
    ensures forall high :: SeqsDistinct(t.messages, high) ==> SeqsDistinct(u.messages, high)
  {
    hide WellKeyed, KeysAgree, SeqsDistinct;
    SameRowsKept(t, u, channels);
    forall i | i in u.messages && u.messages[i].ptsGap
      ensures ModeOf(u.orderModes, u.messages[i].record.channelId) == ByServerId
    {
      var c := u.messages[i].record.channelId;
      if c in channels {
        assert InChannel(u.messages[i], c);
        assert HasGap(u.messages, c);
        assert ModeExact(u, c);
      }
    }
  }

  // ----- Writing rows -----

  /** The part of the index that holds in the middle of a transaction too. */
  ghost predicate Aligned(ms: Messages, modes: map<Id, OrderMode>)
  {
    WellKeyed(ms) && KeysAgree(ms, modes)
  }

  lemma PutKeepsUnique(ms: Messages, row: Stored)
    requires WellKeyed(ms) && Admissible(ms, row)
    ensures WellKeyed(ms[row.record.id := row])
  {
  }

  lemma PutKeepsSeqs(ms: Messages, high: nat, row: Stored)
    requires SeqsDistinct(ms, high)
    requires row.record.orderSeq.Some? && row.record.orderSeq.value <= high
    requires forall i :: i in ms && i != row.record.id ==> ms[i].record.orderSeq != row.record.orderSeq
    ensures SeqsDistinct(ms[row.record.id := row], high)
  {
  }

  lemma PutAligned(ms: Messages, modes: map<Id, OrderMode>, row: Stored)
    requires Aligned(ms, modes) && Admissible(ms, row)
    requires row == Stamp(row.record, ModeOf(modes, row.record.channelId))
    ensures Aligned(ms[row.record.id := row], modes)
  {
    hide DisplaySortKey;
    PutKeepsUnique(ms, row);
  }

  lemma RemovalKeepsUnique(ms: Messages, gone: set<Id>)
    requires WellKeyed(ms)
    ensures WellKeyed(ms - gone)
  {
  }

  lemma RemovalAligned(ms: Messages, modes: map<Id, OrderMode>, gone: set<Id>)
    requires Aligned(ms, modes)
    ensures Aligned(ms - gone, modes)
  {
    RemovalKeepsUnique(ms, gone);
  }

  /** A number is free when it is at most the counter and no other row has it. */
  ghost predicate NumberFree(ms: Messages, high: nat, id: Id, number: nat)
  {
    number <= high && forall i :: i in ms && i != id ==> ms[i].record.orderSeq != Some(number)
  }

  /** The number a record brings along is free, or the row it is merged into has its own. */
  ghost predicate NumberFits(ms: Messages, high: nat, record: Record)
  {
    var found := FindExisting(ms, record);
    record.orderSeq.Some? && found.Ok? ==>
      || (found.value.Some? && found.value.value.record.orderSeq.Some?)
      || NumberFree(ms, high, if found.value.Some? then
           found.value.value.record.id else record.id, record.orderSeq.value)
  }

  lemma FoundIsStored(ms: Messages, record: Record)
    requires WellKeyed(ms)
    ensures var f := FindExisting(ms, record);
            f.Ok? && f.value.Some? ==>
              var i := f.value.value.record.id; i in ms && ms[i] == f.value.value
    ensures var f := FindExisting(ms, record);
            f.Ok? && f.value.None? ==> record.id !in ms
  {
  }

  /** The row one record of a batch stores. */
  function WrittenRow(b: Batch, modes: map<Id, OrderMode>, record: Record): Stored
    requires FindExisting(b.messages, record).Ok?
  {
    Stamp(MergeWrite(RecordOf(FindExisting(b.messages, record).value), record, b.next + 1),
          ModeOf(modes, record.channelId))
  }

  lemma UpsertOneWrites(b: Batch, modes: map<Id, OrderMode>, record: Record)
    requires WellKeyed(b.messages)
    requires UpsertOne(b, modes, record).Ok?
    ensures FindExisting(b.messages, record).Ok?
    ensures var a := UpsertOne(b, modes, record).value;
            var found := FindExisting(b.messages, record).value;
            var row := WrittenRow(b, modes, record);
            && a.messages == b.messages[row.record.id := row]
            && Admissible(b.messages, row)
            && row.record.channelId == record.channelId
            && row.record.serverId == record.serverId
            && row.record.localId == record.localId
            && row.record.id == (if found.Some? then found.value.record.id else record.id)
            && (found.Some? ==> row.record.id in b.messages && b.messages[row.record.id] == found.value
                                && found.value.record.channelId == record.channelId)
            && (found.None? ==> row.record.id !in b.messages)
            && a.next == (if TakesFreshSeq(found, record) then b.next + 1 else b.next)
            && row.record.orderSeq ==
                 (if found.Some? && found.value.record.orderSeq.Some? then found.value.record.orderSeq
                  else if record.orderSeq.Some? then record.orderSeq else Some(b.next + 1))
  {
  }

  lemma WrittenNotPending(b: Batch, modes: map<Id, OrderMode>, record: Record)
    requires FindExisting(b.messages, record).Ok? && record.status != Pending
    ensures WrittenRow(b, modes, record).record.status != Pending
  {
  }

  /** Keys and marks are right after one record of a batch, whatever the record says. */
  lemma UpsertOneAligned(b: Batch, modes: map<Id, OrderMode>, record: Record)
    requires Aligned(b.messages, modes)
    requires UpsertOne(b, modes, record).Ok?
    ensures Aligned(UpsertOne(b, modes, record).value.messages, modes)
    ensures Extends(b.messages, UpsertOne(b, modes, record).value.messages, {record.channelId})
  {
    hide DisplaySortKey, MergeWrite, UpsertOne, FindExisting;
    UpsertOneWrites(b, modes, record);
    PutAligned(b.messages, modes, WrittenRow(b, modes, record));
  }

  /** Numbers stay distinct and bounded exactly when the one brought along fits. */
  lemma NumbersDistinctExactlyWhen(b: Batch, modes: map<Id, OrderMode>, record: Record)
    requires WellKeyed(b.messages) && SeqsDistinct(b.messages, b.next)
    requires UpsertOne(b, modes, record).Ok?
    ensures var a := UpsertOne(b, modes, record).value;
            && b.next <= a.next <= b.next + 1
            && (SeqsDistinct(a.messages, a.next) <==> NumberFits(b.messages, b.next, record))
  {
    hide DisplaySortKey, MergeWrite, UpsertOne, FindExisting;
    UpsertOneWrites(b, modes, record);
    var a := UpsertOne(b, modes, record).value;
    var row := WrittenRow(b, modes, record);
    if NumberFits(b.messages, b.next, record) {
      SeqsHigher(b.messages, b.next, a.next);
      PutKeepsSeqs(b.messages, a.next, row);
    } else {
      var number := record.orderSeq.value;
      assert a.messages[row.record.id].record.orderSeq == Some(number) && a.next == b.next;
      if number <= b.next {
        var i :| i in b.messages && i != row.record.id && b.messages[i].record.orderSeq == Some(number);
        assert a.messages[i] == b.messages[i];
      }
    }
  }

  lemma SeqsHigher(ms: Messages, low: nat, high: nat)
    requires SeqsDistinct(ms, low) && low <= high
    ensures SeqsDistinct(ms, high)
  {
  }

  /** What a write leaves alone: every row stays, and other channels entirely. */
  ghost predicate Extends(ms: Messages, ns: Messages, channels: set<Id>)
  {
    && ms.Keys <= ns.Keys
    && (forall i :: i in ns && ns[i].record.channelId !in channels ==> i in ms && ns[i] == ms[i])
  }

  lemma {:induction false} UpsertEachAligned(ms: Messages, modes: map<Id, OrderMode>, records: seq<Record>, next: nat)
    requires Aligned(ms, modes)
    requires UpsertEach(ms, modes, records, next).Ok?
    ensures var a := UpsertEach(ms, modes, records, next).value;
            && Aligned(a.messages, modes)
            && Extends(ms, a.messages, set c | c in ChannelsOf(records))
    decreases |records|
  {
    hide UpsertOne, Aligned;
    if records != [] {
      var n := |records| - 1;
      UpsertEachAligned(ms, modes, records[..n], next);
      UpsertOneAligned(UpsertEach(ms, modes, records[..n], next).value, modes, records[n]);
    }
  }

  /** Each number a batch brings along fits when its record's turn comes. */
  ghost predicate NumbersFit(ms: Messages, modes: map<Id, OrderMode>, records: seq<Record>, next: nat)
    decreases |records|
  {
    records != [] ==>
      var n := |records| - 1;
      && NumbersFit(ms, modes, records[..n], next)
      && (UpsertEach(ms, modes, records[..n], next).Ok? ==>
            var b := UpsertEach(ms, modes, records[..n], next).value;
            NumberFits(b.messages, b.next, records[n]))
  }

  lemma {:induction false} UpsertEachNumbers(ms: Messages, modes: map<Id, OrderMode>, records: seq<Record>, next: nat)
    requires Aligned(ms, modes) && SeqsDistinct(ms, next)
    requires NumbersFit(ms, modes, records, next)
    requires UpsertEach(ms, modes, records, next).Ok?
    ensures var a := UpsertEach(ms, modes, records, next).value;
            SeqsDistinct(a.messages, a.next) && next <= a.next <= next + |records|
    decreases |records|
  {
    hide UpsertOne, SeqsDistinct, NumberFits, KeysAgree, WellKeyed;
    if records != [] {
      var n := |records| - 1;
      UpsertEachNumbers(ms, modes, records[..n], next);
      UpsertEachAligned(ms, modes, records[..n], next);
      NumbersDistinctExactlyWhen(UpsertEach(ms, modes, records[..n], next).value, modes, records[n]);
    }
  }

  /** Records without a number of their own always fit. */
  lemma {:induction false} UnnumberedFit(ms: Messages, modes: map<Id, OrderMode>, records: seq<Record>, next: nat)
    requires forall k :: 0 <= k < |records| ==> records[k].orderSeq == None
    ensures NumbersFit(ms, modes, records, next)
    decreases |records|
  {
    hide UpsertEach, FindExisting;
    if records != [] {
      UnnumberedFit(ms, modes, records[..|records| - 1], next);
    }
  }

  /** The table of a batch before its channels are reconciled. */
  function BatchTables(t: Tables, records: seq<Record>): Tables
    requires UpsertEach(t.messages, t.orderModes, records, t.orderSeq).Ok?
  {
    t.(messages := UpsertEach(t.messages, t.orderModes, records, t.orderSeq).value.messages,
       orderSeq := t.orderSeq + |records|)
  }

  lemma UpsertNumbers(t: Tables, records: seq<Record>)
    requires Sound(t) && NumbersFit(t.messages, t.orderModes, records, t.orderSeq)
    requires UpsertEach(t.messages, t.orderModes, records, t.orderSeq).Ok?
    ensures SeqsDistinct(BatchTables(t, records).messages, BatchTables(t, records).orderSeq)
  {
    hide UpsertEach, NumbersFit, WellKeyed, KeysAgree, GapsDegrade, SeqsDistinct;
    UpsertEachNumbers(t.messages, t.orderModes, records, t.orderSeq);
    var b := UpsertEach(t.messages, t.orderModes, records, t.orderSeq).value;
    SeqsHigher(b.messages, b.next, t.orderSeq + |records|);
  }

  lemma BatchReconciled(t: Tables, records: seq<Record>)
    requires Indexed(t) && UpsertEach(t.messages, t.orderModes, records, t.orderSeq).Ok?
    ensures var mid := BatchTables(t, records);
            var u := ReconcileAll(mid, ChannelsOf(records));
            && Indexed(u) && u.orderSeq == mid.orderSeq
            && t.messages.Keys <= u.messages.Keys
            && (forall c :: c in ChannelsOf(records) ==> ModeExact(u, c))
            && (SeqsDistinct(mid.messages, mid.orderSeq) ==> SeqsDistinct(u.messages, u.orderSeq))
  {
    hide UpsertEach, ReconcileAll, WellKeyed, KeysAgree, SeqsDistinct, ModeExact, ChannelsOf;
    UpsertEachAligned(t.messages, t.orderModes, records, t.orderSeq);
    var mid := BatchTables(t, records);
    var cs := ChannelsOf(records);
    ReconcileAllChanges(mid, cs);
    ReconciledIndexed(mid, ReconcileAll(mid, cs), set c | c in cs);
  }

  /**
   * A batch keeps the index and leaves every channel it touched exact, whatever its records say;
   * numbers stay distinct when the ones it brings along fit.
   */
  lemma UpsertKeeps(t: Tables, records: seq<Record>)
    requires Indexed(t) && Upsert(t, records).Ok?
    ensures var u := Upsert(t, records).value;
            && Indexed(u)
            && t.messages.Keys <= u.messages.Keys
            && (forall k :: 0 <= k < |records| ==> ModeExact(u, records[k].channelId))
            && (Sound(t) && NumbersFit(t.messages, t.orderModes, records, t.orderSeq) ==> Sound(u))
  {
    hide UpsertEach, ReconcileAll, Indexed, SeqsDistinct, NumbersFit, ModeExact, ChannelsOf;
    if records != [] {
      BatchReconciled(t, records);
      if Sound(t) && NumbersFit(t.messages, t.orderModes, records, t.orderSeq) {
        UpsertNumbers(t, records);
      }
      forall k | 0 <= k < |records|
        ensures ModeExact(Upsert(t, records).value, records[k].channelId)
      {
        ChannelsOfCovers(records, k);
      }
    }
  }

  lemma {:induction false} ChannelsOfCovers(records: seq<Record>, k: nat)
    requires k < |records|
    ensures records[k].channelId in ChannelsOf(records)
    decreases |records|
  {
    var n := |records| - 1;
    if k < n {
      ChannelsOfCovers(records[..n], k);
      assert records[..n][k] == records[k];
    }
  }

  // ----- Acks -----

  lemma AckLookups(ms: Messages, acked: Record)
    requires WellKeyed(ms)
    ensures var l := LocalOf(ms, acked);
            && (l.Some? ==> l.value.record.id in ms && ms[l.value.record.id] == l.value
                            && HasLocal(l.value, acked.channelId, acked.localId.value))
            && (l.None? && acked.localId.Some? ==>
                  forall i :: i in ms ==> !HasLocal(ms[i], acked.channelId, acked.localId.value))
    ensures var r := RemoteOf(ms, acked);
            && (r.Some? ==> r.value.record.id in ms && ms[r.value.record.id] == r.value
                            && InChannel(r.value, acked.channelId) && HasServer(r.value, acked.serverId.value))
            && (r.None? && acked.serverId.Some? ==>
                  forall i :: i in ms && InChannel(ms[i], acked.channelId) ==> !HasServer(ms[i], acked.serverId.value))
  {
    if acked.localId.Some? {
      FindByLocalSpec(ms, acked.channelId, acked.localId.value);
    }
    if acked.serverId.Some? {
      FindInChannelSpec(ms, acked.channelId, acked.serverId.value);
    }
  }

  /**
   * The sequence number an ack brings along, when neither of the two rows it describes is on
   * disk any more, is not one that another row uses.
   */
  ghost predicate AckNumberIsOwn(t: Tables, acked: Record)
  {
    acked.orderSeq.Some? && LocalOf(t.messages, acked).None? && RemoteOf(t.messages, acked).None? ==>
      && acked.orderSeq.value <= t.orderSeq
      && forall i :: i in t.messages && i != acked.id ==> t.messages[i].record.orderSeq != acked.orderSeq
  }

  /** What an ack stores before the channel is reconciled. */
  function AckedTables(t: Tables, acked: Record): Tables
  {
    var row := AckedRow(t, acked);
    t.(messages := (t.messages - Absorbed(t.messages, acked))[row.record.id := row],
       orderSeq := if InheritedSeq(t.messages, acked).Some? then t.orderSeq else t.orderSeq + 1)
  }

  lemma AckedTablesAligned(t: Tables, acked: Record)
    requires Indexed(t) && ApplyAck(t, acked).Ok?
    ensures var m := AckedTables(t, acked);
            && Aligned(m.messages, m.orderModes)
            && ApplyAck(t, acked).value == Reconcile(m, acked.channelId)
  {
    hide DisplaySortKey, First, Reconcile;
    RemovalAligned(t.messages, t.orderModes, Absorbed(t.messages, acked));
    PutAligned(t.messages - Absorbed(t.messages, acked), t.orderModes, AckedRow(t, acked));
  }

  lemma AckedTablesNumbers(t: Tables, acked: Record)
    requires Sound(t) && AckNumberIsOwn(t, acked)
    ensures var m := AckedTables(t, acked);
            SeqsDistinct(m.messages, m.orderSeq)
  {
    hide DisplaySortKey, First;
    AckLookups(t.messages, acked);
    var row := AckedRow(t, acked);
    var rest := t.messages - Absorbed(t.messages, acked);
    var m := AckedTables(t, acked);
    forall i | i in rest && i != row.record.id
      ensures rest[i].record.orderSeq != row.record.orderSeq
    {
      AckNumberIsNew(t, acked, i);
    }
    PutKeepsSeqs(rest, m.orderSeq, row);
  }

  /** No surviving row has the position the acknowledged row takes. */
  lemma AckNumberIsNew(t: Tables, acked: Record, i: Id)
    requires Sound(t) && AckNumberIsOwn(t, acked)
    requires i in t.messages - Absorbed(t.messages, acked) && i != AckedId(t.messages, acked)
    ensures t.messages[i].record.orderSeq != AckedRow(t, acked).record.orderSeq
  {
    AckLookups(t.messages, acked);
    var local, remote := LocalOf(t.messages, acked), RemoteOf(t.messages, acked);
    if local.Some? {
      assert local.value.record.orderSeq.Some?;
      assert i != local.value.record.id;
    } else if remote.Some? {
      assert remote.value.record.orderSeq.Some?;
      assert i != remote.value.record.id;
    }
  }

  /** Rows of other channels are untouched before the reconcile. */
  lemma AckedTablesElsewhere(t: Tables, acked: Record)
    ensures var m := AckedTables(t, acked);
            m.orderModes == t.orderModes &&
            forall i :: i in m.messages && m.messages[i].record.channelId != acked.channelId ==>
              i in t.messages && m.messages[i] == t.messages[i]
  {
  }

  /** An ack keeps the index and leaves its channel exact; numbers stay distinct when its own fits. */
  lemma AckKeeps(t: Tables, acked: Record)
    requires Indexed(t) && ApplyAck(t, acked).Ok?
    ensures var u := ApplyAck(t, acked).value;
            && Indexed(u) && ModeExact(u, acked.channelId)
            && (SeqsDistinct(t.messages, t.orderSeq) && AckNumberIsOwn(t, acked) ==> Sound(u))
  {
    hide DisplaySortKey, ApplyAck, Reconcile, AckedRow, Absorbed, LocalOf, RemoteOf, AckNumberIsOwn, SeqsDistinct,
      WellKeyed, KeysAgree;
    AckedTablesAligned(t, acked);
    var m := AckedTables(t, acked);
    AckedTablesElsewhere(t, acked);
    ReconcileChanges(m, acked.channelId);
    ReconciledIndexed(m, Reconcile(m, acked.channelId), {acked.channelId});
    ReconcileSame(m, acked.channelId);
    if SeqsDistinct(t.messages, t.orderSeq) && AckNumberIsOwn(t, acked) {
      AckedTablesNumbers(t, acked);
    }
  }

  // ----- Enqueue and deletes -----

  /** Enqueue does not reconcile: the index survives exactly when the queued row needs no degrading. */
  lemma EnqueueKeepsExactlyWhen(t: Tables, message: Record, command: OutboxEntry)
    requires Indexed(t) && Enqueue(t, message, command).Ok?
    ensures var u := Enqueue(t, message, command).value;
            && (Indexed(u) <==> HasPtsGap(message) ==> ModeOf(t.orderModes, message.channelId) == ByServerId)
            && (SeqsDistinct(t.messages, t.orderSeq) ==> SeqsDistinct(u.messages, u.orderSeq))
  {
    hide DisplaySortKey;
    var row := QueuedRow(t, message);
    var u := Enqueue(t, message, command).value;
    PutAligned(t.messages, t.orderModes, row);
    assert u.messages[message.id] == row && row.ptsGap == HasPtsGap(message);
    if SeqsDistinct(t.messages, t.orderSeq) {
      SeqsHigher(t.messages, t.orderSeq, t.orderSeq + 1);
      PutKeepsSeqs(t.messages, t.orderSeq + 1, row);
    }
  }

  lemma RemovalKeeps(t: Tables, gone: set<Id>)
    requires Indexed(t)
    ensures Indexed(t.(messages := t.messages - gone))
    ensures Sound(t) ==> Sound(t.(messages := t.messages - gone))
  {
    RemovalKeepsUnique(t.messages, gone);
  }

  // ----- Every reachable state -----

  datatype Op =
    | OpUpsert(records: seq<Record>)
    | OpAck(acked: Record)
    | OpEnqueue(message: Record, command: OutboxEntry)
    | OpCommitAck(acked: Record, outboxId: Id)
    | OpDelete(id: Id)
    | OpRevoke(channelId: Id, serverId: Id)
    | OpClear(channelId: Id)

  function Perform(t: Tables, op: Op): Tables
  {
    match op
    case OpUpsert(records) => Commit(t, Upsert(t, records))
    case OpAck(acked) => Commit(t, ApplyAck(t, acked))
    case OpEnqueue(message, command) => Commit(t, Enqueue(t, message, command))
    case OpCommitAck(acked, outboxId) => Commit(t, CommitAck(t, acked, outboxId))
    case OpDelete(id) => DeleteById(t, id)
    case OpRevoke(channelId, serverId) => DeleteByServerId(t, channelId, serverId)
    case OpClear(channelId) => ClearChannel(t, channelId)
  }

  /** A queued message needs no degrading; nothing is asked of any other operation. */
  ghost predicate FitsIndex(t: Tables, op: Op)
  {
    op.OpEnqueue? && HasPtsGap(op.message) ==> ModeOf(t.orderModes, op.message.channelId) == ByServerId
  }

  /** Numbers that come from outside are free, or not used. */
  ghost predicate FitsNumbers(t: Tables, op: Op)
  {
    match op
    case OpUpsert(records) => NumbersFit(t.messages, t.orderModes, records, t.orderSeq)
    case OpAck(acked) => AckNumberIsOwn(t, acked)
    case OpCommitAck(acked, _) => AckNumberIsOwn(t, acked)
    case _ => true
  }

  function PerformAll(t: Tables, ops: seq<Op>): Tables
    decreases |ops|
  {
    if ops == [] then t else PerformAll(Perform(t, ops[0]), ops[1..])
  }

  ghost predicate Throughout(t: Tables, ops: seq<Op>, fits: (Tables, Op) -> bool)
    decreases |ops|
  {
    ops != [] ==> fits(t, ops[0]) && Throughout(Perform(t, ops[0]), ops[1..], fits)
  }

  lemma PerformKeeps(t: Tables, op: Op)
    requires Indexed(t) && FitsIndex(t, op)
    ensures Indexed(Perform(t, op))
    ensures Sound(t) && FitsNumbers(t, op) ==> Sound(Perform(t, op))
  {
    hide WellKeyed, KeysAgree, GapsDegrade, SeqsDistinct, ApplyAck, Upsert, Enqueue, NumbersFit, AckNumberIsOwn;
    match op
    case OpUpsert(records) =>
      if Upsert(t, records).Ok? {
        UpsertKeeps(t, records);
      }
    case OpAck(acked) =>
      if ApplyAck(t, acked).Ok? {
        AckKeeps(t, acked);
      }
    case OpEnqueue(message, command) =>
      if Enqueue(t, message, command).Ok? {
        EnqueueKeepsExactlyWhen(t, message, command);
      }
    case OpCommitAck(acked, outboxId) =>
      if ApplyAck(t, acked).Ok? {
        AckKeeps(t, acked);
        OutboxAside(ApplyAck(t, acked).value, outboxId);
      }
    case OpDelete(id) => RemovalKeeps(t, {id});
    case OpRevoke(c, s) =>
      RemovalKeeps(t, set i | i in t.messages && InChannel(t.messages[i], c) && HasServer(t.messages[i], s));
    case OpClear(c) =>
      RemovalKeeps(t, set i | i in t.messages && InChannel(t.messages[i], c));
  }

  lemma OutboxAside(t: Tables, outboxId: Id)
    ensures Indexed(t) ==> Indexed(t.(outbox := t.outbox - {outboxId}))
    ensures Sound(t) ==> Sound(t.(outbox := t.outbox - {outboxId}))
  {
  }

  const EMPTY := Tables(map[], map[], map[], 0, map[], map[])

  /**
   * After any history of transactions, committed or aborted: every row's key and gap flag are those
   * of its channel's recorded mode, every channel with a gap row is in server-id order, and network
   * ids are unique. Records may say anything; a queued message must not need degrading.
   */
  lemma {:induction false} IndexAlwaysAgrees(t: Tables, ops: seq<Op>)
    requires Indexed(t) && Throughout(t, ops, (t, op) => FitsIndex(t, op))
    ensures Indexed(PerformAll(t, ops))
    decreases |ops|
  {
    hide Indexed, FitsIndex, Perform;
    if ops != [] {
      PerformKeeps(t, ops[0]);
      IndexAlwaysAgrees(Perform(t, ops[0]), ops[1..]);
    }
  }

  /** Where numbers from outside fit as well, sequence numbers stay distinct and bounded throughout. */
  lemma {:induction false} NumbersAlwaysDistinct(t: Tables, ops: seq<Op>)
    requires Sound(t) && Throughout(t, ops, (t, op) => FitsIndex(t, op) && FitsNumbers(t, op))
    ensures Sound(PerformAll(t, ops))
    decreases |ops|
  {
    hide Indexed, SeqsDistinct, FitsIndex, FitsNumbers, Perform;
    if ops != [] {
      PerformKeeps(t, ops[0]);
      NumbersAlwaysDistinct(Perform(t, ops[0]), ops[1..]);
    }
  }

  lemma EmptyIsSound()
    ensures Sound(EMPTY)
  {
  }
}
