// Sync never skips: whatever the tabs do, a stored cursor never passes a commit that is not
// in the message table.

module SyncSafety {
  import opened Text
  import opened Records
  import opened CacheTables
  import opened IndexAgreement
  import opened SyncPages
  import opened SyncEffects
  import opened SyncTheorems
  import opened SyncProtocol

  // ----- The invariant -----

  /** Every commit above the floor, up to position `p`, is in the message table. */
  ghost predicate Covered(log: Log, stored: set<Id>, floor: nat, p: nat)
  {
    forall c :: c in log && floor < c.pts <= p ==> c.serverId in stored
  }

  /** A position the server has reached, or the floor, below which everything is stored. */
  ghost predicate SafePosition(s: Setting, w: World, floor: nat, p: nat)
  {
    p <= w.serverPts && Covered(w.log, StoredIds(w.disk.messages, s.channelId), floor, p)
  }

  ghost predicate SafeChannel(s: Setting, w: World, floor: nat, channel: Option<Channel>)
  {
    channel.Some? ==> SafePosition(s, w, floor, channel.value.latestPts)
  }

  /** A page in flight: still an initial piece of what follows the cursor. */
  ghost predicate SafePage(s: Setting, w: World, floor: nat, cursor: nat, page: Page, hasMore: bool)
  {
    && Authentic(page.commits, w.log)
    && page.cursor == LastPts(page.commits, cursor) && page.cursor <= w.serverPts
    && (forall k :: 0 <= k < |page.commits| ==> page.commits[k].pts <= page.cursor)
    && (forall c :: c in w.log && cursor < c.pts <= page.cursor ==> c in page.commits)
    && page.serverCurrentPts <= w.serverPts
    && (!hasMore ==> forall c :: c in w.log && cursor < c.pts <= page.serverCurrentPts ==> c in page.commits)
  }

  ghost predicate SafeRun(s: Setting, w: World, floor: nat, run: Run)
  {
    match run
    case Idle => true
    case Asking(cursor) => SafePosition(s, w, floor, cursor)
    case Answered(cursor, page, hasMore) =>
      SafePosition(s, w, floor, cursor) && SafePage(s, w, floor, cursor, page, hasMore)
    case Publishing(channel, cursor, last) =>
      && SafeChannel(s, w, floor, channel) && SafePosition(s, w, floor, cursor)
      && (last.Some? ==> SafePosition(s, w, floor, last.value))
    case Finished(upTo) => SafePosition(s, w, floor, upTo)
  }

  ghost predicate SafeTab(s: Setting, w: World, floor: nat, tab: Tab)
  {
    SafeChannel(s, w, floor, tab.memory) && SafeRun(s, w, floor, tab.run)
  }

  ghost predicate SafeDisk(s: Setting, w: World, floor: nat)
  {
    && SafeChannel(s, w, floor, DiskChannel(w.disk, s.channelId))
    && (s.channelId in w.disk.syncState ==> SafePosition(s, w, floor, w.disk.syncState[s.channelId]))
  }

  /** What the pages themselves rely on. */
  ghost predicate Sane(s: Setting, w: World)
  {
    && GoodLog(w.log)
    && (forall c :: c in w.log ==> c.pts <= w.serverPts)
    && Consistent(w.disk.messages, s.channelId, w.log)
    && EchoesAreOwnBy(w.disk.messages, s, w.log)
  }

  ghost predicate Inv(s: Setting, w: World, floor: nat)
  {
    && Sane(s, w)
    && SafeDisk(s, w, floor)
    && forall n :: 0 <= n < |w.tabs| ==> SafeTab(s, w, floor, w.tabs[n])
  }

  /** A fresh start: nobody is beyond the floor, no run under way, nothing merged yet. */
  ghost predicate Begins(s: Setting, w: World, floor: nat)
  {
    && Sane(s, w) && floor <= w.serverPts
    && (s.channelId in w.disk.channels ==> w.disk.channels[s.channelId].latestPts <= floor)
    && (s.channelId in w.disk.syncState ==> w.disk.syncState[s.channelId] <= floor)
    && (forall n :: 0 <= n < |w.tabs| ==>
          w.tabs[n].run.Idle? && (w.tabs[n].memory.Some? ==> w.tabs[n].memory.value.latestPts <= floor))
    && w.merged == {}
  }

  lemma BeginsSafe(s: Setting, w: World, floor: nat)
    requires Begins(s, w, floor)
    ensures Inv(s, w, floor)
  {
  }

  // ----- The world moves on: more commits, more rows -----

  /** The log and the table only grow; commits that were not there lie beyond the old end. */
  ghost predicate Grows(s: Setting, v: World, w: World)
  {
    && v.serverPts <= w.serverPts
    && v.log <= w.log && (forall c :: c in w.log && c !in v.log ==> c.pts > v.serverPts)
    && StoredIds(v.disk.messages, s.channelId) <= StoredIds(w.disk.messages, s.channelId)
  }

  lemma PositionStays(s: Setting, v: World, w: World, floor: nat, p: nat)
    requires Grows(s, v, w) && SafePosition(s, v, floor, p)
    ensures SafePosition(s, w, floor, p)
  {
  }

  lemma TabStays(s: Setting, v: World, w: World, floor: nat, tab: Tab)
    requires Grows(s, v, w) && SafeTab(s, v, floor, tab)
    ensures SafeTab(s, w, floor, tab)
  {
  }

  lemma DiskStays(s: Setting, v: World, w: World, floor: nat)
    requires Grows(s, v, w) && SafeDisk(s, v, floor)
    requires w.disk.channels == v.disk.channels && w.disk.syncState == v.disk.syncState
    ensures SafeDisk(s, w, floor)
  {
  }

  /** A step that grows the world, leaves the channel alone and changes at most one tab. */
  lemma OneTabMoves(s: Setting, v: World, w: World, floor: nat, n: nat)
    requires Inv(s, v, floor) && Grows(s, v, w) && Sane(s, w) && SafeDisk(s, w, floor)
    requires |w.tabs| == |v.tabs| && (forall k :: 0 <= k < |v.tabs| && k != n ==> w.tabs[k] == v.tabs[k])
    requires n < |v.tabs| ==> SafeTab(s, w, floor, w.tabs[n])
    ensures Inv(s, w, floor)
  {
    hide Grows, Sane, SafeDisk, SafeTab;
    forall k | 0 <= k < |w.tabs|
      ensures SafeTab(s, w, floor, w.tabs[k])
    {
      if k != n {
        TabStays(s, v, w, floor, v.tabs[k]);
      }
    }
  }

  // ----- A page -----

  /** The cursor values a page may leave behind: an old one, or that of one of its commits. */
  lemma PagePositions(t: Tables, memory: Option<Channel>, channelId: Id, self: Option<Id>, page: Page, newIds: seq<Id>)
    requires |newIds| == |page.commits| && page.commits != []
    requires MergePage(t, memory, channelId, self, page, newIds).Ok?
    ensures var u := MergePage(t, memory, channelId, self, page, newIds).value;
            var before := ChannelBefore(t, memory, channelId);
            && channelId in u.syncState
            && (before.None? ==> u.syncState[channelId] == page.cursor)
            && (before.Some? ==>
                  u.syncState[channelId] == before.value.latestPts ||
                  exists k :: 0 <= k < |page.commits| && page.commits[k].pts == u.syncState[channelId])
            && (channelId in u.channels ==> u.channels[channelId].latestPts == u.syncState[channelId])
  {
    hide TallyAll, AckAll, Upsert;
    var before := ChannelBefore(t, memory, channelId);
    var reader, zero := ReaderOf(before, channelId, self), ZeroTally(before);
    var tally := PageTally(t, memory, channelId, self, page, newIds);
    MaxPtsIsMax(t.messages, reader, zero, page.commits, newIds);
    AcksKeepChannels(t, tally.acks);
    UpsertKeepsChannels(AckAll(t, tally.acks).value, tally.upserts);
  }

  lemma EchoesStayOwn(ms: Messages, ns: Messages, s: Setting, log: Log)
    requires EchoesAreOwnBy(ms, s, log) && PendingsWere(ms, ns)
    ensures EchoesAreOwnBy(ns, s, log)
  {
  }

  lemma CommitPageKeeps(s: Setting, w: World, floor: nat, n: nat, newIds: seq<Id>)
    requires Inv(s, w, floor) && Enabled(s, w, CommitPage(n, newIds))
    ensures Inv(s, AfterPage(s, w, n, newIds), floor)
  {
    hide MergePage, StoredIds, Consistent, GoodLog, Authentic, SafePosition, Grows, SafeTab, SafeDisk, SafePage,
      EchoesAreOwnBy, NewIds;
    var v := AfterPage(s, w, n, newIds);
    var tab := w.tabs[n];
    var page := tab.run.page;
    var merged := MergePage(w.disk, tab.memory, s.channelId, s.self, page, newIds);
    assert SafeTab(s, w, floor, tab);
    if merged.Err? {
      AbortKeeps(s, w, floor, n);
    } else {
      PageIsAuthentic(s, w, floor, tab);
      PageStores(w.disk, tab.memory, s.channelId, s.self, page, newIds, w.log);
      EchoesStayOwn(w.disk.messages, v.disk.messages, s, w.log);
      PageMoves(s, w, v, floor, n, newIds);
      OneTabMoves(s, w, v, floor, n);
    }
  }

  lemma PageIsAuthentic(s: Setting, w: World, floor: nat, tab: Tab)
    requires SafeTab(s, w, floor, tab) && tab.run.Answered?
    ensures Authentic(tab.run.page.commits, w.log)
  {
  }

  lemma AbortKeeps(s: Setting, w: World, floor: nat, n: nat)
    requires Inv(s, w, floor) && n < |w.tabs|
    ensures Inv(s, OnTab(w, n, w.tabs[n].(run := Idle)), floor)
  {
  }

  /** Only tabs differ. */
  lemma SameWorld(s: Setting, v: World, w: World, floor: nat)
    requires w == v.(tabs := w.tabs) && Sane(s, v) && SafeDisk(s, v, floor)
    ensures Grows(s, v, w) && Sane(s, w) && SafeDisk(s, w, floor)
  {
  }

  lemma PageMoves(s: Setting, w: World, v: World, floor: nat, n: nat, newIds: seq<Id>)
    requires n < |w.tabs| && w.tabs[n].run.Answered? && SafeTab(s, w, floor, w.tabs[n]) && SafeDisk(s, w, floor)
    requires |newIds| == |w.tabs[n].run.page.commits| && w.tabs[n].run.page.commits != []
    requires v == AfterPage(s, w, n, newIds)
    requires MergePage(w.disk, w.tabs[n].memory, s.channelId, s.self, w.tabs[n].run.page, newIds).Ok?
    requires StoredIds(v.disk.messages, s.channelId) ==
             StoredIds(w.disk.messages, s.channelId) + CommitIds(w.tabs[n].run.page.commits)
    ensures Grows(s, w, v) && SafeDisk(s, v, floor) && SafeTab(s, v, floor, v.tabs[n])
  {
    hide MergePage, StoredIds, Covered, SafePage, SafePosition;
    var tab := w.tabs[n];
    var page := tab.run.page;
    var stored := StoredIds(v.disk.messages, s.channelId);
    assert Grows(s, w, v);
    PagePositions(w.disk, tab.memory, s.channelId, s.self, page, newIds);
    CursorIsSafe(s, w, v, floor, tab.run, page.cursor);
    if !tab.run.hasMore {
      CursorIsSafe(s, w, v, floor, tab.run, page.serverCurrentPts);
    }
    var before := ChannelBefore(w.disk, tab.memory, s.channelId);
    if before.Some? {
      PositionStays(s, w, v, floor, before.value.latestPts);
    }
    var p := v.disk.syncState[s.channelId];
    if before.Some? && p != before.value.latestPts {
      PagePtsAtMost(s, w, floor, tab.run, p);
      CursorIsSafe(s, w, v, floor, tab.run, p);
    }
    assert SafePosition(s, v, floor, p);
    if tab.memory.Some? {
      PositionStays(s, w, v, floor, tab.memory.value.latestPts);
    }
  }

  lemma PagePtsAtMost(s: Setting, w: World, floor: nat, run: Run, p: nat)
    requires run.Answered? && SafePage(s, w, floor, run.cursor, run.page, run.hasMore)
    requires exists k :: 0 <= k < |run.page.commits| && run.page.commits[k].pts == p
    ensures p <= run.page.cursor
  {
  }

  lemma CursorIsSafe(s: Setting, w: World, v: World, floor: nat, run: Run, p: nat)
    requires run.Answered? && SafeRun(s, w, floor, run)
    requires v.log == w.log && v.serverPts == w.serverPts
    requires StoredIds(v.disk.messages, s.channelId) == StoredIds(w.disk.messages, s.channelId) +
             CommitIds(run.page.commits)
    requires p <= run.page.cursor || (!run.hasMore && p <= run.page.serverCurrentPts)
    ensures SafePosition(s, v, floor, p)
  {
  }

  lemma CommitEmptyKeeps(s: Setting, w: World, floor: nat, n: nat)
    requires Inv(s, w, floor) && Enabled(s, w, CommitEmpty(n))
    ensures Inv(s, AfterEmpty(s, w, n), floor)
  {
  }

  lemma AnswerKeeps(s: Setting, w: World, floor: nat, n: nat, page: Page, hasMore: bool)
    requires Inv(s, w, floor) && Enabled(s, w, Answer(n, page, hasMore))
    ensures Inv(s, Next(s, w, Answer(n, page, hasMore)), floor)
  {
    hide Consistent, GoodLog, EchoesAreOwnBy, SafeDisk, Covered, StoredIds;
    var v := Next(s, w, Answer(n, page, hasMore));
    SameWorld(s, w, v, floor);
    assert SafeTab(s, w, floor, w.tabs[n]);
    AnswerIsSafe(s, w, floor, w.tabs[n].run.cursor, page, hasMore);
    TabStays(s, w, v, floor, v.tabs[n]);
    OneTabMoves(s, w, v, floor, n);
  }

  lemma AnswerIsSafe(s: Setting, w: World, floor: nat, cursor: nat, page: Page, hasMore: bool)
    requires Answers(w.log, w.serverPts, cursor, page, hasMore) && cursor <= w.serverPts
    requires forall c :: c in w.log ==> c.pts <= w.serverPts
    ensures SafePage(s, w, floor, cursor, page, hasMore)
  {
  }

  /** Steps that move one tab's program counter or memory and nothing else. */
  lemma TabOnlyKeeps(s: Setting, w: World, floor: nat, step: Step)
    requires Inv(s, w, floor) && Enabled(s, w, step)
    requires step.Hydrate? || step.Start? || step.Publish? || step.Stop?
    ensures Inv(s, Next(s, w, step), floor)
  {
    hide Sane, SafePosition, SafePage, StoredIds;
    var v := Next(s, w, step);
    var n := step.tab;
    SameWorld(s, w, v, floor);
    assert SafeTab(s, w, floor, w.tabs[n]);
    if step.Start? && w.tabs[n].memory.None? {
      ZeroIsSafe(s, w, floor);
    }
    TabStays(s, w, v, floor, v.tabs[n]);
    OneTabMoves(s, w, v, floor, n);
  }

  lemma ZeroIsSafe(s: Setting, w: World, floor: nat)
    ensures SafePosition(s, w, floor, 0)
  {
  }

  // ----- The server, the sender -----

  lemma AppendKeeps(s: Setting, w: World, floor: nat, c: ServerCommit)
    requires Inv(s, w, floor) && MayAppend(s, w, c)
    ensures Inv(s, Next(s, w, ServerAppends(c)), floor)
  {
    hide SafeDisk, SafeTab, StoredIds, GoodLog, WellKeyed;
    var v := Next(s, w, ServerAppends(c));
    assert Grows(s, w, v);
    DiskStays(s, w, v, floor);
    assert forall n :: 0 <= n < |w.tabs| ==> SafeTab(s, w, floor, w.tabs[n]);
    assert Sane(s, v);
    OneTabMoves(s, w, v, floor, |w.tabs|);
  }

  lemma QueueKeeps(s: Setting, w: World, floor: nat, message: Record, command: OutboxEntry)
    requires Inv(s, w, floor) && MayQueue(w, message)
    ensures Inv(s, Next(s, w, Queue(message, command)), floor)
    ensures StoredIds(Next(s, w, Queue(message, command)).disk.messages, s.channelId) ==
            StoredIds(w.disk.messages, s.channelId)
  {
    hide SafeDisk, SafeTab, StoredIds, GoodLog, DisplaySortKey;
    var v := Next(s, w, Queue(message, command));
    if Enqueue(w.disk, message, command).Ok? {
      QueuedIsSane(s, w, message, command);
      assert Grows(s, w, v);
      DiskStays(s, w, v, floor);
      assert forall n :: 0 <= n < |w.tabs| ==> SafeTab(s, w, floor, w.tabs[n]);
    } else {
      SameWorld(s, w, v, floor);
    }
    OneTabMoves(s, w, v, floor, |w.tabs|);
  }

  lemma QueuedIsSane(s: Setting, w: World, message: Record, command: OutboxEntry)
    requires Sane(s, w) && MayQueue(w, message) && Enqueue(w.disk, message, command).Ok?
    ensures var t := Enqueue(w.disk, message, command).value;
            && Sane(s, w.(disk := t)) && t.channels == w.disk.channels && t.syncState == w.disk.syncState
            && StoredIds(t.messages, s.channelId) == StoredIds(w.disk.messages, s.channelId)
  {
    hide GoodLog, DisplaySortKey;
    var ms := w.disk.messages;
    var ns := Enqueue(w.disk, message, command).value.messages;
    var row := QueuedRow(w.disk, message);
    assert ns == ms[message.id := row] && message.id !in ms && row.record.serverId == None;
    forall x
      ensures x in StoredIds(ns, s.channelId) <==> x in StoredIds(ms, s.channelId)
    {
      if x in StoredIds(ms, s.channelId) {
        var i :| i in ms && InChannel(ms[i], s.channelId) && ms[i].record.serverId == Some(x);
        assert i in ns && ns[i] == ms[i];
      }
    }
    forall i, c | i in ns && c in w.log && c.localId.Some? && HasLocal(ns[i], s.channelId, c.localId.value)
      ensures i in ms && ns[i] == ms[i]
    {
      assert HasLocal(row, s.channelId, c.localId.value) ==> message.localId == c.localId;
    }
  }

  lemma SendAckKeeps(s: Setting, w: World, floor: nat, acked: Record, outboxId: Id)
    requires Inv(s, w, floor) && MayAck(s, w, acked)
    ensures Inv(s, Next(s, w, SendAck(acked, outboxId)), floor)
    ensures var v := Next(s, w, SendAck(acked, outboxId));
            var (was, now) := (StoredIds(w.disk.messages, s.channelId), StoredIds(v.disk.messages, s.channelId));
            now == was || exists c :: c in w.log && IsOwn(c, s.self) && now == was + {c.serverId}
  {
    hide SafeDisk, SafeTab, StoredIds, GoodLog, Consistent, ApplyAck, EchoesAreOwnBy, RecordsCommit;
    var v := Next(s, w, SendAck(acked, outboxId));
    if CommitAck(w.disk, acked, outboxId).Ok? {
      var c :| c in w.log && RecordsCommit(acked, s.channelId, c) && IsOwn(c, s.self);
      AckOneStores(w.disk, acked, s.channelId, w.log, c);
      EchoesStayOwn(w.disk.messages, v.disk.messages, s, w.log);
      assert Grows(s, w, v);
      DiskStays(s, w, v, floor);
      assert forall n :: 0 <= n < |w.tabs| ==> SafeTab(s, w, floor, w.tabs[n]);
    } else {
      SameWorld(s, w, v, floor);
    }
    OneTabMoves(s, w, v, floor, |w.tabs|);
  }

  // ----- Every run -----

  lemma StepKeeps(s: Setting, w: World, floor: nat, step: Step)
    requires Inv(s, w, floor) && Enabled(s, w, step)
    ensures Inv(s, Next(s, w, step), floor)
  {
    hide Inv, MayAppend, MayQueue, MayAck, Answers, NewIds, AfterPage, AfterEmpty, Enqueue, CommitAck;
    match step
    case ServerAppends(c) => AppendKeeps(s, w, floor, c);
    case Answer(n, page, hasMore) => AnswerKeeps(s, w, floor, n, page, hasMore);
    case CommitPage(n, newIds) => CommitPageKeeps(s, w, floor, n, newIds);
    case CommitEmpty(n) => CommitEmptyKeeps(s, w, floor, n);
    case Queue(message, command) => QueueKeeps(s, w, floor, message, command);
    case SendAck(acked, outboxId) => SendAckKeeps(s, w, floor, acked, outboxId);
    case _ => TabOnlyKeeps(s, w, floor, step);
  }
}
