// What holds along every run of the sync protocol.

module SyncRuns {
  import opened Text
  import opened Records
  import opened CacheTables
  import opened SyncPages
  import opened SyncEffects
  import opened SyncTheorems
  import opened SyncProtocol
  import opened SyncSafety

  // ----- Sync never skips -----

  lemma {:induction false} InvAlways(s: Setting, ws: seq<World>, steps: seq<Step>, floor: nat, k: nat)
    requires IsRun(s, ws, steps) && Begins(s, ws[0], floor) && k < |ws|
    ensures Inv(s, ws[k], floor)
    decreases k
  {
    hide Inv, Begins, Enabled, Next;
    if k == 0 {
      BeginsSafe(s, ws[0], floor);
    } else {
      InvAlways(s, ws, steps, floor, k - 1);
      StepKeeps(s, ws[k - 1], floor, steps[k - 1]);
    }
  }

  /** Exactly one row of the channel carries this server id. */
  ghost predicate StoredOnceIn(ms: Messages, channelId: Id, serverId: Id)
  {
    exists i :: i in ms && InChannel(ms[i], channelId) && HasServer(ms[i], serverId) &&
      forall j :: j in ms && HasServer(ms[j], serverId) ==> j == i
  }

  /** A cursor some tab or the disk relies on. */
  ghost predicate Relied(s: Setting, w: World, p: nat)
  {
    || (s.channelId in w.disk.channels && w.disk.channels[s.channelId].latestPts == p)
    || (s.channelId in w.disk.syncState && w.disk.syncState[s.channelId] == p)
    || exists n :: 0 <= n < |w.tabs| && TabRelies(w.tabs[n], p)
  }

  ghost predicate TabRelies(tab: Tab, p: nat)
  {
    || (tab.memory.Some? && tab.memory.value.latestPts == p)
    || (tab.run.Asking? && tab.run.cursor == p)
    || (tab.run.Finished? && tab.run.upTo == p)
  }

  lemma SyncNeverSkips(s: Setting, ws: seq<World>, steps: seq<Step>, floor: nat, k: nat, p: nat, c: ServerCommit)
    requires IsRun(s, ws, steps) && Begins(s, ws[0], floor) && k < |ws|
    requires Relied(s, ws[k], p) && c in ws[k].log && floor < c.pts <= p
    ensures StoredOnceIn(ws[k].disk.messages, s.channelId, c.serverId)
  {
    hide Begins, Consistent, GoodLog, StoredIds, SafePage;
    var w := ws[k];
    InvAlways(s, ws, steps, floor, k);
    if exists n :: 0 <= n < |w.tabs| && TabRelies(w.tabs[n], p) {
      var n :| 0 <= n < |w.tabs| && TabRelies(w.tabs[n], p);
      assert SafeTab(s, w, floor, w.tabs[n]);
    }
    assert SafePosition(s, w, floor, p);
    StoredOnce(w.disk.messages, s.channelId, w.log, c.serverId);
  }

  /** A run that ends without more pages holds every commit the server had when it answered. */
  lemma FinishedSyncHoldsEverything(s: Setting, ws: seq<World>, steps: seq<Step>, floor: nat, j: nat, k: nat, n: nat,
                                    page: Page,
                                    c: ServerCommit)
    requires IsRun(s, ws, steps) && Begins(s, ws[0], floor)
    requires j < k < |ws| && steps[j] == Answer(n, page, false)
    requires n < |ws[k].tabs| && ws[k].tabs[n].run == Finished(page.serverCurrentPts)
    requires c in ws[j].log && floor < c.pts
    ensures StoredOnceIn(ws[k].disk.messages, s.channelId, c.serverId)
  {
    hide Begins, Consistent, GoodLog, StoredIds, SafeTab, SafeDisk, Authentic, StoredOnceIn, EchoesAreOwnBy;
    InvAlways(s, ws, steps, floor, j);
    assert c.pts <= page.serverCurrentPts;
    LogGrows(s, ws, steps, j, k);
    assert TabRelies(ws[k].tabs[n], page.serverCurrentPts);
    SyncNeverSkips(s, ws, steps, floor, k, page.serverCurrentPts, c);
  }

  lemma {:induction false} LogGrows(s: Setting, ws: seq<World>, steps: seq<Step>, j: nat, k: nat)
    requires IsRun(s, ws, steps) && j <= k < |ws|
    ensures ws[j].log <= ws[k].log
    decreases k - j
  {
    hide Enabled, MergePage, EmptyPage, Enqueue, CommitAck;
    if j < k {
      LogGrows(s, ws, steps, j, k - 1);
      assert Enabled(s, ws[k - 1], steps[k - 1]) && ws[k] == Next(s, ws[k - 1], steps[k - 1]);
    }
  }

  // ----- Pages take effect exactly once -----

  /** Where the channel stood at the start of the run. */
  datatype Origin = Origin(stored: set<Id>, unread: nat, latestPts: nat, readPts: nat)

  function ReaderAt(s: Setting, o: Origin): Reader
  {
    Reader(s.channelId, s.self, o.readPts)
  }

  /** The foreign unread messages the merged pages brought. */
  ghost function Ledger(s: Setting, o: Origin, merged: Log): set<Id>
  {
    (set c | c in merged && CountsAsUnread(ReaderAt(s, o), c) :: c.serverId) - o.stored
  }

  ghost predicate RunningMax(o: Origin, merged: Log, p: nat)
  {
    && o.latestPts <= p && (forall c :: c in merged ==> c.pts <= p)
    && (p == o.latestPts || exists c :: c in merged && c.pts == p)
  }

  /** Rows that were not there at the start came with a merged page, or are our own sends. */
  ghost predicate Accounted(s: Setting, o: Origin, w: World)
  {
    && w.merged <= w.log
    && o.stored <= StoredIds(w.disk.messages, s.channelId)
    && (forall c :: c in w.merged ==> c.serverId in StoredIds(w.disk.messages, s.channelId))
    && (forall x :: x in StoredIds(w.disk.messages, s.channelId) && x !in o.stored ==>
          exists c :: c in w.log && c.serverId == x && (c in w.merged || IsOwn(c, s.self)))
  }

  /** Unread, cursor and sync state tell the same story. */
  ghost predicate ExactlyOnce(s: Setting, o: Origin, w: World)
  {
    && s.channelId in w.disk.channels
    && var channel := w.disk.channels[s.channelId];
       && channel.readPts == o.readPts
       && channel.unread == o.unread + |Ledger(s, o, w.merged)|
       && RunningMax(o, w.merged, channel.latestPts)
       && (s.channelId in w.disk.syncState ==> w.disk.syncState[s.channelId] == channel.latestPts)
  }

  /** The tab's copy agrees with the disk on everything an empty page would write back. */
  predicate EmptyPageIsCurrent(t: Tables, memory: Option<Channel>, channelId: Id, serverCurrentPts: nat, cursor: nat)
    requires channelId in t.channels
  {
    var channel := t.channels[channelId];
    if memory.None? then cursor == channel.latestPts
    else
      && memory.value.latestPts == channel.latestPts
      && (memory.value.serverCurrentPts == serverCurrentPts ||
          (memory.value.unread == channel.unread && memory.value.readPts == channel.readPts))
  }

  ghost predicate CarefulStep(s: Setting, w: World, step: Step)
  {
    step.CommitEmpty? && step.tab < |w.tabs| && w.tabs[step.tab].run.Answered? && s.channelId in w.disk.channels ==>
      var tab := w.tabs[step.tab];
      EmptyPageIsCurrent(w.disk, tab.memory, s.channelId, tab.run.page.serverCurrentPts, tab.run.cursor)
  }

  lemma PageAccounted(s: Setting, o: Origin, w: World, v: World, commits: seq<ServerCommit>)
    requires Accounted(s, o, w) && Authentic(commits, w.log)
    requires v.log == w.log && v.merged == w.merged + (set k | 0 <= k < |commits| :: commits[k])
    requires StoredIds(v.disk.messages, s.channelId) == StoredIds(w.disk.messages, s.channelId) + CommitIds(commits)
    ensures Accounted(s, o, v)
  {
  }

  /** The page adds to the ledger exactly the unread it had not stored. */
  lemma LedgerGrows(s: Setting, o: Origin, w: World, commits: seq<ServerCommit>)
    requires Accounted(s, o, w) && Authentic(commits, w.log) && GoodLog(w.log)
    ensures var merged := w.merged + (set k | 0 <= k < |commits| :: commits[k]);
            var news := UnreadIds(ReaderAt(s, o), commits) - StoredIds(w.disk.messages, s.channelId);
            && Ledger(s, o, merged) == Ledger(s, o, w.merged) + news
            && |Ledger(s, o, merged)| == |Ledger(s, o, w.merged)| + |news|
  {
    hide StoredIds;
    var reader := ReaderAt(s, o);
    var stored := StoredIds(w.disk.messages, s.channelId);
    var merged := w.merged + (set k | 0 <= k < |commits| :: commits[k]);
    var news := UnreadIds(reader, commits) - stored;
    forall x
      ensures x in Ledger(s, o, merged) <==> x in Ledger(s, o, w.merged) + news
    {
      if x in Ledger(s, o, merged) {
        var c :| c in merged && CountsAsUnread(reader, c) && c.serverId == x;
        if c !in w.merged {
          var k :| 0 <= k < |commits| && commits[k] == c;
          assert commits[k].serverId in UnreadIds(reader, commits);
          if x in stored {
            var d :| d in w.log && d.serverId == x && (d in w.merged || IsOwn(d, s.self));
            assert d == c;
          }
        }
      }
      if x in news {
        var k :| 0 <= k < |commits| && CountsAsUnread(reader, commits[k]) && commits[k].serverId == x;
        assert commits[k] in merged;
      }
    }
    assert Ledger(s, o, w.merged) !! news;
  }

  lemma PageCounts(s: Setting, o: Origin, w: World, floor: nat, n: nat, newIds: seq<Id>)
    requires Inv(s, w, floor) && Accounted(s, o, w) && ExactlyOnce(s, o, w)
    requires Enabled(s, w, CommitPage(n, newIds))
    ensures var v := AfterPage(s, w, n, newIds);
            Accounted(s, o, v) && ExactlyOnce(s, o, v)
  {
    hide MergePage, StoredIds, Consistent, GoodLog, SafePosition, SafeDisk, Authentic, Accounted, Ledger,
      UnreadIds, NewIds, EchoesAreOwn, RunningMax;
    var tab := w.tabs[n];
    var page := tab.run.page;
    assert SafeTab(s, w, floor, tab);
    PageIsAuthentic(s, w, floor, tab);
    var v := AfterPage(s, w, n, newIds);
    if MergePage(w.disk, tab.memory, s.channelId, s.self, page, newIds).Ok? {
      OwnEchoesUncounted(s, o, w.disk.messages, w.log);
      PageStores(w.disk, tab.memory, s.channelId, s.self, page, newIds, w.log);
      PageMovesChannel(w.disk, tab.memory, s.channelId, s.self, page, newIds, w.log);
      PageAccounted(s, o, w, v, page.commits);
      LedgerGrows(s, o, w, page.commits);
      MaxRuns(o, w.merged, page.commits, w.disk.channels[s.channelId].latestPts,
        v.disk.channels[s.channelId].latestPts);
    } else {
      AccountsCarry(s, o, w, v);
    }
  }

  lemma MaxRuns(o: Origin, merged: Log, commits: seq<ServerCommit>, p: nat, q: nat)
    requires RunningMax(o, merged, p)
    requires q >= p && (forall k :: 0 <= k < |commits| ==> q >= commits[k].pts)
    requires q == p || exists k :: 0 <= k < |commits| && commits[k].pts == q
    ensures RunningMax(o, merged + (set k | 0 <= k < |commits| :: commits[k]), q)
  {
  }

  lemma OwnEchoesUncounted(s: Setting, o: Origin, ms: Messages, log: Log)
    requires EchoesAreOwnBy(ms, s, log)
    ensures EchoesAreOwn(ms, ReaderAt(s, o), log)
  {
  }

  /** Nothing these statements speak of changed, except that the log may have grown. */
  lemma AccountsCarry(s: Setting, o: Origin, w: World, v: World)
    requires v.merged == w.merged && w.log <= v.log
    requires StoredIds(v.disk.messages, s.channelId) == StoredIds(w.disk.messages, s.channelId)
    requires Accounted(s, o, w)
    ensures Accounted(s, o, v)
  {
  }

  lemma StepCounts(s: Setting, o: Origin, w: World, floor: nat, step: Step)
    requires Inv(s, w, floor) && Accounted(s, o, w) && ExactlyOnce(s, o, w)
    requires Enabled(s, w, step) && CarefulStep(s, w, step)
    ensures var v := Next(s, w, step);
            Accounted(s, o, v) && ExactlyOnce(s, o, v)
  {
    hide Inv, StoredIds, MergePage, Accounted, Ledger, RunningMax, ApplyAck, DisplaySortKey, Answers, MayAppend,
      MayQueue, NewIds,
      AfterPage, Seated;
    var v := Next(s, w, step);
    match step
    case CommitPage(n, newIds) => PageCounts(s, o, w, floor, n, newIds);
    case Queue(message, command) =>
      QueueKeeps(s, w, floor, message, command);
      AccountsCarry(s, o, w, v);
    case SendAck(acked, outboxId) =>
      SendAckKeeps(s, w, floor, acked, outboxId);
      AckKeepsChannels(w.disk, acked);
      SendAckCounts(s, o, w, v);
    case _ => AccountsCarry(s, o, w, v);
  }

  lemma SendAckCounts(s: Setting, o: Origin, w: World, v: World)
    requires v.merged == w.merged && w.log == v.log && Accounted(s, o, w)
    requires var (was, now) := (StoredIds(w.disk.messages, s.channelId), StoredIds(v.disk.messages, s.channelId));
             now == was || exists c :: c in w.log && IsOwn(c, s.self) && now == was + {c.serverId}
    ensures Accounted(s, o, v)
  {
  }

  lemma AckKeepsChannels(t: Tables, acked: Record)
    ensures ApplyAck(t, acked).Ok? ==>
              ApplyAck(t, acked).value.channels == t.channels && ApplyAck(t, acked).value.syncState == t.syncState
  {
  }

  /**
   * Along every run whose empty pages write back what the disk already says: unread grew by the
   * distinct foreign commits merged and not stored before, the cursor is the running maximum, and
   * every merged commit has one row.
   */
  lemma {:induction false} PagesTakeEffectOnce(s: Setting, o: Origin, ws: seq<World>, steps: seq<Step>, floor: nat,
                                               k: nat)
    requires IsRun(s, ws, steps) && Begins(s, ws[0], floor) && k < |ws|
    requires s.channelId in ws[0].disk.channels
    requires var channel := ws[0].disk.channels[s.channelId];
             o == Origin(StoredIds(ws[0].disk.messages, s.channelId), channel.unread, channel.latestPts,
               channel.readPts) &&
             (s.channelId in ws[0].disk.syncState ==> ws[0].disk.syncState[s.channelId] == channel.latestPts)
    requires forall j :: 0 <= j < |steps| ==> CarefulStep(s, ws[j], steps[j])
    ensures Accounted(s, o, ws[k]) && ExactlyOnce(s, o, ws[k])
    ensures forall c :: c in ws[k].merged ==> StoredOnceIn(ws[k].disk.messages, s.channelId, c.serverId)
    decreases k
  {
    hide Inv, Enabled, Next, Accounted, ExactlyOnce, CarefulStep, StoredOnceIn, StoredIds;
    InvAlways(s, ws, steps, floor, k);
    if k == 0 {
      FreshStartCounts(s, o, ws[0]);
    } else {
      PagesTakeEffectOnce(s, o, ws, steps, floor, k - 1);
      InvAlways(s, ws, steps, floor, k - 1);
      StepCounts(s, o, ws[k - 1], floor, steps[k - 1]);
    }
    MergedStoredOnce(s, o, ws[k], floor);
  }

  lemma MaxUnique(o: Origin, merged: Log, p: nat, q: nat)
    requires RunningMax(o, merged, p) && RunningMax(o, merged, q)
    ensures p == q
  {
  }

  /**
   * From a state in which everything counts once, an empty page keeps it so exactly when the tab's
   * copy says what the disk says.
   */
  lemma EmptyPageCountsExactlyWhen(s: Setting, o: Origin, w: World, floor: nat, n: nat)
    requires Inv(s, w, floor) && Accounted(s, o, w) && ExactlyOnce(s, o, w)
    requires Enabled(s, w, CommitEmpty(n))
    ensures ExactlyOnce(s, o, Next(s, w, CommitEmpty(n))) <==> CarefulStep(s, w, CommitEmpty(n))
  {
    hide Inv, StoredIds, Ledger, RunningMax, Accounted;
    var v := Next(s, w, CommitEmpty(n));
    assert v.merged == w.merged && s.channelId in v.disk.channels;
    if CarefulStep(s, w, CommitEmpty(n)) {
      StepCounts(s, o, w, floor, CommitEmpty(n));
    } else if RunningMax(o, w.merged, v.disk.channels[s.channelId].latestPts) {
      MaxUnique(o, w.merged, w.disk.channels[s.channelId].latestPts, v.disk.channels[s.channelId].latestPts);
    }
  }

  /** A run that has counted once so far has taken only careful steps. */
  lemma {:induction false} CountedSoFar(s: Setting, o: Origin, ws: seq<World>, steps: seq<Step>, floor: nat, k: nat)
    requires IsRun(s, ws, steps) && Begins(s, ws[0], floor) && k < |ws| && Accounted(s, o, ws[0])
    requires forall j :: 0 <= j <= k ==> ExactlyOnce(s, o, ws[j])
    ensures Accounted(s, o, ws[k])
    ensures forall j :: 0 <= j < k ==> CarefulStep(s, ws[j], steps[j])
    decreases k
  {
    hide Inv, Begins, Accounted, ExactlyOnce, CarefulStep, Enabled, Next;
    if k > 0 {
      CountedSoFar(s, o, ws, steps, floor, k - 1);
      InvAlways(s, ws, steps, floor, k - 1);
      if steps[k - 1].CommitEmpty? {
        SameCommitEmpty(steps[k - 1]);
        EmptyPageCountsExactlyWhen(s, o, ws[k - 1], floor, steps[k - 1].tab);
        assert ws[k] == Next(s, ws[k - 1], steps[k - 1]) && ExactlyOnce(s, o, ws[k]);
      } else {
        OtherStepsCareful(s, ws[k - 1], steps[k - 1]);
      }
      StepCounts(s, o, ws[k - 1], floor, steps[k - 1]);
    }
  }

  lemma SameCommitEmpty(step: Step)
    requires step.CommitEmpty?
    ensures step == CommitEmpty(step.tab)
  {
  }

  lemma OtherStepsCareful(s: Setting, w: World, step: Step)
    requires !step.CommitEmpty?
    ensures CarefulStep(s, w, step)
  {
  }

  /**
   * Unread, cursor and sync state count every merged commit once throughout a run exactly when
   * every empty page of it finds the tab's copy current.
   */
  lemma CountsOnceExactlyWhen(s: Setting, o: Origin, ws: seq<World>, steps: seq<Step>, floor: nat)
    requires IsRun(s, ws, steps) && Begins(s, ws[0], floor)
    requires s.channelId in ws[0].disk.channels
    requires var channel := ws[0].disk.channels[s.channelId];
             o == Origin(StoredIds(ws[0].disk.messages, s.channelId), channel.unread, channel.latestPts,
               channel.readPts) &&
             (s.channelId in ws[0].disk.syncState ==> ws[0].disk.syncState[s.channelId] == channel.latestPts)
    ensures (forall k :: 0 <= k < |ws| ==> ExactlyOnce(s, o, ws[k])) <==>
            (forall j :: 0 <= j < |steps| ==> CarefulStep(s, ws[j], steps[j]))
  {
    hide Inv, Sane, Accounted, ExactlyOnce, CarefulStep, Enabled, Next, StoredIds, StoredOnceIn;
    if forall j :: 0 <= j < |steps| ==> CarefulStep(s, ws[j], steps[j]) {
      forall k | 0 <= k < |ws|
        ensures ExactlyOnce(s, o, ws[k])
      {
        PagesTakeEffectOnce(s, o, ws, steps, floor, k);
      }
    }
    if forall k :: 0 <= k < |ws| ==> ExactlyOnce(s, o, ws[k]) {
      FreshStartCounts(s, o, ws[0]);
      CountedSoFar(s, o, ws, steps, floor, |steps|);
    }
  }

  lemma FreshStartCounts(s: Setting, o: Origin, w: World)
    requires w.merged == {} && s.channelId in w.disk.channels
    requires var channel := w.disk.channels[s.channelId];
             o == Origin(StoredIds(w.disk.messages, s.channelId), channel.unread, channel.latestPts, channel.readPts) &&
             (s.channelId in w.disk.syncState ==> w.disk.syncState[s.channelId] == channel.latestPts)
    ensures Accounted(s, o, w) && ExactlyOnce(s, o, w)
  {
  }

  lemma MergedStoredOnce(s: Setting, o: Origin, w: World, floor: nat)
    requires Inv(s, w, floor) && Accounted(s, o, w)
    ensures forall c :: c in w.merged ==> StoredOnceIn(w.disk.messages, s.channelId, c.serverId)
  {
  }

  // ----- What a late empty page loses -----

  /** The unread messages a tab's page in flight would bring. */
  ghost function News(s: Setting, w: World, n: nat): set<Id>
    requires n < |w.tabs| && w.tabs[n].run.Answered? && s.channelId in w.disk.channels
  {
    UnreadIds(Reader(s.channelId, s.self, w.disk.channels[s.channelId].readPts), w.tabs[n].run.page.commits) -
    StoredIds(w.disk.messages, s.channelId)
  }

  /** A page with news committed, then a copy older than it written back: on the tables. */
  lemma StaleCopyWrittenBack(s: Setting, w: World, floor: nat, n: nat, newIds: seq<Id>, p: nat, cursor: nat,
                             moreIds: seq<Id>)
    requires Inv(s, w, floor) && s.channelId in w.disk.channels
    requires Enabled(s, w, CommitPage(n, newIds)) && |moreIds| == |newIds|
    requires MergePage(w.disk, w.tabs[n].memory, s.channelId, s.self, w.tabs[n].run.page, newIds).Ok?
    requires w.disk.channels[s.channelId].serverCurrentPts != p
    ensures var channel := w.disk.channels[s.channelId];
            var page := w.tabs[n].run.page;
            var t := AfterPage(s, w, n, newIds).disk;
            var u := EmptyPage(t, Some(channel), s.channelId, p, cursor);
            && s.channelId in t.channels && t.channels[s.channelId].unread == channel.unread + |News(s, w, n)|
            && s.channelId in u.channels && u.channels[s.channelId].unread == channel.unread
            && (forall k :: 0 <= k < |page.commits| ==> page.commits[k].serverId in StoredIds(u.messages, s.channelId))
            && forall memory :: MergePage(u, memory, s.channelId, s.self, page, moreIds).Ok? ==>
                 var x := MergePage(u, memory, s.channelId, s.self, page, moreIds).value;
                 s.channelId in x.channels && x.channels[s.channelId].unread == channel.unread
  {
    hide Inv, MergePage, StoredIds, UnreadIds, AfterPage, EmptyPage, NewIds, CommitIds, GoodLog, Consistent,
      EchoesAreOwnBy, Authentic;
    PageOnDisk(s, w, floor, n, newIds);
    EmptyThenAgain(s, w.log, AfterPage(s, w, n, newIds).disk, w.disk.channels[s.channelId], p, cursor,
      w.tabs[n].run.page, moreIds);
  }

  /** After tab `b`'s page, tab `a` is where it was, and may still commit its empty page. */
  lemma OtherTabWaits(s: Setting, w: World, a: nat, b: nat, newIds: seq<Id>)
    requires a != b && Enabled(s, w, CommitEmpty(a)) && Enabled(s, w, CommitPage(b, newIds))
    ensures var v := Next(s, w, CommitPage(b, newIds));
            && Enabled(s, v, CommitEmpty(a)) && v.tabs[a] == w.tabs[a] && v.disk == AfterPage(s, w, b, newIds).disk
            && Next(s, v, CommitEmpty(a)).disk ==
                 EmptyPage(v.disk, w.tabs[a].memory, s.channelId, w.tabs[a].run.page.serverCurrentPts,
                   w.tabs[a].run.cursor)
  {
    hide MergePage, EmptyPage, NewIds;
  }

  /**
   * Tab `b` may commit a page of unread news, and tab `a`, whose copy of the channel is current,
   * may commit an empty answer that observed another server position.
   */
  ghost predicate Race(s: Setting, w: World, a: nat, b: nat, newIds: seq<Id>)
  {
    && s.channelId in w.disk.channels && a != b && a < |w.tabs| && b < |w.tabs|
    && w.tabs[a].run.Answered? && w.tabs[b].run.Answered? && |newIds| == |w.tabs[b].run.page.commits|
    && Enabled(s, w, CommitPage(b, newIds)) && Enabled(s, w, CommitEmpty(a))
    && MergePage(w.disk, w.tabs[b].memory, s.channelId, s.self, w.tabs[b].run.page, newIds).Ok?
    && w.tabs[a].memory == Some(w.disk.channels[s.channelId])
    && w.disk.channels[s.channelId].serverCurrentPts != w.tabs[a].run.page.serverCurrentPts
    && News(s, w, b) != {}
  }

  /**
   * Two enabled steps of such a race: `b` commits, then `a`. The news are stored but no longer
   * counted, and merging them again in any tab does not count them.
   */
  lemma LateEmptyPageLosesUnread(s: Setting, w: World, floor: nat, a: nat, b: nat, newIds: seq<Id>, moreIds: seq<Id>)
    requires Inv(s, w, floor) && Race(s, w, a, b, newIds) && |moreIds| == |newIds|
    ensures var v := Next(s, w, CommitPage(b, newIds));
            && Enabled(s, v, CommitEmpty(a))
            && var u := Next(s, v, CommitEmpty(a)).disk;
               var before := w.disk.channels[s.channelId].unread;
               && s.channelId in v.disk.channels &&
                    v.disk.channels[s.channelId].unread == before + |News(s, w, b)| > before
               && s.channelId in u.channels && u.channels[s.channelId].unread == before
               && (forall x :: x in News(s, w, b) ==> x in StoredIds(u.messages, s.channelId))
               && forall memory :: MergePage(u, memory, s.channelId, s.self, w.tabs[b].run.page, moreIds).Ok? ==>
                    var again := MergePage(u, memory, s.channelId, s.self, w.tabs[b].run.page, moreIds).value;
                    s.channelId in again.channels && again.channels[s.channelId].unread == before
  {
    hide Inv, MergePage, StoredIds, AfterPage, EmptyPage, NewIds, Next, CommitIds, Enabled, News;
    OtherTabWaits(s, w, a, b, newIds);
    var p := w.tabs[a].run.page;
    StaleCopyWrittenBack(s, w, floor, b, newIds, p.serverCurrentPts, w.tabs[a].run.cursor, moreIds);
    NewsAreListed(s, w, b);
  }

  lemma NewsAreListed(s: Setting, w: World, n: nat)
    requires n < |w.tabs| && w.tabs[n].run.Answered? && s.channelId in w.disk.channels
    ensures forall x :: x in News(s, w, n) ==>
              exists k :: 0 <= k < |w.tabs[n].run.page.commits| && w.tabs[n].run.page.commits[k].serverId == x
  {
  }

  /** What a committed page leaves on disk. */
  lemma PageOnDisk(s: Setting, w: World, floor: nat, n: nat, newIds: seq<Id>)
    requires Inv(s, w, floor) && s.channelId in w.disk.channels
    requires Enabled(s, w, CommitPage(n, newIds))
    requires MergePage(w.disk, w.tabs[n].memory, s.channelId, s.self, w.tabs[n].run.page, newIds).Ok?
    ensures var channel := w.disk.channels[s.channelId];
            var commits := w.tabs[n].run.page.commits;
            var t := AfterPage(s, w, n, newIds).disk;
            && s.channelId in t.channels && t.channels[s.channelId].readPts == channel.readPts
            && t.channels[s.channelId].unread ==
                 channel.unread + |UnreadIds(Reader(s.channelId, s.self, channel.readPts),
                   commits) - StoredIds(w.disk.messages, s.channelId)|
            && CommitIds(commits) <= StoredIds(t.messages, s.channelId)
            && GoodLog(w.log) && Consistent(t.messages, s.channelId, w.log) && EchoesAreOwnBy(t.messages, s, w.log)
            && Authentic(commits, w.log)
  {
    hide MergePage, StoredIds, Consistent, GoodLog, SafePosition, SafeDisk, Authentic, UnreadIds, NewIds, EchoesAreOwn,
      CommitIds;
    var o := Origin({}, 0, 0, w.disk.channels[s.channelId].readPts);
    var tab := w.tabs[n];
    assert SafeTab(s, w, floor, tab);
    PageIsAuthentic(s, w, floor, tab);
    OwnEchoesUncounted(s, o, w.disk.messages, w.log);
    PageStores(w.disk, tab.memory, s.channelId, s.self, tab.run.page, newIds, w.log);
    PageMovesChannel(w.disk, tab.memory, s.channelId, s.self, tab.run.page, newIds, w.log);
    EchoesStayOwn(w.disk.messages, AfterPage(s, w, n, newIds).disk.messages, s, w.log);
  }

  /** A stale copy written back, then commits that are already stored: the stale count stays. */
  lemma EmptyThenAgain(s: Setting, log: Log, t: Tables, stale: Channel, p: nat, cursor: nat, again: Page,
                       moreIds: seq<Id>)
    requires |again.commits| == |moreIds| && p != stale.serverCurrentPts
    requires GoodLog(log) && Consistent(t.messages, s.channelId, log) && EchoesAreOwnBy(t.messages, s, log)
    requires Authentic(again.commits, log) && CommitIds(again.commits) <= StoredIds(t.messages, s.channelId)
    ensures var u := EmptyPage(t, Some(stale), s.channelId, p, cursor);
            && u.messages == t.messages && s.channelId in u.channels && u.channels[s.channelId].unread == stale.unread
            && (forall k :: 0 <= k < |again.commits| ==>
                 again.commits[k].serverId in StoredIds(u.messages, s.channelId))
            && forall memory :: MergePage(u, memory, s.channelId, s.self, again, moreIds).Ok? ==>
                 var x := MergePage(u, memory, s.channelId, s.self, again, moreIds).value;
                 s.channelId in x.channels && x.channels[s.channelId].unread == stale.unread
  {
    hide MergePage, StoredIds, Consistent, GoodLog, Authentic, UnreadIds, EchoesAreOwn, CommitIds;
    var u := EmptyPage(t, Some(stale), s.channelId, p, cursor);
    var o := Origin({}, 0, 0, stale.readPts);
    OwnEchoesUncounted(s, o, u.messages, log);
    UnreadWasStored(ReaderAt(s, o), again.commits, StoredIds(u.messages, s.channelId));
    forall memory | MergePage(u, memory, s.channelId, s.self, again, moreIds).Ok?
      ensures var x := MergePage(u, memory, s.channelId, s.self, again, moreIds).value;
              s.channelId in x.channels && x.channels[s.channelId].unread == stale.unread
    {
      PageMovesChannel(u, memory, s.channelId, s.self, again, moreIds, log);
    }
  }

  lemma UnreadWasStored(reader: Reader, commits: seq<ServerCommit>, stored: set<Id>)
    requires CommitIds(commits) <= stored
    ensures UnreadIds(reader, commits) - stored == {}
    ensures forall k :: 0 <= k < |commits| ==> commits[k].serverId in stored
  {
  }
}
