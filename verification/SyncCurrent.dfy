// When a tab's copy of the channel is current, so that its empty page is harmless
// (src/sync-engine.ts:198-379).

module SyncCurrent {
  import opened Text
  import opened Records
  import opened CacheTables
  import opened IndexAgreement
  import opened SyncPages
  import opened SyncEffects
  import opened SyncTheorems
  import opened SyncProtocol
  import opened SyncSafety
  import opened SyncRuns

  // ----- Many tabs: current until another tab commits -----

  /** The tab has, or is about to publish, the channel as it is on disk. */
  ghost predicate Current(s: Setting, w: World, n: nat)
    requires n < |w.tabs|
  {
    var disk := DiskChannel(w.disk, s.channelId);
    disk.Some? ==> (if w.tabs[n].run.Publishing? then w.tabs[n].run.channel else w.tabs[n].memory) == disk
  }

  /** The step is not another tab's page, nor does the tab drop a page it has not published. */
  ghost predicate Undisturbed(w: World, step: Step, n: nat)
    requires n < |w.tabs|
  {
    && ((step.CommitPage? || step.CommitEmpty?) ==> step.tab == n)
    && (step == Stop(n) ==> !w.tabs[n].run.Publishing?)
  }

  lemma StepKeepsCurrent(s: Setting, w: World, step: Step, n: nat)
    requires n < |w.tabs| && Enabled(s, w, step) && Current(s, w, n) && Undisturbed(w, step, n)
    ensures |Next(s, w, step).tabs| == |w.tabs| && Current(s, Next(s, w, step), n)
  {
    hide MergePage, MayAppend, MayQueue, MayAck, Answers, NewIds, ApplyAck, QueuedRow, Admissible, Addable;
    if step.SendAck? {
      AckKeepsChannels(w.disk, step.acked);
    }
  }

  /** The moments at which the tab reads the channel: it hydrates, or its own page commits. */
  ghost predicate ReadsChannel(w: World, v: World, step: Step, n: nat)
  {
    n < |w.tabs| && |v.tabs| == |w.tabs| &&
      (step == Hydrate(n) || (step.CommitPage? && step.tab == n && v.tabs[n].run.Publishing?))
  }

  lemma ReadingIsCurrent(s: Setting, w: World, step: Step, n: nat)
    requires Enabled(s, w, step) && ReadsChannel(w, Next(s, w, step), step, n)
    requires step == Hydrate(n) ==> !w.tabs[n].run.Publishing?
    ensures Current(s, Next(s, w, step), n)
  {
    hide MergePage;
  }

  /** A tab's copy is current as long as no other tab's page committed since the tab read the channel. */
  lemma {:induction false} CopyIsCurrentSince(s: Setting, ws: seq<World>, steps: seq<Step>, n: nat, j: nat, k: nat)
    requires IsRun(s, ws, steps) && j < k < |ws| && n < |ws[j].tabs|
    requires ReadsChannel(ws[j], ws[j + 1], steps[j], n) && (steps[j] == Hydrate(n) ==> !ws[j].tabs[n].run.Publishing?)
    requires forall i :: j < i < k ==> n < |ws[i].tabs| && Undisturbed(ws[i], steps[i], n)
    ensures n < |ws[k].tabs| && Current(s, ws[k], n)
    ensures k < |steps| && steps[k] == CommitEmpty(n) ==> CarefulStep(s, ws[k], steps[k])
    decreases k
  {
    hide Enabled, Next, Undisturbed;
    if k == j + 1 {
      ReadingIsCurrent(s, ws[j], steps[j], n);
    } else {
      CopyIsCurrentSince(s, ws, steps, n, j, k - 1);
      StepKeepsCurrent(s, ws[k - 1], steps[k - 1], n);
    }
  }

  // ----- One tab: always current when it matters -----

  predicate Matches(a: Channel, b: Channel)
  {
    a.latestPts == b.latestPts && a.unread == b.unread && a.readPts == b.readPts
  }

  /** The position is that of a commit of the log. */
  ghost predicate Reached(log: Log, p: nat)
  {
    exists c :: c in log && c.pts == p
  }

  /** A cursor the tab asks from: at the disk's position, or below a commit it will be given. */
  ghost predicate CursorFits(w: World, ch: Channel, floor: nat, cursor: nat)
  {
    floor <= cursor <= ch.latestPts && (cursor < ch.latestPts ==> Reached(w.log, ch.latestPts))
  }

  /** The copy agrees with the disk, or is behind a position that asking from it will reveal. */
  ghost predicate CopyFits(w: World, ch: Channel, floor: nat, memory: Option<Channel>)
  {
    && memory.Some? && floor <= memory.value.latestPts
    && (Matches(memory.value, ch) || (memory.value.latestPts < ch.latestPts && Reached(w.log, ch.latestPts)))
  }

  ghost predicate RunFits(w: World, ch: Channel, floor: nat, tab: Tab)
  {
    match tab.run
    case Asking(cursor) =>
      CursorFits(w, ch, floor, cursor) && (tab.memory.Some? && !Matches(tab.memory.value, ch) ==> cursor < ch.latestPts)
    case Answered(cursor, page, hasMore) =>
      && CursorFits(w, ch, floor, cursor) &&
           (tab.memory.Some? && !Matches(tab.memory.value, ch) ==> cursor < ch.latestPts)
      && (page.commits == [] && !hasMore ==> cursor == ch.latestPts)
      && (forall k :: 0 <= k < |page.commits| ==> cursor < page.commits[k].pts)
    case Publishing(channel, cursor, _) => channel == Some(ch) && CursorFits(w, ch, floor, cursor)
    case _ => true
  }

  ghost predicate OneTab(s: Setting, w: World, floor: nat)
  {
    && |w.tabs| == 1 && s.channelId in w.disk.channels
    && var ch := w.disk.channels[s.channelId];
       CopyFits(w, ch, floor, w.tabs[0].memory) && RunFits(w, ch, floor, w.tabs[0])
  }

  lemma OneTabCareful(s: Setting, w: World, floor: nat, step: Step)
    requires OneTab(s, w, floor) && Enabled(s, w, step)
    ensures CarefulStep(s, w, step)
  {
    hide Reached, MayAppend, MayQueue, MayAck, Answers, NewIds;
  }

  /** A page either moves the cursor on, or brings nothing the disk did not count. */
  lemma PageAdvances(s: Setting, w: World, floor: nat, newIds: seq<Id>)
    requires Inv(s, w, floor) && OneTab(s, w, floor) && Enabled(s, w, CommitPage(0, newIds))
    requires MergePage(w.disk, w.tabs[0].memory, s.channelId, s.self, w.tabs[0].run.page, newIds).Ok?
    ensures var u := MergePage(w.disk, w.tabs[0].memory, s.channelId, s.self, w.tabs[0].run.page, newIds).value;
            && s.channelId in u.channels
            && var (was, now) := (w.disk.channels[s.channelId], u.channels[s.channelId]);
               && was.latestPts <= now.latestPts && w.tabs[0].run.page.cursor <= now.latestPts
               && (Matches(was, now) || (was.latestPts < now.latestPts && Reached(w.log, now.latestPts)))
               && (was.latestPts == now.latestPts || Reached(w.log, now.latestPts))
  {
    hide MergePage, StoredIds, Consistent, GoodLog, Authentic, UnreadIds, NewIds, EchoesAreOwn, EchoesAreOwnBy,
      CommitIds;
    var tab := w.tabs[0];
    var page := tab.run.page;
    var o := Origin({}, 0, 0, w.disk.channels[s.channelId].readPts);
    assert SafeTab(s, w, floor, tab);
    PageIsAuthentic(s, w, floor, tab);
    OwnEchoesUncounted(s, o, w.disk.messages, w.log);
    PageMovesChannel(w.disk, tab.memory, s.channelId, s.self, page, newIds, w.log);
    var (was, now) := (w.disk.channels[s.channelId],
                       MergePage(w.disk, tab.memory, s.channelId, s.self, page, newIds).value.channels[s.channelId]);
    LastIsListed(page, w.log);
    if now.latestPts == was.latestPts {
      PageWasStored(s, w, floor, page);
      UnreadWasStored(ReaderAt(s, o), page.commits, StoredIds(w.disk.messages, s.channelId));
    } else {
      var k :| 0 <= k < |page.commits| && page.commits[k].pts == now.latestPts;
      CommitInLog(page, w.log, k);
    }
  }

  lemma CommitInLog(page: Page, log: Log, k: nat)
    requires Authentic(page.commits, log) && k < |page.commits|
    ensures page.commits[k] in log && Reached(log, page.commits[k].pts)
  {
  }

  lemma LastIsListed(page: Page, log: Log)
    requires page.commits != [] && page.cursor == LastPts(page.commits, 0)
    ensures exists k :: 0 <= k < |page.commits| && page.commits[k].pts == page.cursor
  {
    assert page.commits[|page.commits| - 1].pts == page.cursor;
  }

  /** Commits between the floor and the disk's position are stored already. */
  lemma PageWasStored(s: Setting, w: World, floor: nat, page: Page)
    requires Inv(s, w, floor) && s.channelId in w.disk.channels && Authentic(page.commits, w.log)
    requires forall k :: 0 <= k < |page.commits| ==>
             floor < page.commits[k].pts <= w.disk.channels[s.channelId].latestPts
    ensures CommitIds(page.commits) <= StoredIds(w.disk.messages, s.channelId)
  {
    hide StoredIds, Sane;
    assert SafePosition(s, w, floor, w.disk.channels[s.channelId].latestPts);
  }

  lemma CommitPageKeepsOne(s: Setting, w: World, floor: nat, newIds: seq<Id>)
    requires Inv(s, w, floor) && OneTab(s, w, floor) && Enabled(s, w, CommitPage(0, newIds))
    ensures OneTab(s, AfterPage(s, w, 0, newIds), floor)
  {
    hide MergePage, Inv, NewIds, Reached;
    if MergePage(w.disk, w.tabs[0].memory, s.channelId, s.self, w.tabs[0].run.page, newIds).Ok? {
      PageAdvances(s, w, floor, newIds);
      PageStartsAbove(s, w, floor);
    }
  }

  lemma PageStartsAbove(s: Setting, w: World, floor: nat)
    requires Inv(s, w, floor) && OneTab(s, w, floor) && w.tabs[0].run.Answered? && w.tabs[0].run.page.commits != []
    ensures floor <= w.tabs[0].run.cursor < w.tabs[0].run.page.cursor
  {
    hide Sane, SafeDisk, Authentic, Reached;
    assert SafeTab(s, w, floor, w.tabs[0]);
    var page := w.tabs[0].run.page;
    assert page.commits[|page.commits| - 1].pts == page.cursor;
  }

  lemma AnswerKeepsOne(s: Setting, w: World, floor: nat, page: Page, hasMore: bool)
    requires OneTab(s, w, floor) && Enabled(s, w, Answer(0, page, hasMore))
    ensures OneTab(s, Next(s, w, Answer(0, page, hasMore)), floor)
  {
  }

  lemma TabStepKeepsOne(s: Setting, w: World, floor: nat, step: Step)
    requires OneTab(s, w, floor) && Enabled(s, w, step)
    requires step.Hydrate? || step.Start? || step.Publish? || step.CommitEmpty? || step.Stop?
    ensures OneTab(s, Next(s, w, step), floor)
  {
    hide Reached;
  }

  lemma OtherStepKeepsOne(s: Setting, w: World, floor: nat, step: Step)
    requires OneTab(s, w, floor) && Enabled(s, w, step)
    requires step.ServerAppends? || step.Queue? || step.SendAck?
    ensures OneTab(s, Next(s, w, step), floor)
  {
    hide MayAppend, MayQueue, MayAck, ApplyAck, QueuedRow, Admissible, Addable;
    if step.SendAck? {
      AckKeepsChannels(w.disk, step.acked);
    }
  }

  lemma StepKeepsOne(s: Setting, w: World, floor: nat, step: Step)
    requires Inv(s, w, floor) && OneTab(s, w, floor) && Enabled(s, w, step)
    ensures OneTab(s, Next(s, w, step), floor)
  {
    hide Inv, OneTab, MayAppend, MayQueue, MayAck, Answers, NewIds, AfterPage, AfterEmpty, Enqueue, CommitAck;
    OnlyTab(s, w, floor);
    match step
    case Answer(n, page, hasMore) => AnswerKeepsOne(s, w, floor, page, hasMore);
    case CommitPage(n, newIds) => CommitPageKeepsOne(s, w, floor, newIds);
    case ServerAppends(_) => OtherStepKeepsOne(s, w, floor, step);
    case Queue(_, _) => OtherStepKeepsOne(s, w, floor, step);
    case SendAck(_, _) => OtherStepKeepsOne(s, w, floor, step);
    case _ => TabStepKeepsOne(s, w, floor, step);
  }

  lemma OnlyTab(s: Setting, w: World, floor: nat)
    requires OneTab(s, w, floor)
    ensures |w.tabs| == 1
  {
  }

  /** The one tab has read the channel that is on disk. */
  ghost predicate BeginsAlone(s: Setting, w: World, floor: nat)
  {
    && Begins(s, w, floor) && |w.tabs| == 1
    && s.channelId in w.disk.channels && w.disk.channels[s.channelId].latestPts == floor
    && w.tabs[0].memory.Some? && Matches(w.tabs[0].memory.value, w.disk.channels[s.channelId])
  }

  /** Every step of a run of one tab is careful, failures and lost publications included. */
  lemma {:induction false} OneTabIsCareful(s: Setting, ws: seq<World>, steps: seq<Step>, floor: nat, k: nat)
    requires IsRun(s, ws, steps) && BeginsAlone(s, ws[0], floor) && k < |ws|
    ensures OneTab(s, ws[k], floor)
    ensures k < |steps| ==> CarefulStep(s, ws[k], steps[k])
    decreases k
  {
    hide Inv, Sane, Enabled, Next, OneTab, CarefulStep;
    if k == 0 {
      AloneFits(s, ws[0], floor);
    } else {
      OneTabIsCareful(s, ws, steps, floor, k - 1);
      InvAlways(s, ws, steps, floor, k - 1);
      StepKeepsOne(s, ws[k - 1], floor, steps[k - 1]);
    }
    if k < |steps| {
      OneTabCareful(s, ws[k], floor, steps[k]);
    }
  }

  lemma AloneFits(s: Setting, w: World, floor: nat)
    requires BeginsAlone(s, w, floor)
    ensures OneTab(s, w, floor)
  {
    hide Sane;
  }

  /** With one tab, pages take effect exactly once, with nothing assumed of its empty pages. */
  lemma OneTabCountsOnce(s: Setting, o: Origin, ws: seq<World>, steps: seq<Step>, floor: nat, k: nat)
    requires IsRun(s, ws, steps) && BeginsAlone(s, ws[0], floor) && k < |ws|
    requires var channel := ws[0].disk.channels[s.channelId];
             o == Origin(StoredIds(ws[0].disk.messages, s.channelId), channel.unread, channel.latestPts,
               channel.readPts) &&
             (s.channelId in ws[0].disk.syncState ==> ws[0].disk.syncState[s.channelId] == channel.latestPts)
    ensures Accounted(s, o, ws[k]) && ExactlyOnce(s, o, ws[k])
    ensures forall c :: c in ws[k].merged ==> StoredOnceIn(ws[k].disk.messages, s.channelId, c.serverId)
  {
    hide Sane, Enabled, Next, OneTab, CarefulStep, Accounted, ExactlyOnce, StoredOnceIn, StoredIds;
    forall j | 0 <= j < |steps|
      ensures CarefulStep(s, ws[j], steps[j])
    {
      OneTabIsCareful(s, ws, steps, floor, j);
    }
    PagesTakeEffectOnce(s, o, ws, steps, floor, k);
  }

  // ----- The race of an empty page with another tab's page does occur -----

  /**
   * An empty channel, two tabs: the first was answered before the commit, with nothing new and
   * server position 1; the second after it.
   */
  function RaceStart(s: Setting, c: ServerCommit): World
  {
    var channel := Channel(0, 0, 0, 0, 0);
    World(EMPTY.(channels := map[s.channelId := channel]),
          [Tab(Some(channel), Answered(0, Page([], 0, 1), false)),
           Tab(Some(channel), Answered(0, Page([c], c.pts, c.pts), false))],
          {c}, c.pts, {})
  }

  /** A foreign commit with no local id, after position 1. */
  predicate Foreign(s: Setting, c: ServerCommit)
  {
    c.serverId != "" && c.localId == None && c.pts > 1 && !IsOwn(c, s.self)
  }

  lemma OnePageMerges(s: Setting, c: ServerCommit, newId: Id)
    requires Foreign(s, c)
    ensures var w := RaceStart(s, c);
            MergePage(w.disk, w.tabs[1].memory, s.channelId, s.self, w.tabs[1].run.page, [newId]).Ok?
  {
    hide DisplaySortKey, ReconcileAll;
    var t := RaceStart(s, c).disk;
    var page := Page([c], c.pts, c.pts);
    var reader := Reader(s.channelId, s.self, 0);
    var zero := ZeroTally(Some(Channel(0, 0, 0, 0, 0)));
    var record := CommitRecord(c, s.channelId, s.self, newId);
    FindInChannelSpec(map[], s.channelId, c.serverId);
    FindByServerSpec(map[], c.serverId);
    assert [c][..0] == [] && [newId][..0] == [];
    assert TallyAll(t.messages, reader, zero, [c], [newId]) == TallyOne(t.messages, reader, zero, c, newId);
    assert PageTally(t, Some(Channel(0, 0, 0, 0, 0)), s.channelId, s.self, page, [newId]).upserts == [record];
    assert FindExisting(map[], record) == Ok(None);
    assert [record][..0] == [];
    assert UpsertEach(map[], map[], [record], 0) == UpsertOne(Batch(map[], 0, []), map[], record);
  }

  lemma RaceIsSafe(s: Setting, c: ServerCommit)
    requires Foreign(s, c)
    ensures Inv(s, RaceStart(s, c), 0)
  {
    var w := RaceStart(s, c);
    assert StoredIds(w.disk.messages, s.channelId) == {};
  }

  /** The race is possible, and its news are not empty. */
  lemma RaceHappens(s: Setting, c: ServerCommit, newId: Id)
    requires Foreign(s, c)
    ensures Inv(s, RaceStart(s, c), 0) && Race(s, RaceStart(s, c), 0, 1, [newId])
  {
    hide MergePage, Inv;
    var w := RaceStart(s, c);
    RaceIsSafe(s, c);
    OnePageMerges(s, c, newId);
    assert w.tabs[1].run.page.commits[0] == c && CountsAsUnread(Reader(s.channelId, s.self, 0), c);
    assert c.serverId in News(s, w, 1);
  }
}
