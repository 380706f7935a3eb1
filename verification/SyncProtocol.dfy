// Any number of tabs syncing one channel of one database, page by page, against a growing
// server log (`runSync`, src/sync-engine.ts:198-317). Each transaction is one step.

module SyncProtocol {
  import opened Text
  import opened Records
  import opened CacheTables
  import opened SyncPages
  import opened SyncEffects
  import opened SyncTheorems

  /** The channel being synced and the user whose database this is. */
  datatype Setting = Setting(channelId: Id, self: Option<Id>)

  /** Where a tab is inside `runSync`. */
  datatype Run =
    | Idle
    | Asking(cursor: nat)
    | Answered(cursor: nat, page: Page, hasMore: bool)
    | Publishing(channel: Option<Channel>, cursor: nat, last: Option<nat>)
    | Finished(upTo: nat)

  /** `memory` is the tab's copy of the channel record. */
  datatype Tab = Tab(memory: Option<Channel>, run: Run)

  /** `merged` is history: the commits of the pages whose transaction committed. */
  datatype World = World(disk: Tables, tabs: seq<Tab>, log: Log, serverPts: nat, merged: Log)

  datatype Step =
    | ServerAppends(commit: ServerCommit)
    | Hydrate(tab: nat)
    | Start(tab: nat)
    | Answer(tab: nat, page: Page, hasMore: bool)
    | CommitPage(tab: nat, newIds: seq<Id>)
    | Publish(tab: nat)
    | CommitEmpty(tab: nat)
    | Stop(tab: nat)
    | Queue(message: Record, command: OutboxEntry)
    | SendAck(acked: Record, outboxId: Id)

  function DiskChannel(disk: Tables, channelId: Id): Option<Channel>
  {
    if channelId in disk.channels then Some(disk.channels[channelId]) else None
  }

  function OnTab(w: World, n: nat, tab: Tab): World
    requires n < |w.tabs|
  {
    w.(tabs := w.tabs[n := tab])
  }

  function LastPts(commits: seq<ServerCommit>, otherwise: nat): nat
  {
    if commits == [] then otherwise else commits[|commits| - 1].pts
  }

  /** What the server answers to `last_pts`: the next commits in order, and whether more follow. */
  ghost predicate Answers(log: Log, serverPts: nat, cursor: nat, page: Page, hasMore: bool)
  {
    && Authentic(page.commits, log)
    && (forall k :: 0 <= k < |page.commits| ==> cursor < page.commits[k].pts <= LastPts(page.commits, cursor))
    && (forall c :: c in log && cursor < c.pts && (c.pts <= LastPts(page.commits, cursor) || !hasMore) ==>
         c in page.commits)
    && page.cursor == LastPts(page.commits, cursor)
    && page.serverCurrentPts == serverPts
  }

  /** The server gives each commit a larger pts, and never reuses a network id. */
  ghost predicate MayAppend(s: Setting, w: World, c: ServerCommit)
  {
    && c.pts > w.serverPts
    && GoodLog(w.log + {c})
    && LogAgrees(w.disk.messages, s.channelId, {c})
    && EchoesAreOwnBy(w.disk.messages, s, {c})
  }

  /** A commit that echoes one of our pending sends is from us. */
  ghost predicate EchoesAreOwnBy(ms: Messages, s: Setting, log: Log)
  {
    forall i, c ::
      (i in ms && c in log && c.localId.Some? && HasLocal(ms[i], s.channelId, c.localId.value) &&
        ms[i].record.status == Pending) ==>
        IsOwn(c, s.self)
  }

  /** A queued send is pending, unconfirmed, under a local id nobody has used. */
  ghost predicate MayQueue(w: World, message: Record)
  {
    && message.status == Pending && message.serverId == None && message.localId.Some?
    && forall c :: c in w.log ==> c.localId != message.localId
  }

  /** The server's ack of our own send names the commit it became. */
  ghost predicate MayAck(s: Setting, w: World, acked: Record)
  {
    && Seated(w.disk.messages, acked, s.channelId)
    && exists c :: c in w.log && RecordsCommit(acked, s.channelId, c) && IsOwn(c, s.self)
  }

  ghost predicate Enabled(s: Setting, w: World, step: Step)
  {
    match step
    case ServerAppends(c) => MayAppend(s, w, c)
    case Hydrate(n) => n < |w.tabs|
    case Start(n) => n < |w.tabs| && (w.tabs[n].run.Idle? || w.tabs[n].run.Finished?)
    case Answer(n, page, hasMore) =>
      n < |w.tabs| && w.tabs[n].run.Asking? && Answers(w.log, w.serverPts, w.tabs[n].run.cursor, page, hasMore)
    case CommitPage(n, newIds) =>
      && n < |w.tabs| && w.tabs[n].run.Answered? && w.tabs[n].run.page.commits != []
      && |newIds| == |w.tabs[n].run.page.commits| && NewIds(w.disk.messages, newIds)
    case Publish(n) => n < |w.tabs| && w.tabs[n].run.Publishing?
    case CommitEmpty(n) =>
      n < |w.tabs| && w.tabs[n].run.Answered? && w.tabs[n].run.page.commits == [] && !w.tabs[n].run.hasMore
    case Stop(n) => n < |w.tabs|
    case Queue(message, command) => MayQueue(w, message)
    case SendAck(acked, outboxId) => MayAck(s, w, acked)
  }

  /** Where a committed page leaves the run: the next request, or done. */
  function AfterPublish(run: Run): Run
    requires run.Publishing?
  {
    if run.last.Some? then Finished(run.last.value) else Asking(run.cursor)
  }

  function AfterPage(s: Setting, w: World, n: nat, newIds: seq<Id>): World
    requires n < |w.tabs| && w.tabs[n].run.Answered? && |newIds| == |w.tabs[n].run.page.commits|
  {
    var tab := w.tabs[n];
    var page := tab.run.page;
    var merged := MergePage(w.disk, tab.memory, s.channelId, s.self, page, newIds);
    if merged.Err? then OnTab(w, n, tab.(run := Idle))
    else
      OnTab(w.(disk := merged.value, merged := w.merged + set k | 0 <= k < |page.commits| :: page.commits[k]), n,
            tab.(run := Publishing(DiskChannel(merged.value, s.channelId), page.cursor,
                                   if tab.run.hasMore then None else Some(page.serverCurrentPts))))
  }

  function AfterEmpty(s: Setting, w: World, n: nat): World
    requires n < |w.tabs| && w.tabs[n].run.Answered?
  {
    var tab := w.tabs[n];
    var p := tab.run.page.serverCurrentPts;
    OnTab(w.(disk := EmptyPage(w.disk, tab.memory, s.channelId, p, tab.run.cursor)), n,
          Tab(if tab.memory.Some? then Some(tab.memory.value.(serverCurrentPts := p)) else None, Finished(p)))
  }

  function Next(s: Setting, w: World, step: Step): World
    requires Enabled(s, w, step)
  {
    match step
    case ServerAppends(c) => w.(log := w.log + {c}, serverPts := c.pts)
    case Hydrate(n) => OnTab(w, n, w.tabs[n].(memory := DiskChannel(w.disk, s.channelId)))
    case Start(n) =>
      OnTab(w, n, w.tabs[n].(run := Asking(if w.tabs[n].memory.Some? then w.tabs[n].memory.value.latestPts else 0)))
    case Answer(n, page, hasMore) => OnTab(w, n, w.tabs[n].(run := Answered(w.tabs[n].run.cursor, page, hasMore)))
    case CommitPage(n, newIds) => AfterPage(s, w, n, newIds)
    case Publish(n) =>
      var run := w.tabs[n].run;
      OnTab(w, n, Tab(if run.channel.Some? then run.channel else w.tabs[n].memory, AfterPublish(run)))
    case CommitEmpty(n) => AfterEmpty(s, w, n)
    case Stop(n) => OnTab(w, n, w.tabs[n].(run := Idle))
    case Queue(message, command) =>
      var queued := Enqueue(w.disk, message, command);
      if queued.Err? then w else w.(disk := queued.value)
    case SendAck(acked, outboxId) =>
      var done := CommitAck(w.disk, acked, outboxId);
      if done.Err? then w else w.(disk := done.value)
  }

  /** A run of the system. */
  ghost predicate IsRun(s: Setting, ws: seq<World>, steps: seq<Step>)
  {
    && |ws| == |steps| + 1
    && forall k :: 0 <= k < |steps| ==> Enabled(s, ws[k], steps[k]) && ws[k + 1] == Next(s, ws[k], steps[k])
  }
}
