// One sync page: rows, unread count and cursor move together
// (`mergeCommits` and `persistEmptyPage`, src/sync-engine.ts).

module SyncPages {
  import opened Text
  import opened Records
  import opened Merging
  import opened CacheTables

  /** A server commit; `content` and `payload` are what the canonical adapter extracts from it. */
  datatype ServerCommit = ServerCommit(
    serverId: Id,
    localId: Option<Id>,
    pts: nat,
    senderId: Id,
    messageType: string,
    content: string,
    payload: seq<Byte>,
    serverTimestamp: int
  )

  predicate IsOwn(commit: ServerCommit, self: Option<Id>)
  {
    self == Some(commit.senderId)
  }

  /** `commitToMessageRecord`; `newId` is the id minted for it. */
  function CommitRecord(commit: ServerCommit, channelId: Id, self: Option<Id>, newId: Id): Record
  {
    Record(newId, channelId, Some(commit.serverId), commit.localId, Some(Numeral(commit.pts)), None, commit.senderId,
           commit.messageType, commit.content, commit.payload, NormalizeSentAtMs(commit.serverTimestamp),
           Some(Milliseconds), if IsOwn(commit, self) then Sent else Received, Some(false))
  }

  /** Defensive equality: payload and identity are not part of it. */
  predicate MessageEquals(a: Record, b: Record)
  {
    && a.serverId == b.serverId && a.pts == b.pts && a.fromUid == b.fromUid && a.messageType == b.messageType
    && a.content == b.content && a.timestamp == b.timestamp && a.status == b.status
    && (a.revoked == Some(true) <==> b.revoked == Some(true))
  }

  /** What the commit loop accumulates. */
  datatype Tally = Tally(
    upserts: seq<Record>,
    acks: seq<Record>,
    consumed: set<Id>,
    inserted: nat,
    bump: nat,
    maxPts: nat,
    maxTime: int
  )

  /** The page's channel and reader. */
  datatype Reader = Reader(channelId: Id, self: Option<Id>, readPts: nat)

  /** The row this commit echoes, when it is still pending and not already acknowledged by the page. */
  function PendingEcho(ms: Messages, reader: Reader, consumed: set<Id>, commit: ServerCommit): Option<Stored>
  {
    if commit.localId.None? || commit.localId.value in consumed then None
    else
      var row := FindByLocal(ms, reader.channelId, commit.localId.value);
      if row.Some? && row.value.record.status == Pending then row else None
  }

  /** The pending row, acknowledged: its identity, place and payload, the commit's facts. */
  function EchoAck(pending: Record, next: Record): Record
  {
    next.(id := pending.id, orderSeq := pending.orderSeq, localId := pending.localId, status := Sent,
          payload := pending.payload)
  }

  predicate CountsAsUnread(reader: Reader, commit: ServerCommit)
  {
    !IsOwn(commit, reader.self) && commit.pts > reader.readPts
  }

  function TallyOne(ms: Messages, reader: Reader, tally: Tally, commit: ServerCommit, newId: Id): Tally
  {
    var next := CommitRecord(commit, reader.channelId, reader.self, newId);
    var seen := tally.(maxPts := if commit.pts > tally.maxPts then commit.pts else tally.maxPts,
                       maxTime := if next.timestamp > tally.maxTime then next.timestamp else tally.maxTime);
    var pending := PendingEcho(ms, reader, tally.consumed, commit);
    if pending.Some? then
      seen.(acks := seen.acks + [EchoAck(pending.value.record, next)],
            consumed := seen.consumed + {commit.localId.value})
    else
      var existing := FindInChannel(ms, reader.channelId, commit.serverId);
      if existing.Some? then
        if MessageEquals(existing.value.record, next) then seen else seen.(upserts := seen.upserts + [next])
      else
        seen.(upserts := seen.upserts + [next], inserted := seen.inserted + 1,
              bump := if CountsAsUnread(reader, commit) then seen.bump + 1 else seen.bump)
  }

  function TallyAll(ms: Messages, reader: Reader, zero: Tally, commits: seq<ServerCommit>, newIds: seq<Id>): Tally
    requires |newIds| == |commits|
    decreases |commits|
  {
    if commits == [] then zero
    else
      var n := |commits| - 1;
      TallyOne(ms, reader, TallyAll(ms, reader, zero, commits[..n], newIds[..n]), commits[n], newIds[n])
  }

  function AckAll(t: Tables, acks: seq<Record>): Result<Tables, StoreError>
    decreases |acks|
  {
    if acks == [] then Ok(t)
    else
      var before := AckAll(t, acks[..|acks| - 1]);
      if before.Err? then before else ApplyAck(before.value, acks[|acks| - 1])
  }

  /** The channel projection after the page. */
  function Projected(channel: Channel, tally: Tally, serverCurrentPts: nat): Channel
  {
    channel.(
      latestPts := if tally.maxPts > channel.latestPts then tally.maxPts else channel.latestPts,
      updatedAt := if tally.maxTime > channel.updatedAt then tally.maxTime else channel.updatedAt,
      unread := channel.unread + tally.bump,
      serverCurrentPts := serverCurrentPts)
  }

  function ChannelBefore(t: Tables, memory: Option<Channel>, channelId: Id): Option<Channel>
  {
    if channelId in t.channels then Some(t.channels[channelId]) else memory
  }

  function ReaderOf(before: Option<Channel>, channelId: Id, self: Option<Id>): Reader
  {
    Reader(channelId, self, if before.Some? then before.value.readPts else 0)
  }

  function ZeroTally(before: Option<Channel>): Tally
  {
    Tally([], [], {}, 0, 0, if before.Some? then before.value.latestPts else 0,
          if before.Some? then before.value.updatedAt else 0)
  }

  /** Channel row and cursor, once the rows are in. */
  function MoveCursor(t: Tables, before: Option<Channel>, channelId: Id, tally: Tally, cursor: nat,
                      serverCurrentPts: nat): Tables
  {
    if before.None? then t.(syncState := t.syncState[channelId := cursor])
    else
      var next := Projected(before.value, tally, serverCurrentPts);
      t.(channels := if next != before.value then t.channels[channelId := next] else t.channels,
         syncState := t.syncState[channelId := next.latestPts])
  }

  datatype Page = Page(commits: seq<ServerCommit>, cursor: nat, serverCurrentPts: nat)

  function PageTally(t: Tables, memory: Option<Channel>, channelId: Id, self: Option<Id>, page: Page,
                     newIds: seq<Id>): Tally
    requires |newIds| == |page.commits|
  {
    var before := ChannelBefore(t, memory, channelId);
    TallyAll(t.messages, ReaderOf(before, channelId, self), ZeroTally(before), page.commits, newIds)
  }

  /** The page transaction. `Err` means it aborted and nothing moved. */
  function MergePage(t: Tables, memory: Option<Channel>, channelId: Id, self: Option<Id>, page: Page, newIds: seq<Id>)
    : Result<Tables, StoreError>
    requires |newIds| == |page.commits|
  {
    var tally := PageTally(t, memory, channelId, self, page, newIds);
    var acked := AckAll(t, tally.acks);
    if acked.Err? then acked
    else
      var stored := Upsert(acked.value, tally.upserts);
      if stored.Err? then stored
      else Ok(MoveCursor(stored.value, ChannelBefore(t, memory, channelId), channelId, tally, page.cursor,
        page.serverCurrentPts))
  }

  /** `persistEmptyPage`: the memory copy of the channel is written back. */
  function EmptyPage(t: Tables, memory: Option<Channel>, channelId: Id, serverCurrentPts: nat, cursor: nat): Tables
  {
    t.(channels := if memory.Some? && memory.value.serverCurrentPts != serverCurrentPts
                   then t.channels[channelId := memory.value.(serverCurrentPts := serverCurrentPts)] else t.channels,
       syncState := t.syncState[channelId := if memory.Some? then memory.value.latestPts else cursor])
  }
}
