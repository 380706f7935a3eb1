// The sync engine of one tab as an object: its database handle and its memory copy of the
// channels (src/sync-engine.ts).

module SyncEngineClass {
  import opened Text
  import opened Records
  import opened CacheTables
  import opened CacheDatabase
  import opened SyncPages

  class SyncEngine {
    const db: CacheDb
    var memory: map<Id, Channel>
    var currentUser: Option<Id>

    constructor (db: CacheDb, currentUser: Option<Id>)
      ensures this.db == db && this.currentUser == currentUser && memory == map[]
    {
      this.db := db;
      this.currentUser := currentUser;
      memory := map[];
    }

    function MemoryOf(channelId: Id): Option<Channel>
      reads this
    {
      if channelId in memory then Some(memory[channelId]) else None
    }

    /**
     * Commit one page: every input is read from disk inside the transaction, and memory is
     * published only after it, from what is durable.
     */
    method MergeCommits(channelId: Id, page: Page, newIds: seq<Id>) returns (r: Result<nat, StoreError>)
      requires |newIds| == |page.commits|
      modifies db, this`memory
      ensures var merged := MergePage(old(db.View()), old(MemoryOf(channelId)), channelId, currentUser, page, newIds);
              && (r.Ok? <==> merged.Ok?)
              && (r.Ok? ==> db.View() == merged.value)
              && (r.Err? ==> db.View() == old(db.View()) && memory == old(memory))
      ensures r.Ok? ==>
                r.value == PageTally(old(db.View()), old(MemoryOf(channelId)), channelId, currentUser, page,
                  newIds).inserted
      ensures r.Ok? && channelId in db.channels ==> memory == old(memory)[channelId := db.channels[channelId]]
    {
      hide TallyOne, Upsert, ApplyAck, Projected;
      ghost var t0 := db.View();
      var messages0, modes0, seq0 := db.messages, db.orderModes, db.orderSeq;
      var before := if channelId in db.channels then Some(db.channels[channelId]) else MemoryOf(channelId);
      var reader := ReaderOf(before, channelId, currentUser);
      var zero := ZeroTally(before);
      var tally := zero;
      var k := 0;
      while k < |page.commits|
        invariant 0 <= k <= |page.commits|
        invariant tally == TallyAll(messages0, reader, zero, page.commits[..k], newIds[..k])
        invariant db.View() == t0 && memory == old(memory)
      {
        assert page.commits[..k + 1][..k] == page.commits[..k] && newIds[..k + 1][..k] == newIds[..k];
        tally := TallyOne(messages0, reader, tally, page.commits[k], newIds[k]);
        k := k + 1;
      }
      assert page.commits[..|page.commits|] == page.commits && newIds[..|newIds|] == newIds;
      k := 0;
      while k < |tally.acks|
        invariant 0 <= k <= |tally.acks|
        invariant AckAll(t0, tally.acks[..k]) == Ok(db.View())
        invariant db.View() == t0.(messages := db.messages, orderModes := db.orderModes, orderSeq := db.orderSeq)
        invariant memory == old(memory)
      {
        assert tally.acks[..k + 1][..k] == tally.acks[..k];
        var one := db.ApplyAckInPlace(tally.acks[k]);
        if one.Err? {
          AckFailureStays(t0, tally.acks, k + 1);
          db.messages, db.orderModes, db.orderSeq := messages0, modes0, seq0;
          return Err(one.error);
        }
        k := k + 1;
      }
      assert tally.acks[..|tally.acks|] == tally.acks;
      var stored := db.UpsertMessages(tally.upserts);
      if stored.Err? {
        db.messages, db.orderModes, db.orderSeq := messages0, modes0, seq0;
        return Err(stored.error);
      }
      ghost var t1 := db.View();
      assert t1.channels == t0.channels && t1.syncState == t0.syncState;
      if before.Some? {
        var next := Projected(before.value, tally, page.serverCurrentPts);
        if next != before.value {
          db.channels := db.channels[channelId := next];
        }
        db.syncState := db.syncState[channelId := next.latestPts];
      } else {
        db.syncState := db.syncState[channelId := page.cursor];
      }
      if channelId in db.channels {
        memory := memory[channelId := db.channels[channelId]];
      }
      return Ok(tally.inserted);
    }

    /** Commit an empty page: only the cursor seed and the observed server position move. */
    method PersistEmptyPage(channelId: Id, serverCurrentPts: nat, cursor: nat)
      modifies db`channels, db`syncState, this`memory
      ensures db.View() == EmptyPage(old(db.View()), old(MemoryOf(channelId)), channelId, serverCurrentPts, cursor)
      ensures memory == if channelId in old(memory)
                        then old(memory)[channelId := old(memory)[channelId].(serverCurrentPts := serverCurrentPts)]
                        else old(memory)
    {
      var channel := MemoryOf(channelId);
      if channel.Some? && channel.value.serverCurrentPts != serverCurrentPts {
        var next := channel.value.(serverCurrentPts := serverCurrentPts);
        db.channels := db.channels[channelId := next];
        memory := memory[channelId := next];
      }
      db.syncState := db.syncState[channelId := if channel.Some? then channel.value.latestPts else cursor];
    }
  }

  lemma {:induction false} AckFailureStays(t: Tables, acks: seq<Record>, k: nat)
    requires 0 < k <= |acks| && AckAll(t, acks[..k]).Err?
    ensures AckAll(t, acks) == AckAll(t, acks[..k])
    decreases |acks| - k
  {
    if k == |acks| {
      assert acks[..k] == acks;
    } else {
      assert acks[..k + 1][..k] == acks[..k];
      AckFailureStays(t, acks, k + 1);
    }
  }
}
