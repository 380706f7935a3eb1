// Whole pages, any sequence of pages from any number of tabs.

module SyncTheorems {
  import opened Text
  import opened Records
  import opened CacheTables
  import opened IndexAgreement
  import opened SyncPages
  import opened SyncEffects

  /** The page lists commits of the server's log, each at most once. */
  ghost predicate Authentic(commits: seq<ServerCommit>, log: Log)
  {
    && (forall k :: 0 <= k < |commits| ==> commits[k] in log)
    && (forall j, k :: 0 <= j < k < |commits| ==> commits[j].serverId != commits[k].serverId)
  }

  ghost predicate NewIds(ms: Messages, newIds: seq<Id>)
  {
    && (forall k :: 0 <= k < |newIds| ==> newIds[k] !in ms)
    && (forall j, k :: 0 <= j < k < |newIds| ==> newIds[j] != newIds[k])
  }

  ghost function CommitIds(commits: seq<ServerCommit>): set<Id>
  {
    set k | 0 <= k < |commits| :: commits[k].serverId
  }

  lemma CommitIdsSnoc(commits: seq<ServerCommit>)
    requires commits != []
    ensures CommitIds(commits) == CommitIds(commits[..|commits| - 1]) + {commits[|commits| - 1].serverId}
  {
  }

  // ----- What the commit loop collects -----

  ghost predicate UpsertsFit(tally: Tally, reader: Reader, log: Log, newIds: seq<Id>)
  {
    && (forall k :: 0 <= k < |tally.upserts| ==>
          && FromLog(tally.upserts[k], reader.channelId, log)
          && tally.upserts[k].id in newIds && tally.upserts[k].status != Pending && tally.upserts[k].serverId.Some?)
    && (forall j, k :: 0 <= j < k < |tally.upserts| ==> tally.upserts[j].id != tally.upserts[k].id)
  }

  ghost predicate AcksFit(ms: Messages, tally: Tally, reader: Reader, log: Log)
  {
    && AcksReady(ms, tally.acks, reader.channelId, log)
    && (forall k :: 0 <= k < |tally.acks| ==> tally.acks[k].serverId.Some?)
    && LocalIds(tally.acks) == tally.consumed
  }

  lemma {:induction false} TallyUpsertsFit(ms: Messages, reader: Reader, zero: Tally, commits: seq<ServerCommit>,
                                           newIds: seq<Id>, log: Log)
    requires |newIds| == |commits| && Authentic(commits, log) && NewIds(ms, newIds)
    requires zero.upserts == []
    ensures UpsertsFit(TallyAll(ms, reader, zero, commits, newIds), reader, log, newIds)
    decreases |commits|
  {
    hide PendingEcho, FindInChannel, MessageEquals, CommitRecord, FromLog;
    if commits != [] {
      var n := |commits| - 1;
      TallyUpsertsFit(ms, reader, zero, commits[..n], newIds[..n], log);
      UpsertJoins(TallyAll(ms, reader, zero, commits[..n], newIds[..n]), TallyAll(ms, reader, zero, commits, newIds),
                  reader, commits[n], newIds, log);
    }
  }

  lemma UpsertJoins(before: Tally, after: Tally, reader: Reader, commit: ServerCommit, newIds: seq<Id>, log: Log)
    requires newIds != [] && (forall j, k :: 0 <= j < k < |newIds| ==> newIds[j] != newIds[k])
    requires UpsertsFit(before, reader, log, newIds[..|newIds| - 1]) && commit in log
    requires var next := CommitRecord(commit, reader.channelId, reader.self, newIds[|newIds| - 1]);
             after.upserts == before.upserts || after.upserts == before.upserts + [next]
    ensures UpsertsFit(after, reader, log, newIds)
  {
  }

  lemma EchoFound(ms: Messages, reader: Reader, consumed: set<Id>, commit: ServerCommit)
    requires WellKeyed(ms)
    ensures var p := PendingEcho(ms, reader, consumed, commit);
            p.Some? ==>
              && commit.localId.Some? && commit.localId.value !in consumed
              && p.value.record.id in ms && ms[p.value.record.id] == p.value
              && HasLocal(p.value, reader.channelId, commit.localId.value) && p.value.record.status == Pending
  {
  }

  lemma {:induction false} TallyAcksFit(ms: Messages, reader: Reader, zero: Tally, commits: seq<ServerCommit>,
                                        newIds: seq<Id>, log: Log)
    requires |newIds| == |commits| && Authentic(commits, log)
    requires Consistent(ms, reader.channelId, log)
    requires zero.acks == [] && zero.consumed == {}
    ensures AcksFit(ms, TallyAll(ms, reader, zero, commits, newIds), reader, log)
    decreases |commits|
  {
    hide PendingEcho, TallyOne, AcksFit, EchoAck, CommitRecord;
    if commits == [] {
      NoAcksFit(ms, zero, reader, log);
    } else {
      var n := |commits| - 1;
      TallyAcksFit(ms, reader, zero, commits[..n], newIds[..n], log);
      var before := TallyAll(ms, reader, zero, commits[..n], newIds[..n]);
      var after := TallyAll(ms, reader, zero, commits, newIds);
      EchoFound(ms, reader, before.consumed, commits[n]);
      TallyOneAcks(ms, reader, before, commits[n], newIds[n]);
      if PendingEcho(ms, reader, before.consumed, commits[n]).Some? {
        AckJoins(ms, reader, before, after, commits[n], log);
      } else {
        SameAcksFit(ms, before, after, reader, log);
      }
    }
  }

  lemma NoAcksFit(ms: Messages, tally: Tally, reader: Reader, log: Log)
    requires tally.acks == [] && tally.consumed == {}
    ensures AcksFit(ms, tally, reader, log)
  {
    assert LocalIds([]) == {};
  }

  lemma SameAcksFit(ms: Messages, before: Tally, after: Tally, reader: Reader, log: Log)
    requires AcksFit(ms, before, reader, log) && after.acks == before.acks && after.consumed == before.consumed
    ensures AcksFit(ms, after, reader, log)
  {
    hide AcksReady;
  }

  /** One turn acknowledges the pending row it echoes, or leaves the acks alone. */
  lemma TallyOneAcks(ms: Messages, reader: Reader, before: Tally, commit: ServerCommit, newId: Id)
    ensures var after := TallyOne(ms, reader, before, commit, newId);
            var pending := PendingEcho(ms, reader, before.consumed, commit);
            if pending.None? then after.acks == before.acks && after.consumed == before.consumed
            else
              && after.consumed == before.consumed + {commit.localId.value}
              && after.acks != [] && after.acks[..|after.acks| - 1] == before.acks
              && var a := after.acks[|after.acks| - 1];
                 RecordsCommit(a.(localId := commit.localId), reader.channelId, commit) && a.status == Sent &&
                 a.localId == pending.value.record.localId && a.id == pending.value.record.id
  {
    hide FindInChannel, MessageEquals, First;
  }

  lemma AckJoins(ms: Messages, reader: Reader, before: Tally, after: Tally, commit: ServerCommit, log: Log)
    requires AcksFit(ms, before, reader, log) && Consistent(ms, reader.channelId, log) && commit in log
    requires after.acks != [] && after.acks[..|after.acks| - 1] == before.acks
    requires commit.localId.Some? && commit.localId.value !in before.consumed
    requires after.consumed == before.consumed + {commit.localId.value}
    requires var a := after.acks[|after.acks| - 1];
             && RecordsCommit(a, reader.channelId, commit) && a.status == Sent
             && a.id in ms && HasLocal(ms[a.id], reader.channelId, commit.localId.value) &&
                  ms[a.id].record.status == Pending
    ensures AcksFit(ms, after, reader, log)
  {
    hide WellKeyed, LogAgrees;
    var n := |after.acks| - 1;
    LocalIdsSnoc(after.acks);
    forall k | 0 <= k < n
      ensures after.acks[k].localId != after.acks[n].localId
    {
      assert after.acks[k] == before.acks[k];
      assert before.acks[k].localId.value in LocalIds(before.acks);
    }
    forall k | 0 <= k < |after.acks|
      ensures Placed(ms, after.acks[k], reader.channelId) && FromLog(after.acks[k], reader.channelId, log)
    {
      assert k < n ==> after.acks[k] == before.acks[k];
    }
  }

  /** Every commit of the page is written, acknowledged, or was there already. */
  lemma {:induction false} TallyCovers(ms: Messages, reader: Reader, zero: Tally, commits: seq<ServerCommit>,
                                       newIds: seq<Id>, log: Log)
    requires |newIds| == |commits| && Authentic(commits, log) && Consistent(ms, reader.channelId, log)
    requires zero.upserts == [] && zero.acks == []
    ensures var tally := TallyAll(ms, reader, zero, commits, newIds);
            && CommitIds(commits) <= ServerIds(tally.upserts) + ServerIds(tally.acks) + StoredIds(ms, reader.channelId)
            && ServerIds(tally.upserts) + ServerIds(tally.acks) <= CommitIds(commits)
    decreases |commits|
  {
    hide PendingEcho, FindInChannel, MessageEquals, StoredIds, Consistent, CommitRecord, EchoAck, ServerIds, CommitIds;
    var tally := TallyAll(ms, reader, zero, commits, newIds);
    if commits == [] {
      NoServerIds();
    } else {
      var n := |commits| - 1;
      TallyCovers(ms, reader, zero, commits[..n], newIds[..n], log);
      var before := TallyAll(ms, reader, zero, commits[..n], newIds[..n]);
      CommitIdsSnoc(commits);
      StoredIff(ms, reader.channelId, commits[n].serverId);
      TallyOneIds(ms, reader, before, commits[n], newIds[n]);
    }
  }

  lemma NoServerIds()
    ensures ServerIds([]) == {} && CommitIds([]) == {}
  {
  }

  lemma TallyOneIds(ms: Messages, reader: Reader, before: Tally, commit: ServerCommit, newId: Id)
    ensures var after := TallyOne(ms, reader, before, commit, newId);
            var (a, b) := (ServerIds(after.upserts) + ServerIds(after.acks),
              ServerIds(before.upserts) + ServerIds(before.acks));
            b <= a <= b + {commit.serverId} &&
              (commit.serverId in a || FindInChannel(ms, reader.channelId, commit.serverId).Some?)
  {
    hide PendingEcho, FindInChannel, MessageEquals, ServerIds;
    var after := TallyOne(ms, reader, before, commit, newId);
    if after.upserts != before.upserts {
      assert after.upserts[..|after.upserts| - 1] == before.upserts;
      ServerIdsSnoc(after.upserts);
    }
    if after.acks != before.acks {
      assert after.acks[..|after.acks| - 1] == before.acks;
      ServerIdsSnoc(after.acks);
    }
  }

  // ----- One page -----

  /** The table after a page holds exactly what it held and the page, one row per commit. */
  lemma PageStores(t: Tables, memory: Option<Channel>, channelId: Id, self: Option<Id>, page: Page, newIds: seq<Id>,
                   log: Log)
    requires |newIds| == |page.commits|
    requires GoodLog(log) && Authentic(page.commits, log) && NewIds(t.messages, newIds)
    requires Consistent(t.messages, channelId, log)
    requires MergePage(t, memory, channelId, self, page, newIds).Ok?
    ensures var u := MergePage(t, memory, channelId, self, page, newIds).value;
            && Consistent(u.messages, channelId, log)
            && StoredIds(u.messages, channelId) == StoredIds(t.messages, channelId) + CommitIds(page.commits)
            && PendingsWere(t.messages, u.messages)
            && (forall k :: 0 <= k < |page.commits| ==>
                  exists i :: i in u.messages && InChannel(u.messages[i], channelId) &&
                    HasServer(u.messages[i], page.commits[k].serverId) &&
                    forall j :: j in u.messages && HasServer(u.messages[j], page.commits[k].serverId) ==> j == i)
  {
    hide TallyAll, AckAll, Upsert, StoredIds, Consistent, Authentic, NewIds, GoodLog, AcksReady;
    var before := ChannelBefore(t, memory, channelId);
    var reader, zero := ReaderOf(before, channelId, self), ZeroTally(before);
    var tally := PageTally(t, memory, channelId, self, page, newIds);
    TallyUpsertsFit(t.messages, reader, zero, page.commits, newIds, log);
    TallyAcksFit(t.messages, reader, zero, page.commits, newIds, log);
    TallyCovers(t.messages, reader, zero, page.commits, newIds, log);
    AckAllStores(t, tally.acks, channelId, log);
    var mid := AckAll(t, tally.acks).value;
    BatchIsFresh(t.messages, mid.messages, tally, reader, log, newIds);
    UpsertStores(mid, tally.upserts, channelId, log);
    var u := MergePage(t, memory, channelId, self, page, newIds).value;
    forall k | 0 <= k < |page.commits|
      ensures exists i ::
                i in u.messages && InChannel(u.messages[i], channelId) &&
                HasServer(u.messages[i], page.commits[k].serverId) &&
                forall j :: j in u.messages && HasServer(u.messages[j], page.commits[k].serverId) ==> j == i
    {
      assert page.commits[k].serverId in CommitIds(page.commits);
      StoredOnce(u.messages, channelId, log, page.commits[k].serverId);
    }
  }

  lemma StoredOnce(ms: Messages, channelId: Id, log: Log, s: Id)
    requires Consistent(ms, channelId, log) && s in StoredIds(ms, channelId)
    ensures exists i :: i in ms && InChannel(ms[i], channelId) && HasServer(ms[i], s) &&
              forall j :: j in ms && HasServer(ms[j], s) ==> j == i
  {
  }

  lemma BatchIsFresh(ms: Messages, ns: Messages, tally: Tally, reader: Reader, log: Log, newIds: seq<Id>)
    requires UpsertsFit(tally, reader, log, newIds) && NewIds(ms, newIds) && ns.Keys <= ms.Keys
    ensures FreshBatch(ns, tally.upserts)
  {
  }

  // ----- Unread -----

  /** The server ids of a page that would count as unread for this reader. */
  ghost function UnreadIds(reader: Reader, commits: seq<ServerCommit>): set<Id>
  {
    set k | 0 <= k < |commits| && CountsAsUnread(reader, commits[k]) :: commits[k].serverId
  }

  lemma UnreadIdsSnoc(reader: Reader, commits: seq<ServerCommit>)
    requires commits != []
    ensures UnreadIds(reader, commits) ==
              UnreadIds(reader, commits[..|commits| - 1]) +
              (if CountsAsUnread(reader, commits[|commits| - 1]) then {commits[|commits| - 1].serverId} else {})
  {
  }

  /** A commit that echoes one of our own pending sends is our own message. */
  ghost predicate EchoesAreOwn(ms: Messages, reader: Reader, log: Log)
  {
    forall i, c ::
      (i in ms && c in log && c.localId.Some? && HasLocal(ms[i], reader.channelId, c.localId.value) &&
       ms[i].record.status == Pending) ==>
        !CountsAsUnread(reader, c)
  }

  lemma TallyOneBump(ms: Messages, reader: Reader, before: Tally, commit: ServerCommit, newId: Id)
    ensures TallyOne(ms, reader, before, commit, newId).bump ==
              before.bump +
              (if PendingEcho(ms, reader, before.consumed, commit).None? &&
                  FindInChannel(ms, reader.channelId, commit.serverId).None? && CountsAsUnread(reader, commit) then
                    1 else 0)
  {
  }

  /** A position of the page whose commit is unread and not stored before. */
  ghost predicate Counted(ms: Messages, reader: Reader, commits: seq<ServerCommit>, k: nat)
  {
    k < |commits| && CountsAsUnread(reader, commits[k]) && commits[k].serverId !in StoredIds(ms, reader.channelId)
  }

  ghost function CountedPositions(ms: Messages, reader: Reader, commits: seq<ServerCommit>): set<nat>
  {
    set k | 0 <= k < |commits| && Counted(ms, reader, commits, k)
  }

  lemma CountedSnoc(ms: Messages, reader: Reader, commits: seq<ServerCommit>)
    requires commits != []
    ensures var n := |commits| - 1;
            && CountedPositions(ms, reader, commits) ==
                 CountedPositions(ms, reader, commits[..n]) + (if Counted(ms, reader, commits, n) then {n} else {})
            && n !in CountedPositions(ms, reader, commits[..n])
  {
    hide CountsAsUnread, StoredIds;
    var n := |commits| - 1;
    forall k: nat
      ensures k in CountedPositions(ms, reader, commits) <==>
                k in CountedPositions(ms, reader, commits[..n]) || (k == n && Counted(ms, reader, commits, n))
    {
      if k < n {
        assert commits[..n][k] == commits[k];
        assert Counted(ms, reader, commits, k) <==> Counted(ms, reader, commits[..n], k);
      }
    }
  }

  /** For any page of the log, repeats included: the bump is the number of counted positions. */
  lemma {:induction false} BumpCountsPositions(ms: Messages, reader: Reader, zero: Tally, commits: seq<ServerCommit>,
                                               newIds: seq<Id>,
                                               log: Log)
    requires |newIds| == |commits| && (forall c :: c in commits ==> c in log) && Consistent(ms, reader.channelId, log)
    requires EchoesAreOwn(ms, reader, log) && zero.bump == 0
    ensures TallyAll(ms, reader, zero, commits, newIds).bump == |CountedPositions(ms, reader, commits)|
    decreases |commits|
  {
    hide PendingEcho, FindInChannel, TallyOne, StoredIds, CountsAsUnread, Consistent, EchoesAreOwn, CountedPositions;
    if commits == [] {
      NothingCounted(ms, reader);
    } else {
      var n := |commits| - 1;
      assert commits[n] in commits;
      BumpCountsPositions(ms, reader, zero, commits[..n], newIds[..n], log);
      var before := TallyAll(ms, reader, zero, commits[..n], newIds[..n]);
      CountedSnoc(ms, reader, commits);
      StoredIff(ms, reader.channelId, commits[n].serverId);
      EchoNotCounted(ms, reader, before.consumed, commits[n], log);
      TallyOneBump(ms, reader, before, commits[n], newIds[n]);
    }
  }

  lemma NothingCounted(ms: Messages, reader: Reader)
    ensures CountedPositions(ms, reader, []) == {}
    ensures UnreadIds(reader, []) == {}
  {
  }

  /** No commit that counts is listed twice. */
  ghost predicate NoneRepeats(ms: Messages, reader: Reader, commits: seq<ServerCommit>)
  {
    forall j, k :: 0 <= j < k < |commits| && Counted(ms, reader, commits, j) && Counted(ms, reader, commits, k) ==>
      commits[j].serverId != commits[k].serverId
  }

  /** Distinct unread ids are at most the counted positions, and as many exactly when none repeats. */
  lemma {:induction false} IdsAgainstPositions(ms: Messages, reader: Reader, commits: seq<ServerCommit>)
    ensures var ids := UnreadIds(reader, commits) - StoredIds(ms, reader.channelId);
            && |ids| <= |CountedPositions(ms, reader, commits)|
            && (|ids| == |CountedPositions(ms, reader, commits)| <==> NoneRepeats(ms, reader, commits))
    decreases |commits|
  {
    hide StoredIds, CountsAsUnread, UnreadIds, CountedPositions, NoneRepeats;
    if commits == [] {
      NothingCounted(ms, reader);
      NoRepeats(ms, reader);
    } else {
      var n := |commits| - 1;
      IdsAgainstPositions(ms, reader, commits[..n]);
      CountedSnoc(ms, reader, commits);
      UnreadIdsSnoc(reader, commits);
      RepeatsSnoc(ms, reader, commits);
      var stored := StoredIds(ms, reader.channelId);
      var few, many := UnreadIds(reader, commits[..n]) - stored, UnreadIds(reader, commits) - stored;
      if Counted(ms, reader, commits, n) && commits[n].serverId !in few {
        assert many == few + {commits[n].serverId};
      } else {
        assert many == few;
      }
    }
  }

  lemma NoRepeats(ms: Messages, reader: Reader)
    ensures NoneRepeats(ms, reader, [])
  {
  }

  lemma RepeatsSnoc(ms: Messages, reader: Reader, commits: seq<ServerCommit>)
    requires commits != []
    ensures var n := |commits| - 1;
            NoneRepeats(ms, reader, commits) <==>
              NoneRepeats(ms, reader, commits[..n]) &&
              (Counted(ms, reader, commits, n) ==>
                 commits[n].serverId !in UnreadIds(reader, commits[..n]) - StoredIds(ms, reader.channelId))
  {
    hide StoredIds, CountsAsUnread;
    var n := |commits| - 1;
    forall k | 0 <= k < n
      ensures commits[..n][k] == commits[k] &&
              (Counted(ms, reader, commits, k) <==> Counted(ms, reader, commits[..n], k))
    {
    }
    if Counted(ms, reader, commits, n) {
      var s := commits[n].serverId;
      if s in UnreadIds(reader, commits[..n]) - StoredIds(ms, reader.channelId) {
        var k :| 0 <= k < n && CountsAsUnread(reader, commits[..n][k]) && commits[..n][k].serverId == s;
        assert Counted(ms, reader, commits, k);
      } else {
        forall k | 0 <= k < n && Counted(ms, reader, commits, k)
          ensures commits[k].serverId != s
        {
          assert commits[..n][k].serverId in UnreadIds(reader, commits[..n]);
        }
      }
    }
  }

  /** The bump is the number of distinct unread commits not stored before exactly when none repeats. */
  lemma BumpExactExactlyWhen(ms: Messages, reader: Reader, zero: Tally, commits: seq<ServerCommit>, newIds: seq<Id>,
                             log: Log)
    requires |newIds| == |commits| && (forall c :: c in commits ==> c in log) && Consistent(ms, reader.channelId, log)
    requires EchoesAreOwn(ms, reader, log) && zero.bump == 0
    ensures TallyAll(ms, reader, zero, commits, newIds).bump ==
            |UnreadIds(reader, commits) - StoredIds(ms, reader.channelId)|
            <==> NoneRepeats(ms, reader, commits)
  {
    hide StoredIds, CountedPositions, TallyAll, UnreadIds, NoneRepeats, Consistent, EchoesAreOwn;
    BumpCountsPositions(ms, reader, zero, commits, newIds, log);
    IdsAgainstPositions(ms, reader, commits);
  }

  /** In particular on a page that lists every commit once. */
  lemma BumpIsNewUnread(ms: Messages, reader: Reader, zero: Tally, commits: seq<ServerCommit>, newIds: seq<Id>,
                        log: Log)
    requires |newIds| == |commits| && Authentic(commits, log) && Consistent(ms, reader.channelId, log)
    requires EchoesAreOwn(ms, reader, log) && zero.bump == 0
    ensures TallyAll(ms, reader, zero, commits, newIds).bump ==
            |UnreadIds(reader, commits) - StoredIds(ms, reader.channelId)|
  {
    hide StoredIds, TallyAll, UnreadIds, Consistent, EchoesAreOwn;
    BumpExactExactlyWhen(ms, reader, zero, commits, newIds, log);
  }

  /** A witness: the loop does not see its own inserts, so a repeat counts twice. */
  lemma RepeatedCommitCountsTwice(ms: Messages, reader: Reader, zero: Tally, commit: ServerCommit, newIds: seq<Id>)
    requires |newIds| == 2 && zero.bump == 0 && CountsAsUnread(reader, commit)
    requires commit.serverId !in StoredIds(ms, reader.channelId)
    requires commit.localId.Some? ==> FindByLocal(ms, reader.channelId, commit.localId.value).None?
    ensures TallyAll(ms, reader, zero, [commit, commit], newIds).bump == 2
    ensures |UnreadIds(reader, [commit, commit]) - StoredIds(ms, reader.channelId)| == 1
  {
    hide TallyOne, FindInChannel, FindByLocal, CountsAsUnread, StoredIds;
    var page := [commit, commit];
    assert page[..1] == [commit] && page[..1][..0] == [] && newIds[..1][..0] == [];
    StoredIff(ms, reader.channelId, commit.serverId);
    var one := TallyOne(ms, reader, zero, commit, newIds[..1][0]);
    assert TallyAll(ms, reader, zero, page[..1], newIds[..1]) == one;
    assert TallyAll(ms, reader, zero, page, newIds) == TallyOne(ms, reader, one, commit, newIds[1]);
    TallyOneBump(ms, reader, zero, commit, newIds[0]);
    TallyOneBump(ms, reader, one, commit, newIds[1]);
    assert UnreadIds(reader, page) == {commit.serverId} by {
      assert page[0] == commit;
    }
    assert UnreadIds(reader, page) - StoredIds(ms, reader.channelId) == {commit.serverId};
  }

  lemma EchoNotCounted(ms: Messages, reader: Reader, consumed: set<Id>, commit: ServerCommit, log: Log)
    requires EchoesAreOwn(ms, reader, log) && commit in log && Consistent(ms, reader.channelId, log)
    ensures PendingEcho(ms, reader, consumed, commit).Some? ==> !CountsAsUnread(reader, commit)
  {
  }

  lemma {:induction false} MaxPtsIsMax(ms: Messages, reader: Reader, zero: Tally, commits: seq<ServerCommit>,
                                       newIds: seq<Id>)
    requires |newIds| == |commits|
    ensures var m := TallyAll(ms, reader, zero, commits, newIds).maxPts;
            && m >= zero.maxPts
            && (forall k :: 0 <= k < |commits| ==> m >= commits[k].pts)
            && (m == zero.maxPts || exists k :: 0 <= k < |commits| && commits[k].pts == m)
    decreases |commits|
  {
    hide PendingEcho, FindInChannel, MessageEquals, CountsAsUnread;
    if commits != [] {
      var n := |commits| - 1;
      MaxPtsIsMax(ms, reader, zero, commits[..n], newIds[..n]);
      var m := TallyAll(ms, reader, zero, commits[..n], newIds[..n]).maxPts;
      if m != zero.maxPts {
        var k :| 0 <= k < n && commits[..n][k].pts == m;
        assert commits[k].pts == m;
      }
    }
  }

  /** The cursor, the unread count and sync state after a page of a channel that is on disk. */
  lemma PageMovesChannel(t: Tables, memory: Option<Channel>, channelId: Id, self: Option<Id>, page: Page,
                         newIds: seq<Id>, log: Log)
    requires |newIds| == |page.commits|
    requires GoodLog(log) && Authentic(page.commits, log) && Consistent(t.messages, channelId, log)
    requires channelId in t.channels
    requires EchoesAreOwn(t.messages, Reader(channelId, self, t.channels[channelId].readPts), log)
    requires MergePage(t, memory, channelId, self, page, newIds).Ok?
    ensures var u := MergePage(t, memory, channelId, self, page, newIds).value;
            var reader := Reader(channelId, self, t.channels[channelId].readPts);
            && channelId in u.channels
            && var (was, now) := (t.channels[channelId], u.channels[channelId]);
               && now.readPts == was.readPts
               && now.unread == was.unread + |UnreadIds(reader, page.commits) - StoredIds(t.messages, channelId)|
               && now.latestPts >= was.latestPts
               && (forall k :: 0 <= k < |page.commits| ==> now.latestPts >= page.commits[k].pts)
               && (now.latestPts == was.latestPts || exists k ::
                    0 <= k < |page.commits| && page.commits[k].pts == now.latestPts)
               && channelId in u.syncState && u.syncState[channelId] == now.latestPts
    ensures var u := MergePage(t, memory, channelId, self, page, newIds).value;
            forall c :: c != channelId ==>
              (c in u.channels <==> c in t.channels) && (c in t.channels ==> u.channels[c] == t.channels[c])
  {
    hide TallyAll, AckAll, Upsert, StoredIds, Consistent, Authentic, GoodLog, EchoesAreOwn, UnreadIds;
    var before := ChannelBefore(t, memory, channelId);
    var reader, zero := ReaderOf(before, channelId, self), ZeroTally(before);
    var tally := PageTally(t, memory, channelId, self, page, newIds);
    BumpIsNewUnread(t.messages, reader, zero, page.commits, newIds, log);
    MaxPtsIsMax(t.messages, reader, zero, page.commits, newIds);
    AcksKeepChannels(t, tally.acks);
    UpsertKeepsChannels(AckAll(t, tally.acks).value, tally.upserts);
  }

  lemma {:induction false} AcksKeepChannels(t: Tables, acks: seq<Record>)
    ensures AckAll(t, acks).Ok? ==>
            AckAll(t, acks).value.channels == t.channels && AckAll(t, acks).value.syncState == t.syncState
    decreases |acks|
  {
    hide AckedRow, Absorbed, Put, InheritedSeq, Rekey, WantedMode;
    if acks != [] {
      AcksKeepChannels(t, acks[..|acks| - 1]);
    }
  }

  lemma UpsertKeepsChannels(t: Tables, records: seq<Record>)
    ensures Upsert(t, records).Ok? ==>
            Upsert(t, records).value.channels == t.channels && Upsert(t, records).value.syncState == t.syncState
  {
    hide UpsertEach, ReconcileAll;
    if records != [] && Upsert(t, records).Ok? {
      var b := UpsertEach(t.messages, t.orderModes, records, t.orderSeq).value;
      ReconcileAllSame(t.(messages := b.messages, orderSeq := t.orderSeq + |records|), ChannelsOf(records));
    }
  }

  // ----- A page and the display index -----

  /** Acknowledging a placed row takes no new number, so the index stays sound. */
  lemma {:induction false} AcksKeepIndex(t: Tables, acks: seq<Record>, channelId: Id, log: Log)
    requires Indexed(t) && GoodLog(log) && Consistent(t.messages, channelId, log)
    requires AcksReady(t.messages, acks, channelId, log) && AckAll(t, acks).Ok?
    ensures Indexed(AckAll(t, acks).value)
    ensures Sound(t) ==> Sound(AckAll(t, acks).value)
    decreases |acks|
  {
    hide Indexed, SeqsDistinct, AckNumberIsOwn, ApplyAck, Consistent, GoodLog, StoredIds;
    if acks != [] {
      var n := |acks| - 1;
      AcksKeepIndex(t, acks[..n], channelId, log);
      AckAllStores(t, acks[..n], channelId, log);
      var b := AckAll(t, acks[..n]).value;
      assert acks[n].localId.value !in LocalIds(acks[..n]);
      assert HasLocal(t.messages[acks[n].id], channelId, acks[n].localId.value);
      PlacedIsFound(b, acks[n], channelId);
      AckKeeps(b, acks[n]);
    }
  }

  lemma PlacedIsFound(t: Tables, acked: Record, channelId: Id)
    requires acked.localId.Some? && acked.channelId == channelId
    requires acked.id in t.messages && HasLocal(t.messages[acked.id], channelId, acked.localId.value)
    ensures AckNumberIsOwn(t, acked)
  {
    hide First;
    FindByLocalSpec(t.messages, channelId, acked.localId.value);
  }

  /** A sync page keeps the display index sound. */
  lemma PageKeepsIndex(t: Tables, memory: Option<Channel>, channelId: Id, self: Option<Id>, page: Page,
                       newIds: seq<Id>, log: Log)
    requires |newIds| == |page.commits| && Indexed(t)
    requires GoodLog(log) && Authentic(page.commits, log) && NewIds(t.messages, newIds)
    requires Consistent(t.messages, channelId, log)
    requires MergePage(t, memory, channelId, self, page, newIds).Ok?
    ensures Indexed(MergePage(t, memory, channelId, self, page, newIds).value)
    ensures Sound(t) ==> Sound(MergePage(t, memory, channelId, self, page, newIds).value)
  {
    hide TallyAll, AckAll, Upsert, Indexed, SeqsDistinct, NumbersFit, Consistent, Authentic, NewIds, GoodLog, AcksReady;
    var before := ChannelBefore(t, memory, channelId);
    var reader, zero := ReaderOf(before, channelId, self), ZeroTally(before);
    var tally := PageTally(t, memory, channelId, self, page, newIds);
    TallyAcksFit(t.messages, reader, zero, page.commits, newIds, log);
    AcksKeepIndex(t, tally.acks, channelId, log);
    UpsertsUnnumbered(t.messages, reader, zero, page.commits, newIds);
    var mid := AckAll(t, tally.acks).value;
    UnnumberedFit(mid.messages, mid.orderModes, tally.upserts, mid.orderSeq);
    UpsertKeeps(mid, tally.upserts);
    CursorIsNotIndexed(Upsert(mid, tally.upserts).value, before, channelId, tally, page.cursor, page.serverCurrentPts);
  }

  lemma {:induction false} UpsertsUnnumbered(ms: Messages, reader: Reader, zero: Tally, commits: seq<ServerCommit>,
                                             newIds: seq<Id>)
    requires |newIds| == |commits| && zero.upserts == []
    ensures forall k :: 0 <= k < |TallyAll(ms, reader, zero, commits, newIds).upserts| ==>
              TallyAll(ms, reader, zero, commits, newIds).upserts[k].orderSeq == None
    decreases |commits|
  {
    hide PendingEcho, FindInChannel, MessageEquals;
    if commits != [] {
      var n := |commits| - 1;
      UpsertsUnnumbered(ms, reader, zero, commits[..n], newIds[..n]);
    }
  }

  lemma CursorIsNotIndexed(t: Tables, before: Option<Channel>, channelId: Id, tally: Tally, cursor: nat,
                           serverCurrentPts: nat)
    ensures var u := MoveCursor(t, before, channelId, tally, cursor, serverCurrentPts);
            (Indexed(t) ==> Indexed(u)) && (Sound(t) ==> Sound(u))
  {
  }
}
