// User profile rows converge (`upsertUsers`, src/cache/indexeddb-store.ts:595-666).

module Profiles {
  import opened Text
  import opened Records

  /** A row, or a write of it; version 0 is a writer that carries no version. */
  datatype User = User(
    userId: Id,
    username: string,
    nickname: Option<string>,
    avatar: Option<string>,
    userType: int,
    isFriend: bool,
    version: nat,
    snapshot: bool
  )

  type Users = map<Id, User>

  function Pick(next: Option<string>, current: Option<string>): Option<string>
  {
    if next.None? then current else next
  }

  predicate Outdated(prev: User, incoming: User)
  {
    0 < incoming.version < prev.version
  }

  /** What a write makes of the stored row. */
  function Merged(prev: Option<User>, incoming: User): User
  {
    if prev.None? then incoming.(snapshot := incoming.version > 0)
    else
      var p := prev.value;
      var versioned := incoming.version > 0;
      if Outdated(p, incoming) then p
      else
        var locked := !versioned && p.snapshot;
        p.(username := if !versioned && p.username != "" then p.username else incoming.username,
           nickname := if locked then p.nickname else Pick(incoming.nickname, p.nickname),
           avatar := if locked then p.avatar else Pick(incoming.avatar, p.avatar),
           userType := if locked then p.userType else incoming.userType,
           isFriend := incoming.isFriend || p.isFriend,
           version := if p.version > incoming.version then p.version else incoming.version,
           snapshot := p.snapshot || versioned)
  }

  // ----- The table -----

  function At(users: Users, id: Id): Option<User>
  {
    if id in users then Some(users[id]) else None
  }

  /** The rows of one user written one after the other. */
  function Written(prev: Option<User>, writes: seq<User>): Option<User>
    decreases |writes|
  {
    if writes == [] then prev
    else Some(Merged(Written(prev, writes[..|writes| - 1]), writes[|writes| - 1]))
  }

  ghost predicate OnePerUser(records: seq<User>)
  {
    forall i, j :: 0 <= i < j < |records| ==> records[i].userId != records[j].userId
  }

  /** The record is put: it is not older than the row read before the batch. */
  predicate IsPut(users: Users, r: User)
  {
    !(r.userId in users && Outdated(users[r.userId], r))
  }

  /** All rows are read first, then every merged row is put. */
  function BatchWritten(users: Users, records: seq<User>): Users
    decreases |records|
  {
    if records == [] then users
    else
      var before := BatchWritten(users, records[..|records| - 1]);
      var r := records[|records| - 1];
      if IsPut(users, r) then before[r.userId := Merged(At(users, r.userId), r)] else before
  }

  /** The last record of its user that the batch puts. */
  ghost predicate LastPut(users: Users, records: seq<User>, k: nat)
  {
    && k < |records| && IsPut(users, records[k])
    && forall j :: k < j < |records| && records[j].userId == records[k].userId ==> !IsPut(users, records[j])
  }

  /** No record of the batch is put for this user. */
  ghost predicate NonePut(users: Users, records: seq<User>, id: Id)
  {
    forall k :: 0 <= k < |records| && records[k].userId == id ==> !IsPut(users, records[k])
  }

  /** A user without a put keeps his row. */
  lemma {:induction false} NonePutKeeps(users: Users, records: seq<User>, id: Id)
    requires NonePut(users, records, id)
    ensures At(BatchWritten(users, records), id) == At(users, id)
    decreases |records|
  {
    hide Merged, IsPut;
    if records != [] {
      var n := |records| - 1;
      assert forall j :: 0 <= j < n ==> records[..n][j] == records[j];
      NonePutKeeps(users, records[..n], id);
    }
  }

  /**
   * A row ends as the last put for it, merged with what was there before the batch, not with what an
   * earlier record of the batch made of it.
   */
  lemma {:induction false} LastPutWins(users: Users, records: seq<User>, k: nat)
    requires LastPut(users, records, k)
    ensures At(BatchWritten(users, records), records[k].userId) ==
            Some(Merged(At(users, records[k].userId), records[k]))
    decreases |records|
  {
    hide Merged, IsPut;
    var n := |records| - 1;
    if k < n {
      assert forall j :: 0 <= j < n ==> records[..n][j] == records[j];
      LastPutWins(users, records[..n], k);
    }
  }

  /** The table gains the users of the batch and loses nobody. */
  lemma {:induction false} BatchKeys(users: Users, records: seq<User>)
    ensures BatchWritten(users, records).Keys == users.Keys + set k | 0 <= k < |records| :: records[k].userId
    decreases |records|
  {
    hide Merged;
    if records != [] {
      var n := |records| - 1;
      BatchKeys(users, records[..n]);
      assert forall j :: 0 <= j < n ==> records[..n][j] == records[j];
      var named := set k | 0 <= k < n :: records[..n][k].userId;
      assert (set k | 0 <= k < |records| :: records[k].userId) == named + {records[n].userId} by {
        forall x
          ensures x in (set k | 0 <= k < |records| :: records[k].userId) <==> x in named + {records[n].userId}
        {
          if x in named {
            var k :| 0 <= k < n && records[..n][k].userId == x;
            assert records[k].userId == x;
          }
        }
      }
    }
  }

  /** In a batch that names each user once, every row is its record merged with the old row. */
  lemma OneRecordEach(users: Users, records: seq<User>, k: nat)
    requires OnePerUser(records) && k < |records|
    ensures At(BatchWritten(users, records), records[k].userId) ==
            Some(Merged(At(users, records[k].userId), records[k]))
  {
    hide Merged, BatchWritten, Outdated;
    OutdatedKeeps(At(users, records[k].userId), records[k]);
    if IsPut(users, records[k]) {
      LastPutWins(users, records, k);
    } else {
      NonePutKeeps(users, records, records[k].userId);
    }
  }

  /** A witness: versions 5 and 3 in one batch, over a row of version 2, end at 3. */
  lemma OlderRecordCanWin(users: Users, newer: User, older: User)
    requires newer.userId == older.userId && newer.userId in users
    requires 0 < users[newer.userId].version <= older.version < newer.version
    ensures var after := BatchWritten(users, [newer, older]);
            newer.userId in after && after[newer.userId].version == older.version
  {
    hide BatchWritten;
    LastPutWins(users, [newer, older], 1);
  }

  class UserTable {
    var users: Users

    constructor ()
      ensures users == map[]
    {
      users := map[];
    }

    method UpsertUsers(records: seq<User>)
      modifies this
      ensures users == BatchWritten(old(users), records)
      ensures users.Keys == old(users).Keys + set k | 0 <= k < |records| :: records[k].userId
      ensures forall k: nat :: LastPut(old(users), records, k) ==>
                At(users, records[k].userId) == Some(Merged(At(old(users), records[k].userId), records[k]))
      ensures forall id :: NonePut(old(users), records, id) ==> At(users, id) == At(old(users), id)
      ensures OnePerUser(records) ==>
                forall k :: 0 <= k < |records| ==>
                  At(users, records[k].userId) == Some(Merged(At(old(users), records[k].userId), records[k]))
    {
      hide Merged;
      var existing := users;
      var k := 0;
      while k < |records|
        invariant 0 <= k <= |records|
        invariant users == BatchWritten(existing, records[..k])
      {
        assert records[..k + 1][..k] == records[..k];
        if IsPut(existing, records[k]) {
          users := users[records[k].userId := Merged(At(existing, records[k].userId), records[k])];
        }
        k := k + 1;
      }
      assert records[..|records|] == records;
      BatchKeys(existing, records);
      forall j: nat | LastPut(existing, records, j)
        ensures At(users, records[j].userId) == Some(Merged(At(existing, records[j].userId), records[j]))
      {
        LastPutWins(existing, records, j);
      }
      forall id | NonePut(existing, records, id)
        ensures At(users, id) == At(existing, id)
      {
        NonePutKeeps(existing, records, id);
      }
      if OnePerUser(records) {
        forall j | 0 <= j < |records|
          ensures At(users, records[j].userId) == Some(Merged(At(existing, records[j].userId), records[j]))
        {
          OneRecordEach(existing, records, j);
        }
      }
    }
  }

  lemma OutdatedKeeps(prev: Option<User>, incoming: User)
    ensures prev.Some? && Outdated(prev.value, incoming) ==> Merged(prev, incoming) == prev.value
  {
  }

  // ----- What every sequence of writes keeps -----

  lemma {:induction false} VersionNeverDecreases(prev: User, writes: seq<User>)
    ensures var r := Written(Some(prev), writes);
            r.Some? && r.value.version >= prev.version && (prev.snapshot ==> r.value.snapshot)
    decreases |writes|
  {
    if writes != [] {
      VersionNeverDecreases(prev, writes[..|writes| - 1]);
    }
  }

  /** Once a snapshot was held, writers without a version never change what its owner set. */
  lemma {:induction false} VersionlessNeverOverwrites(prev: User, writes: seq<User>)
    requires prev.snapshot && forall k :: 0 <= k < |writes| ==> writes[k].version == 0
    ensures var r := Written(Some(prev), writes);
            && r.Some? && r.value.nickname == prev.nickname && r.value.avatar == prev.avatar
            && r.value.userType == prev.userType && r.value.snapshot && r.value.version == prev.version
            && (prev.username != "" ==> r.value.username == prev.username)
    decreases |writes|
  {
    if writes != [] {
      VersionlessNeverOverwrites(prev, writes[..|writes| - 1]);
    }
  }

  // ----- Convergence -----

  predicate Full(u: User)
  {
    u.version > 0 ==> u.nickname.Some? && u.avatar.Some?
  }

  /** Full versioned records, no two with one version, among any writes without a version. */
  ghost predicate Writes(writes: seq<User>)
  {
    && (forall k :: 0 <= k < |writes| ==> Full(writes[k]))
    && (forall j, k :: 0 <= j < k < |writes| && writes[j].version > 0 ==> writes[j].version != writes[k].version)
  }

  /** The record with the highest version. */
  ghost predicate IsTop(writes: seq<User>, top: User)
  {
    top in writes && top.version > 0 && forall k :: 0 <= k < |writes| ==> writes[k].version <= top.version
  }

  /** The fields the profile's owner sets. */
  predicate SameOwned(row: User, top: User)
  {
    row.nickname == top.nickname && row.avatar == top.avatar && row.userType == top.userType &&
      row.version == top.version
  }

  /** The user name too, unless the highest version leaves it empty for others to fill. */
  predicate SameProfile(row: User, top: User)
  {
    SameOwned(row, top) && (top.username != "" ==> row.username == top.username)
  }

  lemma {:induction false} NoSnapshotYet(writes: seq<User>)
    requires forall k :: 0 <= k < |writes| ==> writes[k].version == 0
    ensures var r := Written(None, writes); r.Some? ==> !r.value.snapshot && r.value.version == 0
    decreases |writes|
  {
    if writes != [] {
      NoSnapshotYet(writes[..|writes| - 1]);
    }
  }

  lemma WritesPrefix(writes: seq<User>)
    requires Writes(writes) && writes != []
    ensures Writes(writes[..|writes| - 1]) && Full(writes[|writes| - 1])
  {
  }

  /** Whatever order the writes came in, the row ends with the highest version's profile. */
  lemma {:induction false} HighestVersionWins(writes: seq<User>, top: User)
    requires Writes(writes) && IsTop(writes, top)
    ensures var r := Written(None, writes); r.Some? && SameProfile(r.value, top) && r.value.snapshot
    decreases |writes|
  {
    hide Writes, IsTop, Full;
    var n := |writes| - 1;
    TopIsIn(writes, top);
    WritesPrefix(writes);
    if exists k :: 0 <= k < n && writes[k].version > 0 {
      HighestExists(writes[..n]);
      var t :| IsTop(writes[..n], t);
      TopIsIn(writes[..n], t);
      HighestVersionWins(writes[..n], t);
      TopOfSnoc(writes, t, top);
      LastWrite(Written(None, writes[..n]), writes[n], t, top);
    } else {
      NoSnapshotYet(writes[..n]);
      LastIsTop(writes, top);
    }
  }

  lemma TopIsIn(writes: seq<User>, top: User)
    requires IsTop(writes, top)
    ensures writes != [] && top.version > 0
  {
  }

  lemma LastIsTop(writes: seq<User>, top: User)
    requires Writes(writes) && IsTop(writes, top) && forall k :: 0 <= k < |writes| - 1 ==> writes[k].version == 0
    ensures top == writes[|writes| - 1] && Full(top)
  {
  }

  lemma LastWrite(row: Option<User>, last: User, t: User, top: User)
    requires row.Some? && SameProfile(row.value, t) && row.value.snapshot && t.version > 0
    requires Full(last) && last.version != t.version && top == (if last.version > t.version then last else t)
    ensures SameProfile(Merged(row, last), top) && Merged(row, last).snapshot
  {
  }

  lemma TopOfSnoc(writes: seq<User>, t: User, top: User)
    requires Writes(writes) && writes != [] && IsTop(writes[..|writes| - 1], t) && IsTop(writes, top)
    ensures var last := writes[|writes| - 1];
            top == (if last.version > t.version then last else t) && last.version != t.version
  {
  }

  lemma {:induction false} HighestExists(writes: seq<User>)
    requires exists k :: 0 <= k < |writes| && writes[k].version > 0
    ensures exists t :: IsTop(writes, t)
    decreases |writes|
  {
    var n := |writes| - 1;
    var before := writes[..n];
    assert writes == before + [writes[n]];
    if exists k :: 0 <= k < n && before[k].version > 0 {
      HighestExists(before);
      var t :| IsTop(before, t);
      if writes[n].version > t.version {
        assert IsTop(writes, writes[n]);
      } else {
        assert IsTop(writes, t);
      }
    } else {
      forall k | 0 <= k < n
        ensures writes[k].version == 0
      {
        assert before[k] == writes[k];
      }
      assert IsTop(writes, writes[n]);
    }
  }

  lemma SameTop(a: seq<User>, b: seq<User>, top: User)
    requires IsTop(a, top) && forall u :: u in a <==> u in b
    ensures IsTop(b, top)
  {
    forall k | 0 <= k < |b|
      ensures b[k].version <= top.version
    {
      assert b[k] in a;
    }
  }

  /** Two orders of the same writes end with the same profile. */
  lemma OrdersAgree(a: seq<User>, b: seq<User>)
    requires Writes(a) && Writes(b) && (forall u :: u in a <==> u in b)
    requires exists k :: 0 <= k < |a| && a[k].version > 0
    ensures var (x, y) := (Written(None, a), Written(None, b));
            x.Some? && y.Some? && SameOwned(x.value, y.value)
  {
    hide Written, Writes;
    HighestExists(a);
    var top :| IsTop(a, top);
    SameTop(a, b, top);
    HighestVersionWins(a, top);
    HighestVersionWins(b, top);
  }

  // ----- The friend flag does not converge -----

  /** The write carries no version, or was the newest so far when it arrived. */
  ghost predicate Lands(writes: seq<User>, k: nat)
    requires k < |writes|
  {
    writes[k].version == 0 || forall j :: 0 <= j < k ==> writes[j].version <= writes[k].version
  }

  /** The stored version is the largest ever written. */
  lemma {:induction false} VersionIsMax(writes: seq<User>)
    requires writes != []
    ensures var r := Written(None, writes);
            && r.Some? && (forall k :: 0 <= k < |writes| ==> writes[k].version <= r.value.version)
            && exists k :: 0 <= k < |writes| && writes[k].version == r.value.version
    decreases |writes|
  {
    var n := |writes| - 1;
    var before := writes[..n];
    var r := Written(None, writes).value;
    if n > 0 {
      VersionIsMax(before);
      var b := Written(None, before).value;
      forall k | 0 <= k < n
        ensures writes[k].version <= b.version
      {
        assert before[k] == writes[k];
      }
      if r.version == b.version {
        var k :| 0 <= k < n && before[k].version == b.version;
        assert writes[k].version == r.version;
      }
    }
    assert r.version == writes[n].version || n > 0;
  }

  lemma LandsIsNotOutdated(writes: seq<User>)
    requires |writes| > 1
    ensures var n := |writes| - 1;
            Lands(writes, n) <==> !Outdated(Written(None, writes[..n]).value, writes[n])
  {
    hide Written;
    var n := |writes| - 1;
    VersionIsMax(writes[..n]);
    var b := Written(None, writes[..n]).value;
    var k :| 0 <= k < n && writes[..n][k].version == b.version;
    assert writes[k].version == b.version;
    forall j | 0 <= j < n
      ensures writes[j].version <= b.version
    {
      assert writes[..n][j] == writes[j];
    }
  }

  /**
   * An outdated record is dropped whole, its friend flag too. The flag is set exactly when some
   * write that set it carried no version or was the newest so far: it depends on the order.
   */
  lemma {:induction false} FriendExactlyWhen(writes: seq<User>)
    ensures var r := Written(None, writes);
            r.Some? && r.value.isFriend <==> exists k :: 0 <= k < |writes| && writes[k].isFriend && Lands(writes, k)
    decreases |writes|
  {
    if writes != [] {
      var n := |writes| - 1;
      var before := writes[..n];
      FriendExactlyWhen(before);
      if n > 0 {
        LandsIsNotOutdated(writes);
      }
      forall k | 0 <= k < n
        ensures before[k] == writes[k] && (Lands(before, k) <==> Lands(writes, k))
      {
        assert forall j :: 0 <= j < k ==> before[j] == writes[j];
      }
      if k :| 0 <= k < n && before[k].isFriend && Lands(before, k) {
        assert writes[k].isFriend && Lands(writes, k);
      }
      if k :| 0 <= k < |writes| && writes[k].isFriend && Lands(writes, k) {
        if k < n {
          assert before[k].isFriend && Lands(before, k);
        }
      }
    }
  }

  lemma FriendFlagDependsOnOrder(a: User, b: User)
    requires a.userId == b.userId && 0 < a.version < b.version && a.isFriend && !b.isFriend
    ensures Written(None, [a, b]).value.isFriend && !Written(None, [b, a]).value.isFriend
  {
    assert [a, b][..1] == [a] && [b, a][..1] == [b] && [a][..0] == [] && [b][..0] == [];
    assert Written(None, [a]) == Some(Merged(None, a)) && Written(None, [b]) == Some(Merged(None, b));
  }
}
