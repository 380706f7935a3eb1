// The v12 upgrade, second half: rows move to the new table, duplicates merge, foreign claimants
// are quarantined (src/cache/idb-schema.ts:475-546).

module MigrationMove {
  import opened Text
  import opened Records
  import opened CacheTables
  import opened IndexAgreement
  import opened MigrationOrder

  /** The loop's state: the new table, the quarantine, and the maps the loop keeps beside them. */
  datatype Moving = Moving(
    v2: Messages,
    quarantine: map<Id, Record>,
    redirect: map<Id, Id>,
    holders: map<Id, OldRow>,
    oldKeys: map<string, Id>,
    seqNo: nat
  )

  const NOTHING_MOVED := Moving(map[], map[], map[], map[], map[], 0)

  function OldKey(channelId: Id, key: string): string
  {
    channelId + "|" + key
  }

  function Completeness(r: OldRow): nat
  {
    (if LacksPts(r) then 0 else 2) + (if r.record.localId.Some? then 1 else 0)
  }

  /** The row as the new table holds it. */
  function NewRow(n: Numbered, seqNo: nat): Stored
  {
    Stamp(n.row.record.(orderSeq := Some(seqNo)), n.mode)
  }

  function Store(m: Moving, n: Numbered): Result<Moving, StoreError>
  {
    var put := Put(m.v2, NewRow(n, m.seqNo));
    if put.Err? then Err(put.error) else Ok(m.(v2 := put.value))
  }

  /** The next number is taken, and the old key remembered, whatever happens to the row. */
  function Count(m: Moving, r: OldRow): Moving
  {
    m.(seqNo := m.seqNo + 1,
       oldKeys := if r.recordKey.Some? then
         m.oldKeys[OldKey(r.record.channelId, r.recordKey.value) := r.record.id] else m.oldKeys)
  }

  function MoveOne(before: Moving, n: Numbered): Result<Moving, StoreError>
  {
    var r := n.row;
    var id := r.record.id;
    var m := Count(before, r);
    if !IsConfirmed(r) then Store(m, n)
    else
      var smid := r.record.serverId.value;
      if smid !in m.holders then Store(m.(holders := m.holders[smid := r]), n)
      else
        var held := m.holders[smid];
        if held.record.channelId != r.record.channelId then
          Ok(m.(quarantine := m.quarantine[id := r.record], redirect := m.redirect[id := held.record.id]))
        else if Completeness(r) > Completeness(held) then
          Store(m.(v2 := m.v2 - {held.record.id}, redirect := m.redirect[held.record.id := id],
                   holders := m.holders[smid := r]), n)
        else
          Ok(m.(redirect := m.redirect[id := held.record.id]))
  }

  function MoveAll(s: seq<Numbered>): Result<Moving, StoreError>
    decreases |s|
  {
    if s == [] then Ok(NOTHING_MOVED)
    else
      var before := MoveAll(s[..|s| - 1]);
      if before.Err? then before else MoveOne(before.value, s[|s| - 1])
  }

  // ----- What the loop keeps -----

  predicate EmptyServerId(r: OldRow)
  {
    r.record.serverId == Some("")
  }

  /** Where an old row went. */
  ghost predicate Fate(m: Moving, n: Numbered, seqNo: nat)
  {
    var r := n.row.record;
    || (r.id in m.v2 && m.v2[r.id] == NewRow(n, seqNo))
    || (r.id !in m.v2 && IsConfirmed(n.row) && MergedInto(m, n.row))
    || (r.id !in m.v2 && IsConfirmed(n.row) && Quarantined(m, n.row))
  }

  /** The message lives on in a stored row of its channel that is at least as complete. */
  ghost predicate MergedInto(m: Moving, r: OldRow)
  {
    && r.record.serverId.Some? && r.record.serverId.value in m.holders
    && var held := m.holders[r.record.serverId.value];
       held.record.channelId == r.record.channelId && Completeness(held) >= Completeness(r)
  }

  /** Another channel's row has the network id; this one is kept as evidence. */
  ghost predicate Quarantined(m: Moving, r: OldRow)
  {
    && r.record.id in m.quarantine && m.quarantine[r.record.id] == r.record
    && r.record.serverId.Some? && r.record.serverId.value in m.holders
    && m.holders[r.record.serverId.value].record.channelId != r.record.channelId
  }

  /** Each network id is held by the one row of the new table that carries it. */
  ghost predicate HoldersExact(m: Moving)
  {
    && (forall s :: s in m.holders ==>
          && s != "" && m.holders[s].record.serverId == Some(s)
          && m.holders[s].record.id in m.v2
          && m.v2[m.holders[s].record.id].record.serverId == Some(s)
          && m.v2[m.holders[s].record.id].record.channelId == m.holders[s].record.channelId)
    && (forall i :: i in m.v2 && m.v2[i].record.serverId !in {None, Some("")} ==>
          m.v2[i].record.serverId.value in m.holders && m.holders[m.v2[i].record.serverId.value].record.id == i)
  }

  /** Rows of the new table are rows moved so far, under their number. */
  ghost predicate RowsMoved(m: Moving, s: seq<Numbered>)
  {
    && (forall i :: i in m.v2 ==> exists k :: 0 <= k < |s| && s[k].row.record.id == i && m.v2[i] == NewRow(s[k], k + 1))
    && (forall x :: x in m.holders ==> exists k :: 0 <= k < |s| && s[k].row == m.holders[x])
  }

  ghost predicate Moved(m: Moving, s: seq<Numbered>)
  {
    && m.seqNo == |s|
    && HoldersExact(m) && RowsMoved(m, s)
    && (forall k :: 0 <= k < |s| ==> Fate(m, s[k], k + 1))
  }

  ghost predicate AtMostOneEmptyId(s: seq<Numbered>)
  {
    forall j, k :: 0 <= j < k < |s| ==> !(EmptyServerId(s[j].row) && EmptyServerId(s[k].row))
  }

  ghost predicate NewId(s: seq<Numbered>, n: Numbered)
  {
    forall k :: 0 <= k < |s| ==> s[k].row.record.id != n.row.record.id
  }

  // ----- One row -----

  /** The put is refused only by a second empty server id. */
  lemma PutRefusedWhen(m: Moving, s: seq<Numbered>, n: Numbered)
    requires Moved(m, s) && NewId(s, n)
    requires IsConfirmed(n.row) ==> n.row.record.serverId.value !in m.holders
    ensures Admissible(m.v2, NewRow(n, |s| + 1)) <==>
              !(EmptyServerId(n.row) && exists k :: 0 <= k < |s| && EmptyServerId(s[k].row))
  {
  }

  /** What storing the row does: it takes its place, retiring the less complete holder if there is one. */
  ghost predicate Stores(m: Moving, w: Moving, s: seq<Numbered>, n: Numbered, gone: set<Id>)
  {
    && w.v2 == (m.v2 - gone)[n.row.record.id := NewRow(n, |s| + 1)]
    && w.quarantine == m.quarantine && w.seqNo == |s| + 1
    && (if IsConfirmed(n.row) then
          var smid := n.row.record.serverId.value;
          && w.holders == m.holders[smid := n.row]
          && (if smid in m.holders then
                && gone == {m.holders[smid].record.id}
                && m.holders[smid].record.channelId == n.row.record.channelId
                && Completeness(n.row) > Completeness(m.holders[smid])
              else gone == {})
        else w.holders == m.holders && gone == {})
  }

  lemma NewRowIs(n: Numbered, seqNo: nat)
    ensures var row := NewRow(n, seqNo).record;
            && row.id == n.row.record.id && row.serverId == n.row.record.serverId
            && row.channelId == n.row.record.channelId && row.localId == n.row.record.localId
            && row.orderSeq == Some(seqNo)
  {
  }

  lemma HolderIdsDiffer(m: Moving, s: seq<Numbered>, n: Numbered)
    requires RowsMoved(m, s) && NewId(s, n)
    ensures forall x :: x in m.holders ==> m.holders[x].record.id != n.row.record.id
    ensures n.row.record.id !in m.v2
  {
  }

  lemma StoresKeepsHolders(m: Moving, w: Moving, s: seq<Numbered>, n: Numbered, gone: set<Id>)
    requires Moved(m, s) && NewId(s, n) && Stores(m, w, s, n, gone)
    ensures HoldersExact(w)
  {
    hide NewRow, Completeness, Fate, RowsMoved, NewId, Stores;
    NewRowIs(n, |s| + 1);
    HolderIdsDiffer(m, s, n);
    HoldersStored(m, w, s, n, gone);
    StoredHeld(m, w, s, n, gone);
  }

  /** Every holder of the new state is stored under its network id. */
  lemma HoldersStored(m: Moving, w: Moving, s: seq<Numbered>, n: Numbered, gone: set<Id>)
    requires HoldersExact(m) && Stores(m, w, s, n, gone)
    requires forall x :: x in m.holders ==> m.holders[x].record.id != n.row.record.id
    ensures forall x :: x in w.holders ==>
              && x != "" && w.holders[x].record.serverId == Some(x)
              && w.holders[x].record.id in w.v2
              && w.v2[w.holders[x].record.id].record.serverId == Some(x)
              && w.v2[w.holders[x].record.id].record.channelId == w.holders[x].record.channelId
  {
    hide NewRow, Completeness;
    NewRowIs(n, |s| + 1);
    forall x | x in w.holders && (IsConfirmed(n.row) ==> x != n.row.record.serverId.value)
      ensures x in m.holders && w.holders[x] == m.holders[x] && m.holders[x].record.id in w.v2
      ensures w.v2[m.holders[x].record.id] == m.v2[m.holders[x].record.id]
    {
    }
  }

  /** Every stored network id is held by its row. */
  lemma StoredHeld(m: Moving, w: Moving, s: seq<Numbered>, n: Numbered, gone: set<Id>)
    requires HoldersExact(m) && Stores(m, w, s, n, gone)
    ensures forall i :: i in w.v2 && w.v2[i].record.serverId !in {None, Some("")} ==>
              w.v2[i].record.serverId.value in w.holders && w.holders[w.v2[i].record.serverId.value].record.id == i
  {
    hide NewRow, Completeness;
    NewRowIs(n, |s| + 1);
    forall i | i in w.v2 && w.v2[i].record.serverId !in {None, Some("")}
      ensures w.v2[i].record.serverId.value in w.holders && w.holders[w.v2[i].record.serverId.value].record.id == i
    {
      if i != n.row.record.id {
        assert i in m.v2 && w.v2[i] == m.v2[i];
      }
    }
  }

  lemma StoresKeepsRows(m: Moving, w: Moving, s: seq<Numbered>, n: Numbered, gone: set<Id>)
    requires Moved(m, s) && NewId(s, n) && Stores(m, w, s, n, gone)
    ensures RowsMoved(w, s + [n])
  {
    hide DisplaySortKey, Completeness, Fate, HoldersExact, NewRow;
    var t := s + [n];
    assert t[|s|] == n;
    forall i | i in w.v2
      ensures exists k :: 0 <= k < |t| && t[k].row.record.id == i && w.v2[i] == NewRow(t[k], k + 1)
    {
      if i != n.row.record.id {
        var k :| 0 <= k < |s| && s[k].row.record.id == i && m.v2[i] == NewRow(s[k], k + 1);
        assert t[k] == s[k];
      }
    }
    forall x | x in w.holders
      ensures exists k :: 0 <= k < |t| && t[k].row == w.holders[x]
    {
      if w.holders[x] != n.row {
        var k :| 0 <= k < |s| && s[k].row == m.holders[x];
        assert t[k] == s[k];
      }
    }
  }

  lemma StoresKeepsFates(m: Moving, w: Moving, s: seq<Numbered>, n: Numbered, gone: set<Id>, k: nat)
    requires Moved(m, s) && NewId(s, n) && DistinctNumbered(s) && Stores(m, w, s, n, gone) && k < |s|
    ensures Fate(w, s[k], k + 1)
  {
    hide NewRow, Completeness;
    assert Fate(m, s[k], k + 1);
    if s[k].row.record.id in gone {
      var smid := n.row.record.serverId.value;
      var j :| 0 <= j < |s| && s[j].row == m.holders[smid];
      assert j == k;
      assert MergedInto(w, s[k].row);
    }
  }

  lemma StoresKeeps(m: Moving, w: Moving, s: seq<Numbered>, n: Numbered, gone: set<Id>)
    requires Moved(m, s) && NewId(s, n) && DistinctNumbered(s) && Stores(m, w, s, n, gone)
    ensures Moved(w, s + [n])
  {
    hide NewRow, HoldersExact, RowsMoved;
    StoresKeepsHolders(m, w, s, n, gone);
    StoresKeepsRows(m, w, s, n, gone);
    forall k | 0 <= k < |s + [n]|
      ensures Fate(w, (s + [n])[k], k + 1)
    {
      if k < |s| {
        StoresKeepsFates(m, w, s, n, gone, k);
      }
    }
  }

  /** What setting the row aside does: merged into the holder, or quarantined. */
  ghost predicate SetsAside(m: Moving, w: Moving, s: seq<Numbered>, n: Numbered)
  {
    && w.v2 == m.v2 && w.holders == m.holders && w.seqNo == |s| + 1
    && IsConfirmed(n.row) && n.row.record.serverId.value in m.holders
    && var held := m.holders[n.row.record.serverId.value];
       if held.record.channelId == n.row.record.channelId then
         Completeness(held) >= Completeness(n.row) && w.quarantine == m.quarantine
       else w.quarantine == m.quarantine[n.row.record.id := n.row.record]
  }

  lemma SetsAsideKeepsRows(m: Moving, w: Moving, s: seq<Numbered>, n: Numbered)
    requires HoldersExact(m) && RowsMoved(m, s) && w.v2 == m.v2 && w.holders == m.holders
    ensures HoldersExact(w) && RowsMoved(w, s + [n])
  {
    hide NewRow;
    var t := s + [n];
    forall i | i in w.v2
      ensures exists k :: 0 <= k < |t| && t[k].row.record.id == i && w.v2[i] == NewRow(t[k], k + 1)
    {
      var k :| 0 <= k < |s| && s[k].row.record.id == i && m.v2[i] == NewRow(s[k], k + 1);
      assert t[k] == s[k];
    }
    forall x | x in w.holders
      ensures exists k :: 0 <= k < |t| && t[k].row == w.holders[x]
    {
      var k :| 0 <= k < |s| && s[k].row == m.holders[x];
      assert t[k] == s[k];
    }
  }

  lemma SetsAsideKeeps(m: Moving, w: Moving, s: seq<Numbered>, n: Numbered)
    requires Moved(m, s) && NewId(s, n) && SetsAside(m, w, s, n)
    ensures Moved(w, s + [n])
  {
    hide NewRow, Completeness, HoldersExact, RowsMoved, NewId;
    SetsAsideKeepsRows(m, w, s, n);
    HolderIdsDiffer(m, s, n);
    forall k | 0 <= k < |s + [n]|
      ensures Fate(w, (s + [n])[k], k + 1)
    {
      if k < |s| {
        OldFateStays(m, w, s, n, k);
      }
    }
  }

  lemma OldFateStays(m: Moving, w: Moving, s: seq<Numbered>, n: Numbered, k: nat)
    requires Moved(m, s) && NewId(s, n) && SetsAside(m, w, s, n) && k < |s|
    ensures Fate(w, s[k], k + 1)
  {
    hide NewRow, Completeness, HoldersExact, RowsMoved;
    assert Fate(m, s[k], k + 1);
  }

  /** Every row is stored or set aside, unless it is a second one with an empty server id. */
  lemma MoveOneShape(m: Moving, s: seq<Numbered>, n: Numbered)
    requires Moved(m, s) && NewId(s, n)
    ensures MoveOne(m, n).Ok? ==>
              var w := MoveOne(m, n).value;
              SetsAside(m, w, s, n) || exists gone :: Stores(m, w, s, n, gone)
    ensures MoveOne(m, n).Err? <==> EmptyServerId(n.row) && exists k :: 0 <= k < |s| && EmptyServerId(s[k].row)
  {
    hide NewRow, Completeness, Moved, NewId;
    var r := n.row;
    NewRowIs(n, |s| + 1);
    if !IsConfirmed(r) || r.record.serverId.value !in m.holders {
      PutRefusedWhen(m, s, n);
      SeqIs(m, s);
      assert m.v2 - {} == m.v2;
      assert MoveOne(m, n).Ok? ==> Stores(m, MoveOne(m, n).value, s, n, {});
    } else {
      SeqIs(m, s);
      var held := m.holders[r.record.serverId.value];
      if held.record.channelId == r.record.channelId && Completeness(r) > Completeness(held) {
        ReplacementFits(m, s, n);
        assert Stores(m, MoveOne(m, n).value, s, n, {held.record.id});
      }
    }
  }

  lemma SeqIs(m: Moving, s: seq<Numbered>)
    requires Moved(m, s)
    ensures m.seqNo == |s|
  {
  }

  lemma ReplacementFits(m: Moving, s: seq<Numbered>, n: Numbered)
    requires Moved(m, s) && IsConfirmed(n.row) && n.row.record.serverId.value in m.holders
    ensures Admissible(m.v2 - {m.holders[n.row.record.serverId.value].record.id}, NewRow(n, |s| + 1))
  {
    hide DisplaySortKey, Fate, RowsMoved;
    var row := NewRow(n, |s| + 1);
    assert row.record.serverId == n.row.record.serverId;
  }

  // ----- The whole loop -----

  lemma PrefixDistinct(s: seq<Numbered>)
    requires s != [] && DistinctNumbered(s)
    ensures DistinctNumbered(s[..|s| - 1]) && NewId(s[..|s| - 1], s[|s| - 1])
  {
  }

  lemma EmptyIdsSnoc(s: seq<Numbered>)
    requires s != []
    ensures var n := |s| - 1;
            AtMostOneEmptyId(s) <==>
              AtMostOneEmptyId(s[..n]) &&
                !(EmptyServerId(s[n].row) && exists k :: 0 <= k < n && EmptyServerId(s[..n][k].row))
  {
  }

  /**
   * The loop finishes exactly when at most one old row carries an empty server id, and then every
   * row is stored, merged into one at least as complete, or quarantined.
   */
  lemma {:induction false} MoveAllKeeps(s: seq<Numbered>)
    requires DistinctNumbered(s)
    ensures MoveAll(s).Ok? <==> AtMostOneEmptyId(s)
    ensures MoveAll(s).Ok? ==> Moved(MoveAll(s).value, s)
    decreases |s|
  {
    hide MoveOne, Moved, Stores, SetsAside, DistinctNumbered, NewId, AtMostOneEmptyId, EmptyServerId;
    if s == [] {
      NothingMoved();
    } else {
      var n := |s| - 1;
      PrefixDistinct(s);
      EmptyIdsSnoc(s);
      MoveAllKeeps(s[..n]);
      if MoveAll(s[..n]).Ok? {
        var m := MoveAll(s[..n]).value;
        MoveOneShape(m, s[..n], s[n]);
        assert s == s[..n] + [s[n]];
        if MoveOne(m, s[n]).Ok? {
          var w := MoveOne(m, s[n]).value;
          if SetsAside(m, w, s[..n], s[n]) {
            SetsAsideKeeps(m, w, s[..n], s[n]);
          } else {
            var gone :| Stores(m, w, s[..n], s[n], gone);
            StoresKeeps(m, w, s[..n], s[n], gone);
          }
        }
      }
    }
  }

  lemma NothingMoved()
    ensures Moved(NOTHING_MOVED, []) && AtMostOneEmptyId([])
  {
  }

  // ----- Redirects -----

  /** Two rows of the old table with one network id. */
  ghost predicate OneMessage(s: seq<Numbered>, a: Id, b: Id)
  {
    exists j, k :: 0 <= j < |s| && 0 <= k < |s| && s[j].row.record.id == a && s[k].row.record.id == b &&
      IsConfirmed(s[j].row) && s[j].row.record.serverId == s[k].row.record.serverId
  }

  /** Every row that is not stored has a redirect, and redirects stay within one network id. */
  ghost predicate RedirectsFollow(m: Moving, s: seq<Numbered>)
  {
    && (forall k :: 0 <= k < |s| ==> s[k].row.record.id in m.v2 || s[k].row.record.id in m.redirect)
    && (forall a :: a in m.redirect ==> OneMessage(s, a, m.redirect[a]))
  }

  lemma OneMessageStays(s: seq<Numbered>, n: Numbered, a: Id, b: Id)
    requires OneMessage(s, a, b)
    ensures OneMessage(s + [n], a, b)
  {
    var j, k :| 0 <= j < |s| && 0 <= k < |s| && s[j].row.record.id == a && s[k].row.record.id == b &&
      IsConfirmed(s[j].row) && s[j].row.record.serverId == s[k].row.record.serverId;
    assert (s + [n])[j] == s[j] && (s + [n])[k] == s[k];
  }

  lemma HolderIsOneMessage(m: Moving, s: seq<Numbered>, n: Numbered)
    requires Moved(m, s) && IsConfirmed(n.row) && n.row.record.serverId.value in m.holders
    ensures var held := m.holders[n.row.record.serverId.value].record.id;
            OneMessage(s + [n], held, n.row.record.id) && OneMessage(s + [n], n.row.record.id, held)
  {
    hide NewRow, Fate;
    var held := m.holders[n.row.record.serverId.value];
    var k :| 0 <= k < |s| && s[k].row == held;
    assert (s + [n])[k] == s[k] && (s + [n])[|s|] == n;
  }

  lemma MoveOneRedirects(m: Moving, s: seq<Numbered>, n: Numbered)
    requires Moved(m, s) && RedirectsFollow(m, s) && MoveOne(m, n).Ok?
    ensures RedirectsFollow(MoveOne(m, n).value, s + [n])
  {
    hide NewRow, Completeness, Moved, OneMessage;
    var w := MoveOne(m, n).value;
    NewRowIs(n, m.seqNo + 1);
    if IsConfirmed(n.row) && n.row.record.serverId.value in m.holders {
      HolderIsOneMessage(m, s, n);
    }
    forall a | a in w.redirect
      ensures OneMessage(s + [n], a, w.redirect[a])
    {
      if a in m.redirect && w.redirect[a] == m.redirect[a] {
        OneMessageStays(s, n, a, m.redirect[a]);
      }
    }
    forall k | 0 <= k < |s + [n]|
      ensures (s + [n])[k].row.record.id in w.v2 || (s + [n])[k].row.record.id in w.redirect
    {
      assert k < |s| ==> (s + [n])[k] == s[k];
    }
  }

  /** After the loop, whatever was not stored is redirected to a row of the same message. */
  lemma {:induction false} MoveAllRedirects(s: seq<Numbered>)
    requires DistinctNumbered(s) && MoveAll(s).Ok?
    ensures RedirectsFollow(MoveAll(s).value, s)
    decreases |s|
  {
    hide MoveOne, Moved, RedirectsFollow, DistinctNumbered, NewId;
    if s == [] {
      NothingRedirected();
    } else {
      var n := |s| - 1;
      PrefixDistinct(s);
      MoveAllRedirects(s[..n]);
      MoveAllKeeps(s[..n]);
      MoveOneRedirects(MoveAll(s[..n]).value, s[..n], s[n]);
      assert s == s[..n] + [s[n]];
    }
  }

  lemma NothingRedirected()
    ensures RedirectsFollow(NOTHING_MOVED, [])
  {
  }
}
