// Which old rows the upgrade keeps, read off the old table alone: of the rows that claim one
// network id, the first most complete one in the channel that claimed it first
// (src/cache/idb-schema.ts:475-546).

module MigrationKeepers {
  import opened Text
  import opened Records
  import opened MigrationOrder
  import opened MigrationMove

  /** Both rows claim one network id. */
  predicate Rivals(a: OldRow, b: OldRow)
  {
    IsConfirmed(a) && IsConfirmed(b) && a.record.serverId == b.record.serverId
  }

  /** The first row, in numbering order, to claim its network id. */
  ghost predicate FirstClaim(s: seq<Numbered>, f: nat)
  {
    f < |s| && IsConfirmed(s[f].row) && forall j :: 0 <= j < f ==> !Rivals(s[j].row, s[f].row)
  }

  /** The channel of this row was the first to claim its network id. */
  ghost predicate InOwnChannel(s: seq<Numbered>, k: nat)
    requires k < |s|
  {
    exists f: nat :: f < |s| && FirstClaim(s, f) && Rivals(s[f].row, s[k].row) &&
      s[f].row.record.channelId == s[k].row.record.channelId
  }

  /** No rival of its channel is more complete, and no earlier one as complete. */
  ghost predicate MostComplete(s: seq<Numbered>, k: nat)
    requires k < |s|
  {
    forall j ::
      (0 <= j < |s| && j != k && Rivals(s[j].row, s[k].row) &&
       s[j].row.record.channelId == s[k].row.record.channelId) ==>
        Completeness(s[j].row) < Completeness(s[k].row) || (j > k && Completeness(s[j].row) == Completeness(s[k].row))
  }

  ghost predicate Keeper(s: seq<Numbered>, k: nat)
  {
    k < |s| && IsConfirmed(s[k].row) && InOwnChannel(s, k) && MostComplete(s, k)
  }

  /** The row that stands for a network id is the keeper of its claims. */
  ghost predicate HoldersKeep(m: Moving, s: seq<Numbered>)
  {
    forall x :: x in m.holders ==> exists k: nat :: k < |s| && Keeper(s, k) && s[k].row == m.holders[x]
  }

  lemma FirstClaimUnique(s: seq<Numbered>, f: nat, g: nat)
    requires FirstClaim(s, f) && FirstClaim(s, g) && Rivals(s[f].row, s[g].row)
    ensures f == g
  {
  }

  lemma KeeperUnique(s: seq<Numbered>, k: nat, l: nat)
    requires Keeper(s, k) && Keeper(s, l) && Rivals(s[k].row, s[l].row)
    ensures k == l
  {
    hide Completeness;
    var f: nat :| f < |s| && FirstClaim(s, f) && Rivals(s[f].row, s[k].row) &&
      s[f].row.record.channelId == s[k].row.record.channelId;
    var g: nat :| g < |s| && FirstClaim(s, g) && Rivals(s[g].row, s[l].row) &&
      s[g].row.record.channelId == s[l].row.record.channelId;
    FirstClaimUnique(s, f, g);
  }

  lemma FirstClaimStays(s: seq<Numbered>, n: Numbered, f: nat)
    requires FirstClaim(s, f)
    ensures FirstClaim(s + [n], f)
  {
  }

  /** A row numbered later does not displace a keeper it does not beat. */
  lemma KeeperStays(s: seq<Numbered>, n: Numbered, k: nat)
    requires Keeper(s, k)
    requires Rivals(n.row, s[k].row) && n.row.record.channelId == s[k].row.record.channelId ==>
               Completeness(n.row) <= Completeness(s[k].row)
    ensures Keeper(s + [n], k)
  {
    hide Completeness;
    var t := s + [n];
    var f: nat :| f < |s| && FirstClaim(s, f) && Rivals(s[f].row, s[k].row) &&
      s[f].row.record.channelId == s[k].row.record.channelId;
    FirstClaimStays(s, n, f);
    assert t[f] == s[f] && t[k] == s[k];
    forall j | 0 <= j < |t| && j != k && Rivals(t[j].row, t[k].row) &&
      t[j].row.record.channelId == t[k].row.record.channelId
      ensures Completeness(t[j].row) < Completeness(t[k].row) ||
              (j > k && Completeness(t[j].row) == Completeness(t[k].row))
    {
      assert j < |s| ==> t[j] == s[j];
    }
  }

  /** A first claim keeps its row. */
  lemma ClaimKeeps(s: seq<Numbered>, n: Numbered)
    requires IsConfirmed(n.row) && forall j :: 0 <= j < |s| ==> !Rivals(s[j].row, n.row)
    ensures Keeper(s + [n], |s|)
  {
    hide Completeness;
    assert FirstClaim(s + [n], |s|);
  }

  /** A more complete rival of the keeper's channel takes over. */
  lemma BetterKeeps(s: seq<Numbered>, n: Numbered, k: nat)
    requires Keeper(s, k) && Rivals(n.row, s[k].row) && n.row.record.channelId == s[k].row.record.channelId
    requires Completeness(n.row) > Completeness(s[k].row)
    ensures Keeper(s + [n], |s|)
  {
    hide Completeness;
    var t := s + [n];
    var f: nat :| f < |s| && FirstClaim(s, f) && Rivals(s[f].row, s[k].row) &&
      s[f].row.record.channelId == s[k].row.record.channelId;
    FirstClaimStays(s, n, f);
    assert t[f] == s[f] && t[|s|] == n;
    forall j | 0 <= j < |s| && Rivals(t[j].row, n.row) && t[j].row.record.channelId == n.row.record.channelId
      ensures Completeness(t[j].row) < Completeness(n.row)
    {
      assert t[j] == s[j];
    }
  }

  /** A claimed network id has a holder. */
  lemma ClaimedIsHeld(m: Moving, s: seq<Numbered>, j: nat)
    requires Moved(m, s) && j < |s| && IsConfirmed(s[j].row)
    ensures s[j].row.record.serverId.value in m.holders
  {
    hide RowsMoved, Completeness, DisplaySortKey;
    NewRowIs(s[j], j + 1);
    assert Fate(m, s[j], j + 1);
  }

  /** A network id nobody holds was claimed by nobody. */
  lemma UnheldUnclaimed(m: Moving, s: seq<Numbered>, n: Numbered)
    requires Moved(m, s) && IsConfirmed(n.row) && n.row.record.serverId.value !in m.holders
    ensures forall j :: 0 <= j < |s| ==> !Rivals(s[j].row, n.row)
  {
    hide Moved;
    forall j | 0 <= j < |s|
      ensures !Rivals(s[j].row, n.row)
    {
      if IsConfirmed(s[j].row) {
        ClaimedIsHeld(m, s, j);
      }
    }
  }

  lemma StoresKeepers(m: Moving, w: Moving, s: seq<Numbered>, n: Numbered, gone: set<Id>)
    requires Moved(m, s) && HoldersKeep(m, s) && Stores(m, w, s, n, gone)
    ensures HoldersKeep(w, s + [n])
  {
    hide RowsMoved, NewRow, Completeness, Keeper, Fate;
    var t := s + [n];
    forall x | x in w.holders
      ensures exists k: nat :: k < |t| && Keeper(t, k) && t[k].row == w.holders[x]
    {
      if IsConfirmed(n.row) && x == n.row.record.serverId.value {
        if x in m.holders {
          var k: nat :| k < |s| && Keeper(s, k) && s[k].row == m.holders[x];
          BetterKeeps(s, n, k);
        } else {
          UnheldUnclaimed(m, s, n);
          ClaimKeeps(s, n);
        }
        assert t[|s|].row == w.holders[x];
      } else {
        var k: nat :| k < |s| && Keeper(s, k) && s[k].row == m.holders[x];
        KeptConfirmed(s, k);
        KeeperStays(s, n, k);
        assert t[k].row == w.holders[x];
      }
    }
  }

  lemma KeptConfirmed(s: seq<Numbered>, k: nat)
    requires Keeper(s, k)
    ensures k < |s| && IsConfirmed(s[k].row)
  {
  }

  lemma SetsAsideKeepers(m: Moving, w: Moving, s: seq<Numbered>, n: Numbered)
    requires Moved(m, s) && HoldersKeep(m, s) && SetsAside(m, w, s, n)
    ensures HoldersKeep(w, s + [n])
  {
    hide RowsMoved, NewRow, Completeness, Keeper, Fate;
    var t := s + [n];
    forall x | x in w.holders
      ensures exists k: nat :: k < |t| && Keeper(t, k) && t[k].row == w.holders[x]
    {
      var k: nat :| k < |s| && Keeper(s, k) && s[k].row == m.holders[x];
      KeptConfirmed(s, k);
      KeeperStays(s, n, k);
      assert t[k].row == w.holders[x];
    }
  }

  lemma {:induction false} MoveAllKeepers(s: seq<Numbered>)
    requires DistinctNumbered(s) && MoveAll(s).Ok?
    ensures HoldersKeep(MoveAll(s).value, s)
    decreases |s|
  {
    hide MoveOne, Moved, Stores, SetsAside, DistinctNumbered, NewId, HoldersKeep;
    if s == [] {
      NobodyHolds();
    } else {
      var n := |s| - 1;
      PrefixDistinct(s);
      MoveAllKeeps(s[..n]);
      MoveAllKeepers(s[..n]);
      var m := MoveAll(s[..n]).value;
      MoveOneShape(m, s[..n], s[n]);
      assert s == s[..n] + [s[n]];
      var w := MoveOne(m, s[n]).value;
      if SetsAside(m, w, s[..n], s[n]) {
        SetsAsideKeepers(m, w, s[..n], s[n]);
      } else {
        var gone :| Stores(m, w, s[..n], s[n], gone);
        StoresKeepers(m, w, s[..n], s[n], gone);
      }
    }
  }

  lemma NobodyHolds()
    ensures HoldersKeep(NOTHING_MOVED, [])
  {
  }

  /** The row is stored exactly when it claims no network id or is the keeper of its own. */
  lemma StoredExactlyWhen(m: Moving, s: seq<Numbered>, n: nat)
    requires Moved(m, s) && HoldersKeep(m, s) && DistinctNumbered(s) && n < |s|
    ensures s[n].row.record.id in m.v2 <==> !IsConfirmed(s[n].row) || Keeper(s, n)
  {
    hide RowsMoved, NewRow, Completeness, InOwnChannel, MostComplete;
    var r := s[n].row;
    assert Fate(m, s[n], n + 1);
    NewRowIs(s[n], n + 1);
    if IsConfirmed(r) && (r.record.id in m.v2 || Keeper(s, n)) {
      var x := r.record.serverId.value;
      assert x in m.holders;
      var k: nat :| k < |s| && Keeper(s, k) && s[k].row == m.holders[x];
      if Keeper(s, n) {
        KeeperUnique(s, k, n);
      }
    }
  }

  // ----- Where a redirect leads -----

  /** A later, more complete rival of the row's channel. */
  predicate Beats(a: OldRow, b: OldRow)
  {
    Rivals(a, b) && a.record.channelId == b.record.channelId && Completeness(a) > Completeness(b)
  }

  /**
   * Where row `n` was redirected: to the first row that beat it, when it was the keeper at its turn;
   * to the keeper it met there, when it was not.
   */
  ghost predicate LeadsTo(s: seq<Numbered>, n: nat, k: nat)
  {
    && n < |s| && k < |s| && IsConfirmed(s[n].row)
    && (if Keeper(s[..n + 1], n) then
          n < k && Beats(s[k].row, s[n].row) && forall j :: n < j < k ==> !Beats(s[j].row, s[n].row)
        else
          k < n && Keeper(s[..n], k) && Rivals(s[k].row, s[n].row))
  }

  /** A row leads to one other. */
  lemma LeadsToOne(s: seq<Numbered>, n: nat, k: nat, l: nat)
    requires LeadsTo(s, n, k) && LeadsTo(s, n, l)
    ensures k == l
  {
    hide Keeper, Completeness;
    if !Keeper(s[..n + 1], n) {
      KeeperUnique(s[..n], k, l);
    }
  }

  lemma LeadsStays(s: seq<Numbered>, x: Numbered, n: nat, k: nat)
    requires LeadsTo(s, n, k)
    ensures LeadsTo(s + [x], n, k)
  {
    hide Keeper, Completeness;
    assert (s + [x])[..n + 1] == s[..n + 1] && (s + [x])[..n] == s[..n];
  }

  /** A keeper was the keeper at its turn, and nothing has beaten it. */
  lemma KeeperAtItsTurn(s: seq<Numbered>, n: nat)
    requires Keeper(s, n)
    ensures Keeper(s[..n + 1], n) && forall j :: 0 <= j < |s| ==> !Beats(s[j].row, s[n].row)
  {
    hide Completeness;
    var t := s[..n + 1];
    var f: nat :| f < |s| && FirstClaim(s, f) && Rivals(s[f].row, s[n].row) &&
      s[f].row.record.channelId == s[n].row.record.channelId;
    assert f <= n && t[f] == s[f] && t[n] == s[n];
    assert forall j :: 0 <= j < |t| ==> t[j] == s[j];
    assert FirstClaim(t, f);
    assert InOwnChannel(t, n);
    assert MostComplete(t, n);
  }

  /** The redirects so far lead where the old rows say. */
  ghost predicate RedirectsLead(m: Moving, s: seq<Numbered>)
  {
    forall n: nat :: n < |s| && s[n].row.record.id in m.redirect ==>
      exists k: nat :: k < |s| && LeadsTo(s, n, k) && s[k].row.record.id == m.redirect[s[n].row.record.id]
  }

  lemma LeadCarries(m: Moving, w: Moving, s: seq<Numbered>, x: Numbered, n: nat)
    requires RedirectsLead(m, s) && n < |s| && s[n].row.record.id in m.redirect && s[n].row.record.id in w.redirect
    requires w.redirect[s[n].row.record.id] == m.redirect[s[n].row.record.id]
    ensures exists k: nat :: k <= |s| && LeadsTo(s + [x], n, k) &&
              (s + [x])[k].row.record.id == w.redirect[s[n].row.record.id]
  {
    hide LeadsTo;
    var k: nat :| k < |s| && LeadsTo(s, n, k) && s[k].row.record.id == m.redirect[s[n].row.record.id];
    LeadsStays(s, x, n, k);
    assert (s + [x])[k] == s[k];
  }

  /** What one turn does to the redirects: nothing, or one new entry. */
  lemma MoveOneRedirect(m: Moving, x: Numbered)
    requires MoveOne(m, x).Ok?
    ensures var w := MoveOne(m, x).value;
            if !IsConfirmed(x.row) || x.row.record.serverId.value !in m.holders then w.redirect == m.redirect
            else
              var held := m.holders[x.row.record.serverId.value];
              if Beats(x.row, held) then w.redirect == m.redirect[held.record.id := x.row.record.id]
              else held.record.serverId == x.row.record.serverId && IsConfirmed(held) ==>
                w.redirect == m.redirect[x.row.record.id := held.record.id]
  {
    hide NewRow, Completeness;
  }

  /** The displaced holder was beaten for the first time. */
  lemma DisplacedLeads(m: Moving, s: seq<Numbered>, x: Numbered, n: nat)
    requires HoldersKeep(m, s) && DistinctNumbered(s) && n < |s| && IsConfirmed(x.row)
    requires x.row.record.serverId.value in m.holders
    requires m.holders[x.row.record.serverId.value].record.id == s[n].row.record.id
    requires Beats(x.row, m.holders[x.row.record.serverId.value])
    ensures LeadsTo(s + [x], n, |s|)
  {
    hide Keeper, Completeness, Beats;
    var k: nat :| k < |s| && Keeper(s, k) && s[k].row == m.holders[x.row.record.serverId.value];
    assert k == n;
    KeeperAtItsTurn(s, n);
    KeptConfirmed(s, n);
    assert (s + [x])[..n + 1] == s[..n + 1] && (s + [x])[|s|] == x;
  }

  /** The row set aside met the keeper of its network id. */
  lemma SetAsideLeads(m: Moving, s: seq<Numbered>, x: Numbered) returns (k: nat)
    requires HoldersKeep(m, s) && IsConfirmed(x.row) && x.row.record.serverId.value in m.holders
    requires m.holders[x.row.record.serverId.value].record.serverId == x.row.record.serverId
    requires !Beats(x.row, m.holders[x.row.record.serverId.value])
    ensures k < |s| && s[k].row == m.holders[x.row.record.serverId.value] && LeadsTo(s + [x], |s|, k)
  {
    hide Keeper, Completeness;
    k :| k < |s| && Keeper(s, k) && s[k].row == m.holders[x.row.record.serverId.value];
    KeptConfirmed(s, k);
    KeeperStays(s, x, k);
    var t := s + [x];
    assert t[..|s| + 1] == t && t[..|s|] == s && t[|s|] == x && t[k] == s[k];
    if Keeper(t, |s|) {
      KeeperUnique(t, k, |s|);
    }
  }

  /** An earlier row still leads where it led, unless it is the holder this row displaced. */
  lemma EarlierLeads(m: Moving, s: seq<Numbered>, x: Numbered, n: nat)
    requires Moved(m, s) && HoldersKeep(m, s) && RedirectsLead(m, s) && DistinctNumbered(s) && NewId(s, x)
    requires MoveOne(m, x).Ok? && n < |s| && s[n].row.record.id in MoveOne(m, x).value.redirect
    ensures exists k: nat :: k <= |s| && LeadsTo(s + [x], n, k) &&
              (s + [x])[k].row.record.id == MoveOne(m, x).value.redirect[s[n].row.record.id]
  {
    hide MoveOne, Completeness, LeadsTo, Moved, HoldersKeep, Beats, RedirectsLead, DistinctNumbered;
    var w := MoveOne(m, x).value;
    var id := s[n].row.record.id;
    MoveOneRedirect(m, x);
    if id in m.redirect && w.redirect[id] == m.redirect[id] {
      LeadCarries(m, w, s, x, n);
    } else {
      HeldIsRival(m, s, x);
      DisplacedLeads(m, s, x, n);
      assert (s + [x])[|s|] == x;
    }
  }

  lemma HeldIsRival(m: Moving, s: seq<Numbered>, x: Numbered)
    requires Moved(m, s) && IsConfirmed(x.row) && x.row.record.serverId.value in m.holders
    ensures Rivals(m.holders[x.row.record.serverId.value], x.row)
  {
    hide RowsMoved, Fate;
  }

  /** The row of this turn leads to the keeper it met, if it is redirected at all. */
  lemma NewestLeads(m: Moving, s: seq<Numbered>, x: Numbered)
    requires Moved(m, s) && HoldersKeep(m, s) && RedirectsFollow(m, s) && NewId(s, x)
    requires MoveOne(m, x).Ok? && x.row.record.id in MoveOne(m, x).value.redirect
    ensures exists k: nat :: k <= |s| && LeadsTo(s + [x], |s|, k) &&
              (s + [x])[k].row.record.id == MoveOne(m, x).value.redirect[x.row.record.id]
  {
    hide MoveOne, Completeness, LeadsTo, Moved, HoldersKeep, Beats, RedirectsFollow, NewId;
    MoveOneRedirect(m, x);
    NotYetRedirected(m, s, x);
    HeldIsRival(m, s, x);
    HeldIsAnother(m, s, x);
    var k := SetAsideLeads(m, s, x);
    assert (s + [x])[k] == s[k];
  }

  lemma HeldIsAnother(m: Moving, s: seq<Numbered>, x: Numbered)
    requires Moved(m, s) && NewId(s, x) && IsConfirmed(x.row) && x.row.record.serverId.value in m.holders
    ensures m.holders[x.row.record.serverId.value].record.id != x.row.record.id
  {
    hide HoldersExact, Fate;
    HolderIdsDiffer(m, s, x);
  }

  lemma MoveOneLeads(m: Moving, s: seq<Numbered>, x: Numbered)
    requires Moved(m, s) && HoldersKeep(m, s) && RedirectsFollow(m, s) && RedirectsLead(m, s)
    requires DistinctNumbered(s) && NewId(s, x) && MoveOne(m, x).Ok?
    ensures RedirectsLead(MoveOne(m, x).value, s + [x])
  {
    hide MoveOne, LeadsTo, Moved, HoldersKeep, RedirectsFollow, RedirectsLead, DistinctNumbered, NewId;
    var w := MoveOne(m, x).value;
    var t := s + [x];
    forall n: nat | n < |t| && t[n].row.record.id in w.redirect
      ensures exists k: nat :: k < |t| && LeadsTo(t, n, k) && t[k].row.record.id == w.redirect[t[n].row.record.id]
    {
      if n < |s| {
        assert t[n] == s[n];
        EarlierLeads(m, s, x, n);
      } else {
        assert t[n] == x;
        NewestLeads(m, s, x);
      }
    }
    LeadsIs(w, t);
  }

  lemma LeadsIs(m: Moving, s: seq<Numbered>)
    requires forall n: nat :: n < |s| && s[n].row.record.id in m.redirect ==>
               exists k: nat :: k < |s| && LeadsTo(s, n, k) && s[k].row.record.id == m.redirect[s[n].row.record.id]
    ensures RedirectsLead(m, s)
  {
  }

  lemma NotYetRedirected(m: Moving, s: seq<Numbered>, x: Numbered)
    requires RedirectsFollow(m, s) && NewId(s, x)
    ensures x.row.record.id !in m.redirect
  {
    forall a | a in m.redirect
      ensures a != x.row.record.id
    {
      assert OneMessage(s, a, m.redirect[a]);
    }
  }

  lemma {:induction false} MoveAllLeads(s: seq<Numbered>)
    requires DistinctNumbered(s) && MoveAll(s).Ok?
    ensures RedirectsLead(MoveAll(s).value, s)
    decreases |s|
  {
    hide MoveOne, Moved, DistinctNumbered, NewId, HoldersKeep, RedirectsFollow, RedirectsLead;
    if s == [] {
      NothingLeads();
    } else {
      var n := |s| - 1;
      PrefixDistinct(s);
      MoveAllKeeps(s[..n]);
      MoveAllKeepers(s[..n]);
      MoveAllRedirects(s[..n]);
      MoveAllLeads(s[..n]);
      MoveOneLeads(MoveAll(s[..n]).value, s[..n], s[n]);
      assert s == s[..n] + [s[n]];
    }
  }

  lemma NothingLeads()
    ensures RedirectsLead(NOTHING_MOVED, [])
  {
  }

  /**
   * Read off the old rows: a row that is not stored is redirected to the one row it leads to, and
   * that row is stored exactly when it is a keeper. A chain may stop short of one.
   */
  lemma RedirectStoredExactlyWhen(s: seq<Numbered>, n: nat)
    requires DistinctNumbered(s) && MoveAll(s).Ok? && n < |s| && IsConfirmed(s[n].row) && !Keeper(s, n)
    ensures exists k: nat :: k < |s| && LeadsTo(s, n, k)
    ensures forall k: nat :: k < |s| && LeadsTo(s, n, k) ==>
              var m := MoveAll(s).value;
              && s[n].row.record.id in m.redirect && m.redirect[s[n].row.record.id] == s[k].row.record.id
              && (s[k].row.record.id in m.v2 <==> Keeper(s, k))
  {
    hide MoveAll, Moved, HoldersKeep, Keeper, RedirectsFollow, LeadsTo, RedirectsLead, DistinctNumbered;
    var m := MoveAll(s).value;
    MoveAllKeeps(s);
    MoveAllKeepers(s);
    MoveAllRedirects(s);
    MoveAllLeads(s);
    StoredExactlyWhen(m, s, n);
    UnstoredLeads(m, s, n);
    var l: nat :| l < |s| && LeadsTo(s, n, l) && s[l].row.record.id == m.redirect[s[n].row.record.id];
    forall k: nat | k < |s| && LeadsTo(s, n, k)
      ensures k == l && (s[k].row.record.id in m.v2 <==> Keeper(s, k))
    {
      LeadsToOne(s, n, k, l);
      LeadsToConfirmed(s, n, k);
      StoredExactlyWhen(m, s, k);
    }
  }

  lemma UnstoredLeads(m: Moving, s: seq<Numbered>, n: nat)
    requires RedirectsFollow(m, s) && RedirectsLead(m, s) && n < |s| && s[n].row.record.id !in m.v2
    ensures s[n].row.record.id in m.redirect
    ensures exists l: nat :: l < |s| && LeadsTo(s, n, l) && s[l].row.record.id == m.redirect[s[n].row.record.id]
  {
    hide LeadsTo;
  }

  lemma LeadsToConfirmed(s: seq<Numbered>, n: nat, k: nat)
    requires LeadsTo(s, n, k)
    ensures k < |s| && IsConfirmed(s[k].row)
  {
    hide Keeper, Completeness;
  }

  /** A witness: three claims of one channel, each more complete. The first leads to the second, which is gone. */
  lemma ChainStopsShort(s: seq<Numbered>)
    requires |s| == 3 && DistinctNumbered(s) && Beats(s[1].row, s[0].row) && Beats(s[2].row, s[1].row)
    ensures MoveAll(s).Ok?
    ensures var m := MoveAll(s).value;
            && s[0].row.record.id in m.redirect && m.redirect[s[0].row.record.id] == s[1].row.record.id
            && s[1].row.record.id !in m.v2
  {
    hide MoveAll, LeadsTo, Keeper, Beats;
    NoneEmpty(s);
    MoveAllKeeps(s);
    BeatenByTheNext(s);
    BeatenIsNoKeeper(s, 0, 1);
    BeatenIsNoKeeper(s, 1, 2);
    RedirectStoredExactlyWhen(s, 0);
  }

  lemma BeatenByTheNext(s: seq<Numbered>)
    requires |s| >= 2 && Beats(s[1].row, s[0].row)
    ensures LeadsTo(s, 0, 1) && IsConfirmed(s[0].row)
  {
    hide Completeness;
    assert FirstClaim(s[..1], 0) && s[..1][0] == s[0];
    assert Keeper(s[..1], 0);
  }

  lemma BeatenIsNoKeeper(s: seq<Numbered>, k: nat, l: nat)
    requires k < |s| && l < |s| && Beats(s[l].row, s[k].row)
    ensures !Keeper(s, k)
  {
    hide Completeness;
  }

  /** Rows beaten or beating carry a network id. */
  lemma NoneEmpty(s: seq<Numbered>)
    requires |s| == 3 && Beats(s[1].row, s[0].row) && Beats(s[2].row, s[1].row)
    ensures AtMostOneEmptyId(s)
  {
    hide Completeness;
  }
}
