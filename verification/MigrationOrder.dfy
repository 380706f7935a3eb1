// The v12 upgrade, first half: in what order the old rows are numbered
// (src/cache/idb-schema.ts:427-473).

module MigrationOrder {
  import opened Text
  import opened Records
  import opened Sorting

  /** A row of the old table: the message and the primary key it was stored under. */
  datatype OldRow = OldRow(record: Record, recordKey: Option<string>)

  predicate IsConfirmed(r: OldRow)
  {
    r.record.serverId !in {None, Some("")}
  }

  predicate LacksPts(r: OldRow)
  {
    r.record.pts in {None, Some("")}
  }

  predicate Of(r: OldRow, c: Id)
  {
    r.record.channelId == c
  }

  /** Server-id order while any confirmed row of the channel lacks pts. */
  predicate Degraded(rows: seq<OldRow>, c: Id)
  {
    exists k :: 0 <= k < |rows| && Of(rows[k], c) && IsConfirmed(rows[k]) && LacksPts(rows[k])
  }

  function ModeFor(rows: seq<OldRow>, c: Id): OrderMode
  {
    if Degraded(rows, c) then ByServerId else ByPts
  }

  // ----- Comparators -----

  predicate ColumnLess(a: Option<string>, b: Option<string>)
  {
    Less(EncodeSortKey(a), EncodeSortKey(b))
  }

  predicate ConfirmedBefore(mode: OrderMode, a: OldRow, b: OldRow)
  {
    if mode == ByServerId then ColumnLess(a.record.serverId, b.record.serverId)
    else
      || ColumnLess(a.record.pts, b.record.pts)
      || (EncodeSortKey(a.record.pts) == EncodeSortKey(b.record.pts) &&
           ColumnLess(a.record.serverId, b.record.serverId))
  }

  predicate PendingBefore(a: OldRow, b: OldRow)
  {
    || a.record.timestamp < b.record.timestamp
    || (a.record.timestamp == b.record.timestamp && Less(a.record.id, b.record.id))
  }

  lemma ColumnsOrdered(a: Option<string>, b: Option<string>, c: Option<string>)
    ensures ColumnLess(a, b) ==> !ColumnLess(b, a)
    ensures !ColumnLess(b, a) && !ColumnLess(c, b) ==> !ColumnLess(c, a)
    ensures ColumnLess(a, b) || ColumnLess(b, a) || EncodeSortKey(a) == EncodeSortKey(b)
    ensures ColumnLess(a, b) || ColumnLess(b, a) ==> EncodeSortKey(a) != EncodeSortKey(b)
  {
    TextOrdered(EncodeSortKey(a), EncodeSortKey(b), EncodeSortKey(c));
  }

  lemma TextOrdered(x: string, y: string, z: string)
    ensures Less(x, y) ==> !Less(y, x)
    ensures !Less(y, x) && !Less(z, y) ==> !Less(z, x)
    ensures Less(x, y) || Less(y, x) || x == y
    ensures Less(x, y) || Less(y, x) ==> x != y
  {
    LessTotal(x, y);
    LessTotal(y, z);
    LessIrreflexive(x);
    if Less(x, y) {
      LessAsymmetric(x, y);
    }
    if Less(z, x) && !Less(y, x) && x != y {
      LessTransitive(z, x, y);
    }
  }

  lemma ConfirmedIsWeak(mode: OrderMode)
    ensures WeakOrder((a, b) => ConfirmedBefore(mode, a, b))
  {
    hide Less, EncodeSortKey;
    forall a: OldRow, b: OldRow, c: OldRow
      ensures ConfirmedBefore(mode, a, b) ==> !ConfirmedBefore(mode, b, a)
      ensures !ConfirmedBefore(mode, b, a) && !ConfirmedBefore(mode, c, b) ==> !ConfirmedBefore(mode, c, a)
    {
      ColumnsOrdered(a.record.pts, b.record.pts, c.record.pts);
      ColumnsOrdered(b.record.pts, c.record.pts, a.record.pts);
      ColumnsOrdered(c.record.pts, a.record.pts, b.record.pts);
      ColumnsOrdered(a.record.serverId, b.record.serverId, c.record.serverId);
    }
  }

  lemma PendingIsWeak()
    ensures WeakOrder(PendingBefore)
  {
    forall a: OldRow, b: OldRow, c: OldRow
      ensures PendingBefore(a, b) ==> !PendingBefore(b, a)
      ensures !PendingBefore(b, a) && !PendingBefore(c, b) ==> !PendingBefore(c, a)
    {
      TextOrdered(a.record.id, b.record.id, c.record.id);
    }
  }

  // ----- Distinct rows -----

  predicate SameId(a: OldRow, b: OldRow)
  {
    a.record.id == b.record.id
  }

  ghost predicate DistinctIds(s: seq<OldRow>)
  {
    Apart(s, SameId)
  }

  // ----- Per channel, then channel after channel -----

  function RowsOf(rows: seq<OldRow>, c: Id): seq<OldRow>
  {
    Where(rows, r => Of(r, c))
  }

  /** One channel: confirmed rows in the order of its mode, then pending rows by time. */
  function ChannelOrder(list: seq<OldRow>, mode: OrderMode): seq<OldRow>
  {
    Sort(Where(list, IsConfirmed), (a, b) => ConfirmedBefore(mode, a, b)) +
      Sort(Where(list, r => !IsConfirmed(r)), PendingBefore)
  }

  datatype Numbered = Numbered(row: OldRow, mode: OrderMode)

  function WithMode(s: seq<OldRow>, mode: OrderMode): (t: seq<Numbered>)
    ensures |t| == |s| && forall k :: 0 <= k < |s| ==> t[k] == Numbered(s[k], mode)
  {
    seq(|s|, k requires 0 <= k < |s| => Numbered(s[k], mode))
  }

  function ChannelsIn(rows: seq<OldRow>): (cs: seq<Id>)
    ensures forall i, j :: 0 <= i < j < |cs| ==> cs[i] != cs[j]
    ensures forall r :: r in rows ==> r.record.channelId in cs
  {
    if rows == [] then []
    else
      var before := ChannelsIn(rows[..|rows| - 1]);
      var c := rows[|rows| - 1].record.channelId;
      assert rows == rows[..|rows| - 1] + [rows[|rows| - 1]];
      if c in before then before else before + [c]
  }

  function OneChannel(rows: seq<OldRow>, c: Id): seq<Numbered>
  {
    WithMode(ChannelOrder(RowsOf(rows, c), ModeFor(rows, c)), ModeFor(rows, c))
  }

  function Concatenated(rows: seq<OldRow>, channels: seq<Id>): seq<Numbered>
    decreases |channels|
  {
    if channels == [] then []
    else Concatenated(rows, channels[..|channels| - 1]) + OneChannel(rows, channels[|channels| - 1])
  }

  /** The numbering order of the whole table. */
  function Ordered(rows: seq<OldRow>): seq<Numbered>
  {
    Concatenated(rows, ChannelsIn(rows))
  }

  /** `a` may be numbered before `b` of the same channel. */
  predicate MayPrecede(mode: OrderMode, a: OldRow, b: OldRow)
  {
    || (IsConfirmed(a) && !IsConfirmed(b))
    || (IsConfirmed(a) && IsConfirmed(b) && !ConfirmedBefore(mode, b, a))
    || (!IsConfirmed(a) && !IsConfirmed(b) && !PendingBefore(b, a))
  }

  lemma ChannelOrderSpec(list: seq<OldRow>, mode: OrderMode)
    requires DistinctIds(list)
    ensures var t := ChannelOrder(list, mode);
            && DistinctIds(t) && (forall r :: r in t <==> r in list)
            && forall i, j :: 0 <= i < j < |t| ==> MayPrecede(mode, t[i], t[j])
  {
    hide ConfirmedBefore, PendingBefore, Sort, IsConfirmed;
    var before := (a, b) => ConfirmedBefore(mode, a, b);
    var pending := (r: OldRow) => !IsConfirmed(r);
    ConfirmedIsWeak(mode);
    PendingIsWeak();
    WhereApart(list, IsConfirmed, SameId);
    WhereApart(list, pending, SameId);
    var s, t := Sort(Where(list, IsConfirmed), before), Sort(Where(list, pending), PendingBefore);
    SortSpec(Where(list, IsConfirmed), before, SameId);
    SortSpec(Where(list, pending), PendingBefore, SameId);
    assert ChannelOrder(list, mode) == s + t;
    DistinctJoin(s, t, list);
    forall i, j | 0 <= i < j < |s + t|
      ensures MayPrecede(mode, (s + t)[i], (s + t)[j])
    {
      assert (s + t)[i] in s || (s + t)[i] in t;
      assert i < |s| ==> s[i] in s;
      assert j < |s| ==> s[j] in s && !before(s[j], s[i]);
      assert j >= |s| ==> t[j - |s|] in t;
      assert i >= |s| ==> t[i - |s|] in t && !PendingBefore(t[j - |s|], t[i - |s|]);
    }
  }

  /** Two halves of a list of distinct rows, told apart by being confirmed. */
  lemma DistinctJoin(s: seq<OldRow>, t: seq<OldRow>, list: seq<OldRow>)
    requires DistinctIds(list) && DistinctIds(s) && DistinctIds(t)
    requires forall r :: r in s ==> r in list && IsConfirmed(r)
    requires forall r :: r in t ==> r in list && !IsConfirmed(r)
    ensures DistinctIds(s + t)
  {
    forall i, j | 0 <= i < |s| && 0 <= j < |t|
      ensures s[i].record.id != t[j].record.id
    {
      assert s[i] in s && t[j] in t;
      RowsDiffer(list, s[i], t[j]);
    }
  }

  lemma RowsDiffer(list: seq<OldRow>, a: OldRow, b: OldRow)
    requires DistinctIds(list) && a in list && b in list && a != b
    ensures a.record.id != b.record.id
  {
  }

  ghost predicate DistinctNumbered(s: seq<Numbered>)
  {
    forall i, j :: 0 <= i < j < |s| ==> s[i].row.record.id != s[j].row.record.id
  }

  /** Within each channel, rows are numbered in display order. */
  ghost predicate NumberedInOrder(s: seq<Numbered>)
  {
    forall i, j :: 0 <= i < j < |s| && s[i].row.record.channelId == s[j].row.record.channelId ==>
      MayPrecede(s[j].mode, s[i].row, s[j].row)
  }

  lemma OneChannelSpec(rows: seq<OldRow>, c: Id)
    requires DistinctIds(rows)
    ensures var t := OneChannel(rows, c);
            && DistinctNumbered(t) && NumberedInOrder(t)
            && forall x :: x in t <==> x.row in rows && x.row.record.channelId == c && x.mode == ModeFor(rows, c)
  {
    hide MayPrecede, ChannelOrder, ModeFor;
    var list := RowsOf(rows, c);
    WhereApart(rows, r => Of(r, c), SameId);
    ChannelOrderSpec(list, ModeFor(rows, c));
    var u := ChannelOrder(list, ModeFor(rows, c));
    forall x: Numbered | x.row in rows && x.row.record.channelId == c && x.mode == ModeFor(rows, c)
      ensures x in OneChannel(rows, c)
    {
      assert x.row in u;
      var k :| 0 <= k < |u| && u[k] == x.row;
      assert OneChannel(rows, c)[k] == x;
    }
  }

  lemma {:induction false} ConcatenatedSpec(rows: seq<OldRow>, channels: seq<Id>)
    requires DistinctIds(rows)
    requires forall i, j :: 0 <= i < j < |channels| ==> channels[i] != channels[j]
    ensures var t := Concatenated(rows, channels);
            && DistinctNumbered(t) && NumberedInOrder(t)
            && forall x :: x in t <==>
                 x.row in rows && x.row.record.channelId in channels && x.mode == ModeFor(rows, x.row.record.channelId)
    decreases |channels|
  {
    hide MayPrecede, OneChannel, ModeFor, DistinctIds;
    if channels != [] {
      var n := |channels| - 1;
      ConcatenatedSpec(rows, channels[..n]);
      OneChannelSpec(rows, channels[n]);
      var s, t := Concatenated(rows, channels[..n]), OneChannel(rows, channels[n]);
      assert channels == channels[..n] + [channels[n]];
      forall i, j | 0 <= i < |s| && 0 <= j < |t|
        ensures s[i].row.record.id != t[j].row.record.id && s[i].row.record.channelId != t[j].row.record.channelId
      {
        assert s[i] in s && t[j] in t;
        RowsDiffer(rows, s[i].row, t[j].row);
      }
    }
  }

  /** The numbering order holds every old row once, each channel in display order. */
  lemma OrderedSpec(rows: seq<OldRow>)
    requires DistinctIds(rows)
    ensures var t := Ordered(rows);
            && DistinctNumbered(t) && NumberedInOrder(t)
            && (forall r :: r in rows ==> Numbered(r, ModeFor(rows, r.record.channelId)) in t)
            && (forall x :: x in t ==> x.row in rows && x.mode == ModeFor(rows, x.row.record.channelId))
  {
    hide Concatenated, ModeFor, MayPrecede, DistinctIds;
    ConcatenatedSpec(rows, ChannelsIn(rows));
  }
}
