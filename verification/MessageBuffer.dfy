// The in-memory timeline buffer of one channel as a value (src/cache/message-store.ts).

module MessageBuffer {
  import opened Text
  import opened Records
  import opened Sorting

  type Buffer = seq<Record>

  predicate KeyBefore(mode: OrderMode, a: Record, b: Record)
  {
    Less(DisplaySortKey(a, mode), DisplaySortKey(b, mode))
  }

  function Order(mode: OrderMode): Before<Record>
  {
    (a, b) => KeyBefore(mode, a, b)
  }

  /** Two rows that describe one message: same row, same network id or same local id. */
  predicate SameMessage(a: Record, b: Record)
  {
    || a.id == b.id
    || (a.serverId.Some? && a.serverId == b.serverId)
    || (a.localId.Some? && a.localId == b.localId)
  }

  predicate SameRow(a: Record, b: Record)
  {
    a.id == b.id
  }

  /** The buffer is in display order and shows every message once. */
  ghost predicate Tidy(buffer: Buffer, mode: OrderMode)
  {
    InOrder(buffer, Order(mode)) && Apart(buffer, SameMessage)
  }

  lemma OrderIsWeak(mode: OrderMode)
    ensures WeakOrder(Order(mode))
  {
    hide Less, DisplaySortKey;
    forall a: Record, b: Record, c: Record
      ensures KeyBefore(mode, a, b) ==> !KeyBefore(mode, b, a)
      ensures !KeyBefore(mode, b, a) && !KeyBefore(mode, c, b) ==> !KeyBefore(mode, c, a)
    {
      var (x, y, z) := (DisplaySortKey(a, mode), DisplaySortKey(b, mode), DisplaySortKey(c, mode));
      if Less(x, y) {
        LessAsymmetric(x, y);
      }
      LessTotal(x, y);
      LessTotal(y, z);
      if Less(z, x) && x != y && Less(x, y) {
        LessTransitive(z, x, y);
      }
    }
  }

  // ----- Helpers of the store -----

  predicate SharesNetworkId(m: Record, incoming: seq<Record>)
  {
    exists k :: 0 <= k < |incoming| &&
      ((m.serverId.Some? && m.serverId == incoming[k].serverId) ||
        (m.localId.Some? && m.localId == incoming[k].localId))
  }

  predicate HasRow(incoming: seq<Record>, id: Id)
  {
    exists k :: 0 <= k < |incoming| && incoming[k].id == id
  }

  predicate Survives(m: Record, incoming: seq<Record>)
  {
    HasRow(incoming, m.id) || !SharesNetworkId(m, incoming)
  }

  /** `absorbDuplicates`: drop rows that an incoming row describes under another id. */
  function Absorb(rows: Buffer, incoming: seq<Record>): Buffer
  {
    Where(rows, m => Survives(m, incoming))
  }

  /** `Map.set` under the row's id: replaced where it stands, or appended. */
  function SetRow(rows: Buffer, r: Record): Buffer
  {
    if rows == [] then [r]
    else if rows[0].id == r.id then [r] + rows[1..]
    else [rows[0]] + SetRow(rows[1..], r)
  }

  function SetRows(rows: Buffer, records: seq<Record>): Buffer
  {
    if records == [] then rows
    else SetRow(SetRows(rows, records[..|records| - 1]), records[|records| - 1])
  }

  predicate MessageEquals(a: Record, b: Record)
  {
    && a.serverId == b.serverId && a.localId == b.localId && a.pts == b.pts && a.fromUid == b.fromUid
    && a.messageType == b.messageType && a.content == b.content && a.timestamp == b.timestamp
    && a.status == b.status && a.revoked == b.revoked && a.payload == b.payload
  }

  /** The record would change what the rows show. */
  predicate Changes(rows: Buffer, r: Record)
  {
    !exists k :: 0 <= k < |rows| && rows[k].id == r.id && MessageEquals(rows[k], r)
  }

  /** Some record of the batch changes the rows as they stand when it is its turn. */
  predicate AnyChanges(rows: Buffer, records: seq<Record>)
  {
    records != [] &&
    (AnyChanges(rows, records[..|records| - 1]) ||
     Changes(SetRows(rows, records[..|records| - 1]), records[|records| - 1]))
  }

  // ----- Operations -----

  function Upserted(buffer: Buffer, mode: OrderMode, records: seq<Record>): Buffer
  {
    var existing := Absorb(buffer, records);
    if !AnyChanges(existing, records) then buffer
    else Sort(SetRows(existing, records), Order(mode))
  }

  predicate Outside(mode: OrderMode, lo: Record, hi: Record, m: Record)
  {
    KeyBefore(mode, m, lo) || KeyBefore(mode, hi, m)
  }

  function Windowed(buffer: Buffer, mode: OrderMode, records: seq<Record>): Buffer
  {
    if records == [] then buffer
    else
      var sorted := Sort(records, Order(mode));
      if sorted == [] then buffer
      else
        var outside := Where(buffer, m => Outside(mode, sorted[0], sorted[|sorted| - 1], m));
        Sort(SetRows(SetRows([], Absorb(outside, sorted)), sorted), Order(mode))
  }

  function Replaced(buffer: Buffer, mode: OrderMode, replacedId: Id, next: Record): Buffer
  {
    Sort(Where(buffer, (m: Record) => m.id != replacedId && !SameMessage(m, next)) + [next], Order(mode))
  }

  function Removed(buffer: Buffer, id: Id): Buffer
  {
    Where(buffer, (m: Record) => m.id != id)
  }

  function Gapped(records: seq<Record>): bool
  {
    exists k :: 0 <= k < |records| && HasPtsGap(records[k])
  }

  // ----- What the helpers do -----

  lemma SameRowApart(s: seq<Record>)
    requires Apart(s, SameMessage)
    ensures Apart(s, SameRow)
  {
  }

  lemma {:induction false} SetRowSpec(rows: Buffer, r: Record)
    requires Apart(rows, SameRow)
    ensures var t := SetRow(rows, r);
            && Apart(t, SameRow)
            && (forall x :: x in t <==> x == r || (x in rows && x.id != r.id))
    decreases |rows|
  {
    if rows != [] {
      var rest := rows[1..];
      assert rows == [rows[0]] + rest;
      assert forall x :: x in rest ==> x.id != rows[0].id;
      if rows[0].id != r.id {
        SetRowSpec(rest, r);
        HeadApart(rows[0], SetRow(rest, r));
      } else {
        HeadApart(r, rest);
      }
    }
  }

  lemma HeadApart(x: Record, s: seq<Record>)
    requires Apart(s, SameRow) && forall y :: y in s ==> y.id != x.id
    ensures Apart([x] + s, SameRow)
  {
  }

  lemma {:induction false} SetRowsSpec(rows: Buffer, records: seq<Record>)
    requires Apart(rows, SameRow) && Apart(records, SameRow)
    ensures var t := SetRows(rows, records);
            && Apart(t, SameRow)
            && (forall x :: x in t <==> x in records || (x in rows && !HasRow(records, x.id)))
    decreases |records|
  {
    if records != [] {
      var n := |records| - 1;
      ApartLast(records, SameRow);
      Snoc(records);
      SetRowsSpec(rows, records[..n]);
      SetRowSpec(SetRows(rows, records[..n]), records[n]);
      assert forall id :: HasRow(records, id) <==> HasRow(records[..n], id) || records[n].id == id by {
        forall id
          ensures HasRow(records, id) <==> HasRow(records[..n], id) || records[n].id == id
        {
          HasRowSnoc(records, id);
        }
      }
    }
  }

  lemma HasRowSnoc(records: seq<Record>, id: Id)
    requires records != []
    ensures HasRow(records, id) <==> HasRow(records[..|records| - 1], id) || records[|records| - 1].id == id
  {
  }

  predicate Duplicated(m: Record, records: seq<Record>)
  {
    exists k :: 0 <= k < |records| && SameMessage(m, records[k])
  }

  /** Absorbing, then setting, keeps the old rows that no incoming row duplicates. */
  lemma MergeSpec(rows: Buffer, records: seq<Record>)
    requires Apart(rows, SameMessage) && Apart(records, SameMessage)
    ensures var t := SetRows(Absorb(rows, records), records);
            && Apart(t, SameMessage)
            && (forall x :: x in t <==> x in records || (x in rows && !Duplicated(x, records)))
  {
    hide SetRows;
    var kept := Absorb(rows, records);
    SameRowApart(rows);
    SameRowApart(records);
    WhereApart(rows, m => Survives(m, records), SameRow);
    SetRowsSpec(kept, records);
    var t := SetRows(kept, records);
    forall x
      ensures x in t <==> x in records || (x in rows && !Duplicated(x, records))
    {
      DuplicatedIs(x, records);
    }
    MixedApart(t, rows, records);
  }

  lemma DuplicatedIs(x: Record, records: seq<Record>)
    ensures Duplicated(x, records) <==> HasRow(records, x.id) || SharesNetworkId(x, records)
  {
  }

  lemma MixedApart(t: Buffer, rows: Buffer, records: seq<Record>)
    requires Apart(rows, SameMessage) && Apart(records, SameMessage) && Apart(t, SameRow)
    requires forall x :: x in t ==> x in records || (x in rows && !Duplicated(x, records))
    ensures Apart(t, SameMessage)
  {
    forall i, j | 0 <= i < |t| && 0 <= j < |t| && i != j
      ensures !SameMessage(t[i], t[j])
    {
      var x, y := t[i], t[j];
      assert x in t && y in t && x.id != y.id;
      if x in records && y in records {
        InBoth(records, x, y);
      } else if x in rows && y in rows {
        InBoth(rows, x, y);
      } else {
        Symmetric(x, y);
        if x in records {
          var k :| 0 <= k < |records| && records[k] == x;
        } else {
          var k :| 0 <= k < |records| && records[k] == y;
        }
      }
    }
  }

  lemma InBoth(s: seq<Record>, x: Record, y: Record)
    requires Apart(s, SameMessage) && x in s && y in s && x != y
    ensures !SameMessage(x, y)
  {
  }

  lemma Symmetric(x: Record, y: Record)
    ensures SameMessage(x, y) <==> SameMessage(y, x)
  {
  }

  // ----- Every operation keeps the buffer tidy, and says what it holds -----

  lemma SortTidies(s: Buffer, mode: OrderMode)
    requires Apart(s, SameMessage)
    ensures Tidy(Sort(s, Order(mode)), mode) && forall x :: x in Sort(s, Order(mode)) <==> x in s
  {
    OrderIsWeak(mode);
    SortSpec(s, Order(mode), SameMessage);
  }

  lemma {:induction false} NothingChanges(rows: Buffer, records: seq<Record>)
    requires !AnyChanges(rows, records) && Apart(rows, SameRow) && Apart(records, SameRow)
    ensures forall r :: r in records ==> !Changes(rows, r)
    decreases |records|
  {
    if records != [] {
      var n := |records| - 1;
      ApartLast(records, SameRow);
      Snoc(records);
      NothingChanges(rows, records[..n]);
      SetRowsSpec(rows, records[..n]);
      var t := SetRows(rows, records[..n]);
      var k :| 0 <= k < |t| && t[k].id == records[n].id && MessageEquals(t[k], records[n]);
      assert t[k] in t;
      assert forall r :: r in records[..n] ==> !SameRow(r, records[n]);
      var j :| 0 <= j < |rows| && rows[j] == t[k];
    }
  }

  /**
   * An upsert keeps order and uniqueness. It holds exactly the incoming rows and the old ones none
   * of them duplicates; or nothing moved, because every incoming row is there already, unchanged.
   */
  lemma UpsertTidies(buffer: Buffer, mode: OrderMode, records: seq<Record>)
    requires Tidy(buffer, mode) && Apart(records, SameMessage)
    ensures var t := Upserted(buffer, mode, records);
            && Tidy(t, mode)
            && ((forall x :: x in t <==> x in records || (x in buffer && !Duplicated(x, records)))
                || (t == buffer && forall r :: r in records ==> !Changes(buffer, r)))
  {
    hide InOrder, Sort, SetRows, Changes, AnyChanges;
    var existing := Absorb(buffer, records);
    if AnyChanges(existing, records) {
      MergeSpec(buffer, records);
      SortTidies(SetRows(existing, records), mode);
    } else {
      SameRowApart(buffer);
      SameRowApart(records);
      WhereApart(buffer, m => Survives(m, records), SameRow);
      NothingChanges(existing, records);
      forall r | r in records
        ensures !Changes(buffer, r)
      {
        UnchangedInWhole(buffer, existing, r);
      }
    }
  }

  lemma UnchangedInWhole(buffer: Buffer, part: Buffer, r: Record)
    requires (forall x :: x in part ==> x in buffer) && !Changes(part, r)
    ensures !Changes(buffer, r)
  {
    var k :| 0 <= k < |part| && part[k].id == r.id && MessageEquals(part[k], r);
    assert part[k] in part;
    var j :| 0 <= j < |buffer| && buffer[j] == part[k];
  }

  /** A row is strictly outside what the records span. */
  ghost predicate OutsideSpan(mode: OrderMode, records: seq<Record>, m: Record)
  {
    (forall r :: r in records ==> KeyBefore(mode, m, r)) || (forall r :: r in records ==> KeyBefore(mode, r, m))
  }

  lemma EndsSpan(mode: OrderMode, s: seq<Record>, m: Record)
    requires s != [] && InOrder(s, Order(mode))
    ensures Outside(mode, s[0], s[|s| - 1], m) <==> OutsideSpan(mode, s, m)
  {
    hide KeyBefore;
    OrderIsWeak(mode);
    var before := Order(mode);
    assert s[0] in s && s[|s| - 1] in s;
    forall r | r in s
      ensures before(m, s[0]) ==> before(m, r)
      ensures before(s[|s| - 1], m) ==> before(r, m)
    {
      var k :| 0 <= k < |s| && s[k] == r;
      assert k > 0 ==> !before(s[k], s[0]);
      assert k < |s| - 1 ==> !before(s[|s| - 1], s[k]);
    }
  }

  /**
   * A window replaces exactly what it spans: the rows of the window, and the old rows strictly
   * outside it that it does not duplicate.
   */
  lemma WindowTidies(buffer: Buffer, mode: OrderMode, records: seq<Record>)
    requires Tidy(buffer, mode) && Apart(records, SameMessage)
    ensures var t := Windowed(buffer, mode, records);
            && Tidy(t, mode)
            && (records != [] ==>
                  forall x :: x in t <==>
                    x in records || (x in buffer && OutsideSpan(mode, records, x) && !Duplicated(x, records)))
  {
    hide InOrder, Sort, SetRows, Duplicated, OutsideSpan, KeyBefore, Outside;
    if records != [] {
      OrderIsWeak(mode);
      SortSpec(records, Order(mode), SameMessage);
      var sorted := Sort(records, Order(mode));
      assert records[0] in sorted;
      var lo, hi := sorted[0], sorted[|sorted| - 1];
      var outside := Where(buffer, m => Outside(mode, lo, hi, m));
      WhereApart(buffer, m => Outside(mode, lo, hi, m), SameMessage);
      var kept := Absorb(outside, sorted);
      WhereApart(outside, m => Survives(m, sorted), SameMessage);
      var deduped := SetRows([], kept);
      FromEmpty(kept);
      SetTwice(outside, kept, deduped, sorted);
      SortTidies(SetRows(deduped, sorted), mode);
      forall x
        ensures x in Windowed(buffer, mode, records) <==>
                  x in records || (x in buffer && OutsideSpan(mode, records, x) && !Duplicated(x, records))
      {
        SameDuplicates(x, records, sorted);
        EndsSpan(mode, sorted, x);
        SameSpan(mode, records, sorted, x);
      }
    }
  }

  lemma SameDuplicates(x: Record, a: seq<Record>, b: seq<Record>)
    requires forall r :: r in a <==> r in b
    ensures Duplicated(x, a) <==> Duplicated(x, b)
  {
    if Duplicated(x, a) {
      var k :| 0 <= k < |a| && SameMessage(x, a[k]);
      assert a[k] in b;
      var j :| 0 <= j < |b| && b[j] == a[k];
    }
    if Duplicated(x, b) {
      var k :| 0 <= k < |b| && SameMessage(x, b[k]);
      assert b[k] in a;
      var j :| 0 <= j < |a| && a[j] == b[k];
    }
  }

  lemma SameSpan(mode: OrderMode, a: seq<Record>, b: seq<Record>, x: Record)
    requires forall r :: r in a <==> r in b
    ensures OutsideSpan(mode, a, x) <==> OutsideSpan(mode, b, x)
  {
  }

  lemma FromEmpty(kept: Buffer)
    requires Apart(kept, SameMessage)
    ensures Apart(SetRows([], kept), SameMessage) && forall x :: x in SetRows([], kept) <==> x in kept
  {
    hide SetRows;
    SameRowApart(kept);
    SetRowsSpec([], kept);
    MixedApart(SetRows([], kept), [], kept);
  }

  /** Setting rows over the absorbed ones, gone through a map once already. */
  lemma SetTwice(rows: Buffer, kept: Buffer, deduped: Buffer, records: seq<Record>)
    requires Apart(rows, SameMessage) && Apart(records, SameMessage) && kept == Absorb(rows, records)
    requires Apart(deduped, SameMessage) && forall x :: x in deduped <==> x in kept
    ensures var t := SetRows(deduped, records);
            && Apart(t, SameMessage)
            && (forall x :: x in t <==> x in records || (x in rows && !Duplicated(x, records)))
  {
    hide SetRows, Duplicated;
    SameRowApart(deduped);
    SameRowApart(records);
    SetRowsSpec(deduped, records);
    forall x
      ensures x in SetRows(deduped, records) <==> x in records || (x in rows && !Duplicated(x, records))
    {
      DuplicatedIs(x, records);
    }
    MixedApart(SetRows(deduped, records), rows, records);
  }

  /** Replacing a row leaves one row for the message, and every unrelated row. */
  lemma ReplaceTidies(buffer: Buffer, mode: OrderMode, replacedId: Id, next: Record)
    requires Apart(buffer, SameMessage)
    ensures var t := Replaced(buffer, mode, replacedId, next);
            && Tidy(t, mode)
            && (forall x :: x in t <==> x == next || (x in buffer && x.id != replacedId && !SameMessage(x, next)))
  {
    hide InOrder, Sort, SameMessage;
    var others := Where(buffer, (m: Record) => m.id != replacedId && !SameMessage(m, next));
    WhereApart(buffer, (m: Record) => m.id != replacedId && !SameMessage(m, next), SameMessage);
    forall x | x in others
      ensures !SameMessage(next, x)
    {
      Symmetric(x, next);
    }
    ApartFrom(others, next, SameMessage);
    SortTidies(others + [next], mode);
  }

  lemma RemoveTidies(buffer: Buffer, mode: OrderMode, id: Id)
    requires Tidy(buffer, mode)
    ensures Tidy(Removed(buffer, id), mode)
    ensures forall x :: x in Removed(buffer, id) <==> x in buffer && x.id != id
  {
    hide InOrder, SameMessage;
    WhereApart(buffer, (m: Record) => m.id != id, SameMessage);
    WhereInOrder(buffer, (m: Record) => m.id != id, Order(mode));
  }

  // ----- Declaring a mode -----

  /** Only a change of a declared mode sorts the buffer again. */
  function Redeclared(buffer: Buffer, declared: Option<OrderMode>, mode: OrderMode): Buffer
  {
    if declared.Some? && declared.value != mode then Sort(buffer, Order(mode)) else buffer
  }

  /** `noteRows`: rows that prove a gap degrade the channel. */
  function NotedMode(mode: OrderMode, records: seq<Record>): OrderMode
  {
    if Gapped(records) then ByServerId else mode
  }

  function ModeIn(declared: Option<OrderMode>): OrderMode
  {
    if declared.Some? then declared.value else ByPts
  }

  function Noted(buffer: Buffer, declared: Option<OrderMode>, records: seq<Record>): Buffer
  {
    if ModeIn(declared) != ByServerId && Gapped(records) then Redeclared(buffer, declared, ByServerId) else buffer
  }

  /** Noting rows keeps a declared or empty buffer tidy, and never changes what it holds. */
  lemma NotingTidies(buffer: Buffer, declared: Option<OrderMode>, records: seq<Record>)
    requires Tidy(buffer, ModeIn(declared)) && (declared.Some? || buffer == [])
    ensures Tidy(Noted(buffer, declared, records), NotedMode(ModeIn(declared), records))
    ensures forall x :: x in Noted(buffer, declared, records) <==> x in buffer
  {
    hide Sort, InOrder, SameMessage;
    DeclaringTidiesExactlyWhen(buffer, declared, ByServerId);
  }

  /** Noting the rows, then writing them, keeps a declared or empty channel tidy. */
  lemma NotedUpsertTidies(buffer: Buffer, declared: Option<OrderMode>, records: seq<Record>)
    requires Tidy(buffer, ModeIn(declared)) && (declared.Some? || buffer == []) && Apart(records, SameMessage)
    ensures var mode := NotedMode(ModeIn(declared), records);
            && Tidy(Upserted(Noted(buffer, declared, records), mode, records), mode)
            && Tidy(Windowed(Noted(buffer, declared, records), mode, records), mode)
  {
    hide Tidy, Upserted, Windowed, Noted, NotedMode;
    NotingTidies(buffer, declared, records);
    UpsertTidies(Noted(buffer, declared, records), NotedMode(ModeIn(declared), records), records);
    WindowTidies(Noted(buffer, declared, records), NotedMode(ModeIn(declared), records), records);
  }

  /** Ordered under one mode, some later row comes before an earlier one under another. */
  ghost predicate Disagree(buffer: Buffer, mode: OrderMode)
  {
    exists i, j :: 0 <= i < j < |buffer| && KeyBefore(mode, buffer[j], buffer[i])
  }

  /** In numbers: a later row ranks before an earlier one by (pending, order column, server id, sequence). */
  lemma DisagreeIsNumeric(buffer: Buffer, mode: OrderMode)
    requires forall k :: 0 <= k < |buffer| ==> Keyable(buffer[k])
    ensures Disagree(buffer, mode) <==>
              exists i, j :: 0 <= i < j < |buffer| && RankLess(RankOf(buffer[j], mode), RankOf(buffer[i], mode))
  {
    hide RankOf, RankLess, DisplaySortKey, Less, Keyable;
    forall i, j | 0 <= i < j < |buffer|
      ensures KeyBefore(mode, buffer[j], buffer[i]) <==> RankLess(RankOf(buffer[j], mode), RankOf(buffer[i], mode))
    {
      DisplayOrderIsNumeric(buffer[j], buffer[i], mode);
    }
  }

  /**
   * Declaring a mode keeps the buffer tidy exactly when a mode was declared before, or the first
   * declaration is the default one, or the rows already stand in the declared order: for rows that
   * can be keyed, no later row ranks before an earlier one by (pending, order column, server id,
   * sequence).
   */
  lemma DeclaringTidiesExactlyWhen(buffer: Buffer, declared: Option<OrderMode>, mode: OrderMode)
    requires Tidy(buffer, ModeIn(declared))
    ensures Tidy(Redeclared(buffer, declared, mode), mode) <==>
            declared.Some? || mode == ByPts || !Disagree(buffer, mode)
    ensures (forall k :: 0 <= k < |buffer| ==> Keyable(buffer[k])) ==>
              (Tidy(Redeclared(buffer, declared, mode), mode) <==>
                || declared.Some? || mode == ByPts
                || !exists i, j :: 0 <= i < j < |buffer| &&
                     RankLess(RankOf(buffer[j], mode), RankOf(buffer[i], mode)))
    ensures forall x :: x in Redeclared(buffer, declared, mode) <==> x in buffer
  {
    hide KeyBefore, Sort, SameMessage, Keyable, RankLess, RankOf;
    if declared.Some? && declared.value != mode {
      SortTidies(buffer, mode);
    }
    if forall k :: 0 <= k < |buffer| ==> Keyable(buffer[k]) {
      DisagreeIsNumeric(buffer, mode);
    }
  }

  /** Two rows whose pts and server ids disagree: the first declaration leaves them the wrong way round. */
  lemma FirstDeclarationCanMisorder(a: Record, b: Record)
    requires !SameMessage(a, b) && !SameMessage(b, a)
    requires KeyBefore(ByPts, a, b) && KeyBefore(ByServerId, b, a)
    ensures Tidy([a, b], ByPts) && !Tidy(Redeclared([a, b], None, ByServerId), ByServerId)
  {
    hide KeyBefore, SameMessage;
    OrderIsWeak(ByPts);
    assert Order(ByPts)(a, b);
    assert KeyBefore(ByServerId, [a, b][1], [a, b][0]);
  }
}
