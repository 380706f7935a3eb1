// Message rows and their persisted display key (src/cache/types.ts).

module Records {
  import opened Text

  type Id = string
  type Byte = b: int | 0 <= b < 256

  datatype MessageStatus = Received | Pending | Sent | Failed

  datatype Precision = Seconds | Milliseconds

  /** `MessageRecord`. An absent optional field is `None`; `Some("")` is a present empty string. */
  datatype Record = Record(
    id: Id,
    channelId: Id,
    serverId: Option<Id>,
    localId: Option<Id>,
    pts: Option<string>,
    orderSeq: Option<nat>,
    fromUid: Id,
    messageType: string,
    content: string,
    payload: seq<Byte>,
    timestamp: int,
    precision: Option<Precision>,
    status: MessageStatus,
    revoked: Option<bool>
  )

  /** How one channel's confirmed rows are ordered. */
  datatype OrderMode = ByPts | ByServerId

  /** `StoredMessage`: the row plus its two derived columns. */
  datatype Stored = Stored(record: Record, sortKey: string, ptsGap: bool)

  const SORT_KEY_WIDTH := 20

  function EncodeSortKey(value: Option<string>): string
  {
    if value.None? then
      Zeros(SORT_KEY_WIDTH)
    else if |value.value| >= SORT_KEY_WIDTH then
      value.value
    else
      Zeros(SORT_KEY_WIDTH - |value.value|) + value.value
  }

  predicate IsPendingGroup(record: Record)
  {
    record.serverId in {None, Some(""), Some("0")}
  }

  predicate HasPtsGap(record: Record)
  {
    !IsPendingGroup(record) && record.pts in {None, Some(""), Some("0")}
  }

  function GroupDigit(record: Record): string
  {
    if IsPendingGroup(record) then "1" else "0"
  }

  function OrderColumn(record: Record, mode: OrderMode): Option<string>
  {
    if mode == ByPts then record.pts else record.serverId
  }

  function SeqColumn(record: Record): Option<string>
  {
    if record.orderSeq.Some? then Some(Numeral(record.orderSeq.value)) else None
  }

  function DisplaySortKey(record: Record, mode: OrderMode): string
  {
    GroupDigit(record) + "|" +
    (EncodeSortKey(OrderColumn(record, mode)) + "|" +
     (EncodeSortKey(record.serverId) + "|" +
      EncodeSortKey(SeqColumn(record))))
  }

  /** `stamp`: the two derived columns are computed together with every write. */
  function Stamp(record: Record, mode: OrderMode): Stored
  {
    Stored(record, DisplaySortKey(record, mode), HasPtsGap(record))
  }

  // ----- Text order of the key is numeric order of its columns -----

  /** A column that fits the fixed width: absent, or at most twenty digits, which covers u64. */
  predicate FitsWidth(value: Option<string>)
  {
    value.Some? ==> IsNumeral(value.value) && |value.value| <= SORT_KEY_WIDTH
  }

  function ColumnNumber(value: Option<string>): nat
    requires FitsWidth(value)
  {
    if value.None? then 0 else Number(value.value)
  }

  /** The columns of a row can be keyed: u64 ids and a counter below ten to the twenty. */
  predicate Keyable(record: Record)
  {
    && FitsWidth(record.serverId)
    && FitsWidth(record.pts)
    && (record.orderSeq.Some? ==> record.orderSeq.value < 100000000000000000000)
  }

  /** The four numbers the timeline is really ordered by. */
  datatype Rank = Rank(group: nat, order: nat, server: nat, seqNo: nat)

  function RankOf(record: Record, mode: OrderMode): Rank
    requires Keyable(record)
  {
    Rank(
      if IsPendingGroup(record) then 1 else 0,
      ColumnNumber(OrderColumn(record, mode)),
      ColumnNumber(record.serverId),
      if record.orderSeq.Some? then record.orderSeq.value else 0)
  }

  predicate RankLess(a: Rank, b: Rank)
  {
    || a.group < b.group
    || (a.group == b.group && a.order < b.order)
    || (a.group == b.group && a.order == b.order && a.server < b.server)
    || (a.group == b.group && a.order == b.order && a.server == b.server && a.seqNo < b.seqNo)
  }

  lemma EncodeKeepsNumber(value: Option<string>)
    requires FitsWidth(value)
    ensures var s := EncodeSortKey(value);
            |s| == SORT_KEY_WIDTH && IsNumeral(s) && Number(s) == ColumnNumber(value)
  {
    if value.None? {
      NumberOfZeros(SORT_KEY_WIDTH);
    } else if |value.value| < SORT_KEY_WIDTH {
      PaddingKeepsNumber(SORT_KEY_WIDTH - |value.value|, value.value);
    }
  }

  lemma EncodeOrder(a: Option<string>, b: Option<string>)
    requires FitsWidth(a) && FitsWidth(b)
    ensures |EncodeSortKey(a)| == |EncodeSortKey(b)| == SORT_KEY_WIDTH
    ensures Less(EncodeSortKey(a), EncodeSortKey(b)) <==> ColumnNumber(a) < ColumnNumber(b)
    ensures EncodeSortKey(a) == EncodeSortKey(b) <==> ColumnNumber(a) == ColumnNumber(b)
  {
    EncodeKeepsNumber(a);
    EncodeKeepsNumber(b);
    NumeralOrder(EncodeSortKey(a), EncodeSortKey(b));
  }

  lemma SeqColumnFits(record: Record)
    requires Keyable(record)
    ensures FitsWidth(SeqColumn(record))
    ensures ColumnNumber(SeqColumn(record)) == if record.orderSeq.Some? then record.orderSeq.value else 0
  {
    if record.orderSeq.Some? {
      assert Pow10(20) == 100000000000000000000 by {
        assert Pow10(5) == 100000;
        assert Pow10(10) == 10000000000;
        assert Pow10(15) == 1000000000000000;
      }
      NumeralLength(record.orderSeq.value, 20);
    }
  }

  /** One separator-joined field followed by a tail. */
  lemma JoinOrder(p: string, x: string, q: string, y: string)
    requires |p| == |q|
    ensures Less(p + "|" + x, q + "|" + y) <==> Less(p, q) || (p == q && Less(x, y))
    ensures p + "|" + x == q + "|" + y <==> p == q && x == y
  {
    LessConcat(p + "|", x, q + "|", y);
    LessConcat(p, "|", q, "|");
    LessIrreflexive("|");
    assert (p + "|")[..|p|] == p && (q + "|")[..|q|] == q;
    var s, t := p + "|" + x, q + "|" + y;
    assert s[..|p|] == p && t[..|q|] == q;
    assert s[|p| + 1..] == x && t[|q| + 1..] == y;
  }

  /**
   * The persisted index and the comparator are one ordering: comparing two keys as text
   * compares (pending, order, server id, sequence) as numbers, in either mode.
   */
  lemma DisplayOrderIsNumeric(a: Record, b: Record, mode: OrderMode)
    requires Keyable(a) && Keyable(b)
    ensures Less(DisplaySortKey(a, mode), DisplaySortKey(b, mode))
            <==> RankLess(RankOf(a, mode), RankOf(b, mode))
    ensures DisplaySortKey(a, mode) == DisplaySortKey(b, mode)
            <==> RankOf(a, mode) == RankOf(b, mode)
  {
    SeqColumnFits(a);
    SeqColumnFits(b);
    EncodeOrder(OrderColumn(a, mode), OrderColumn(b, mode));
    EncodeOrder(a.serverId, b.serverId);
    EncodeOrder(SeqColumn(a), SeqColumn(b));
    var (a3, b3) := (EncodeSortKey(SeqColumn(a)), EncodeSortKey(SeqColumn(b)));
    JoinOrder(EncodeSortKey(a.serverId), a3, EncodeSortKey(b.serverId), b3);
    var (a2, b2) := (EncodeSortKey(a.serverId) + "|" + a3, EncodeSortKey(b.serverId) + "|" + b3);
    JoinOrder(EncodeSortKey(OrderColumn(a, mode)), a2, EncodeSortKey(OrderColumn(b, mode)), b2);
    var a1 := EncodeSortKey(OrderColumn(a, mode)) + "|" + a2;
    var b1 := EncodeSortKey(OrderColumn(b, mode)) + "|" + b2;
    JoinOrder(GroupDigit(a), a1, GroupDigit(b), b1);
    GroupOrder(a, b);
  }

  lemma GroupOrder(a: Record, b: Record)
    ensures Less(GroupDigit(a), GroupDigit(b)) <==> !IsPendingGroup(a) && IsPendingGroup(b)
    ensures GroupDigit(a) == GroupDigit(b) <==> (IsPendingGroup(a) <==> IsPendingGroup(b))
  {
  }
}
