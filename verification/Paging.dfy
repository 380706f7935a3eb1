// Keyset paging over the persisted display index
// (`getMessageWindow`, `getMessagesBefore`, src/cache/indexeddb-store.ts).

module Paging {
  import opened Text
  import opened Records
  import opened CacheTables
  import opened IndexAgreement

  // ----- An index range as an ascending sequence of keys -----

  ghost function Ascending(keys: set<string>): seq<string>
    decreases |keys|
  {
    if keys == {} then [] else
      var m := First(keys).value;
      [m] + Ascending(keys - {m})
  }

  ghost predicate IsAscending(s: seq<string>)
  {
    forall i, j :: 0 <= i < j < |s| ==> Less(s[i], s[j])
  }

  lemma {:induction false} AscendingSorts(keys: set<string>)
    ensures IsAscending(Ascending(keys))
    ensures forall k :: k in Ascending(keys) <==> k in keys
    ensures |Ascending(keys)| == |keys|
    decreases |keys|
  {
    hide First, Less;
    if keys != {} {
      var m := First(keys).value;
      var rest := Ascending(keys - {m});
      AscendingSorts(keys - {m});
      assert IsFirst(m, keys);
      forall j | 0 <= j < |rest|
        ensures Less(m, rest[j])
      {
        assert rest[j] in rest;
      }
    }
  }

  lemma FirstIsMember(t: seq<string>)
    requires t != []
    ensures t[0] in t
  {
  }

  lemma {:induction false} AscendingUnique(s: seq<string>, t: seq<string>)
    requires IsAscending(s) && IsAscending(t)
    requires forall k :: k in s <==> k in t
    ensures s == t
    decreases |s|
  {
    hide Less;
    if s == [] {
      if t != [] {
        FirstIsMember(t);
        assert false;
      }
    } else {
      assert s[0] in t && t[0] in s;
      var i :| 0 <= i < |t| && t[i] == s[0];
      var j :| 0 <= j < |s| && s[j] == t[0];
      if i != 0 {
        LessAsymmetric(t[0], s[0]);
      }
      assert s[0] == t[0];
      forall k | k in s[1..]
        ensures k in t[1..]
      {
        var n :| 0 <= n < |s[1..]| && s[1..][n] == k;
        assert Less(s[0], s[n + 1]);
        LessIrreflexive(k);
        assert s[n + 1] in s && k in t;
        var o :| 0 <= o < |t| && t[o] == k;
        assert t[1..][o - 1] == k;
      }
      forall k | k in t[1..]
        ensures k in s[1..]
      {
        var n :| 0 <= n < |t[1..]| && t[1..][n] == k;
        assert Less(t[0], t[n + 1]);
        LessIrreflexive(k);
        assert t[n + 1] in t && k in s;
        var o :| 0 <= o < |s| && s[o] == k;
        assert s[1..][o - 1] == k;
      }
      AscendingUnique(s[1..], t[1..]);
      assert s == [s[0]] + s[1..] && t == [t[0]] + t[1..];
    }
  }

  ghost function Below(keys: set<string>, cursor: string): set<string>
  {
    set k | k in keys && Less(k, cursor)
  }

  lemma PrefixIsBelow(s: seq<string>, i: nat, k: string)
    requires IsAscending(s) && i < |s|
    ensures k in s[..i] <==> k in s && Less(k, s[i])
  {
    hide Less;
    if k in s {
      var j :| 0 <= j < |s| && s[j] == k;
      if j < i {
        assert s[..i][j] == k;
      } else if j == i {
        LessIrreflexive(k);
      } else {
        LessAsymmetric(s[i], s[j]);
      }
    }
  }

  /** An exclusive upper bound at an existing key cuts the range at that key. */
  lemma BelowIsPrefix(keys: set<string>, i: nat)
    requires i < |Ascending(keys)|
    ensures Ascending(Below(keys, Ascending(keys)[i])) == Ascending(keys)[..i]
  {
    hide Less, First, Ascending;
    var s := Ascending(keys);
    AscendingSorts(keys);
    var below := Below(keys, s[i]);
    AscendingSorts(below);
    forall k
      ensures k in Ascending(below) <==> k in s[..i]
    {
      PrefixIsBelow(s, i, k);
    }
    AscendingUnique(Ascending(below), s[..i]);
  }

  // ----- The timeline of a channel -----

  ghost function ChannelKeys(ms: Messages, channelId: Id): set<string>
  {
    set i | i in ms && InChannel(ms[i], channelId) :: ms[i].sortKey
  }

  /** Every key of the channel names one row, so an index entry is a row. */
  ghost predicate KeysDistinct(ms: Messages, channelId: Id)
  {
    forall i, j ::
      i in ms && j in ms && InChannel(ms[i], channelId) && InChannel(ms[j], channelId) ==>
        ms[i].sortKey == ms[j].sortKey ==> i == j
  }

  ghost function RowAtKey(ms: Messages, channelId: Id, key: string): Record
    requires key in ChannelKeys(ms, channelId)
  {
    var i :| i in ms && InChannel(ms[i], channelId) && ms[i].sortKey == key;
    ms[i].record
  }

  function Tail<T>(s: seq<T>, n: nat): seq<T>
  {
    if n >= |s| then s else s[|s| - n..]
  }

  ghost function Fetch(ms: Messages, channelId: Id, keys: seq<string>): seq<Record>
    requires forall k :: k in keys ==> k in ChannelKeys(ms, channelId)
  {
    seq(|keys|, i requires 0 <= i < |keys| => assert keys[i] in keys; RowAtKey(ms, channelId, keys[i]))
  }

  /** The last `limit` index entries of the channel, ascending. */
  ghost function WindowKeys(ms: Messages, channelId: Id, limit: nat): seq<string>
  {
    Tail(Ascending(ChannelKeys(ms, channelId)), limit)
  }

  /** The last `limit` index entries strictly below the cursor, ascending. */
  ghost function BeforeKeys(ms: Messages, channelId: Id, cursor: string, limit: nat): seq<string>
  {
    Tail(Ascending(Below(ChannelKeys(ms, channelId), cursor)), limit)
  }

  lemma TailMembers<T>(s: seq<T>, n: nat)
    ensures forall k :: k in Tail(s, n) ==> k in s
  {
  }

  ghost function GetMessageWindow(ms: Messages, channelId: Id, limit: nat): seq<Record>
  {
    AscendingSorts(ChannelKeys(ms, channelId));
    TailMembers(Ascending(ChannelKeys(ms, channelId)), limit);
    Fetch(ms, channelId, WindowKeys(ms, channelId, limit))
  }

  ghost function GetMessagesBefore(ms: Messages, modes: map<Id, OrderMode>, channelId: Id, before: Record,
                                   limit: nat): seq<Record>
  {
    var cursor := DisplaySortKey(before, ModeOf(modes, channelId));
    var range := Below(ChannelKeys(ms, channelId), cursor);
    AscendingSorts(range);
    TailMembers(Ascending(range), limit);
    Fetch(ms, channelId, BeforeKeys(ms, channelId, cursor, limit))
  }

  /** Scrolling back: the newest window, then page after page in front of the oldest row held. */
  ghost function ScrollBack(ms: Messages, modes: map<Id, OrderMode>, channelId: Id, limit: nat, pages: nat): seq<Record>
  {
    if pages == 0 then GetMessageWindow(ms, channelId, limit)
    else
      var held := ScrollBack(ms, modes, channelId, limit, pages - 1);
      if held == [] then []
      else GetMessagesBefore(ms, modes, channelId, held[0], limit) + held
  }

  /** The whole channel in index order. */
  ghost function Timeline(ms: Messages, channelId: Id): seq<Record>
  {
    AscendingSorts(ChannelKeys(ms, channelId));
    Fetch(ms, channelId, Ascending(ChannelKeys(ms, channelId)))
  }

  // ----- The theorem -----

  /** Rows of a page in front of position `at` of the timeline. */
  lemma PageInFront(ms: Messages, modes: map<Id, OrderMode>, channelId: Id, limit: nat, at: nat)
    requires KeysAgree(ms, modes) && at < |Timeline(ms, channelId)|
    ensures var line := Timeline(ms, channelId);
            GetMessagesBefore(ms, modes, channelId, line[at], limit) == Tail(line[..at], limit)
  {
    hide Less, First, DisplaySortKey, RowAtKey, Ascending;
    var keys := ChannelKeys(ms, channelId);
    var s, line := Ascending(keys), Timeline(ms, channelId);
    AscendingSorts(keys);
    FetchAt(ms, channelId, s, at);
    RowKey(ms, modes, channelId, s[at]);
    BelowIsPrefix(keys, at);
    FetchTail(ms, channelId, s, at, limit);
  }

  lemma FetchAt(ms: Messages, channelId: Id, s: seq<string>, at: nat)
    requires forall k :: k in s ==> k in ChannelKeys(ms, channelId)
    requires at < |s|
    ensures s[at] in s && s[at] in ChannelKeys(ms, channelId)
    ensures Fetch(ms, channelId, s)[at] == RowAtKey(ms, channelId, s[at])
  {
  }

  lemma FetchTail(ms: Messages, channelId: Id, s: seq<string>, at: nat, limit: nat)
    requires forall k :: k in s ==> k in ChannelKeys(ms, channelId)
    requires at <= |s|
    ensures forall k :: k in Tail(s[..at], limit) ==> k in ChannelKeys(ms, channelId)
    ensures Fetch(ms, channelId, Tail(s[..at], limit)) == Tail(Fetch(ms, channelId, s)[..at], limit)
  {
  }

  /** One page back from a held tail is the next longer tail. */
  lemma PageExtendsTail(ms: Messages, modes: map<Id, OrderMode>, channelId: Id, limit: nat, held: seq<Record>, n: nat)
    requires KeysAgree(ms, modes)
    requires held == Tail(Timeline(ms, channelId), n) && held != []
    ensures GetMessagesBefore(ms, modes, channelId, held[0], limit) + held == Tail(Timeline(ms, channelId), n + limit)
  {
    hide GetMessagesBefore, Timeline, KeysAgree;
    var line := Timeline(ms, channelId);
    PageInFront(ms, modes, channelId, limit, |line| - |held|);
  }

  /** The rows a number of pages can hold. */
  ghost function Reach(limit: nat, pages: nat): nat
  {
    if pages == 0 then limit else Reach(limit, pages - 1) + limit
  }

  lemma {:induction false} ReachIsProduct(limit: nat, pages: nat)
    ensures Reach(limit, pages) == (pages + 1) * limit
  {
    if pages > 0 {
      ReachIsProduct(limit, pages - 1);
    }
  }

  lemma {:induction false} ScrollBackIsTail(ms: Messages, modes: map<Id, OrderMode>, channelId: Id, limit: nat,
                                            pages: nat)
    requires KeysAgree(ms, modes) && limit > 0
    ensures ScrollBack(ms, modes, channelId, limit, pages) == Tail(Timeline(ms, channelId), Reach(limit, pages))
  {
    hide Less, First, DisplaySortKey, RowAtKey, IsAscending, GetMessagesBefore, Ascending;
    if pages > 0 {
      ScrollBackIsTail(ms, modes, channelId, limit, pages - 1);
      var held := ScrollBack(ms, modes, channelId, limit, pages - 1);
      if held != [] {
        PageExtendsTail(ms, modes, channelId, limit, held, Reach(limit, pages - 1));
      }
    }
  }

  lemma RowKey(ms: Messages, modes: map<Id, OrderMode>, channelId: Id, key: string)
    requires KeysAgree(ms, modes) && key in ChannelKeys(ms, channelId)
    ensures DisplaySortKey(RowAtKey(ms, channelId, key), ModeOf(modes, channelId)) == key
    ensures RowAtKey(ms, channelId, key).channelId == channelId
  {
  }

  lemma SoundKeysDistinct(t: Tables, channelId: Id)
    requires Sound(t)
    requires forall i :: i in t.messages ==> Keyable(t.messages[i].record)
    ensures KeysDistinct(t.messages, channelId)
  {
    hide DisplaySortKey;
    forall i, j | i in t.messages && j in t.messages && InChannel(t.messages[i], channelId) &&
                  InChannel(t.messages[j], channelId) && t.messages[i].sortKey == t.messages[j].sortKey
      ensures i == j
    {
      DisplayOrderIsNumeric(t.messages[i].record, t.messages[j].record, ModeOf(t.orderModes, channelId));
    }
  }

  /** The timeline holds each row of the channel exactly once, in numeric display order. */
  lemma TimelineIsSortedChannel(t: Tables, channelId: Id)
    requires Sound(t)
    requires forall i :: i in t.messages ==> Keyable(t.messages[i].record)
    ensures var line := Timeline(t.messages, channelId);
            var mode := ModeOf(t.orderModes, channelId);
            && (forall i :: i in t.messages && InChannel(t.messages[i], channelId) ==> t.messages[i].record in line)
            && (forall n :: 0 <= n < |line| ==>
                  line[n].id in t.messages && t.messages[line[n].id].record == line[n] &&
                    line[n].channelId == channelId)
            && (forall m, n :: 0 <= m < n < |line| ==>
                  Keyable(line[m]) && Keyable(line[n]) && RankLess(RankOf(line[m], mode), RankOf(line[n], mode)))
  {
    hide DisplaySortKey, Less, First, RankOf, RankLess, Keyable;
    var ms, mode := t.messages, ModeOf(t.orderModes, channelId);
    var keys := ChannelKeys(ms, channelId);
    var s, line := Ascending(keys), Timeline(ms, channelId);
    AscendingSorts(keys);
    SoundKeysDistinct(t, channelId);
    forall i | i in ms && InChannel(ms[i], channelId)
      ensures ms[i].record in line
    {
      assert ms[i].sortKey in keys && ms[i].sortKey in s;
      var n :| 0 <= n < |s| && s[n] == ms[i].sortKey;
      assert line[n] == ms[i].record;
    }
    forall m, n | 0 <= m < n < |line|
      ensures Keyable(line[m]) && Keyable(line[n]) && RankLess(RankOf(line[m], mode), RankOf(line[n], mode))
    {
      assert s[m] in keys && s[n] in keys;
      RowKey(ms, t.orderModes, channelId, s[m]);
      RowKey(ms, t.orderModes, channelId, s[n]);
      DisplayOrderIsNumeric(line[m], line[n], mode);
    }
  }

  /**
   * On an unchanged channel, the window and the pages in front of it partition the timeline:
   * after enough pages what is held is the whole channel, each row once, in display order.
   */
  lemma PagingCoversChannel(t: Tables, channelId: Id, limit: nat, pages: nat)
    requires Sound(t) && limit > 0
    requires |Timeline(t.messages, channelId)| <= (pages + 1) * limit
    ensures ScrollBack(t.messages, t.orderModes, channelId, limit, pages) == Timeline(t.messages, channelId)
  {
    ScrollBackIsTail(t.messages, t.orderModes, channelId, limit, pages);
    ReachIsProduct(limit, pages);
  }
}
