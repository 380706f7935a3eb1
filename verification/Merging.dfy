// Re-delivery of one message: send-time precision (src/cache/canonical-inbound.ts),
// the write merge of `upsertMessages` and the push merge (src/cache/merge.ts).

module Merging {
  import opened Text
  import opened Records

  const MIN_PLAUSIBLE_MS := 100000000000

  function NormalizeSentAtMs(value: int): int
  {
    if value <= 0 then 0 else if value >= MIN_PLAUSIBLE_MS then value else value * 1000
  }

  datatype SentAt = SentAt(ms: int, precision: Precision)

  function MergeSentAt(existing: Option<SentAt>, incoming: SentAt): SentAt
  {
    if existing.None? || existing.value.ms <= 0 then
      incoming
    else if existing.value.precision == incoming.precision then
      existing.value
    else if incoming.precision == Milliseconds then
      incoming
    else
      existing.value
  }

  /** The `conflict` flag of the same call. */
  predicate SentAtConflict(existing: Option<SentAt>, incoming: SentAt)
  {
    && existing.Some?
    && existing.value.ms > 0
    && existing.value.precision == incoming.precision
    && existing.value.ms != incoming.ms
  }

  // ----- Send time does not depend on arrival order -----

  function Arrive(existing: Option<SentAt>, readings: seq<SentAt>): Option<SentAt>
    decreases |readings|
  {
    if readings == [] then existing
    else Arrive(Some(MergeSentAt(existing, readings[0])), readings[1..])
  }

  predicate AnyConflict(existing: Option<SentAt>, readings: seq<SentAt>)
    decreases |readings|
  {
    readings != [] &&
    (SentAtConflict(existing, readings[0]) ||
     AnyConflict(Some(MergeSentAt(existing, readings[0])), readings[1..]))
  }

  /** All readings of one message agree per precision and are positive. */
  predicate Consistent(readings: seq<SentAt>, seconds: int, millis: int)
  {
    && seconds > 0
    && millis > 0
    && forall i :: 0 <= i < |readings| ==>
         readings[i].ms == if readings[i].precision == Seconds then seconds else millis
  }

  predicate HasMillis(readings: seq<SentAt>)
  {
    exists i :: 0 <= i < |readings| && readings[i].precision == Milliseconds
  }

  function Settled(readings: seq<SentAt>, seconds: int, millis: int): SentAt
  {
    if HasMillis(readings) then SentAt(millis, Milliseconds) else SentAt(seconds, Seconds)
  }

  lemma {:induction false} ArriveSettles(first: SentAt, rest: seq<SentAt>, seconds: int, millis: int)
    requires Consistent([first] + rest, seconds, millis)
    ensures Arrive(Some(first), rest) == Some(Settled([first] + rest, seconds, millis))
    ensures !AnyConflict(Some(first), rest)
    decreases |rest|
  {
    var all := [first] + rest;
    assert all[0] == first;
    if rest == [] {
      assert HasMillis(all) <==> first.precision == Milliseconds;
    } else {
      assert all[1] == rest[0];
      var next := MergeSentAt(Some(first), rest[0]);
      var shorter := [next] + rest[1..];
      forall i | 0 <= i < |shorter|
        ensures shorter[i].ms == if shorter[i].precision == Seconds then seconds else millis
      {
        if i > 0 {
          assert shorter[i] == all[i + 1];
        }
      }
      ArriveSettles(next, rest[1..], seconds, millis);
      if HasMillis(all) {
        var i :| 0 <= i < |all| && all[i].precision == Milliseconds;
        if i <= 1 {
          assert shorter[0].precision == Milliseconds;
        } else {
          assert shorter[i - 1] == all[i];
        }
      }
      if HasMillis(shorter) {
        var i :| 0 <= i < |shorter| && shorter[i].precision == Milliseconds;
        assert i > 0 ==> shorter[i] == all[i + 1];
      }
    }
  }

  lemma SettledSame(a: seq<SentAt>, b: seq<SentAt>, seconds: int, millis: int)
    requires HasMillis(a) <==> HasMillis(b)
    ensures Settled(a, seconds, millis) == Settled(b, seconds, millis)
  {
  }

  lemma ArriveFirst(readings: seq<SentAt>)
    requires readings != []
    ensures Arrive(None, readings) == Arrive(Some(readings[0]), readings[1..])
    ensures AnyConflict(None, readings) == AnyConflict(Some(readings[0]), readings[1..])
  {
  }

  /**
   * However the readings of one message arrive, the stored send time is the same and no
   * conflict is reported: milliseconds if any source had them, else seconds.
   */
  lemma SentAtIgnoresArrivalOrder(readings: seq<SentAt>, shuffled: seq<SentAt>, seconds: int, millis: int)
    requires readings != [] && multiset(readings) == multiset(shuffled)
    requires Consistent(readings, seconds, millis)
    ensures Arrive(None, shuffled) == Arrive(None, readings) == Some(Settled(readings, seconds, millis))
    ensures !AnyConflict(None, readings) && !AnyConflict(None, shuffled)
  {
    hide Settled, MergeSentAt;
    SameReadings(readings, shuffled);
    forall i | 0 <= i < |shuffled|
      ensures shuffled[i].ms == if shuffled[i].precision == Seconds then seconds else millis
    {
      assert shuffled[i] in readings;
    }
    SettledSame(readings, shuffled, seconds, millis);
    assert readings == [readings[0]] + readings[1..] && shuffled == [shuffled[0]] + shuffled[1..];
    ArriveFirst(readings);
    ArriveFirst(shuffled);
    ArriveSettles(readings[0], readings[1..], seconds, millis);
    ArriveSettles(shuffled[0], shuffled[1..], seconds, millis);
  }

  // ----- When arrival order matters -----

  predicate Good(r: SentAt)
  {
    r.ms > 0
  }

  predicate GoodMillis(r: SentAt)
  {
    Good(r) && r.precision == Milliseconds
  }

  predicate InMillis(r: SentAt)
  {
    r.precision == Milliseconds
  }

  /** All the readings of the kind agree. */
  ghost predicate Agree(readings: seq<SentAt>, kind: SentAt -> bool)
  {
    forall i, j :: 0 <= i < |readings| && 0 <= j < |readings| && kind(readings[i]) && kind(readings[j]) ==>
      readings[i] == readings[j]
  }

  ghost predicate Any(readings: seq<SentAt>, kind: SentAt -> bool)
  {
    exists i :: 0 <= i < |readings| && kind(readings[i])
  }

  /**
   * With a readable millisecond time, those agree; else with a readable second time, those agree
   * and no unreadable millisecond reading can displace them; else all readings are one.
   */
  ghost predicate OrderFree(readings: seq<SentAt>)
  {
    if Any(readings, GoodMillis) then Agree(readings, GoodMillis)
    else if Any(readings, Good) then Agree(readings, Good) && !HasMillis(readings)
    else forall i, j :: 0 <= i < j < |readings| ==> readings[i] == readings[j]
  }

  lemma {:induction false} ArriveSnoc(existing: Option<SentAt>, readings: seq<SentAt>, last: SentAt)
    ensures Arrive(existing, readings + [last]) == Some(MergeSentAt(Arrive(existing, readings), last))
    decreases |readings|
  {
    if readings == [] {
      assert [] + [last] == [last] && [last][1..] == [];
    } else {
      assert (readings + [last])[1..] == readings[1..] + [last];
      ArriveSnoc(Some(MergeSentAt(existing, readings[0])), readings[1..], last);
    }
  }

  /** What is stored came from the readings; a readable millisecond time, once there, stays. */
  lemma {:induction false} ArriveFrom(readings: seq<SentAt>)
    requires readings != []
    ensures var r := Arrive(None, readings);
            && r.Some? && r.value in readings
            && (Any(readings, GoodMillis) ==> GoodMillis(r.value))
            && (Any(readings, Good) && !HasMillis(readings) ==> Good(r.value))
    decreases |readings|
  {
    var n := |readings| - 1;
    var before := readings[..n];
    assert readings == before + [readings[n]];
    ArriveSnoc(None, before, readings[n]);
    if before != [] {
      ArriveFrom(before);
      if i :| 0 <= i < |readings| && GoodMillis(readings[i]) {
        assert i < n ==> before[i] == readings[i];
      }
      if i :| 0 <= i < |readings| && Good(readings[i]) {
        assert i < n ==> before[i] == readings[i];
      }
      if i :| 0 <= i < |before| && before[i].precision == Milliseconds {
        assert readings[i].precision == Milliseconds;
      }
      var r := Arrive(None, before).value;
      var i :| 0 <= i < |before| && before[i] == r;
      assert GoodMillis(r) ==> GoodMillis(before[i]);
    }
  }

  /** A readable time that arrives first stays first of its kind. */
  lemma {:induction false} FirstStays(x: SentAt, rest: seq<SentAt>)
    requires Good(x)
    requires GoodMillis(x) || forall i :: 0 <= i < |rest| ==> rest[i].precision == Seconds
    ensures Arrive(Some(x), rest) == Some(x)
    decreases |rest|
  {
    if rest != [] {
      FirstStays(x, rest[1..]);
    }
  }

  /** The readings with the i-th moved to the front, or to the back. */
  function Front(readings: seq<SentAt>, i: nat): seq<SentAt>
    requires i < |readings|
  {
    [readings[i]] + (readings[..i] + readings[i + 1..])
  }

  function Back(readings: seq<SentAt>, i: nat): seq<SentAt>
    requires i < |readings|
  {
    (readings[..i] + readings[i + 1..]) + [readings[i]]
  }

  lemma Rearranged(readings: seq<SentAt>, i: nat)
    requires i < |readings|
    ensures multiset(Front(readings, i)) == multiset(readings) == multiset(Back(readings, i))
    ensures forall r :: r in readings[..i] + readings[i + 1..] ==> r in readings
  {
    assert readings == readings[..i] + [readings[i]] + readings[i + 1..];
  }

  lemma FrontArrives(readings: seq<SentAt>, i: nat)
    requires i < |readings| && Good(readings[i])
    requires GoodMillis(readings[i]) || !HasMillis(readings)
    ensures Arrive(None, Front(readings, i)) == Some(readings[i])
  {
    var rest := readings[..i] + readings[i + 1..];
    Rearranged(readings, i);
    assert Front(readings, i)[0] == readings[i] && Front(readings, i)[1..] == rest;
    if !GoodMillis(readings[i]) {
      forall j | 0 <= j < |rest|
        ensures rest[j].precision == Seconds
      {
        assert rest[j] in readings;
      }
    }
    FirstStays(readings[i], rest);
  }

  /** Last to arrive and not fenced off: an unreadable time over a readable second, or anything over junk. */
  lemma BackArrives(readings: seq<SentAt>, i: nat)
    requires i < |readings| && !Any(readings, GoodMillis)
    ensures var r := Arrive(None, Back(readings, i));
            && r.Some?
            && (readings[i].precision == Milliseconds || !Any(readings, Good) ==> r.value == readings[i])
            && (Good(readings[i]) ==> Good(r.value))
  {
    var rest := readings[..i] + readings[i + 1..];
    Rearranged(readings, i);
    ArriveSnoc(None, rest, readings[i]);
    if rest != [] {
      ArriveFrom(rest);
      var r := Arrive(None, rest).value;
      assert r in readings;
      var j :| 0 <= j < |readings| && readings[j] == r;
      assert !GoodMillis(readings[j]);
    }
  }

  /** The order-free readings settle on one value, whatever order they come in. */
  lemma OrderFreeSettles(readings: seq<SentAt>, shuffled: seq<SentAt>)
    requires readings != [] && multiset(readings) == multiset(shuffled) && OrderFree(readings)
    ensures Arrive(None, shuffled) == Arrive(None, readings)
  {
    SameReadings(readings, shuffled);
    ArriveFrom(readings);
    ArriveFrom(shuffled);
    var x, y := Arrive(None, readings).value, Arrive(None, shuffled).value;
    var i :| 0 <= i < |readings| && readings[i] == x;
    var j :| 0 <= j < |readings| && readings[j] == y;
  }

  lemma SameReadings(a: seq<SentAt>, b: seq<SentAt>)
    requires multiset(a) == multiset(b)
    ensures |a| == |b| && (forall r :: r in a <==> r in b)
    ensures forall kind :: Any(a, kind) <==> Any(b, kind)
    ensures HasMillis(a) <==> HasMillis(b)
  {
    assert |a| == |multiset(a)| == |multiset(b)| == |b|;
    forall r
      ensures r in a <==> r in b
    {
      assert r in a <==> r in multiset(a);
    }
    forall kind
      ensures Any(a, kind) <==> Any(b, kind)
    {
      if i :| 0 <= i < |a| && kind(a[i]) {
        assert a[i] in b;
        var j :| 0 <= j < |b| && b[j] == a[i];
      }
      if i :| 0 <= i < |b| && kind(b[i]) {
        assert b[i] in a;
        var j :| 0 <= j < |a| && a[j] == b[i];
      }
    }
    assert HasMillis(a) <==> Any(a, InMillis);
    assert HasMillis(b) <==> Any(b, InMillis);
  }

  /** Readings that are not order-free have two orders with different outcomes. */
  lemma OrderMatters(readings: seq<SentAt>) returns (a: seq<SentAt>, b: seq<SentAt>)
    requires readings != [] && !OrderFree(readings)
    ensures multiset(a) == multiset(readings) == multiset(b)
    ensures Arrive(None, a) != Arrive(None, b)
  {
    if Any(readings, GoodMillis) {
      var i, j :| 0 <= i < |readings| && 0 <= j < |readings| && GoodMillis(readings[i]) && GoodMillis(readings[j]) &&
        readings[i] != readings[j];
      a, b := Front(readings, i), Front(readings, j);
      Rearranged(readings, i);
      Rearranged(readings, j);
      FrontArrives(readings, i);
      FrontArrives(readings, j);
    } else if Any(readings, Good) && HasMillis(readings) {
      var i :| 0 <= i < |readings| && Good(readings[i]);
      var j :| 0 <= j < |readings| && readings[j].precision == Milliseconds;
      a, b := Back(readings, i), Back(readings, j);
      Rearranged(readings, i);
      Rearranged(readings, j);
      BackArrives(readings, i);
      BackArrives(readings, j);
    } else if Any(readings, Good) {
      var i, j :| 0 <= i < |readings| && 0 <= j < |readings| && Good(readings[i]) && Good(readings[j]) &&
        readings[i] != readings[j];
      a, b := Front(readings, i), Front(readings, j);
      Rearranged(readings, i);
      Rearranged(readings, j);
      FrontArrives(readings, i);
      FrontArrives(readings, j);
    } else {
      var i, j :| 0 <= i < j < |readings| && readings[i] != readings[j];
      a, b := Back(readings, i), Back(readings, j);
      Rearranged(readings, i);
      Rearranged(readings, j);
      BackArrives(readings, i);
      BackArrives(readings, j);
    }
  }

  /** The merged send time is the same in every arrival order exactly for order-free readings. */
  lemma SentAtOrderFreeExactlyWhen(readings: seq<SentAt>)
    requires readings != []
    ensures OrderFree(readings) <==>
              forall shuffled :: multiset(shuffled) == multiset(readings) ==>
                Arrive(None, shuffled) == Arrive(None, readings)
  {
    if OrderFree(readings) {
      forall shuffled | multiset(shuffled) == multiset(readings)
        ensures Arrive(None, shuffled) == Arrive(None, readings)
      {
        OrderFreeSettles(readings, shuffled);
      }
    } else {
      var a, b := OrderMatters(readings);
    }
  }

  /** A witness: an unreadable millisecond stamp after a good second stamp. */
  lemma ZeroReadingErasesTime()
    ensures var good, junk := SentAt(1700000000000, Seconds), SentAt(NormalizeSentAtMs(-5), Milliseconds);
            && !OrderFree([good, junk])
            && Arrive(None, [good, junk]) == Some(junk) && Arrive(None, [junk, good]) == Some(good)
  {
    var good, junk := SentAt(1700000000000, Seconds), SentAt(NormalizeSentAtMs(-5), Milliseconds);
    ArriveSnoc(None, [good], junk);
    ArriveSnoc(None, [junk], good);
    assert [good] + [junk] == [good, junk] && [junk] + [good] == [junk, good];
    assert Good([good, junk][0]) && [good, junk][1].precision == Milliseconds;
  }

  // ----- Writing a row again -----

  function SentAtOf(record: Record): SentAt
  {
    SentAt(record.timestamp, if record.precision.Some? then record.precision.value else Milliseconds)
  }

  predicate CarriesBody(record: Record)
  {
    record.content != ""
  }

  /** The merge inside `upsertMessages`; `nextSeq` is the sequence number a new row would take. */
  function MergeWrite(existing: Option<Record>, record: Record, nextSeq: nat): Record
  {
    var keepDisplay := existing.Some? && !CarriesBody(record);
    var time := MergeSentAt(if existing.Some? then Some(SentAtOf(existing.value)) else None, SentAtOf(record));
    record.(
      id := if existing.Some? then existing.value.id else record.id,
      content := if keepDisplay then existing.value.content else record.content,
      payload := if keepDisplay || (existing.Some? && record.payload == [])
                 then existing.value.payload else record.payload,
      messageType := if keepDisplay then existing.value.messageType else record.messageType,
      fromUid := if keepDisplay then existing.value.fromUid else record.fromUid,
      status := if existing.Some? && existing.value.status in {Sent, Pending} && !CarriesBody(record)
                then (if existing.value.status == Pending then record.status else Sent)
                else record.status,
      revoked := if (existing.Some? && existing.value.revoked == Some(true)) || record.revoked == Some(true)
                 then Some(true) else record.revoked,
      timestamp := time.ms,
      precision := Some(time.precision),
      orderSeq := if existing.Some? && existing.value.orderSeq.Some? then existing.value.orderSeq
                  else if record.orderSeq.Some? then record.orderSeq
                  else Some(nextSeq))
  }

  function OrElse<T>(a: Option<T>, b: Option<T>): Option<T>
  {
    if a.Some? then a else b
  }

  /** `mergeOnPushAbsorb`. */
  function MergeOnPushAbsorb(existing: Option<Record>, incoming: Record, currentUser: Option<Id>): Record
  {
    if existing.None? then
      if currentUser == Some(incoming.fromUid) then incoming.(status := Sent) else incoming
    else
      var row := existing.value;
      row.(
        serverId := OrElse(row.serverId, incoming.serverId),
        localId := OrElse(row.localId, incoming.localId),
        pts := OrElse(row.pts, incoming.pts),
        content := if CarriesBody(incoming) then incoming.content else row.content,
        payload := if incoming.payload != [] then incoming.payload else row.payload,
        messageType := if CarriesBody(incoming) then incoming.messageType else row.messageType,
        fromUid := if CarriesBody(incoming) then incoming.fromUid else row.fromUid,
        status := if row.status in {Pending, Sent} then Sent
                  else if CarriesBody(incoming) then incoming.status
                  else row.status,
        revoked := if row.revoked == Some(true) || incoming.revoked == Some(true) then Some(true) else row.revoked)
  }

  /** One re-delivery of a message that already has a row. */
  datatype Delivery =
    | Write(record: Record, nextSeq: nat)
    | Push(record: Record, currentUser: Option<Id>)

  function Deliver(row: Record, d: Delivery): Record
  {
    match d
    case Write(record, nextSeq) => MergeWrite(Some(row), record, nextSeq)
    case Push(record, user) => MergeOnPushAbsorb(Some(row), record, user)
  }

  function DeliverAll(row: Record, ds: seq<Delivery>): Record
    decreases |ds|
  {
    if ds == [] then row else DeliverAll(Deliver(row, ds[0]), ds[1..])
  }

  /** Content, author and type always come together from one source: the last body seen. */
  datatype Display = Display(content: string, fromUid: Id, messageType: string)

  function DisplayOf(record: Record): Display
  {
    Display(record.content, record.fromUid, record.messageType)
  }

  function LastBody(row: Record, ds: seq<Delivery>): Display
    decreases |ds|
  {
    if ds == [] then DisplayOf(row)
    else if CarriesBody(ds[|ds| - 1].record) then DisplayOf(ds[|ds| - 1].record)
    else LastBody(row, ds[..|ds| - 1])
  }

  lemma {:induction false} DeliverLast(row: Record, ds: seq<Delivery>, d: Delivery)
    ensures DeliverAll(row, ds + [d]) == Deliver(DeliverAll(row, ds), d)
    decreases |ds|
  {
    if ds == [] {
      assert ds + [d] == [d] && [d][1..] == [];
    } else {
      assert (ds + [d])[1..] == ds[1..] + [d];
      DeliverLast(Deliver(row, ds[0]), ds[1..], d);
    }
  }

  /**
   * Any number of re-deliveries, in any order: identity and timeline position never move, a
   * revocation is never undone, and what is shown is exactly the last body that arrived, so
   * non-empty content stays non-empty and a bodiless write never changes the author.
   */
  lemma {:induction false} RedeliveryKeepsFacts(row: Record, ds: seq<Delivery>)
    requires row.orderSeq.Some?
    ensures var after := DeliverAll(row, ds);
            && after.id == row.id
            && after.orderSeq == row.orderSeq
            && (row.revoked == Some(true) ==> after.revoked == Some(true))
            && DisplayOf(after) == LastBody(row, ds)
            && (CarriesBody(row) ==> CarriesBody(after))
    decreases |ds|
  {
    if ds != [] {
      var n := |ds| - 1;
      assert ds == ds[..n] + [ds[n]];
      DeliverLast(row, ds[..n], ds[n]);
      RedeliveryKeepsFacts(row, ds[..n]);
    }
  }

  /** A confirmed row stays `sent` under every bodiless re-delivery. */
  lemma {:induction false} SentStaysSent(row: Record, ds: seq<Delivery>)
    requires row.status == Sent
    requires forall i :: 0 <= i < |ds| ==> !CarriesBody(ds[i].record)
    ensures DeliverAll(row, ds).status == Sent
    decreases |ds|
  {
    if ds != [] {
      SentStaysSent(Deliver(row, ds[0]), ds[1..]);
    }
  }

  /** Applying the same record twice is applying it once. */
  lemma RepeatedWriteIsNoOp(row: Record, record: Record, f0: nat, f1: nat)
    requires row.orderSeq.Some?
    ensures Deliver(Deliver(row, Write(record, f0)), Write(record, f1)) == Deliver(row, Write(record, f0))
  {
  }

  /** A push record is never `pending`: the wire default is `received`. */
  lemma RepeatedPushIsNoOp(row: Record, record: Record, user: Option<Id>)
    requires record.status != Pending
    ensures Deliver(Deliver(row, Push(record, user)), Push(record, user)) == Deliver(row, Push(record, user))
  {
  }
}
