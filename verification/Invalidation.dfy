// The entity-invalidation queue: a hint is never lost (src/client.ts:3670-3755).

module Invalidation {
  /** Entity type and scope, joined. */
  type Key = string

  datatype Pending = Pending(target: nat, attempts: nat)

  /** `batch` holds the syncs of the running flush that have not settled yet. */
  datatype Queue = Queue(pending: map<Key, Pending>, timer: bool, running: bool, batch: map<Key, Pending>,
    disposed: bool)

  const EMPTY := Queue(map[], false, false, map[], false)

  function Schedule(q: Queue): Queue
  {
    if q.timer || q.running then q else q.(timer := true)
  }

  function Larger(a: nat, b: nat): nat
  {
    if a > b then a else b
  }

  /** `queueEntityInvalidation`. */
  function Hint(q: Queue, key: Key, target: nat): Queue
  {
    var entry := if key in q.pending then
      q.pending[key].(target := Larger(target, q.pending[key].target)) else Pending(target, 0);
    Schedule(q.(pending := q.pending[key := entry]))
  }

  /** The timer callback: the flush takes everything pending. */
  function TimerFires(q: Queue): Queue
  {
    var fired := q.(timer := false);
    if q.running || q.disposed then fired
    else fired.(running := true, batch := q.pending, pending := map[])
  }

  /** One sync of the flush settled; a failed one is queued again, joined with a newer hint. */
  function SyncSettles(q: Queue, key: Key, ok: bool): Queue
    requires key in q.batch
  {
    var settled := q.(batch := q.batch - {key});
    if ok || q.disposed then settled
    else
      var retry := q.batch[key].(attempts := q.batch[key].attempts + 1);
      var entry :=
        if key !in q.pending then retry
        else Pending(Larger(retry.target, q.pending[key].target), Larger(retry.attempts, q.pending[key].attempts));
      settled.(pending := q.pending[key := entry])
  }

  /** All syncs settled: the flush is over, and what came in meanwhile gets a new timer. */
  function FlushEnds(q: Queue): Queue
  {
    var idle := q.(running := false);
    if idle.pending != map[] then Schedule(idle) else idle
  }

  /** `connect` drops the queue and the timer. */
  function Connect(q: Queue): Queue
  {
    q.(pending := map[], timer := false)
  }

  function Dispose(q: Queue): Queue
  {
    q.(pending := map[], timer := false, disposed := true)
  }

  // ----- The client's fields -----

  class Client {
    var pending: map<Key, Pending>
    var timer: bool
    var running: bool
    var disposed: bool

    function View(batch: map<Key, Pending>): Queue
      reads this
    {
      Queue(pending, timer, running, batch, disposed)
    }

    constructor ()
      ensures View(map[]) == EMPTY
    {
      pending, timer, running, disposed := map[], false, false, false;
    }

    method ScheduleFlush()
      modifies this`timer
      ensures View(map[]) == Schedule(old(View(map[])))
    {
      if timer || running {
        return;
      }
      timer := true;
    }

    method QueueInvalidation(key: Key, target: nat, ghost batch: map<Key, Pending>)
      modifies this
      ensures View(batch) == Hint(old(View(batch)), key, target)
    {
      if key !in pending {
        pending := pending[key := Pending(target, 0)];
      } else if target > pending[key].target {
        pending := pending[key := pending[key].(target := target)];
      }
      ScheduleFlush();
    }

    /** The timer callback up to its first await. */
    method BeginFlush(ghost before: map<Key, Pending>) returns (batch: map<Key, Pending>)
      requires before == map[] || running || disposed
      modifies this
      ensures old(!running && !disposed) ==> View(batch) == TimerFires(old(View(before)))
      ensures old(running || disposed) ==> batch == map[] && View(before) == TimerFires(old(View(before)))
    {
      timer := false;
      if running || disposed {
        return map[];
      }
      running := true;
      batch := pending;
      pending := map[];
    }

    method SettleSync(batch: map<Key, Pending>, key: Key, ok: bool) returns (rest: map<Key, Pending>)
      requires key in batch
      modifies this`pending
      ensures View(rest) == SyncSettles(old(View(batch)), key, ok)
    {
      rest := batch - {key};
      if ok || disposed {
        return;
      }
      var retry := batch[key].(attempts := batch[key].attempts + 1);
      if key !in pending {
        pending := pending[key := retry];
      } else {
        pending := pending[key := Pending(Larger(retry.target, pending[key].target),
          Larger(retry.attempts, pending[key].attempts))];
      }
    }

    method EndFlush()
      modifies this
      ensures View(map[]) == FlushEnds(old(View(map[])))
    {
      running := false;
      if pending != map[] {
        ScheduleFlush();
      }
    }
  }

  // ----- Every run -----

  /**
   * The queue with its history since the last connect: when each key was last hinted, when the
   * running flush began, and when the last successful sync of a key began.
   */
  datatype World = World(queue: Queue, now: nat, hinted: map<Key, nat>, startedAt: nat, synced: map<Key, nat>)

  datatype Event =
    | Hinted(key: Key, target: nat)
    | Fired
    | Settled(key: Key, ok: bool)
    | Ended
    | Connected
    | Disposed

  predicate Possible(w: World, e: Event)
  {
    match e
    case Hinted(key, target) => !w.queue.disposed
    case Fired => w.queue.timer
    case Settled(key, ok) => key in w.queue.batch
    case Ended => w.queue.running && w.queue.batch == map[]
    case Connected => !w.queue.disposed
    case Disposed => true
  }

  function After(w: World, e: Event): World
    requires Possible(w, e)
  {
    var next := w.(now := w.now + 1);
    match e
    case Hinted(key, target) => next.(queue := Hint(w.queue, key, target), hinted := w.hinted[key := w.now])
    case Fired =>
      next.(queue := TimerFires(w.queue),
            startedAt := if w.queue.running || w.queue.disposed then w.startedAt else w.now)
    case Settled(key, ok) =>
      next.(queue := SyncSettles(w.queue, key, ok), synced := if ok then w.synced[key := w.startedAt] else w.synced)
    case Ended => next.(queue := FlushEnds(w.queue))
    case Connected => next.(queue := Connect(w.queue), hinted := map[])
    case Disposed => next.(queue := Dispose(w.queue), hinted := map[])
  }

  /** Someone will look at the queue: a timer is armed or a flush is running, and never both. */
  ghost predicate Awake(q: Queue)
  {
    && (q.pending != map[] && !q.disposed ==> q.timer || q.running)
    && !(q.timer && q.running)
    && (q.batch != map[] ==> q.running)
  }

  /** The last hint of a key is pending, or a sync that began after it is under way or succeeded. */
  ghost predicate Followed(w: World, key: Key)
  {
    key in w.hinted ==>
      || key in w.queue.pending
      || (key in w.queue.batch && w.startedAt > w.hinted[key])
      || (key in w.synced && w.synced[key] > w.hinted[key])
  }

  ghost predicate Inv(w: World)
  {
    && Awake(w.queue)
    && w.startedAt <= w.now && (w.queue.running ==> w.startedAt < w.now)
    && (w.queue.disposed ==> w.hinted == map[])
    && (forall key :: key in w.synced ==> w.synced[key] <= w.startedAt)
    && (forall key :: key in w.hinted ==> w.hinted[key] < w.now)
    && (forall key :: Followed(w, key))
  }

  lemma EventKeeps(w: World, e: Event)
    requires Inv(w) && Possible(w, e)
    ensures Inv(After(w, e))
  {
    var v := After(w, e);
    forall key
      ensures Followed(v, key)
    {
      assert Followed(w, key);
    }
  }

  ghost predicate IsHistory(ws: seq<World>, es: seq<Event>)
  {
    && |ws| == |es| + 1 && ws[0] == World(EMPTY, 0, map[], 0, map[])
    && forall k :: 0 <= k < |es| ==> Possible(ws[k], es[k]) && ws[k + 1] == After(ws[k], es[k])
  }

  /** In every history no wake-up is lost and no hint is forgotten. */
  lemma {:induction false} NoHintIsLost(ws: seq<World>, es: seq<Event>, k: nat)
    requires IsHistory(ws, es) && k < |ws|
    ensures Inv(ws[k])
    decreases k
  {
    hide Inv, After, Possible;
    if k == 0 {
      EmptyIsFine();
    } else {
      NoHintIsLost(ws, es, k - 1);
      EventKeeps(ws[k - 1], es[k - 1]);
    }
  }

  lemma EmptyIsFine()
    ensures Inv(World(EMPTY, 0, map[], 0, map[]))
  {
  }

  /** What the machinery itself does next, unprompted by hints. */
  predicate Machinery(e: Event)
  {
    e.Fired? || e.Settled? || e.Ended?
  }

  /** Steps of the machinery until a hinted key is being synced; sync outcomes do not matter. */
  function StepsToSync(w: World): nat
  {
    if w.queue.timer then 1 else |w.queue.batch| + 2
  }

  /**
   * A pending key always moves toward a sync: unless disposed, some step of the machinery is
   * possible, and each one either brings the key's sync nearer or starts it.
   */
  lemma PendingKeyIsSyncedNext(w: World, key: Key, e: Event)
    requires Inv(w) && key in w.queue.pending && !w.queue.disposed
    ensures exists f :: Machinery(f) && Possible(w, f)
    ensures Machinery(e) && Possible(w, e) ==>
              var v := After(w, e);
              || (key in v.queue.batch && v.startedAt == w.now)
              || (key in v.queue.pending && !v.queue.disposed && StepsToSync(v) < StepsToSync(w))
  {
    if w.queue.timer {
      assert Machinery(Fired) && Possible(w, Fired);
    } else if w.queue.batch == map[] {
      assert Machinery(Ended) && Possible(w, Ended);
    } else {
      var other :| other in w.queue.batch;
      assert Machinery(Settled(other, true)) && Possible(w, Settled(other, true));
    }
  }
}
