// The resumable upload loop (`uploadSealedFileChunked` and `ChunkSizer`, src/chunked-upload.ts).

module Upload {
  import opened Text
  import opened Sorting

  const MAX_REQUEST_SIZE := 2097152
  const CHUNK_RETRIES := 2

  datatype Verdict = Accepted | Retry | Resync | Gone | Restart | Fatal

  /** `chunkVerdict`: a PUT's response code decides; only an unknown one falls back on the HTTP status. */
  function ChunkVerdict(code: int, isServerError: bool): (verdict: Verdict)
    ensures verdict == Fatal ==> !isServerError && code !in {0, 20610, 20611, 20612, 20613, 20614, 20615, 20618}
    ensures verdict == Accepted <==> code in {0, 20614}
  {
    if code in {0, 20614} then Accepted
    else if code in {20611, 20612} then Retry
    else if code in {20610, 20615} then Resync
    else if code == 20613 then Gone
    else if code == 20618 then Restart
    else if isServerError then Retry
    else Fatal
  }

  // ----- Request size -----

  function Max(a: int, b: int): int
  {
    if a > b then a else b
  }

  function Min(a: int, b: int): int
  {
    if a < b then a else b
  }

  /** A size in whole base units, at least one and at most the request limit. */
  function Clamp(base: nat, want: real): int
    requires base > 0
  {
    var top := Max(MAX_REQUEST_SIZE, base) as real;
    var low := if want > base as real then want else base as real;
    var w := if low < top then low else top;
    Max((w / base as real).Floor * base, base)
  }

  ghost predicate SizeFits(base: nat, size: int)
  {
    base > 0 && base <= size <= Max(MAX_REQUEST_SIZE, base) && exists k :: size == k * base
  }

  lemma FloorFits(base: nat, w: real)
    requires base > 0 && w >= 0.0
    ensures ((w / base as real).Floor * base) as real <= w
  {
  }

  lemma ClampFits(base: nat, want: real)
    requires base > 0
    ensures SizeFits(base, Clamp(base, want))
    ensures Clamp(base, want) <= base || Clamp(base, want) as real <= want
  {
    var top := Max(MAX_REQUEST_SIZE, base) as real;
    var low := if want > base as real then want else base as real;
    var w := if low < top then low else top;
    FloorFits(base, w);
    var k := (w / base as real).Floor;
    assert Clamp(base, want) == Max(k * base, base);
    assert base == 1 * base;
  }

  class ChunkSizer {
    const base: nat
    var rate: Option<real>
    var next: int

    ghost predicate Valid()
      reads this
    {
      SizeFits(base, next)
    }

    constructor (base: nat)
      requires base > 0
      ensures Valid() && this.base == base && next == base && rate == None
    {
      this.base := base;
      rate, next := None, base;
      new;
      assert next == 1 * base;
    }

    /** Follow the measured throughput, at most four times the last request. */
    method OnSuccess(bytes: nat, elapsedMs: int)
      requires Valid()
      modifies this
      ensures Valid() && rate.Some?
      ensures next <= Max(base, 4 * bytes)
    {
      var secs := if elapsedMs as real / 1000.0 > 0.001 then elapsedMs as real / 1000.0 else 0.001;
      var sample := bytes as real / secs;
      rate := Some(if rate.None? then sample else rate.value * 0.7 + sample * 0.3);
      var capped := if rate.value < (bytes * 4) as real then rate.value else (bytes * 4) as real;
      next := Clamp(base, capped);
      ClampFits(base, capped);
    }

    /** Half the size, and forget the throughput. */
    method OnFailure()
      requires Valid()
      modifies this
      ensures Valid() && rate == None
      ensures next == base || 2 * next <= old(next)
    {
      var half := next / 2;
      next := Clamp(base, half as real);
      rate := None;
      ClampFits(base, half as real);
    }
  }

  // ----- Gaps -----

  datatype Range = Range(offset: nat, length: nat)

  predicate Earlier(a: Range, b: Range)
  {
    a.offset < b.offset
  }

  predicate Overlap(a: Range, b: Range)
  {
    a.offset < b.offset + b.length && b.offset < a.offset + a.length
  }

  /** The gap lies in the blob, starts on the grid, and ends on the grid or at the end of the blob. */
  ghost predicate OnGrid(base: nat, total: nat, g: Range)
  {
    && base > 0 && g.length > 0 && g.offset + g.length <= total
    && (exists k :: g.offset == k * base)
    && (g.offset + g.length == total || exists k :: g.length == k * base)
  }

  ghost predicate WellFormed(base: nat, total: nat, gaps: seq<Range>)
  {
    && base > 0 && Apart(gaps, Overlap)
    && forall k :: 0 <= k < |gaps| ==> OnGrid(base, total, gaps[k])
  }

  predicate Within(g: Range, b: nat)
  {
    g.offset <= b < g.offset + g.length
  }

  ghost predicate InGaps(gaps: seq<Range>, b: nat)
  {
    exists k :: 0 <= k < |gaps| && Within(gaps[k], b)
  }

  /** The bytes of the blob that lie in a gap. */
  ghost function Bytes(total: nat, gaps: seq<Range>): set<nat>
  {
    set b: nat | b < total && InGaps(gaps, b)
  }

  ghost function Blob(total: nat): set<nat>
  {
    Bytes(total, [Range(0, total)])
  }

  lemma EarlierIsWeak()
    ensures WeakOrder(Earlier)
  {
  }

  function SortedGaps(missing: seq<Range>): seq<Range>
  {
    Sort(missing, Earlier)
  }

  lemma SortKeepsGaps(base: nat, total: nat, missing: seq<Range>)
    requires WellFormed(base, total, missing)
    ensures WellFormed(base, total, SortedGaps(missing)) && Bytes(total, SortedGaps(missing)) == Bytes(total, missing)
  {
    hide Sort, OnGrid;
    EarlierIsWeak();
    SortSpec(missing, Earlier, Overlap);
    var t := SortedGaps(missing);
    forall k | 0 <= k < |t|
      ensures OnGrid(base, total, t[k])
    {
      assert t[k] in missing;
    }
    SameRangesSameBytes(total, missing, t);
    SameRangesSameBytes(total, t, missing);
  }

  lemma SameRangesSameBytes(total: nat, a: seq<Range>, b: seq<Range>)
    requires forall r :: r in a ==> r in b
    ensures Bytes(total, a) <= Bytes(total, b)
  {
    forall x | x in Bytes(total, a)
      ensures InGaps(b, x)
    {
      var k :| 0 <= k < |a| && Within(a[k], x);
      assert a[k] in b;
      var j :| 0 <= j < |b| && b[j] == a[k];
    }
  }

  // ----- One request -----

  /** How many bytes the next PUT sends. */
  function PieceLength(base: nat, total: nat, size: int, gap: Range): int
    requires base > 0
  {
    var len := Min(size, gap.length);
    var whole := if gap.offset + len < total then Max(len / base * base, base) else len;
    Min(whole, gap.length)
  }

  /** A request of `s` units leaves a gap that still fits the grid. */
  lemma RestFits(base: nat, total: nat, gap: Range, o: int, s: int)
    requires OnGrid(base, total, gap) && gap.offset == o * base && 0 < s * base < gap.length
    ensures OnGrid(base, total, Range(gap.offset + s * base, gap.length - s * base))
  {
    assert gap.offset + s * base == (o + s) * base;
    if gap.offset + gap.length != total {
      var g :| gap.length == g * base;
      assert gap.length - s * base == (g - s) * base;
    }
  }

  /** A PUT stays inside its gap, starts on the grid and is whole units unless it ends the blob. */
  lemma PutFits(base: nat, total: nat, size: int, gap: Range)
    requires OnGrid(base, total, gap) && SizeFits(base, size)
    ensures var len := PieceLength(base, total, size, gap);
            && 0 < len <= gap.length && len <= size
            && (exists k :: gap.offset == k * base)
            && (gap.offset + len == total || exists k :: len == k * base)
            && (len < gap.length ==> OnGrid(base, total, Range(gap.offset + len, gap.length - len)))
  {
    var s :| size == s * base;
    var o :| gap.offset == o * base;
    if size <= gap.length {
      MultipleDivides(s, base);
      assert PieceLength(base, total, size, gap) == size;
      if size < gap.length {
        RestFits(base, total, gap, o, s);
      }
    } else if gap.offset + gap.length < total {
      var g :| gap.length == g * base;
      MultipleDivides(g, base);
      assert PieceLength(base, total, size, gap) == gap.length;
    } else {
      assert PieceLength(base, total, size, gap) == gap.length;
    }
  }

  lemma MultipleDivides(k: int, base: nat)
    requires base > 0
    ensures (k * base) / base == k
  {
    var q, r := (k * base) / base, (k * base) % base;
    assert (k - q) * base == r;
    if k - q >= 1 {
      Scale(1, k - q, base);
    } else if k - q <= -1 {
      Scale(k - q, -1, base);
    }
  }

  lemma Scale(x: int, y: int, b: nat)
    requires x <= y
    ensures x * b <= y * b
  {
  }

  datatype Status = Status(missing: seq<Range>, completed: bool)

  /** `fetchStatus`: a report, a session that is gone, or any other failure. */
  datatype StatusReply = Reported(report: Status) | StatusGone | StatusFailed

  /** A turn of the loop as the world answers it: the PUT's verdict, and the status it would report. */
  datatype Reply = Reply(verdict: Verdict, size: int, status: StatusReply)

  datatype Progress = Progress(gaps: seq<Range>, failures: nat)

  datatype Outcome = Going(progress: Progress) | Complete | SessionGone | Rejected | NoProgress | StatusUnknown

  function AfterAccept(gaps: seq<Range>, len: int): seq<Range>
    requires gaps != [] && 0 <= len
  {
    if len >= gaps[0].length then gaps[1..]
    else [Range(gaps[0].offset + len, gaps[0].length - len)] + gaps[1..]
  }

  /** One turn; `reply.size` is the size the sizer asked for. */
  function Turn(base: nat, total: nat, p: Progress, reply: Reply): Outcome
    requires base > 0 && p.gaps != []
  {
    match reply.verdict
    case Accepted =>
      var len := PieceLength(base, total, reply.size, p.gaps[0]);
      Going(Progress(AfterAccept(p.gaps, Max(len, 0)), 0))
    case Gone => SessionGone
    case Restart => SessionGone
    case Fatal => Rejected
    case Retry => if p.failures + 1 > CHUNK_RETRIES then NoProgress else Going(p.(failures := p.failures + 1))
    case Resync =>
      if p.failures + 1 > CHUNK_RETRIES then NoProgress
      else
        match reply.status
        case StatusGone => SessionGone
        case StatusFailed => StatusUnknown
        case Reported(report) =>
          if report.completed then Complete else Going(Progress(SortedGaps(report.missing), p.failures + 1))
  }

  /** The loop over a list of replies; `Going` when they run out. */
  function Run(base: nat, total: nat, p: Progress, replies: seq<Reply>): Outcome
    requires base > 0
    decreases |replies|
  {
    if p.gaps == [] then Complete
    else if replies == [] then Going(p)
    else
      var next := Turn(base, total, p, replies[0]);
      if next.Going? then Run(base, total, next.progress, replies[1..]) else next
  }

  // ----- Against an honest server -----

  /** A turn together with what the server holds after it (history, not seen by the client). */
  datatype Told = Told(reply: Reply, stored: set<nat>)

  function Replies(told: seq<Told>): seq<Reply>
  {
    seq(|told|, k requires 0 <= k < |told| => told[k].reply)
  }

  ghost function Holding(told: seq<Told>, stored: set<nat>): set<nat>
  {
    if told == [] then stored else told[|told| - 1].stored
  }

  /** The server forgets nothing, says "ok" only for bytes it holds, and reports exactly what it lacks. */
  ghost predicate HonestTurn(base: nat, total: nat, p: Progress, stored: set<nat>, t: Told)
    requires base > 0 && p.gaps != []
  {
    && SizeFits(base, t.reply.size)
    && stored <= t.stored <= Blob(total)
    && (t.reply.verdict == Accepted ==>
          Bytes(total, [Range(p.gaps[0].offset,
            Max(PieceLength(base, total, t.reply.size, p.gaps[0]), 0))]) <= t.stored)
    && (t.reply.verdict == Resync && t.reply.status.Reported? ==>
          && WellFormed(base, total, t.reply.status.report.missing)
          && Bytes(total, t.reply.status.report.missing) == Blob(total) - t.stored
          && (t.reply.status.report.completed ==> t.stored == Blob(total)))
  }

  /** Every turn the loop takes is honest. */
  ghost predicate Honest(base: nat, total: nat, p: Progress, stored: set<nat>, told: seq<Told>)
    requires base > 0
    decreases |told|
  {
    p.gaps == [] || told == [] ||
    (HonestTurn(base, total, p, stored, told[0]) &&
     var next := Turn(base, total, p, told[0].reply);
     next.Going? ==> Honest(base, total, next.progress, told[0].stored, told[1..]))
  }

  /** The gaps are well formed and cover whatever the server lacks. */
  ghost predicate Good(base: nat, total: nat, p: Progress, stored: set<nat>)
  {
    && WellFormed(base, total, p.gaps) && p.failures <= CHUNK_RETRIES
    && Blob(total) - stored <= Bytes(total, p.gaps)
  }

  /** Turns left at most: each byte may cost a few, and failures without progress are bounded. */
  ghost function Budget(total: nat, p: Progress): int
  {
    3 * |Bytes(total, p.gaps)| + CHUNK_RETRIES - p.failures
  }

  lemma AcceptWellFormed(base: nat, total: nat, gaps: seq<Range>, len: int)
    requires WellFormed(base, total, gaps) && gaps != [] && 0 < len <= gaps[0].length
    requires len < gaps[0].length ==> OnGrid(base, total, Range(gaps[0].offset + len, gaps[0].length - len))
    ensures WellFormed(base, total, AfterAccept(gaps, len))
  {
  }

  lemma AcceptKeeps(base: nat, total: nat, gaps: seq<Range>, len: int)
    requires WellFormed(base, total, gaps) && gaps != [] && 0 < len <= gaps[0].length
    requires len < gaps[0].length ==> OnGrid(base, total, Range(gaps[0].offset + len, gaps[0].length - len))
    ensures WellFormed(base, total, AfterAccept(gaps, len))
    ensures var piece := Bytes(total, [Range(gaps[0].offset, len)]);
            Bytes(total, gaps) <= Bytes(total, AfterAccept(gaps, len)) + piece
            && |Bytes(total, AfterAccept(gaps, len))| < |Bytes(total, gaps)|
  {
    hide OnGrid, Bytes, AfterAccept;
    AcceptWellFormed(base, total, gaps, len);
    AcceptBytes(base, total, gaps, len);
    FirstByte(base, total, gaps);
    SmallerSet(Bytes(total, AfterAccept(gaps, len)), Bytes(total, gaps), gaps[0].offset);
  }

  lemma FirstByte(base: nat, total: nat, gaps: seq<Range>)
    requires WellFormed(base, total, gaps) && gaps != []
    ensures gaps[0].offset in Bytes(total, gaps)
  {
  }

  lemma SmallerSet(a: set<nat>, b: set<nat>, x: nat)
    requires a <= b && x in b && x !in a
    ensures |a| < |b|
  {
    SubsetSize(a, b - {x});
  }

  lemma {:induction false} SubsetSize(a: set<nat>, b: set<nat>)
    requires a <= b
    ensures |a| <= |b|
  {
    if a != {} {
      var x :| x in a;
      SubsetSize(a - {x}, b - {x});
    }
  }

  lemma AcceptBytes(base: nat, total: nat, gaps: seq<Range>, len: int)
    requires Apart(gaps, Overlap) && gaps != [] && 0 < len <= gaps[0].length
    ensures var after := AfterAccept(gaps, len);
            && Bytes(total, after) <= Bytes(total, gaps)
            && gaps[0].offset !in Bytes(total, after)
            && Bytes(total, gaps) <= Bytes(total, after) + Bytes(total, [Range(gaps[0].offset, len)])
  {
    var after := AfterAccept(gaps, len);
    var shift := if len >= gaps[0].length then 1 else 0;
    forall x | x in Bytes(total, after)
      ensures x in Bytes(total, gaps) && x != gaps[0].offset
    {
      var k :| 0 <= k < |after| && Within(after[k], x);
      assert Within(gaps[k + shift], x);
      assert k + shift > 0 ==> !Overlap(gaps[0], gaps[k + shift]);
    }
    forall x | x in Bytes(total, gaps)
      ensures x in Bytes(total, after) + Bytes(total, [Range(gaps[0].offset, len)])
    {
      var k :| 0 <= k < |gaps| && Within(gaps[k], x);
      if k == 0 && x < gaps[0].offset + len {
        assert Within([Range(gaps[0].offset, len)][0], x);
      } else {
        assert k - shift >= 0 && Within(after[k - shift], x);
      }
    }
  }

  /** One honest turn keeps the gaps good, and spends the budget. */
  lemma TurnKeeps(base: nat, total: nat, p: Progress, stored: set<nat>, t: Told)
    requires base > 0 && p.gaps != [] && Good(base, total, p, stored) && HonestTurn(base, total, p, stored, t)
    ensures var next := Turn(base, total, p, t.reply);
            && (next.Going? ==>
                 Good(base, total, next.progress, t.stored) && Budget(total, next.progress) < Budget(total, p))
            && (next == Complete ==> t.stored == Blob(total))
  {
    hide Bytes, Apart, OnGrid, Sort, SizeFits, PieceLength;
    match t.reply.verdict
    case Accepted =>
      assert OnGrid(base, total, p.gaps[0]);
      var len := PieceLength(base, total, t.reply.size, p.gaps[0]);
      PutFits(base, total, t.reply.size, p.gaps[0]);
      assert Max(len, 0) == len;
      AcceptKeeps(base, total, p.gaps, len);
      forall b | b in Blob(total) - t.stored
        ensures b in Bytes(total, AfterAccept(p.gaps, len))
      {
        assert b in Bytes(total, p.gaps);
      }
    case Resync =>
      if t.reply.status.Reported? {
        SortKeepsGaps(base, total, t.reply.status.report.missing);
        SubsetSize(Bytes(total, t.reply.status.report.missing), Bytes(total, p.gaps));
      }
    case _ =>
  }

  /** However far the loop got, its gaps are still good, and it has paid for every turn. */
  lemma {:induction false} RunKeeps(base: nat, total: nat, p: Progress, stored: set<nat>, told: seq<Told>)
    requires base > 0 && Good(base, total, p, stored) && Honest(base, total, p, stored, told)
    ensures var end := Run(base, total, p, Replies(told));
            end.Going? ==>
              && Good(base, total, end.progress, Holding(told, stored)) && end.progress.gaps != []
              && Budget(total, end.progress) + |told| <= Budget(total, p)
    decreases |told|
  {
    hide Turn, HonestTurn, Good, Budget;
    if p.gaps != [] && told != [] {
      TurnKeeps(base, total, p, stored, told[0]);
      var next := Turn(base, total, p, told[0].reply);
      assert Replies(told)[1..] == Replies(told[1..]);
      if next.Going? {
        RunKeeps(base, total, next.progress, told[0].stored, told[1..]);
      }
    }
  }

  /** Every request the loop makes fits a gap and the grid. */
  lemma EveryPutFits(base: nat, total: nat, p: Progress, stored: set<nat>, told: seq<Told>, size: int)
    requires base > 0 && Good(base, total, p, stored) && Honest(base, total, p, stored, told)
    requires Run(base, total, p, Replies(told)).Going? && SizeFits(base, size)
    ensures var gaps := Run(base, total, p, Replies(told)).progress.gaps;
            && gaps != []
            && var len := PieceLength(base, total, size, gaps[0]);
               && 0 < len <= gaps[0].length && gaps[0].offset + len <= total
               && (exists k :: gaps[0].offset == k * base)
               && (gaps[0].offset + len == total || exists k :: len == k * base)
  {
    hide Run, Honest, PieceLength, Bytes;
    RunKeeps(base, total, p, stored, told);
    var gaps := Run(base, total, p, Replies(told)).progress.gaps;
    assert OnGrid(base, total, gaps[0]);
    PutFits(base, total, size, gaps[0]);
  }

  /** The turns the loop took before it ended. */
  ghost function Taken(base: nat, total: nat, p: Progress, told: seq<Told>): seq<Told>
    requires base > 0
    decreases |told|
  {
    if p.gaps == [] || told == [] then []
    else
      var next := Turn(base, total, p, told[0].reply);
      [told[0]] + if next.Going? then Taken(base, total, next.progress, told[1..]) else []
  }

  /** When the loop goes on to `complete`, the server holds every byte of the blob. */
  lemma {:induction false} CompleteMeansReceived(base: nat, total: nat, p: Progress, stored: set<nat>, told: seq<Told>)
    requires base > 0 && Good(base, total, p, stored) && Honest(base, total, p, stored, told)
    requires Run(base, total, p, Replies(told)) == Complete
    ensures Blob(total) <= Holding(Taken(base, total, p, told), stored)
    decreases |told|
  {
    hide Turn, HonestTurn;
    if p.gaps == [] {
      forall b | b in Blob(total)
        ensures b in stored
      {
        assert b !in Bytes(total, p.gaps);
      }
    } else {
      TurnKeeps(base, total, p, stored, told[0]);
      var next := Turn(base, total, p, told[0].reply);
      assert Replies(told)[1..] == Replies(told[1..]);
      if next.Going? {
        CompleteMeansReceived(base, total, next.progress, told[0].stored, told[1..]);
        var rest := Taken(base, total, next.progress, told[1..]);
        assert Taken(base, total, p, told) == [told[0]] + rest;
        assert Holding([told[0]] + rest, stored) == Holding(rest, told[0].stored);
      }
    }
  }

  /** Against an honest server the loop ends within its budget of requests, whatever verdicts come. */
  lemma {:induction false} LoopStops(base: nat, total: nat, p: Progress, stored: set<nat>, told: seq<Told>)
    requires base > 0 && Good(base, total, p, stored) && Honest(base, total, p, stored, told)
    requires |told| > Budget(total, p)
    ensures !Run(base, total, p, Replies(told)).Going?
  {
    hide Run, Honest, Bytes;
    RunKeeps(base, total, p, stored, told);
  }

  // ----- The loop itself -----

  /** What is heard of one PUT: a response envelope, or nothing. */
  datatype Heard = Response(code: int, isServerError: bool) | Nothing

  /** `putChunk`: a failed fetch is retried. */
  function VerdictOf(heard: Heard): Verdict
  {
    if heard.Nothing? then Retry else ChunkVerdict(heard.code, heard.isServerError)
  }

  /** What the network says to one PUT, how long it took, and the status behind it. */
  datatype Answer = Answer(heard: Heard, elapsedMs: int, status: StatusReply)

  function Asked(answers: seq<Answer>, sizes: seq<int>): seq<Reply>
    requires |sizes| <= |answers|
  {
    seq(|sizes|, k requires 0 <= k < |sizes| => Reply(VerdictOf(answers[k].heard), sizes[k], answers[k].status))
  }

  /** The run so far, and what is left of it: one more turn. */
  lemma {:induction false} RunExtends(base: nat, total: nat, p: Progress, replies: seq<Reply>, r: Reply)
    requires base > 0 && Run(base, total, p, replies).Going? && Run(base, total, p, replies).progress.gaps != []
    ensures Run(base, total, p, replies + [r]) ==
              var next := Turn(base, total, Run(base, total, p, replies).progress, r);
              if next.Going? && next.progress.gaps == [] then Complete else next
    decreases |replies|
  {
    hide Turn;
    if replies == [] {
      assert ([] + [r])[1..] == [];
    } else {
      var next := Turn(base, total, p, replies[0]);
      assert (replies + [r])[1..] == replies[1..] + [r];
      if next.Going? {
        RunExtends(base, total, next.progress, replies[1..], r);
      }
    }
  }

  /** The loop until it ends or the answers run out; `sizes` are the sizes it asked the sizer for. */
  method UploadLoop(base: nat, total: nat, first: seq<Range>, answers: seq<Answer>) returns (outcome: Outcome,
                    sizes: seq<int>)
    requires WellFormed(base, total, first)
    ensures |sizes| <= |answers| && (outcome.Going? ==> |sizes| == |answers|)
    ensures forall k :: 0 <= k < |sizes| ==> SizeFits(base, sizes[k])
    ensures outcome == Run(base, total, Progress(SortedGaps(first), 0), Asked(answers, sizes))
  {
    hide Sort, SizeFits, PieceLength, Run, VerdictOf;
    var sizer := new ChunkSizer(base);
    var start := Progress(SortedGaps(first), 0);
    var gaps, failures := SortedGaps(first), 0;
    sizes := [];
    RunOfNothing(base, total, start);
    assert Asked(answers, sizes) == [];
    while gaps != []
      invariant sizer.Valid() && fresh(sizer) && sizer.base == base
      invariant |sizes| <= |answers|
      invariant forall k :: 0 <= k < |sizes| ==> SizeFits(base, sizes[k])
      invariant Run(base, total, start, Asked(answers, sizes)) ==
                if gaps == [] then Complete else Going(Progress(gaps, failures))
      decreases |answers| - |sizes|
    {
      if |sizes| == |answers| {
        return Going(Progress(gaps, failures)), sizes;
      }
      var answer, size := answers[|sizes|], sizer.next;
      var verdict := VerdictOf(answer.heard);
      var reply := Reply(verdict, size, answer.status);
      RunExtends(base, total, start, Asked(answers, sizes), reply);
      assert Asked(answers, sizes + [size]) == Asked(answers, sizes) + [reply];
      sizes := sizes + [size];
      var len := Max(PieceLength(base, total, size, gaps[0]), 0);
      match verdict
      case Accepted =>
        sizer.OnSuccess(len, answer.elapsedMs);
        gaps := if len >= gaps[0].length then gaps[1..]
                else [Range(gaps[0].offset + len, gaps[0].length - len)] + gaps[1..];
        failures := 0;
      case Gone => return SessionGone, sizes;
      case Restart => return SessionGone, sizes;
      case Fatal => return Rejected, sizes;
      case Retry =>
        failures := failures + 1;
        if failures > CHUNK_RETRIES {
          return NoProgress, sizes;
        }
        sizer.OnFailure();
      case Resync =>
        failures := failures + 1;
        if failures > CHUNK_RETRIES {
          return NoProgress, sizes;
        }
        if answer.status.StatusGone? {
          return SessionGone, sizes;
        } else if answer.status.StatusFailed? {
          return StatusUnknown, sizes;
        } else if answer.status.report.completed {
          return Complete, sizes;
        }
        gaps := SortedGaps(answer.status.report.missing);
    }
    return Complete, sizes;
  }

  lemma RunOfNothing(base: nat, total: nat, p: Progress)
    requires base > 0
    ensures Run(base, total, p, []) == if p.gaps == [] then Complete else Going(p)
  {
  }
}
