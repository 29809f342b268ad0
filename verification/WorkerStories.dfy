/** What one iteration of the manual treasury worker may do, as a story with its trace of events,
    and what every such trace keeps. */
module WorkerStories {
  import opened Wrappers
  import opened Sums

  datatype Outcome = Settled | StillPending | Raised

  /** What the worker does, with the answers it gets. */
  datatype Event =
    | PullEmpty
    | PullFailed
    | Pulled(ack: nat)
    | Consumed(ack: nat, outcome: Outcome)
    | ReleaseCalled(ack: nat)
    | ReadinessPublished
    | ListingFailed
    | Listed(candidates: seq<int>, known: set<int>)
    | CandidatesFailed
    | RecentObserved(block: int, ok: bool)
    | CursorRead(at: Option<int>)
    | CatchUp(chunk: nat, ok: bool)

  /** How a call of `consume_queued` ended. */
  datatype Queued = PullRaised | NothingQueued | Handled(ack: nat, outcome: Outcome)

  /** What `consume_queued` does: a request that failed or stayed pending is released. */
  function QueuedTrace(q: Queued): seq<Event> {
    match q
    case PullRaised => [PullFailed]
    case NothingQueued => [PullEmpty]
    case Handled(ack, outcome) =>
      [Pulled(ack), Consumed(ack, outcome)]
      + (if outcome != Settled then [ReleaseCalled(ack)] else [])
      + [ReadinessPublished]
  }

  // ---------------------------------------------------------------- the sweep over recent candidates

  datatype SweepEnd =
    | NotApproved | Unlisted | Exhausted | SourceFailed | PollFailed | ObservationFailed | EightObserved
    | SweepRequest(q: Queued)

  /** `observed` counts the successful observations. */
  datatype Sweep = Sweep(candidates: seq<int>, known: set<int>, observed: nat, end: SweepEnd)

  /** The candidates not proved or probed before, in order. */
  function Todo(candidates: seq<int>, known: set<int>): seq<int> {
    if candidates == [] then []
    else
      var n := |candidates| - 1;
      Todo(candidates[..n], known) + (if candidates[n] in known then [] else [candidates[n]])
  }

  /** A sweep observes a front part of what is to do, and ends for a reason. */
  predicate SweepOk(approves: bool, s: Sweep) {
    var left := |Todo(s.candidates, s.known)| - s.observed;
    && left >= 0 && s.observed <= 8
    && (s.end.EightObserved? <==> s.observed == 8)
    && (s.end.NotApproved? <==> !approves)
    && (s.end.NotApproved? || s.end.Unlisted? ==> s.observed == 0)
    && (s.end.Exhausted? ==> left == 0)
    && (s.end.PollFailed? || s.end.ObservationFailed? || s.end.SweepRequest? ==> left > 0)
    && (s.end.SweepRequest? ==> s.end.q.Handled?)
  }

  /** Each observation follows an empty poll. */
  function ObservedTrace(blocks: seq<int>): seq<Event> {
    if blocks == [] then []
    else
      var n := |blocks| - 1;
      ObservedTrace(blocks[..n]) + [PullEmpty, RecentObserved(blocks[n], true), ReadinessPublished]
  }

  function SweepTrace(approves: bool, s: Sweep): seq<Event>
    requires SweepOk(approves, s)
  {
    if s.end.NotApproved? then []
    else if s.end.Unlisted? then [ListingFailed]
    else [Listed(s.candidates, s.known)] + CandidatesTrace(s)
  }

  function CandidatesTrace(s: Sweep): seq<Event>
    requires s.observed <= |Todo(s.candidates, s.known)|
  {
    var todo := Todo(s.candidates, s.known);
    ObservedTrace(todo[..s.observed]) + SweepEndTrace(s.end, if s.observed < |todo| then todo[s.observed] else 0)
  }

  /** What the end of a sweep adds to the trace; `block` is the one it was at. */
  function SweepEndTrace(end: SweepEnd, block: int): seq<Event> {
    match end
    case SourceFailed => [CandidatesFailed]
    case PollFailed => [PullFailed]
    case ObservationFailed => [PullEmpty, RecentObserved(block, false)]
    case SweepRequest(q) => QueuedTrace(q)
    case _ => []
  }

  // ---------------------------------------------------------------- catching up

  /** An attempted chunk: the cursor before it and, if it succeeded, the cursor read after it. */
  datatype Chunk = Chunk(cursor: int, size: nat, ok: bool, later: Option<int>)

  datatype CatchUpEnd =
    | ChunkFailed | LaterUnread | Unmoved | NothingLeft | FourChunks
    | CursorUnread | TurnPollFailed | TurnRequest(q: Queued)

  function Size(c: Chunk): nat { c.size }

  /** What is left of the 32 blocks of an iteration. */
  function Left(recent: nat, chunks: seq<Chunk>): int { 32 - recent - Sum(chunks, Size) }

  /** The chunk succeeded and moved the cursor. */
  predicate Moved(c: Chunk) { c.ok && c.later.Some? && c.later.value != c.cursor }

  /** Another chunk is due: fewer than four so far, the last one moved the cursor, blocks are left. */
  predicate Due(recent: nat, chunks: seq<Chunk>) {
    |chunks| < 4 && (chunks != [] ==> Moved(chunks[|chunks| - 1]) && Left(recent, chunks) > 0)
  }

  function ChunkSize(left: int): int { if left < 8 then left else 8 }

  /** Every chunk was due and takes the smaller of eight and what is left. */
  predicate ChunksOk(recent: nat, chunks: seq<Chunk>) {
    forall k | 0 <= k < |chunks| ::
      Due(recent, chunks[..k]) && chunks[k].size == ChunkSize(Left(recent, chunks[..k]))
  }

  /** Catching up ends where no chunk is due, or on a request or an uncaught failure. */
  predicate CatchUpOk(recent: nat, chunks: seq<Chunk>, end: CatchUpEnd) {
    && ChunksOk(recent, chunks)
    && if end.CursorUnread? then Due(recent, chunks)
       else
         && chunks != []
         && var last := chunks[|chunks| - 1];
            match end
            case ChunkFailed => !last.ok
            case LaterUnread => last.ok && last.later.None?
            case Unmoved => last.ok && last.later == Some(last.cursor)
            case NothingLeft => Moved(last) && Left(recent, chunks) == 0
            case FourChunks => Moved(last) && Left(recent, chunks) > 0 && |chunks| == 4
            case TurnPollFailed => Due(recent, chunks)
            case TurnRequest(q) => q.Handled? && Due(recent, chunks)
  }

  function ChunkTrace(c: Chunk): seq<Event> {
    [CursorRead(Some(c.cursor)), CatchUp(c.size, c.ok), ReadinessPublished]
    + (if c.ok then [CursorRead(c.later)] else [])
  }

  /** Every turn but the first polls for a request. */
  function PollBefore(turn: nat): seq<Event> { if turn == 0 then [] else [PullEmpty] }

  function ChunksTrace(chunks: seq<Chunk>): seq<Event> {
    if chunks == [] then []
    else
      var n := |chunks| - 1;
      ChunksTrace(chunks[..n]) + PollBefore(n) + ChunkTrace(chunks[n])
  }

  function EndTrace(turn: nat, end: CatchUpEnd): seq<Event> {
    match end
    case CursorUnread => PollBefore(turn) + [CursorRead(None)]
    case TurnPollFailed => [PullFailed]
    case TurnRequest(q) => QueuedTrace(q)
    case _ => []
  }

  // ---------------------------------------------------------------- an iteration

  /** How an iteration went: it ended with its first poll, or in the sweep with a request, or
      it came to catching up. */
  datatype Story =
    | AtOnce(q: Queued)
    | InSweep(sweep: Sweep)
    | Through(sweep: Sweep, chunks: seq<Chunk>, end: CatchUpEnd)

  predicate StoryOk(approves: bool, story: Story) {
    match story
    case AtOnce(q) => !q.NothingQueued?
    case InSweep(sweep) => SweepOk(approves, sweep) && sweep.end.SweepRequest?
    case Through(sweep, chunks, end) =>
      SweepOk(approves, sweep) && !sweep.end.SweepRequest? && CatchUpOk(sweep.observed, chunks, end)
  }

  function StoryTrace(approves: bool, story: Story): seq<Event>
    requires StoryOk(approves, story)
  {
    match story
    case AtOnce(q) => QueuedTrace(q)
    case InSweep(sweep) => [PullEmpty] + SweepTrace(approves, sweep)
    case Through(sweep, chunks, end) =>
      [PullEmpty] + SweepTrace(approves, sweep) + ChunksTrace(chunks) + EndTrace(|chunks|, end)
  }

  /** The failures that nothing catches: a pull outside the sweep, and the cursor reads. */
  predicate Raises(story: Story) {
    match story
    case AtOnce(q) => q.PullRaised?
    case InSweep(_) => false
    case Through(_, _, end) => end.CursorUnread? || end.LaterUnread? || end.TurnPollFailed?
  }

  // ---------------------------------------------------------------- about the loops

  lemma {:induction false} TodoPrefix(candidates: seq<int>, known: set<int>, i: nat)
    requires i <= |candidates|
    ensures var done, all := Todo(candidates[..i], known), Todo(candidates, known);
            |done| <= |all| && done == all[..|done|]
    decreases |candidates|
  {
    if i < |candidates| {
      var n := |candidates| - 1;
      assert candidates[..n][..i] == candidates[..i];
      TodoPrefix(candidates[..n], known, i);
    } else {
      assert candidates[..i] == candidates;
    }
  }

  /** What is to do are the candidates not known, as often as they are listed. */
  lemma {:induction false} TodoMeans(candidates: seq<int>, known: set<int>, block: int)
    ensures multiset(Todo(candidates, known))[block] == if block in known then 0 else multiset(candidates)[block]
  {
    if candidates != [] {
      var n := |candidates| - 1;
      TodoMeans(candidates[..n], known, block);
      assert candidates == candidates[..n] + [candidates[n]];
    }
  }

  /** A sweep that meets no failure and no request observes the first eight of what is to do, or
      all of it if that is less, each after an empty poll. */
  lemma QuietSweep(s: Sweep)
    requires SweepOk(true, s) && (s.end.Exhausted? || s.end.EightObserved?)
    ensures var todo := Todo(s.candidates, s.known);
            var n := if |todo| < 8 then |todo| else 8;
            SweepTrace(true, s) == [Listed(s.candidates, s.known)] + ObservedTrace(todo[..n])
  {
    hide Todo, ObservedTrace;
  }

  lemma {:induction false} ObservedAt(blocks: seq<int>, i: nat)
    requires i < |blocks|
    ensures var t := ObservedTrace(blocks);
            && |t| == 3 * |blocks| && t[3 * i] == PullEmpty && t[3 * i + 1] == RecentObserved(blocks[i], true)
            && t[3 * i + 2] == ReadinessPublished
  {
    var n := |blocks| - 1;
    if n > 0 { ObservedAt(blocks[..n], if i < n then i else 0); }
    assert n == 0 ==> blocks[..0] == [];
  }

  lemma NothingToDo(known: set<int>)
    ensures Todo([], known) == [] && ObservedTrace([]) == []
  {
  }

  lemma TodoNext(candidates: seq<int>, known: set<int>, i: nat)
    requires i < |candidates|
    ensures var before, after := Todo(candidates[..i], known), Todo(candidates[..i + 1], known);
            if candidates[i] in known then after == before
            else
              && after == before + [candidates[i]]
              && ObservedTrace(after)
              == ObservedTrace(before) + [PullEmpty, RecentObserved(candidates[i], true), ReadinessPublished]
  {
    var before, after := Todo(candidates[..i], known), Todo(candidates[..i + 1], known);
    assert candidates[..i + 1][..i] == candidates[..i];
    if candidates[i] !in known {
      assert after[..|before|] == before;
    }
  }

  /** A sweep that ends between two candidates. */
  lemma EndBetween(candidates: seq<int>, known: set<int>, i: nat, end: SweepEnd)
    requires i <= |candidates| && |Todo(candidates[..i], known)| <= 8
    requires end.Exhausted? || end.SourceFailed? || end.EightObserved?
    requires end.EightObserved? <==> |Todo(candidates[..i], known)| == 8
    requires end.Exhausted? ==> i == |candidates|
    ensures var s := Sweep(candidates, known, |Todo(candidates[..i], known)|, end);
            && SweepOk(true, s)
            && CandidatesTrace(s) == ObservedTrace(Todo(candidates[..i], known)) + SweepEndTrace(end, 0)
  {
    hide Todo, ObservedTrace;
    TodoPrefix(candidates, known, i);
    assert i == |candidates| ==> candidates[..i] == candidates;
  }

  /** A sweep that ends at a candidate. */
  lemma EndAtCandidate(candidates: seq<int>, known: set<int>, i: nat, end: SweepEnd)
    requires i < |candidates| && candidates[i] !in known && |Todo(candidates[..i], known)| < 8
    requires end.PollFailed? || end.ObservationFailed? || (end.SweepRequest? && end.q.Handled?)
    ensures var s := Sweep(candidates, known, |Todo(candidates[..i], known)|, end);
            && SweepOk(true, s)
            && CandidatesTrace(s) == ObservedTrace(Todo(candidates[..i], known)) + SweepEndTrace(end, candidates[i])
  {
    hide Todo, ObservedTrace, SweepEndTrace;
    TodoPrefix(candidates, known, i);
    TodoPrefix(candidates, known, i + 1);
    TodoNext(candidates, known, i);
    var n := |Todo(candidates[..i], known)|;
    assert Todo(candidates[..i + 1], known)[n] == candidates[i];
  }

  lemma NothingTaken(recent: nat)
    ensures Left(recent, []) == 32 - recent && ChunksTrace([]) == [] && ChunksOk(recent, [])
  {
  }

  lemma {:induction false} TakeChunk(recent: nat, chunks: seq<Chunk>, c: Chunk)
    requires ChunksOk(recent, chunks) && Due(recent, chunks) && c.size == ChunkSize(Left(recent, chunks))
    ensures ChunksOk(recent, chunks + [c]) && Left(recent, chunks + [c]) == Left(recent, chunks) - c.size
    ensures ChunksTrace(chunks + [c]) == ChunksTrace(chunks) + PollBefore(|chunks|) + ChunkTrace(c)
  {
    var more := chunks + [c];
    assert more[..|chunks|] == chunks;
    forall k | 0 <= k < |more| ensures Due(recent, more[..k]) && more[k].size == ChunkSize(Left(recent, more[..k])) {
      assert more[..k] == chunks[..k];
      assert k == |chunks| ==> chunks[..k] == chunks;
    }
  }

  lemma AtMostEight(approves: bool, sweep: Sweep)
    requires SweepOk(approves, sweep)
    ensures sweep.observed <= 8
  {
  }

  // ---------------------------------------------------------------- measures of a trace

  function One(b: bool): nat { if b then 1 else 0 }

  function IsRecent(e: Event): nat { One(e.RecentObserved? && e.ok) }
  function IsChunk(e: Event): nat { One(e.CatchUp?) }
  function ChunkBlocks(e: Event): nat { if e.CatchUp? then e.chunk else 0 }
  function IsArchive(e: Event): nat { One(e.RecentObserved? || e.CatchUp?) }
  function IsPoll(e: Event): nat { One(e.PullEmpty? || e.PullFailed? || e.Pulled?) }
  function IsConsumed(e: Event): nat { One(e.Consumed?) }

  /** No request is taken or answered. */
  predicate Idle(t: seq<Event>) {
    forall e | e in t :: !e.Pulled? && !e.Consumed? && !e.ReleaseCalled?
  }

  /** The archive budget of one iteration. */
  predicate WithinBudget(t: seq<Event>) {
    && Sum(t, IsRecent) <= 8
    && Sum(t, IsChunk) <= 4
    && (forall e | e in t && e.CatchUp? :: 1 <= e.chunk <= 8)
    && Sum(t, IsRecent) + Sum(t, ChunkBlocks) <= 32
    && Sum(t, IsArchive) <= Sum(t, IsPoll)
  }

  /** What was observed so far; `spare` polls more than archive observations. */
  predicate Counters(t: seq<Event>, recent: nat, chunks: nat, blocks: nat, spare: nat) {
    && Idle(t) && (forall e | e in t && e.CatchUp? :: 1 <= e.chunk <= 8)
    && Sum(t, IsRecent) == recent && Sum(t, IsChunk) == chunks && Sum(t, ChunkBlocks) == blocks
    && Sum(t, IsArchive) + spare <= Sum(t, IsPoll)
  }

  lemma CountersStep(t: seq<Event>, e: Event, recent: nat, chunks: nat, blocks: nat, spare: nat)
    requires Counters(t, recent, chunks, blocks, spare)
    requires !e.Pulled? && !e.Consumed? && !e.ReleaseCalled? && (e.CatchUp? ==> 1 <= e.chunk <= 8)
    requires spare + IsPoll(e) >= IsArchive(e)
    ensures Counters(t + [e], recent + IsRecent(e), chunks + IsChunk(e), blocks + ChunkBlocks(e),
                     spare + IsPoll(e) - IsArchive(e))
  {
  }

  /** Events that are no poll, no observation and no part of a request. */
  lemma CountersSame(t: seq<Event>, e: Event, recent: nat, chunks: nat, blocks: nat, spare: nat)
    requires Counters(t, recent, chunks, blocks, spare)
    requires e.ReadinessPublished? || e.ListingFailed? || e.Listed? || e.CandidatesFailed? || e.CursorRead?
    ensures Counters(t + [e], recent, chunks, blocks, spare)
  {
    CountersStep(t, e, recent, chunks, blocks, spare);
  }

  lemma SpareWeakens(t: seq<Event>, recent: nat, chunks: nat, blocks: nat, spare: nat, less: nat)
    requires Counters(t, recent, chunks, blocks, spare) && less <= spare
    ensures Counters(t, recent, chunks, blocks, less)
  {
  }

  lemma FirstPoll()
    ensures Counters([PullEmpty], 0, 0, 0, 1)
  {
    assert [PullEmpty] == [] + [PullEmpty];
    assert Counters([], 0, 0, 0, 0);
    CountersStep([], PullEmpty, 0, 0, 0, 0);
  }

  lemma {:induction false} ObservedCounters(t: seq<Event>, blocks: seq<int>)
    requires Counters(t, 0, 0, 0, 1)
    ensures Counters(t + ObservedTrace(blocks), |blocks|, 0, 0, 1)
  {
    hide Counters;
    if blocks == [] {
      assert t + ObservedTrace(blocks) == t;
    } else {
      var n := |blocks| - 1;
      ObservedCounters(t, blocks[..n]);
      var u := t + ObservedTrace(blocks[..n]);
      var seen := RecentObserved(blocks[n], true);
      CountersStep(u, PullEmpty, n, 0, 0, 1);
      CountersStep(u + [PullEmpty], seen, n, 0, 0, 2);
      CountersSame(u + [PullEmpty] + [seen], ReadinessPublished, n + 1, 0, 0, 1);
      assert t + ObservedTrace(blocks) == u + [PullEmpty] + [seen] + [ReadinessPublished];
    }
  }

  /** The sweep without its request, if it ended with one. */
  function SweepWork(approves: bool, s: Sweep): seq<Event>
    requires SweepOk(approves, s)
  {
    if s.end.SweepRequest? then
      [Listed(s.candidates, s.known)] + ObservedTrace(Todo(s.candidates, s.known)[..s.observed])
    else SweepTrace(approves, s)
  }

  lemma SweepCounters(approves: bool, s: Sweep)
    requires SweepOk(approves, s)
    ensures Counters([PullEmpty] + SweepWork(approves, s), s.observed, 0, 0, 1)
  {
    hide Counters, ObservedTrace, Todo;
    FirstPoll();
    var t := [PullEmpty];
    if s.end.NotApproved? {
      assert t + SweepWork(approves, s) == t;
    } else if s.end.Unlisted? {
      CountersSame(t, ListingFailed, 0, 0, 0, 1);
    } else {
      var todo := Todo(s.candidates, s.known);
      var listed := Listed(s.candidates, s.known);
      CountersSame(t, listed, 0, 0, 0, 1);
      ObservedCounters(t + [listed], todo[..s.observed]);
      var u := t + [listed] + ObservedTrace(todo[..s.observed]);
      if s.end.SourceFailed? {
        CountersSame(u, CandidatesFailed, s.observed, 0, 0, 1);
        assert t + SweepWork(approves, s) == u + [CandidatesFailed];
      } else if s.end.PollFailed? {
        CountersStep(u, PullFailed, s.observed, 0, 0, 1);
        SpareWeakens(u + [PullFailed], s.observed, 0, 0, 2, 1);
        assert t + SweepWork(approves, s) == u + [PullFailed];
      } else if s.end.ObservationFailed? {
        var missed := RecentObserved(todo[s.observed], false);
        CountersStep(u, PullEmpty, s.observed, 0, 0, 1);
        CountersStep(u + [PullEmpty], missed, s.observed, 0, 0, 2);
        assert t + SweepWork(approves, s) == u + [PullEmpty] + [missed];
      } else {
        assert t + SweepWork(approves, s) == u;
      }
    }
  }

  lemma ChunkCounters(t: seq<Event>, recent: nat, chunks: nat, blocks: nat, c: Chunk)
    requires Counters(t, recent, chunks, blocks, 1) && 1 <= c.size <= 8
    ensures Counters(t + ChunkTrace(c), recent, chunks + 1, blocks + c.size, 0)
  {
    hide Counters;
    var read, tried := CursorRead(Some(c.cursor)), CatchUp(c.size, c.ok);
    CountersSame(t, read, recent, chunks, blocks, 1);
    CountersStep(t + [read], tried, recent, chunks, blocks, 1);
    var u := t + [read] + [tried];
    CountersSame(u, ReadinessPublished, recent, chunks + 1, blocks + c.size, 0);
    if c.ok {
      CountersSame(u + [ReadinessPublished], CursorRead(c.later), recent, chunks + 1, blocks + c.size, 0);
      assert t + ChunkTrace(c) == u + [ReadinessPublished] + [CursorRead(c.later)];
    } else {
      assert t + ChunkTrace(c) == u + [ReadinessPublished];
    }
  }

  lemma {:induction false} ChunksPrefix(recent: nat, chunks: seq<Chunk>, k: nat)
    requires ChunksOk(recent, chunks) && k <= |chunks|
    ensures ChunksOk(recent, chunks[..k])
  {
    forall j | 0 <= j < k
      ensures Due(recent, chunks[..k][..j]) && chunks[..k][j].size == ChunkSize(Left(recent, chunks[..k][..j]))
    {
      assert chunks[..k][..j] == chunks[..j];
    }
  }

  /** The empty poll before a turn leaves one poll to spare. */
  lemma PollBeforeCounters(t: seq<Event>, recent: nat, chunks: nat, blocks: nat)
    requires Counters(t, recent, chunks, blocks, One(chunks == 0))
    ensures Counters(t + PollBefore(chunks), recent, chunks, blocks, 1)
  {
    hide Counters;
    if chunks == 0 {
      assert t + PollBefore(chunks) == t;
    } else {
      CountersStep(t, PullEmpty, recent, chunks, blocks, 0);
    }
  }

  lemma {:induction false} LastChunk(recent: nat, chunks: seq<Chunk>)
    requires recent <= 8 && ChunksOk(recent, chunks) && chunks != []
    ensures var n := |chunks| - 1;
            && n < 4 && 1 <= chunks[n].size <= 8 && Left(recent, chunks) >= 0
            && Sum(chunks, Size) == Sum(chunks[..n], Size) + chunks[n].size
  {
    var n := |chunks| - 1;
    assert Due(recent, chunks[..n]) && chunks[n].size == ChunkSize(Left(recent, chunks[..n]));
  }

  lemma {:induction false} ChunksTraceLast(t: seq<Event>, chunks: seq<Chunk>)
    ensures chunks == [] ==> t + ChunksTrace(chunks) == t && Sum(chunks, Size) == 0
    ensures chunks != [] ==>
              var n := |chunks| - 1;
              t + ChunksTrace(chunks) == t + ChunksTrace(chunks[..n]) + PollBefore(n) + ChunkTrace(chunks[n])
  {
    hide PollBefore, ChunkTrace;
  }

  lemma {:induction false} ChunksCounters(t: seq<Event>, recent: nat, chunks: seq<Chunk>)
    requires Counters(t, recent, 0, 0, 1) && recent <= 8 && ChunksOk(recent, chunks)
    ensures |chunks| <= 4 && Left(recent, chunks) >= 0
    ensures Counters(t + ChunksTrace(chunks), recent, |chunks|, Sum(chunks, Size), One(|chunks| == 0))
  {
    hide Counters, Sum, ChunksOk, ChunksTrace, ChunkTrace, PollBefore;
    ChunksTraceLast(t, chunks);
    if chunks != [] {
      var n := |chunks| - 1;
      var front := chunks[..n];
      ChunksPrefix(recent, chunks, n);
      ChunksCounters(t, recent, front);
      LastChunk(recent, chunks);
      var u, taken := t + ChunksTrace(front), Sum(front, Size);
      PollBeforeCounters(u, recent, n, taken);
      ChunkCounters(u + PollBefore(n), recent, n, taken, chunks[n]);
    }
  }

  // ---------------------------------------------------------------- what every iteration keeps

  /** The iteration up to the request it took, if any. */
  function Work(approves: bool, story: Story): seq<Event>
    requires StoryOk(approves, story)
  {
    match story
    case AtOnce(q) => if q.Handled? then [] else [PullFailed]
    case InSweep(sweep) => [PullEmpty] + SweepWork(approves, sweep)
    case Through(sweep, chunks, end) =>
      [PullEmpty] + SweepWork(approves, sweep) + ChunksTrace(chunks)
      + (if end.TurnRequest? then [] else EndTrace(|chunks|, end))
  }

  function Request(story: Story): Option<Queued> {
    match story
    case AtOnce(q) => if q.Handled? then Some(q) else None
    case InSweep(sweep) => if sweep.end.SweepRequest? then Some(sweep.end.q) else None
    case Through(_, _, end) => if end.TurnRequest? then Some(end.q) else None
  }

  lemma StorySplits(approves: bool, story: Story)
    requires StoryOk(approves, story)
    ensures Request(story).Some? ==>
              Request(story).value.Handled?
              && StoryTrace(approves, story) == Work(approves, story) + QueuedTrace(Request(story).value)
    ensures Request(story).None? ==> StoryTrace(approves, story) == Work(approves, story)
  {
    hide ChunksTrace, QueuedTrace, ChunksOk, SweepOk, SweepTrace, SweepWork;
    match story
    case AtOnce(q) => assert q.PullRaised? ==> QueuedTrace(q) == [PullFailed] by { Unqueued(q); }
    case InSweep(sweep) => SweepSplits(approves, sweep);
    case Through(sweep, chunks, end) => SweepSplits(approves, sweep);
  }

  lemma Unqueued(q: Queued)
    ensures q.PullRaised? ==> QueuedTrace(q) == [PullFailed]
  {
  }

  lemma SweepSplits(approves: bool, s: Sweep)
    requires SweepOk(approves, s)
    ensures if s.end.SweepRequest?
            then s.end.q.Handled? && SweepTrace(approves, s) == SweepWork(approves, s) + QueuedTrace(s.end.q)
            else SweepTrace(approves, s) == SweepWork(approves, s)
  {
    hide ObservedTrace, Todo, QueuedTrace;
  }

  lemma {:induction false} EndCounters(t: seq<Event>, recent: nat, chunks: seq<Chunk>, end: CatchUpEnd)
    requires Counters(t, recent, |chunks|, Sum(chunks, Size), One(|chunks| == 0)) && !end.TurnRequest?
    ensures Counters(t + EndTrace(|chunks|, end), recent, |chunks|, Sum(chunks, Size), 0)
  {
    hide Counters;
    var n, taken := |chunks|, Sum(chunks, Size);
    SpareWeakens(t, recent, n, taken, One(n == 0), 0);
    if end.CursorUnread? {
      PollBeforeCounters(t, recent, n, taken);
      CountersSame(t + PollBefore(n), CursorRead(None), recent, n, taken, 1);
      SpareWeakens(t + PollBefore(n) + [CursorRead(None)], recent, n, taken, 1, 0);
      assert t + EndTrace(n, end) == t + PollBefore(n) + [CursorRead(None)];
    } else if end.TurnPollFailed? {
      CountersStep(t, PullFailed, recent, n, taken, 0);
      SpareWeakens(t + [PullFailed], recent, n, taken, 1, 0);
    } else {
      assert t + EndTrace(n, end) == t;
    }
  }

  lemma WithinCounters(t: seq<Event>, recent: nat, chunks: nat, blocks: nat, spare: nat)
    requires Counters(t, recent, chunks, blocks, spare) && recent <= 8 && chunks <= 4 && recent + blocks <= 32
    ensures Idle(t) && WithinBudget(t)
  {
  }

  lemma WorkWithinBudget(approves: bool, story: Story)
    requires StoryOk(approves, story)
    ensures Idle(Work(approves, story)) && WithinBudget(Work(approves, story))
  {
    hide Counters, Sum, SweepWork, ChunksTrace, EndTrace, Idle, WithinBudget, ChunksOk;
    match story
    case AtOnce(q) => AtOnceWork(Work(approves, story));
    case InSweep(sweep) =>
      SweepCounters(approves, sweep);
      WithinCounters(Work(approves, story), sweep.observed, 0, 0, 1);
    case Through(sweep, chunks, end) =>
      SweepCounters(approves, sweep);
      var t := [PullEmpty] + SweepWork(approves, sweep);
      ChunksCounters(t, sweep.observed, chunks);
      var u := t + ChunksTrace(chunks);
      if end.TurnRequest? {
        assert Work(approves, story) == u;
        WithinCounters(u, sweep.observed, |chunks|, Sum(chunks, Size), One(|chunks| == 0));
      } else {
        EndCounters(u, sweep.observed, chunks, end);
        WithinCounters(Work(approves, story), sweep.observed, |chunks|, Sum(chunks, Size), 0);
      }
  }

  lemma AtOnceWork(t: seq<Event>)
    requires t == [] || t == [PullFailed]
    ensures Idle(t) && WithinBudget(t)
  {
    assert t != [] ==> t[..0] == [];
  }

  /** The request part of a trace, wherever it stands. */
  predicate ReleasedExactly(t: seq<Event>) {
    && (forall i | 0 <= i < |t| && t[i].Consumed? && t[i].outcome != Settled ::
         i + 1 < |t| && t[i + 1] == ReleaseCalled(t[i].ack))
    && (forall i | 0 <= i < |t| && t[i].ReleaseCalled? ::
         0 < i && t[i - 1].Consumed? && t[i - 1].ack == t[i].ack && t[i - 1].outcome != Settled)
    && (forall i | 0 <= i < |t| && t[i].Consumed? :: 0 < i && t[i - 1] == Pulled(t[i].ack))
  }

  /** No archive observation is made after a request. */
  predicate NothingAfterRequest(t: seq<Event>) {
    forall i, j | 0 <= i < j < |t| && t[i].Consumed? :: !t[j].RecentObserved? && !t[j].CatchUp?
  }

  /** At most one request per iteration, no archive observation after it, released exactly
      when it failed or stayed pending; and the archive work stays within its bounds. */
  lemma IterationKeepsPromises(approves: bool, story: Story)
    requires StoryOk(approves, story)
    ensures var t := StoryTrace(approves, story);
            Sum(t, IsConsumed) <= 1 && NothingAfterRequest(t) && ReleasedExactly(t) && WithinBudget(t)
  {
    hide Sum, QueuedTrace, ReleasedExactly, NothingAfterRequest, StoryTrace, Work, Idle, WithinBudget, StoryOk;
    var t, work := StoryTrace(approves, story), Work(approves, story);
    StorySplits(approves, story);
    WorkWithinBudget(approves, story);
    if Request(story).Some? {
      var q := Request(story).value;
      HandledBudget(work, q);
      HandledPositions(work, q);
      HandledLast(work, q);
    } else {
      IdlePositions(t);
    }
  }

  lemma IdlePositions(t: seq<Event>)
    requires Idle(t)
    ensures ReleasedExactly(t) && NothingAfterRequest(t) && Sum(t, IsConsumed) == 0
  {
    NoWeight(t, IsConsumed);
  }

  lemma HandledPositions(idle: seq<Event>, q: Queued)
    requires Idle(idle) && q.Handled?
    ensures ReleasedExactly(idle + QueuedTrace(q))
  {
    var r := QueuedTrace(q);
    var t := idle + r;
    var n := |idle|;
    assert forall i | 0 <= i < n :: t[i] == idle[i] && idle[i] in idle;
    assert t[n] == r[0] && t[n + 1] == r[1] && t[n + 2] == r[2];
    assert |r| == 4 ==> t[n + 3] == r[3];
    assert |t| == n + |r| && (|r| == 3 || |r| == 4);
  }

  lemma HandledLast(idle: seq<Event>, q: Queued)
    requires Idle(idle) && q.Handled?
    ensures NothingAfterRequest(idle + QueuedTrace(q))
  {
    var r := QueuedTrace(q);
    var t := idle + r;
    assert forall k | 0 <= k < |idle| :: t[k] == idle[k] && idle[k] in idle;
    forall i, j | 0 <= i < j < |t| && t[i].Consumed? ensures !t[j].RecentObserved? && !t[j].CatchUp? {
      assert t[j] == r[j - |idle|];
    }
  }

  lemma HandledBudget(idle: seq<Event>, q: Queued)
    requires Idle(idle) && WithinBudget(idle) && q.Handled?
    ensures var t := idle + QueuedTrace(q); Sum(t, IsConsumed) <= 1 && WithinBudget(t)
  {
    hide Sum;
    var r := QueuedTrace(q);
    NoWeight(idle, IsConsumed);
    SumAppend(idle, r, IsConsumed);
    SumAppend(idle, r, IsRecent);
    SumAppend(idle, r, IsChunk);
    SumAppend(idle, r, ChunkBlocks);
    SumAppend(idle, r, IsArchive);
    SumAppend(idle, r, IsPoll);
    HandledWeights(q);
    assert forall e | e in idle + r :: e in idle || !e.CatchUp?;
  }

  lemma HandledWeights(q: Queued)
    requires q.Handled?
    ensures var r := QueuedTrace(q);
            Sum(r, IsConsumed) == 1 && Sum(r, IsRecent) == 0 && Sum(r, IsChunk) == 0
            && Sum(r, ChunkBlocks) == 0 && Sum(r, IsArchive) == 0
  {
    hide Sum;
    var r := QueuedTrace(q);
    assert forall e | e in r :: !e.RecentObserved? && !e.CatchUp?;
    NoWeight(r, IsRecent);
    NoWeight(r, IsChunk);
    NoWeight(r, ChunkBlocks);
    NoWeight(r, IsArchive);
    HandledCount(q);
  }

  lemma HandledCount(q: Queued)
    requires q.Handled?
    ensures Sum(QueuedTrace(q), IsConsumed) == 1
  {
    var r := QueuedTrace(q);
    var front := [Pulled(q.ack), Consumed(q.ack, q.outcome)];
    var back := r[2..];
    assert r == front + back;
    SumAppend(front, back, IsConsumed);
    NoWeight(back, IsConsumed);
    assert front[..1] == [Pulled(q.ack)] && front[..1][..0] == [];
  }

  lemma {:induction false} NoWeight(t: seq<Event>, w: Event -> nat)
    requires forall e | e in t :: w(e) == 0
    ensures Sum(t, w) == 0
  {
    if t != [] {
      assert t[|t| - 1] in t && forall e | e in t[..|t| - 1] :: e in t;
      NoWeight(t[..|t| - 1], w);
    }
  }

  // ---------------------------------------------------------------- when catching up goes on

  /** What is left of the 32 blocks before event `i`. */
  function LeftBefore(t: seq<Event>, i: nat): int
    requires i <= |t|
  {
    32 - Sum(t[..i], IsRecent) - Sum(t[..i], ChunkBlocks)
  }

  /** A poll comes next and, if it is empty, another chunk unless the cursor cannot be read. */
  predicate GoesOn(t: seq<Event>, j: nat) {
    && j < |t| && IsPoll(t[j]) == 1
    && (t[j].PullEmpty? ==>
          && j + 1 < |t| && t[j + 1].CursorRead?
          && (t[j + 1].at.Some? ==> j + 2 < |t| && t[j + 2].CatchUp?))
  }

  /** What surrounds a chunk: the cursor is read before it and, if it succeeds, after it. Catching up
      goes on when the cursor moved and blocks are left, and otherwise this is the end. */
  predicate ChunkRule(t: seq<Event>, i: nat)
    requires i < |t| && t[i].CatchUp?
  {
    && i > 0 && t[i - 1].CursorRead? && t[i - 1].at.Some?
    && t[i].chunk == ChunkSize(LeftBefore(t, i))
    && i + 1 < |t| && t[i + 1].ReadinessPublished?
    && if !t[i].ok then |t| == i + 2
       else
         && i + 2 < |t| && t[i + 2].CursorRead?
         && if t[i + 2].at.Some? && t[i + 2].at != t[i - 1].at && LeftBefore(t, i) > t[i].chunk
            then GoesOn(t, i + 3)
            else |t| == i + 3
  }

  /** Four chunks exhaust the blocks, so the number of turns is never what ends catching up. */
  lemma {:induction false} LeftAfter(recent: nat, chunks: seq<Chunk>)
    requires recent <= 8 && ChunksOk(recent, chunks) && Left(recent, chunks) > 0
    ensures Left(recent, chunks) == 32 - recent - 8 * |chunks| && |chunks| < 4
  {
    if chunks != [] {
      var n := |chunks| - 1;
      ChunksPrefix(recent, chunks, n);
      LastChunk(recent, chunks);
      assert chunks[n].size == ChunkSize(Left(recent, chunks[..n]));
      LeftAfter(recent, chunks[..n]);
    }
  }

  lemma {:induction false} ObservedHasNoChunk(blocks: seq<int>)
    ensures forall e | e in ObservedTrace(blocks) :: !e.CatchUp?
  {
    if blocks != [] { ObservedHasNoChunk(blocks[..|blocks| - 1]); }
  }

  lemma SweepHasNoChunk(approves: bool, s: Sweep)
    requires SweepOk(approves, s)
    ensures forall e | e in [PullEmpty] + SweepTrace(approves, s) :: !e.CatchUp?
  {
    hide ObservedTrace, Todo;
    ObservedHasNoChunk(Todo(s.candidates, s.known)[..s.observed]);
  }

  lemma EndHasNoChunk(turn: nat, end: CatchUpEnd)
    ensures forall e | e in EndTrace(turn, end) :: !e.CatchUp?
  {
  }

  /** What a turn looks like. */
  predicate TurnShape(tail: seq<Event>) {
    |tail| >= 3 && tail[0].PullEmpty? && tail[1].CursorRead? && tail[1].at.Some? && tail[2].CatchUp?
  }

  lemma TurnShaped(n: nat, c: Chunk)
    ensures var tail := PollBefore(n) + ChunkTrace(c);
            && (forall j | 0 <= j < |tail| && tail[j].CatchUp? :: j == |PollBefore(n)| + 1)
            && (n > 0 ==> TurnShape(tail))
  {
  }

  lemma InTheMiddle(a: seq<Event>, b: seq<Event>, c: seq<Event>, i: nat)
    requires (forall e | e in a :: !e.CatchUp?) && (forall e | e in c :: !e.CatchUp?)
    requires i < |a + b + c| && (a + b + c)[i].CatchUp?
    ensures |a| <= i < |a| + |b| && b[i - |a|].CatchUp?
  {
  }

  /** The chunk to which an event of the loop belongs, and what follows that chunk in the loop. */
  lemma {:induction false} LocateChunk(chunks: seq<Chunk>, i: nat) returns (k: nat, after: seq<Event>)
    requires i < |ChunksTrace(chunks)| && ChunksTrace(chunks)[i].CatchUp?
    ensures k < |chunks| && i == |ChunksTrace(chunks[..k])| + |PollBefore(k)| + 1
    ensures ChunksTrace(chunks) == ChunksTrace(chunks[..k]) + PollBefore(k) + ChunkTrace(chunks[k]) + after
    ensures k + 1 == |chunks| ==> after == []
    ensures k + 1 < |chunks| ==> TurnShape(after)
    decreases |chunks|
  {
    hide PollBefore, ChunkTrace;
    var n := |chunks| - 1;
    var front := chunks[..n];
    var tail := PollBefore(n) + ChunkTrace(chunks[n]);
    assert ChunksTrace(chunks) == ChunksTrace(front) + tail;
    TurnShaped(n, chunks[n]);
    if i < |ChunksTrace(front)| {
      k, after := LocateChunk(front, i);
      assert front[..k] == chunks[..k];
      after := after + tail;
    } else {
      k, after := n, [];
      assert tail[i - |ChunksTrace(front)|].CatchUp?;
    }
  }

  lemma {:induction false} ChunkOfTrace(approves: bool, story: Story, i: nat) returns (k: nat, after: seq<Event>)
    requires StoryOk(approves, story) && story.Through?
    requires i < |StoryTrace(approves, story)| && StoryTrace(approves, story)[i].CatchUp?
    ensures k < |story.chunks|
    ensures k + 1 == |story.chunks| ==> after == []
    ensures k + 1 < |story.chunks| ==> TurnShape(after)
    ensures var before := [PullEmpty] + SweepTrace(approves, story.sweep) + ChunksTrace(story.chunks[..k])
                          + PollBefore(k);
            && i == |before| + 1
            && StoryTrace(approves, story)
            == before + ChunkTrace(story.chunks[k]) + after + EndTrace(|story.chunks|, story.end)
  {
    hide SweepTrace, ChunksTrace, ChunkTrace, PollBefore, EndTrace, SweepOk, CatchUpOk;
    var t, a := StoryTrace(approves, story), [PullEmpty] + SweepTrace(approves, story.sweep);
    var b := ChunksTrace(story.chunks);
    var c := EndTrace(|story.chunks|, story.end);
    assert t == a + b + c;
    SweepHasNoChunk(approves, story.sweep);
    EndHasNoChunk(|story.chunks|, story.end);
    InTheMiddle(a, b, c, i);
    k, after := LocateChunk(story.chunks, i - |a|);
    assert a + b == a + ChunksTrace(story.chunks[..k]) + PollBefore(k) + ChunkTrace(story.chunks[k]) + after;
  }

  /** What was left before chunk `k`, counted on the trace. */
  lemma LeftOnTrace(approves: bool, sweep: Sweep, chunks: seq<Chunk>, k: nat, read: Event)
    requires SweepOk(approves, sweep) && !sweep.end.SweepRequest? && ChunksOk(sweep.observed, chunks)
    requires k < |chunks| && read.CursorRead?
    ensures var u := [PullEmpty] + SweepTrace(approves, sweep) + ChunksTrace(chunks[..k]) + PollBefore(k) + [read];
            32 - Sum(u, IsRecent) - Sum(u, ChunkBlocks) == Left(sweep.observed, chunks[..k])
  {
    hide SweepTrace, ChunksTrace, PollBefore, ChunksOk, Sum;
    var front, recent := chunks[..k], sweep.observed;
    SweepCounters(approves, sweep);
    ChunksPrefix(recent, chunks, k);
    var a := [PullEmpty] + SweepTrace(approves, sweep);
    assert a == [PullEmpty] + SweepWork(approves, sweep);
    ChunksCounters(a, recent, front);
    PollBeforeCounters(a + ChunksTrace(front), recent, k, Sum(front, Size));
    CountersSame(a + ChunksTrace(front) + PollBefore(k), read, recent, k, Sum(front, Size), 1);
  }

  /** Every chunk of every iteration obeys the rule. */
  lemma {:induction false} CatchUpContinues(approves: bool, story: Story, i: nat)
    requires StoryOk(approves, story)
    requires i < |StoryTrace(approves, story)| && StoryTrace(approves, story)[i].CatchUp?
    ensures ChunkRule(StoryTrace(approves, story), i)
  {
    hide SweepTrace, ChunksTrace, PollBefore, SweepOk, Sum;
    ThroughCatchesUp(approves, story, i);
    var t, chunks, end := StoryTrace(approves, story), story.chunks, story.end;
    var recent := story.sweep.observed;
    var k, after := ChunkOfTrace(approves, story, i);
    var c := chunks[k];
    var before := [PullEmpty] + SweepTrace(approves, story.sweep) + ChunksTrace(chunks[..k]) + PollBefore(k);
    var rest := after + EndTrace(|chunks|, end);
    assert t == before + ChunkTrace(c) + rest;
    assert t[..i] == before + [CursorRead(Some(c.cursor))];
    LeftOnTrace(approves, story.sweep, chunks, k, CursorRead(Some(c.cursor)));
    assert LeftBefore(t, i) == Left(recent, chunks[..k]);
    ChunkInPlace(t, before, c, rest);
    hide ChunkTrace, EndTrace, LeftBefore, StoryTrace, CatchUpOk, GoesOn, ChunkRule;
    AtMostEight(approves, story.sweep);
    WhatFollows(recent, chunks, end, k, after);
    RuleHolds(t, i, rest);
  }

  lemma RuleHolds(t: seq<Event>, i: nat, rest: seq<Event>)
    requires 0 < i < |t| && t[i].CatchUp? && t[i - 1].CursorRead? && t[i - 1].at.Some?
    requires t[i].chunk == ChunkSize(LeftBefore(t, i)) && i + 1 < |t| && t[i + 1].ReadinessPublished?
    requires t[i].ok ==> i + 2 < |t| && t[i + 2].CursorRead?
    requires var n := i + (if t[i].ok then 3 else 2); |t| == n + |rest| && t[n..] == rest
    requires if t[i].ok && t[i + 2].at.Some? && t[i + 2].at != t[i - 1].at && LeftBefore(t, i) > t[i].chunk
             then GoesOn(rest, 0) else rest == []
    ensures ChunkRule(t, i)
  {
    hide LeftBefore;
    assert forall j | 0 <= j < |rest| :: rest[j] == t[|t| - |rest| + j];
  }

  lemma ThroughCatchesUp(approves: bool, story: Story, i: nat)
    requires StoryOk(approves, story)
    requires i < |StoryTrace(approves, story)| && StoryTrace(approves, story)[i].CatchUp?
    ensures story.Through?
  {
    hide SweepTrace;
    if story.InSweep? {
      SweepHasNoChunk(approves, story.sweep);
    }
  }

  lemma ChunkInPlace(t: seq<Event>, before: seq<Event>, c: Chunk, rest: seq<Event>)
    requires t == before + ChunkTrace(c) + rest
    ensures var i, n := |before| + 1, |before| + |ChunkTrace(c)|;
            && |t| == n + |rest| && t[i - 1] == CursorRead(Some(c.cursor)) && t[i] == CatchUp(c.size, c.ok)
            && t[i + 1] == ReadinessPublished && (c.ok ==> t[i + 2] == CursorRead(c.later))
            && n == i + (if c.ok then 3 else 2) && t[n..] == rest
  {
  }

  /** After chunk `k` comes another turn exactly when the chunk moved the cursor and left blocks. */
  lemma {:induction false} WhatFollows(recent: nat, chunks: seq<Chunk>, end: CatchUpEnd, k: nat, after: seq<Event>)
    requires recent <= 8 && CatchUpOk(recent, chunks, end) && k < |chunks|
    requires k + 1 == |chunks| ==> after == []
    requires k + 1 < |chunks| ==> TurnShape(after)
    ensures chunks[k].size == ChunkSize(Left(recent, chunks[..k]))
    ensures var rest := after + EndTrace(|chunks|, end);
            if Moved(chunks[k]) && Left(recent, chunks[..k]) > chunks[k].size then GoesOn(rest, 0) else rest == []
  {
    hide Sum;
    LeftStep(recent, chunks, k);
    if k + 1 < |chunks| {
      assert Due(recent, chunks[..k + 1]) && chunks[..k + 1][k] == chunks[k];
    } else {
      assert chunks[..k + 1] == chunks;
      if end.FourChunks? { LeftAfter(recent, chunks); }
    }
  }

  lemma {:induction false} LeftStep(recent: nat, chunks: seq<Chunk>, k: nat)
    requires k < |chunks|
    ensures Left(recent, chunks[..k + 1]) == Left(recent, chunks[..k]) - chunks[k].size
  {
    assert chunks[..k + 1][..k] == chunks[..k];
  }

  /** An iteration without a request and without an exception ends in catching up, and only because
      a chunk failed, or did not move the cursor, or took the last of the blocks. */
  lemma {:induction false} QuietEnd(approves: bool, story: Story) returns (i: nat)
    requires StoryOk(approves, story) && Request(story).None? && !Raises(story)
    ensures var t := StoryTrace(approves, story);
            && 0 < i < |t| && t[i].CatchUp?
            && if !t[i].ok then |t| == i + 2
               else
                 && |t| == i + 3 && t[i + 2].CursorRead? && t[i + 2].at.Some? && t[i - 1].CursorRead?
                 && (t[i + 2].at == t[i - 1].at || LeftBefore(t, i) == t[i].chunk)
  {
    hide SweepTrace, ChunksTrace, PollBefore, SweepOk, Sum, ChunksOk, LeftBefore;
    var t, chunks := StoryTrace(approves, story), story.chunks;
    var n := |chunks| - 1;
    var before := [PullEmpty] + SweepTrace(approves, story.sweep) + ChunksTrace(chunks[..n]) + PollBefore(n);
    ChunksTraceLast([PullEmpty] + SweepTrace(approves, story.sweep), chunks);
    assert t == before + ChunkTrace(chunks[n]) + [];
    ChunkInPlace(t, before, chunks[n], []);
    i := |before| + 1;
    CatchUpContinues(approves, story, i);
  }
}
