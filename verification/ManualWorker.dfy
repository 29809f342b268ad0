/** One iteration of the manual treasury worker. Calls into the mailbox, the journal and the
    chain answer arbitrarily and may fail; what the worker does is recorded in a trace. */
module ManualWorker {
  import opened Wrappers
  import opened Sums
  import opened WorkerStories

  /** The worker; `trace` is what the current iteration did so far. */
  class Worker {
    var trace: seq<Event>

    constructor ()
      ensures trace == []
    {
      trace := [];
    }

    /** `consume_queued`, with `release_request` and the readiness publication, which swallow
        their own failures. Only the pull itself can raise. */
    method ConsumeQueued() returns (q: Queued)
      modifies this
      ensures trace == old(trace) + QueuedTrace(q)
    {
      var pulled: Option<Option<nat>> := *;
      match pulled
      case None =>
        trace := trace + [PullFailed];
        return PullRaised;
      case Some(None) =>
        trace := trace + [PullEmpty];
        return NothingQueued;
      case Some(Some(ack)) =>
        var outcome: Outcome := *;
        trace := trace + [Pulled(ack), Consumed(ack, outcome)];
        if outcome == Raised || outcome == StillPending {
          trace := trace + [ReleaseCalled(ack)];
        }
        trace := trace + [ReadinessPublished];
        return Handled(ack, outcome);
    }

    /** Polls, then observes one candidate; the sweep goes on when the result is None. */
    method ObserveCandidate(block: int) returns (end: Option<SweepEnd>)
      modifies this
      ensures end.None? ==> trace == old(trace) + [PullEmpty, RecentObserved(block, true), ReadinessPublished]
      ensures end.Some? ==>
                && trace == old(trace) + SweepEndTrace(end.value, block)
                && match end.value
                   case PollFailed => true
                   case ObservationFailed => true
                   case SweepRequest(q) => q.Handled?
                   case _ => false
    {
      var q := ConsumeQueued();
      if q.Handled? {
        return Some(SweepRequest(q));
      }
      if q.PullRaised? {
        return Some(PollFailed);
      }
      var ok: bool := *;
      trace := trace + [RecentObserved(block, ok)];
      if !ok {
        return Some(ObservationFailed);
      }
      trace := trace + [ReadinessPublished];
      return None;
    }

    /** The loop over the candidates. */
    method SweepCandidates(candidates: seq<int>, known: set<int>) returns (recent: nat, end: SweepEnd)
      modifies this
      ensures var s := Sweep(candidates, known, recent, end);
              SweepOk(true, s) && !end.Unlisted? && trace == old(trace) + CandidatesTrace(s)
    {
      hide Todo, ObservedTrace, CandidatesTrace;
      NothingToDo(known);
      recent := 0;
      var i := 0;
      while i < |candidates|
        invariant 0 <= i <= |candidates| && recent == |Todo(candidates[..i], known)| < 8
        invariant trace == old(trace) + ObservedTrace(Todo(candidates[..i], known))
      {
        var sourceFailed: bool := *;
        if sourceFailed {
          break;
        }
        var block := candidates[i];
        TodoNext(candidates, known, i);
        if block !in known {
          var ended := ObserveCandidate(block);
          if ended.Some? {
            EndAtCandidate(candidates, known, i, ended.value);
            return recent, ended.value;
          }
          recent := recent + 1;
          if recent == 8 {
            EndBetween(candidates, known, i + 1, EightObserved);
            return recent, EightObserved;
          }
        }
        i := i + 1;
      }
      var exhausted: bool := *;
      if i == |candidates| && exhausted {
        EndBetween(candidates, known, i, Exhausted);
        return recent, Exhausted;
      }
      trace := trace + [CandidatesFailed];
      EndBetween(candidates, known, i, SourceFailed);
      return recent, SourceFailed;
    }

    /** The sweep over recent candidates, inside its try block: any failure, also that of the
        pull, ends the sweep. */
    method RecentSweep(approves: bool) returns (recent: nat, requested: bool, ghost sweep: Sweep)
      modifies this
      ensures SweepOk(approves, sweep) && trace == old(trace) + SweepTrace(approves, sweep)
      ensures recent == sweep.observed && (requested <==> sweep.end.SweepRequest?)
    {
      if !approves {
        return 0, false, Sweep([], {}, 0, NotApproved);
      }
      var listed: bool, candidates: seq<int>, known: set<int> := *, *, *;
      if !listed {
        trace := trace + [ListingFailed];
        return 0, false, Sweep([], {}, 0, Unlisted);
      }
      trace := trace + [Listed(candidates, known)];
      var end;
      recent, end := SweepCandidates(candidates, known);
      return recent, end.SweepRequest?, Sweep(candidates, known, recent, end);
    }

    /** One chunk of the catch-up loop; None when the cursor could not be read before it. */
    method CatchUpChunk(remaining: nat) returns (c: Option<Chunk>)
      modifies this
      ensures c.None? ==> trace == old(trace) + [CursorRead(None)]
      ensures c.Some? ==> trace == old(trace) + ChunkTrace(c.value) && c.value.size == ChunkSize(remaining)
    {
      var cursor: Option<int> := *;
      trace := trace + [CursorRead(cursor)];
      if !cursor.Some? {
        return None;
      }
      var before := cursor.value;
      var chunk := if remaining < 8 then remaining else 8;
      var ok: bool := *;
      trace := trace + [CatchUp(chunk, ok), ReadinessPublished];
      var later: Option<int> := *;
      if ok {
        trace := trace + [CursorRead(later)];
      }
      return Some(Chunk(before, chunk, ok, later));
    }

    /** One turn of the catch-up loop, which goes on when `end` is None. */
    method CatchUpTurn(ghost base: seq<Event>, ghost recent: nat, ghost chunks: seq<Chunk>, index: nat, remaining: nat)
      returns (left: nat, end: Option<CatchUpEnd>, ghost more: seq<Chunk>)
      requires ChunksOk(recent, chunks) && Due(recent, chunks)
      requires index == |chunks| && remaining == Left(recent, chunks) && trace == base + ChunksTrace(chunks)
      modifies this
      ensures end.Some? ==>
                && CatchUpOk(recent, more, end.value)
                && trace == base + ChunksTrace(more) + EndTrace(|more|, end.value)
      ensures end.None? ==>
                && |more| == index + 1 && ChunksOk(recent, more) && Moved(more[index])
                && left == Left(recent, more) > 0 && trace == base + ChunksTrace(more)
    {
      hide Sum, ChunksTrace, ChunksOk;
      left, more := remaining, chunks;
      if index > 0 {
        var q := ConsumeQueued();
        if q.Handled? {
          return left, Some(TurnRequest(q)), more;
        }
        if q.PullRaised? {
          return left, Some(TurnPollFailed), more;
        }
      }
      var c := CatchUpChunk(remaining);
      if !c.Some? {
        return left, Some(CursorUnread), more;
      }
      var chunk := c.value;
      TakeChunk(recent, chunks, chunk);
      more := chunks + [chunk];
      if !chunk.ok {
        return left, Some(ChunkFailed), more;
      }
      left := remaining - chunk.size;
      if !chunk.later.Some? {
        return left, Some(LaterUnread), more;
      }
      if chunk.later.value == chunk.cursor || left == 0 {
        return left, Some(if chunk.later.value == chunk.cursor then Unmoved else NothingLeft), more;
      }
      return left, None, more;
    }

    /** The catch-up loop after `recent` successful observations. */
    method CatchUpLoop(recent: nat) returns (raised: bool, ghost chunks: seq<Chunk>, ghost end: CatchUpEnd)
      requires recent <= 8
      modifies this
      ensures CatchUpOk(recent, chunks, end)
      ensures trace == old(trace) + ChunksTrace(chunks) + EndTrace(|chunks|, end)
      ensures raised <==> end.CursorUnread? || end.LaterUnread? || end.TurnPollFailed?
    {
      hide Sum, QueuedTrace, ChunksTrace, ChunksOk;
      var remaining: nat := 32 - recent;
      chunks := [];
      NothingTaken(recent);
      var index := 0;
      while index < 4
        invariant 0 <= index == |chunks| <= 4 && ChunksOk(recent, chunks)
        invariant remaining == Left(recent, chunks) > 0 && (index > 0 ==> Moved(chunks[index - 1]))
        invariant trace == old(trace) + ChunksTrace(chunks)
      {
        var turn;
        remaining, turn, chunks := CatchUpTurn(old(trace), recent, chunks, index, remaining);
        if turn.Some? {
          end := turn.value;
          return turn.value.CursorUnread? || turn.value.LaterUnread? || turn.value.TurnPollFailed?, chunks, end;
        }
        index := index + 1;
      }
      return false, chunks, FourChunks;
    }

    /** `consume_iteration`; `approves` says that the chain takes manual approvals, `raised` that
        an exception left it. The trace tells a complete story, up to an end that had to come. It has
        at most one request, released exactly when it failed or stayed pending and followed by no
        archive observation; the archive work stays within its budget, and goes on while the cursor
        moves and blocks are left. */
    method ConsumeIteration(approves: bool) returns (raised: bool, ghost story: Story)
      modifies this
      ensures StoryOk(approves, story) && trace == StoryTrace(approves, story)
      ensures raised <==> Raises(story)
      ensures Sum(trace, IsConsumed) <= 1 && NothingAfterRequest(trace) && ReleasedExactly(trace)
      ensures WithinBudget(trace)
      ensures forall i | 0 <= i < |trace| && trace[i].CatchUp? :: ChunkRule(trace, i)
    {
      hide StoryOk, StoryTrace, NothingAfterRequest, ReleasedExactly, WithinBudget, ChunkRule;
      raised, story := RunIteration(approves);
      IterationKeepsPromises(approves, story);
      forall i | 0 <= i < |trace| && trace[i].CatchUp? ensures ChunkRule(trace, i) {
        CatchUpContinues(approves, story, i);
      }
    }

    method RunIteration(approves: bool) returns (raised: bool, ghost story: Story)
      modifies this
      ensures StoryOk(approves, story) && trace == StoryTrace(approves, story) && (raised <==> Raises(story))
    {
      hide SweepOk, SweepTrace, CatchUpOk, ChunksTrace, EndTrace;
      trace := [];
      var q := ConsumeQueued();
      if !q.NothingQueued? {
        return q.PullRaised?, AtOnce(q);
      }
      var recent, requested, sweep := RecentSweep(approves);
      if requested {
        return false, InSweep(sweep);
      }
      assert recent <= 8 by { AtMostEight(approves, sweep); }
      ghost var chunks, end;
      raised, chunks, end := CatchUpLoop(recent);
      return raised, Through(sweep, chunks, end);
    }
  }
}
