/**
 The per-port history of sent blocks: what a checkpoint from the receiver does to it, as functions on values
 and as the class whose pop loop computes them.
 */
module TransferHistory {
  import opened Options
  import opened Sources
  import opened SourceQueues

  /** A checkpoint for one port: verified blocks, and how much of the next block arrived. */
  datatype Checkpoint = Checkpoint(numBlocks: nat, seqId: nat, offset: int, bytes: nat, hasSeqId: bool)

  datatype Status = Ok | NoProgress | InvalidCheckpoint

  datatype History = History(sources: seq<Source>, global: bool, acked: nat, last: Option<Checkpoint>)

  const EMPTY := History([], false, 0, None)

  predicate SameBlock(a: Checkpoint, b: Checkpoint) {
    a.seqId == b.seqId && a.offset == b.offset
  }

  /** Accepts, rejects or flags a checkpoint against the previous one. */
  function Validate(last: Option<Checkpoint>, ck: Checkpoint, global: bool): Status {
    if last.None? || ck.numBlocks > last.value.numBlocks then Ok
    else if ck.numBlocks < last.value.numBlocks then InvalidCheckpoint
    else if SameBlock(ck, last.value) && ck.bytes != last.value.bytes then InvalidCheckpoint
    else if (SameBlock(ck, last.value) || ck.bytes == 0) && !global then NoProgress
    else Ok
  }

  /** Bytes of the source that a checkpoint vouches for; one without a seq-id is trusted blindly. */
  function Credit(s: Source, ck: Option<Checkpoint>): nat {
    if ck.None? || (ck.value.hasSeqId && !(ck.value.seqId == s.meta.seqId && ck.value.offset == s.offset))
    then 0 else ck.value.bytes
  }

  function MarkFailed(s: Source, ck: Option<Checkpoint>): Source {
    var r := Credit(s, ck);
    var st := s.stats;
    var failed := if !st.ok then st.(effData := st.effData + r)
                  else Stats(st.data, 0, st.effData - (s.size - r), st.blocks - 1, st.failed + 1, false);
    s.(stats := failed).AdvanceOffset(r)
  }

  /** The same entry on the books of the thread that sent the source. */
  function ThreadAfter(t: Stats, s: Source, ck: Option<Checkpoint>): Stats {
    var r := Credit(s, ck);
    if !s.stats.ok then t.(effData := t.effData + r)
    else Stats(t.data, t.effHeader - s.stats.effHeader, t.effData - (s.size - r), t.blocks - 1, t.failed + 1, t.ok)
  }

  function CreditedRange(s: Source, ck: Option<Checkpoint>): Range {
    Range(s.meta.seqId, s.offset, s.offset + Credit(s, ck))
  }

  /** The checkpoint speaks only about the first block after the acknowledged ones. */
  function CkFor(i: nat, n: nat, ck: Checkpoint): Option<Checkpoint> {
    if i == n then Some(ck) else None
  }

  /** The sources behind the first `n`, last one first, as they go back to the queue. */
  function FailTail(h: seq<Source>, n: nat, ck: Checkpoint): seq<Source>
    requires n <= |h|
  {
    if |h| == n then []
    else [MarkFailed(h[|h| - 1], CkFor(|h| - 1, n, ck))] + FailTail(h[..|h| - 1], n, ck)
  }

  function FailTailStats(t: Stats, h: seq<Source>, n: nat, ck: Checkpoint): Stats
    requires n <= |h|
    decreases |h|
  {
    if |h| == n then t
    else FailTailStats(ThreadAfter(t, h[|h| - 1], CkFor(|h| - 1, n, ck)), h[..|h| - 1], n, ck)
  }

  function CheckpointStatus(h: History, ck: Checkpoint, global: bool): Status {
    if ck.numBlocks > |h.sources| then InvalidCheckpoint else Validate(h.last, ck, global)
  }

  function AfterCheckpoint(h: History, ck: Checkpoint, global: bool): History {
    if CheckpointStatus(h, ck, global) == InvalidCheckpoint then h
    else History(h.sources[..ck.numBlocks], h.global || global, ck.numBlocks, Some(ck))
  }

  function Returned(h: History, ck: Checkpoint, global: bool): seq<Source> {
    if CheckpointStatus(h, ck, global) == InvalidCheckpoint then [] else FailTail(h.sources, ck.numBlocks, ck)
  }

  function StatsAfterCheckpoint(t: Stats, h: History, ck: Checkpoint, global: bool): Stats {
    if CheckpointStatus(h, ck, global) == InvalidCheckpoint then t
    else FailTailStats(t, h.sources, ck.numBlocks, ck)
  }

  /** The ranges a checkpoint credits: at most the received part of the first unacknowledged block. */
  function CreditedBy(h: History, ck: Checkpoint, global: bool): seq<Range> {
    if CheckpointStatus(h, ck, global) == InvalidCheckpoint || ck.numBlocks == |h.sources| then []
    else [CreditedRange(h.sources[ck.numBlocks], Some(ck))]
  }

  /** Adding a sent source; a history that already has a global checkpoint sends it back instead. */
  function AfterAdd(h: History, s: Source): History {
    if h.global then h.(last := None) else h.(sources := h.sources + [s])
  }

  /** The checkpoint used for what was never received: all acknowledged blocks, nothing partial, no seq-id. */
  function UnackedCheckpoint(h: History): Checkpoint {
    Checkpoint(h.acked, 0, 0, 0, false)
  }

  /** A credit that stays inside the block it is given to. */
  predicate Fits(s: Source, ck: Option<Checkpoint>) {
    Credit(s, ck) <= s.size
  }

  // ---- what marking a source as failed conserves

  /** The books stay balanced and the bytes no longer owed are exactly the credited ones. */
  lemma MarkFailedBalances(t: Stats, s: Source, ck: Option<Checkpoint>, m: Measure)
    ensures Audited(m) ==>
              StatsValue(m, ThreadAfter(t, s, ck)) - StatsValue(m, t)
              == SourceValue(m, MarkFailed(s, ck)) - SourceValue(m, s)
    ensures m.Owed? && Fits(s, ck) ==>
              SourceValue(m, MarkFailed(s, ck)) + RangeValue(CreditedRange(s, ck), m.seqId, m.pos)
              == SourceValue(m, s)
  {
  }

  lemma {:induction false} FailTailBalances(t: Stats, h: seq<Source>, n: nat, ck: Checkpoint, m: Measure)
    requires n <= |h|
    ensures Audited(m) ==>
              StatsValue(m, FailTailStats(t, h, n, ck)) - StatsValue(m, t)
              == Sum(m, FailTail(h, n, ck)) + Sum(m, h[..n]) - Sum(m, h)
    ensures m.Owed? && (n < |h| ==> Fits(h[n], Some(ck))) ==>
              Sum(m, FailTail(h, n, ck)) + Sum(m, h[..n])
              + (if n < |h| then RangeValue(CreditedRange(h[n], Some(ck)), m.seqId, m.pos) else 0)
              == Sum(m, h)
    decreases |h|
  {
    if |h| == n {
      assert h[..n] == h;
    } else {
      var last, c := h[|h| - 1], CkFor(|h| - 1, n, ck);
      var rest := h[..|h| - 1];
      MarkFailedBalances(t, last, c, m);
      FailTailBalances(ThreadAfter(t, last, c), rest, n, ck, m);
      assert rest[..n] == h[..n];
      SumConcat(m, [MarkFailed(last, c)], FailTail(rest, n, ck));
      SumOne(m, MarkFailed(last, c));
      if n < |rest| {
        assert rest[n] == h[n];
      }
    }
  }

  lemma {:induction false} FailTailLength(h: seq<Source>, n: nat, ck: Checkpoint)
    requires n <= |h|
    ensures |FailTail(h, n, ck)| == |h| - n
    ensures forall k :: 0 <= k < |h| - n ==>
                          FailTail(h, n, ck)[k] == MarkFailed(h[|h| - 1 - k], CkFor(|h| - 1 - k, n, ck))
  {
    if |h| != n {
      FailTailLength(h[..|h| - 1], n, ck);
    }
  }

  /**
   A checkpoint moves sources but loses none: for every audited counter the change on the thread's books is the
   change on the sources' books, and every owed position is still owed or has just been credited.
   */
  lemma CheckpointConserves(t: Stats, h: History, ck: Checkpoint, global: bool, m: Measure)
    ensures Audited(m) ==>
              StatsValue(m, StatsAfterCheckpoint(t, h, ck, global)) - StatsValue(m, t)
              == Sum(m, Returned(h, ck, global)) + Sum(m, AfterCheckpoint(h, ck, global).sources)
                 - Sum(m, h.sources)
    ensures m.Owed? && (ck.numBlocks < |h.sources| ==> Fits(h.sources[ck.numBlocks], Some(ck))) ==>
              Sum(m, Returned(h, ck, global)) + Sum(m, AfterCheckpoint(h, ck, global).sources)
              + Times(CreditedBy(h, ck, global), m.seqId, m.pos)
              == Sum(m, h.sources)
  {
    if CheckpointStatus(h, ck, global) != InvalidCheckpoint {
      FailTailBalances(t, h.sources, ck.numBlocks, ck, m);
      if ck.numBlocks < |h.sources| {
        var c := CreditedRange(h.sources[ck.numBlocks], Some(ck));
        assert [c][..0] == [];
      }
    }
  }

  /** Handling the same global checkpoint again returns nothing and changes nothing. */
  lemma GlobalCheckpointIdempotent(t: Stats, h: History, ck: Checkpoint)
    requires CheckpointStatus(h, ck, true) != InvalidCheckpoint
    ensures var h' := AfterCheckpoint(h, ck, true);
            AfterCheckpoint(h', ck, true) == h' && Returned(h', ck, true) == []
            && StatsAfterCheckpoint(t, h', ck, true) == t && CreditedBy(h', ck, true) == []
  {
    var h' := AfterCheckpoint(h, ck, true);
    assert h'.sources[..ck.numBlocks] == h'.sources;
  }

  /** Returning the unacknowledged sources keeps exactly the acknowledged ones, unless a partial
      checkpoint for position 0 of seq-id 0 is on record for the same count. */
  lemma ReturnUnackedKeepsAcked(h: History)
    requires h.acked <= |h.sources|
    requires h.last.Some? ==> h.last.value.numBlocks <= h.acked
    ensures |AfterCheckpoint(h, UnackedCheckpoint(h), false).sources| == h.acked
            <==> (h.acked == |h.sources|
                  || !(h.last.Some? && h.last.value.numBlocks == h.acked && h.last.value.seqId == 0
                       && h.last.value.offset == 0 && h.last.value.bytes > 0))
  {
  }

  /** It does not after a partial checkpoint for the first block of a queue that was rebuilt from id 0. */
  lemma UnackedStayAfterPartialOfIdZero(s: Source, next: Source) returns (h: History)
    ensures var ck := Checkpoint(0, 0, 0, 1, true);
            && CheckpointStatus(AfterAdd(EMPTY, s), ck, false) == Ok
            && h == AfterAdd(AfterCheckpoint(AfterAdd(EMPTY, s), ck, false), next)
    ensures h.acked == 0 && h.sources == [next] && AfterCheckpoint(h, UnackedCheckpoint(h), false) == h
  {
    var ck := Checkpoint(0, 0, 0, 1, true);
    assert AfterAdd(EMPTY, s).sources[..0] == [];
    h := AfterAdd(AfterCheckpoint(AfterAdd(EMPTY, s), ck, false), next);
  }

  /** The class of the program; `threadStats` is the counter object of the owning thread. */
  class ThreadTransferHistory {
    const queue: DirectorySourceQueue
    var history: seq<Source>
    var globalCheckpoint: bool
    var numAcknowledged: nat
    var lastCheckpoint: Option<Checkpoint>
    var threadStats: Stats

    function State(): History
      reads this
    {
      History(history, globalCheckpoint, numAcknowledged, lastCheckpoint)
    }

    constructor (queue: DirectorySourceQueue)
      ensures this.queue == queue && State() == EMPTY && threadStats == NO_STATS
    {
      this.queue := queue;
      history, globalCheckpoint, numAcknowledged, lastCheckpoint := [], false, 0, None;
      threadStats := NO_STATS;
    }

    method AddSource(source: Source) returns (added: bool)
      requires queue.numBlocksDequeued > 0
      modifies this`history, this`lastCheckpoint, this`threadStats, queue`sourceQueue, queue`numBlocksDequeued
      ensures added == !old(globalCheckpoint)
      ensures State() == AfterAdd(old(State()), source)
      ensures added ==> threadStats == old(threadStats) && queue.sourceQueue == old(queue.sourceQueue)
                        && queue.numBlocksDequeued == old(queue.numBlocksDequeued)
      ensures !added ==>
                threadStats == ThreadAfter(old(threadStats), source, old(lastCheckpoint))
                && queue.sourceQueue == old(queue.sourceQueue) + [MarkFailed(source, old(lastCheckpoint))]
                && queue.numBlocksDequeued == old(queue.numBlocksDequeued) - 1
    {
      if globalCheckpoint {
        var failed := MarkSourceAsFailed(source, lastCheckpoint);
        lastCheckpoint := None;
        queue.ReturnToQueue([failed]);
        return false;
      }
      history := history + [source];
      return true;
    }

    method MarkSourceAsFailed(source: Source, checkpoint: Option<Checkpoint>) returns (failed: Source)
      modifies this`threadStats
      ensures failed == MarkFailed(source, checkpoint)
      ensures threadStats == ThreadAfter(old(threadStats), source, checkpoint)
    {
      var validCheckpoint := false;
      if checkpoint.Some? {
        if checkpoint.value.hasSeqId {
          validCheckpoint := checkpoint.value.seqId == source.meta.seqId
                             && checkpoint.value.offset == source.offset;
        } else {
          validCheckpoint := true;
        }
      }
      var receivedBytes := if validCheckpoint then checkpoint.value.bytes else 0;
      var s, t := source.stats, threadStats;
      if !s.ok {
        s := s.(effData := s.effData + receivedBytes);
        t := t.(effData := t.effData + receivedBytes);
      } else {
        var headerBytes, wastedBytes := s.effHeader, source.size - receivedBytes;
        s := s.(effHeader := s.effHeader - headerBytes, effData := s.effData - wastedBytes,
                blocks := s.blocks - 1, ok := false, failed := s.failed + 1);
        t := t.(effHeader := t.effHeader - headerBytes, effData := t.effData - wastedBytes,
                blocks := t.blocks - 1, failed := t.failed + 1);
      }
      threadStats := t;
      failed := source.(stats := s).AdvanceOffset(receivedBytes);
    }

    /** The pop loop: everything behind the first `n` sources is marked as failed, last one first. */
    method PopFailedSources(n: nat, checkpoint: Checkpoint) returns (sourcesToReturn: seq<Source>)
      requires n <= |history|
      modifies this`history, this`threadStats
      ensures history == old(history)[..n]
      ensures sourcesToReturn == FailTail(old(history), n, checkpoint)
      ensures threadStats == FailTailStats(old(threadStats), old(history), n, checkpoint)
      ensures |sourcesToReturn| == |old(history)| - n
    {
      sourcesToReturn := [];
      ghost var h, t := history, threadStats;
      var numFailedSources := |history| - n;
      for i := 0 to numFailedSources
        invariant history == h[..|h| - i]
        invariant |sourcesToReturn| == i
        invariant FailTail(h, n, checkpoint) == sourcesToReturn + FailTail(history, n, checkpoint)
        invariant FailTailStats(t, h, n, checkpoint) == FailTailStats(threadStats, history, n, checkpoint)
      {
        var source := history[|history| - 1];
        ghost var before, tail := history, FailTail(history[..|history| - 1], n, checkpoint);
        var checkpointPtr := if i == numFailedSources - 1 then Some(checkpoint) else None;
        assert checkpointPtr == CkFor(|history| - 1, n, checkpoint);
        var failed := MarkSourceAsFailed(source, checkpointPtr);
        history := history[..|history| - 1];
        assert FailTail(before, n, checkpoint) == [failed] + tail;
        assert sourcesToReturn + ([failed] + tail) == (sourcesToReturn + [failed]) + tail;
        sourcesToReturn := sourcesToReturn + [failed];
        assert before[..|before| - 1] == h[..|h| - (i + 1)];
      }
    }

    method SetCheckpointAndReturnToQueue(checkpoint: Checkpoint, isGlobal: bool) returns (status: Status)
      requires queue.numBlocksDequeued >= |history|
      modifies this, queue`sourceQueue, queue`numBlocksDequeued
      ensures status == CheckpointStatus(old(State()), checkpoint, isGlobal)
      ensures State() == AfterCheckpoint(old(State()), checkpoint, isGlobal)
      ensures threadStats == StatsAfterCheckpoint(old(threadStats), old(State()), checkpoint, isGlobal)
      ensures queue.sourceQueue == old(queue.sourceQueue) + Returned(old(State()), checkpoint, isGlobal)
      ensures queue.numBlocksDequeued - |history| == old(queue.numBlocksDequeued) - |old(history)|
    {
      if checkpoint.numBlocks > |history| {
        return InvalidCheckpoint;
      }
      status := Validate(lastCheckpoint, checkpoint, isGlobal);
      if status == InvalidCheckpoint {
        return;
      }
      globalCheckpoint := globalCheckpoint || isGlobal;
      lastCheckpoint := Some(checkpoint);
      numAcknowledged := checkpoint.numBlocks;
      var sourcesToReturn := PopFailedSources(checkpoint.numBlocks, checkpoint);
      queue.ReturnToQueue(sourcesToReturn);
    }

    method SetLocalCheckpoint(checkpoint: Checkpoint) returns (status: Status)
      requires queue.numBlocksDequeued >= |history|
      modifies this, queue`sourceQueue, queue`numBlocksDequeued
      ensures status == CheckpointStatus(old(State()), checkpoint, false)
      ensures State() == AfterCheckpoint(old(State()), checkpoint, false)
      ensures threadStats == StatsAfterCheckpoint(old(threadStats), old(State()), checkpoint, false)
      ensures queue.sourceQueue == old(queue.sourceQueue) + Returned(old(State()), checkpoint, false)
      ensures queue.numBlocksDequeued - |history| == old(queue.numBlocksDequeued) - |old(history)|
    {
      status := SetCheckpointAndReturnToQueue(checkpoint, false);
    }

    method MarkAllAcknowledged()
      modifies this`numAcknowledged
      ensures State() == old(State()).(acked := |history|)
    {
      numAcknowledged := |history|;
    }

    method ReturnUnackedSourcesToQueue()
      requires queue.numBlocksDequeued >= |history|
      modifies this, queue`sourceQueue, queue`numBlocksDequeued
      ensures var ck := UnackedCheckpoint(old(State()));
              && State() == AfterCheckpoint(old(State()), ck, false)
              && threadStats == StatsAfterCheckpoint(old(threadStats), old(State()), ck, false)
              && queue.sourceQueue == old(queue.sourceQueue) + Returned(old(State()), ck, false)
              && queue.numBlocksDequeued - |history| == old(queue.numBlocksDequeued) - |old(history)|
    {
      var checkpoint := Checkpoint(numAcknowledged, 0, 0, 0, false);
      var status := SetCheckpointAndReturnToQueue(checkpoint, false);
    }
  }
}
