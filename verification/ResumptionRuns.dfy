/** A rebuilt queue is one that the retry protocol can start from: its blocks are new, and apart from each other. */
module ResumptionRuns {
  import opened Options
  import opened Wire
  import opened Intervals
  import opened Sources
  import opened Resumption
  import opened ResumptionLaws
  import P = CheckpointProtocol
  import F = ReceiverFinish
  import E = TransferEnd

  predicate IsNew(b: Source) {
    && b.size >= 0 && b.offset >= 0 && b == NewSource(b.meta, b.size, b.offset)
    && (b.meta.allocation == ToBeDeleted ==> b.size == 0)
  }

  predicate AllNew(ss: seq<Source>) {
    forall i :: 0 <= i < |ss| ==> IsNew(ss[i])
  }

  predicate NoneEmpty(ss: seq<Source>) {
    forall i :: 0 <= i < |ss| ==> ss[i].size > 0
  }

  /** An empty block is the only one of its file. */
  predicate Alone(ss: seq<Source>) {
    forall i, j :: 0 <= i < j < |ss| && ss[i].meta.relPath == ss[j].meta.relPath ==> ss[i].size > 0 && ss[j].size > 0
  }

  /** Blocks of one id do not overlap, and an empty one is the only one of its id. */
  predicate Apart(ss: seq<Source>) {
    forall i, j :: 0 <= i < j < |ss| && ss[i].meta.seqId == ss[j].meta.seqId ==>
      && ss[i].size > 0 && ss[j].size > 0
      && (ss[i].offset + ss[i].size <= ss[j].offset || ss[j].offset + ss[j].size <= ss[i].offset)
  }

  // ---- one file

  lemma {:induction false} SplitNew(meta: MetaData, offset: nat, remaining: nat, blockSize: nat)
    requires meta.allocation != ToBeDeleted && (remaining > 0 ==> blockSize > 0)
    ensures var ss := Split(meta, offset, remaining, blockSize);
            AllNew(ss) && (remaining > 0 ==> NoneEmpty(ss)) && (remaining == 0 ==> |ss| == 1)
    decreases remaining
  {
    var size := Least(remaining, blockSize);
    if remaining > size {
      SplitNew(meta, offset + size, remaining - size, blockSize);
    }
  }

  lemma {:induction false} SplitAllNew(meta: MetaData, chunks: seq<Interval>, blockSize: nat)
    requires meta.allocation != ToBeDeleted && Splittable(chunks, blockSize)
    ensures AllNew(SplitAll(meta, chunks, blockSize))
    ensures (forall i :: 0 <= i < |chunks| ==> chunks[i].start < chunks[i].end) ==>
              NoneEmpty(SplitAll(meta, chunks, blockSize))
  {
    if chunks != [] {
      var n := |chunks| - 1;
      SplitAllNew(meta, chunks[..n], blockSize);
      SplitNew(meta, chunks[n].start, chunks[n].end - chunks[n].start, blockSize);
    }
  }

  lemma FileAlone(cfg: Config, prev: seq<FileChunks>, q: Queue, f: File) returns (added: seq<Source>)
    requires EntriesOk(prev)
    ensures AddFile(cfg, prev, q, f).sources == q.sources + added && AllNew(added)
    ensures forall b :: b in added ==> b.meta.relPath == f.relPath
    ensures |added| <= 1 || NoneEmpty(added)
  {
    added := AddFileAppends(cfg, prev, q, f);
    var known := Find(prev, f.relPath);
    var meta, chunks, blockSize := MetaOf(known, f, q.nextSeqId), ToSend(known, f.size), BlockSize(cfg, f.size);
    SplitAllNew(meta, chunks, blockSize);
    if Resumes(known, f.size) {
      RemainingTiles(known.value.chunks, 0, f.size, 0);
    } else if f.size == 0 {
      SplitNew(meta, 0, 0, blockSize);
      assert chunks[..0] == [];
      assert SplitAll(meta, chunks, blockSize) == SplitAll(meta, [], blockSize) + Split(meta, 0, 0, blockSize);
    }
  }

  // ---- the queue

  lemma AloneConcat(a: seq<Source>, b: seq<Source>)
    requires Alone(a) && Alone(b)
    requires forall x, y :: x in a && y in b ==> x.meta.relPath != y.meta.relPath
    ensures Alone(a + b)
  {
    var ss := a + b;
    forall i, j | 0 <= i < j < |ss| && ss[i].meta.relPath == ss[j].meta.relPath
      ensures ss[i].size > 0 && ss[j].size > 0
    {
      if j < |a| {
        assert ss[i] == a[i] && ss[j] == a[j];
      } else if i < |a| {
        assert false;
      } else {
        assert ss[i] == b[i - |a|] && ss[j] == b[j - |a|];
      }
    }
  }

  lemma {:induction false} FilesAlone(cfg: Config, prev: seq<FileChunks>, base: nat, fs: seq<File>)
    requires EntriesOk(prev) && DistinctNames(fs)
    ensures var ss := AddFiles(cfg, prev, EmptyQueue(base), fs).sources; Alone(ss) && AllNew(ss)
  {
    if fs != [] {
      var n := |fs| - 1;
      var q := AddFiles(cfg, prev, EmptyQueue(base), fs[..n]);
      FilesAlone(cfg, prev, base, fs[..n]);
      FilesTile(cfg, prev, base, fs[..n], fs[n], 0);
      var added := FileAlone(cfg, prev, q, fs[n]);
      forall x, y | x in q.sources && y in added ensures x.meta.relPath != y.meta.relPath {
        var i :| 0 <= i < n && fs[..n][i].relPath == x.meta.relPath;
        assert fs[i].relPath == x.meta.relPath;
      }
      AloneConcat(q.sources, added);
    }
  }

  lemma {:induction false} DeletionsAlone(prev: seq<FileChunks>, fs: seq<File>)
    requires DistinctEntries(prev)
    ensures AllNew(Deletions(prev, fs)) && Alone(Deletions(prev, fs))
  {
    if prev != [] {
      var n := |prev| - 1;
      var init := Deletions(prev[..n], fs);
      DeletionsAlone(prev[..n], fs);
      DeletionsNamed(prev[..n], fs);
      if !Discovered(fs, prev[n].name) {
        var last := [Deletion(prev[n])];
        forall x, y | x in init && y in last ensures x.meta.relPath != y.meta.relPath {
          assert IsDeletion(prev[..n], fs, x);
          var i :| 0 <= i < n && x == Deletion(prev[..n][i]);
          assert prev[..n][i] == prev[i];
        }
        AloneConcat(init, last);
      }
    }
  }

  lemma QueueAlone(cfg: Config, list: seq<FileChunks>, fs: seq<File>, finished: bool)
    requires EntriesOk(list) && DistinctNames(fs)
    ensures var ss := Outcome(cfg, Some(list), fs, finished).queue.sources;
            && Alone(ss) && AllNew(ss)
            && forall b :: b in ss && b.size > 0 ==> Discovered(fs, b.meta.relPath)
  {
    IndexedOk(list);
    var prev, base := Indexed(list), NextSeqId(list);
    var files, deletions := AddFiles(cfg, prev, EmptyQueue(base), fs).sources, Deletions(prev, fs);
    FilesAlone(cfg, prev, base, fs);
    FilesTile(cfg, prev, base, fs, File([], 0), 0);
    if cfg.deleteFiles && finished {
      IndexedNames(list);
      DeletionsAlone(prev, fs);
      DeletionsNamed(prev, fs);
      forall x, y | x in files && y in deletions ensures x.meta.relPath != y.meta.relPath {
        assert IsDeletion(prev, fs, y);
      }
      AloneConcat(files, deletions);
    }
  }

  lemma {:induction false} OwingAt(ss: seq<Source>, i: nat, name: Bytes, x: int)
    requires i < |ss| && Covers(ss[i], name, x)
    ensures Owing(ss, name, x) >= 1
  {
    if i < |ss| - 1 {
      OwingAt(ss[..|ss| - 1], i, name, x);
    }
  }

  lemma {:induction false} OwingTwo(ss: seq<Source>, i: nat, j: nat, name: Bytes, x: int)
    requires i < j < |ss| && Covers(ss[i], name, x) && Covers(ss[j], name, x)
    ensures Owing(ss, name, x) >= 2
  {
    if j == |ss| - 1 {
      OwingAt(ss[..j], i, name, x);
    } else {
      OwingTwo(ss[..|ss| - 1], i, j, name, x);
    }
  }

  /** Blocks of a rebuilt queue that have the same id do not overlap. */
  lemma QueueIsApart(cfg: Config, list: seq<FileChunks>, fs: seq<File>, finished: bool)
    requires EntriesOk(list) && DistinctSeqIds(list) && DistinctNames(fs)
    ensures var ss := Outcome(cfg, Some(list), fs, finished).queue.sources; Apart(ss) && AllNew(ss)
  {
    var ss := Outcome(cfg, Some(list), fs, finished).queue.sources;
    SeqIdsMatchFiles(cfg, list, fs, finished);
    QueueAlone(cfg, list, fs, finished);
    forall i, j | 0 <= i < j < |ss| && ss[i].meta.seqId == ss[j].meta.seqId
      ensures ss[i].size > 0 && ss[j].size > 0
      ensures ss[i].offset + ss[i].size <= ss[j].offset || ss[j].offset + ss[j].size <= ss[i].offset
    {
      var a, b := ss[i], ss[j];
      assert SameNameSameId(a, b);
      PairIsApart(cfg, list, fs, finished, i, j);
    }
  }

  lemma PairIsApart(cfg: Config, list: seq<FileChunks>, fs: seq<File>, finished: bool, i: nat, j: nat)
    requires EntriesOk(list) && DistinctNames(fs)
    requires var ss := Outcome(cfg, Some(list), fs, finished).queue.sources;
             i < j < |ss| && ss[i].meta.relPath == ss[j].meta.relPath
    ensures var ss := Outcome(cfg, Some(list), fs, finished).queue.sources;
            && ss[i].size > 0 && ss[j].size > 0
            && (ss[i].offset + ss[i].size <= ss[j].offset || ss[j].offset + ss[j].size <= ss[i].offset)
  {
    var ss := Outcome(cfg, Some(list), fs, finished).queue.sources;
    QueueAlone(cfg, list, fs, finished);
    var a, b := ss[i], ss[j];
    assert a in ss;
    var k :| 0 <= k < |fs| && fs[k].relPath == a.meta.relPath;
    var x := if a.offset < b.offset then b.offset else a.offset;
    QueueTilesFiles(cfg, list, fs, finished, fs[k], x);
    if Covers(a, a.meta.relPath, x) && Covers(b, a.meta.relPath, x) {
      OwingTwo(ss, i, j, a.meta.relPath, x);
    }
  }

  // ---- the start of a run

  function RangeOf(b: Source): Range {
    Range(b.meta.seqId, b.offset, b.offset + b.size)
  }

  function RangesOf(ss: seq<Source>): seq<Range> {
    seq(|ss|, i requires 0 <= i < |ss| => RangeOf(ss[i]))
  }

  /** Everything is queued and nothing has happened yet. */
  predicate AllQueued(w: P.World, w0: P.World, ss: seq<Source>) {
    && w.ports == w0.ports && w.written == w0.written && w.tags == w0.tags && w.footers == w0.footers
    && w.s == w0.s.(queue := ss, enqueued := RangesOf(ss))
  }

  /** From every initial state a run of the protocol gets to the one in which new blocks that are apart are queued. */
  lemma {:induction false} ApartCanBeQueued(w0: P.World, ss: seq<Source>)
    returns (run: seq<P.World>, steps: seq<P.Step>)
    requires P.Init(w0) && Apart(ss) && AllNew(ss)
    ensures P.IsRun(run, steps) && run[0] == w0 && AllQueued(run[|steps|], w0, ss)
  {
    if ss == [] {
      run, steps := [w0], [];
      assert RangesOf(ss) == [];
    } else {
      var n := |ss| - 1;
      run, steps := ApartCanBeQueued(w0, ss[..n]);
      var w, step := run[|steps|], P.Discover(ss[n]);
      DiscoverEnabled(w, w0, ss);
      var w' := P.Apply(w, step);
      assert RangesOf(ss) == RangesOf(ss[..n]) + [RangeOf(ss[n])] && ss == ss[..n] + [ss[n]];
      P.RunExtends(run, steps, step, w');
      run, steps := run + [w'], steps + [step];
    }
  }

  lemma DiscoverEnabled(w: P.World, w0: P.World, ss: seq<Source>)
    requires P.Init(w0) && ss != [] && Apart(ss) && AllNew(ss) && AllQueued(w, w0, ss[..|ss| - 1])
    ensures P.Enabled(w, P.Discover(ss[|ss| - 1]))
    ensures AllQueued(P.Apply(w, P.Discover(ss[|ss| - 1])), w0, ss)
  {
    var n := |ss| - 1;
    var b := ss[n];
    forall k | 0 <= k < n && w.s.enqueued[k].seqId == b.meta.seqId
      ensures b.size > 0 && w.s.enqueued[k].from < w.s.enqueued[k].to
      ensures w.s.enqueued[k].to <= b.offset || b.offset + b.size <= w.s.enqueued[k].from
    {
      assert ss[..n][k] == ss[k];
    }
    assert RangesOf(ss) == RangesOf(ss[..n]) + [RangeOf(b)] && ss == ss[..n] + [b];
  }

  /** So the retry protocol can start from whatever queue resumption builds. */
  lemma ResumptionStartsRun(cfg: Config, list: seq<FileChunks>, fs: seq<File>, finished: bool, w0: P.World)
    returns (run: seq<P.World>, steps: seq<P.Step>)
    requires EntriesOk(list) && DistinctSeqIds(list) && DistinctNames(fs) && P.Init(w0)
    ensures P.IsRun(run, steps) && run[0] == w0
    ensures AllQueued(run[|steps|], w0, Outcome(cfg, Some(list), fs, finished).queue.sources)
  {
    QueueIsApart(cfg, list, fs, finished);
    run, steps := ApartCanBeQueued(w0, Outcome(cfg, Some(list), fs, finished).queue.sources);
  }

  // ---- the end of a run

  lemma {:induction false} OwingFound(ss: seq<Source>, name: Bytes, x: int) returns (i: nat)
    requires Owing(ss, name, x) > 0
    ensures i < |ss| && Covers(ss[i], name, x)
  {
    var n := |ss| - 1;
    if Covers(ss[n], name, x) {
      i := n;
    } else {
      i := OwingFound(ss[..n], name, x);
    }
  }

  /** What was queued once stays on the record. */
  lemma EnqueuedStays(run: seq<P.World>, steps: seq<P.Step>, k: nat, i: nat)
    requires P.IsRun(run, steps) && k <= i < |run|
    ensures run[k].s.enqueued <= run[i].s.enqueued
  {
    var logs := seq(|run|, j requires 0 <= j < |run| => run[j].s.enqueued);
    forall j | 0 <= j < |logs| - 1 ensures logs[j] <= logs[j + 1] {
      StepAt(run, steps, j);
    }
    PrefixesChain(logs, k, i);
  }

  lemma {:induction false} PrefixesChain<T>(logs: seq<seq<T>>, k: nat, i: nat)
    requires k <= i < |logs| && forall j :: 0 <= j < |logs| - 1 ==> logs[j] <= logs[j + 1]
    ensures logs[k] <= logs[i]
  {
    if k < i {
      PrefixesChain(logs, k, i - 1);
      assert logs[i - 1] <= logs[i - 1 + 1];
    }
  }

  lemma StepAt(run: seq<P.World>, steps: seq<P.Step>, i: nat)
    requires P.IsRun(run, steps) && i < |steps|
    ensures run[i].s.enqueued <= run[i + 1].s.enqueued
  {
    StepKeepsEnqueued(run[i], steps[i], run[i + 1]);
  }

  lemma StepKeepsEnqueued(w: P.World, step: P.Step, w': P.World)
    requires P.Enabled(w, step) && w' == P.Apply(w, step)
    ensures w.s.enqueued <= w'.s.enqueued
  {
  }

  /**
   A resumed transfer is complete: in every run that goes on from the queue built for the receiver's list, once
   nothing is under way any more, each byte of each discovered file is one the receiver had, or is on its disk.
   */
  lemma ResumedTransferCompletes(cfg: Config, list: seq<FileChunks>, fs: seq<File>, finished: bool,
                                 run: seq<P.World>, steps: seq<P.Step>, k: nat, i: nat, f: File, x: int)
    returns (b: Source)
    requires EntriesOk(list) && DistinctNames(fs) && f in fs && 0 <= x < f.size
    requires P.IsRun(run, steps) && k <= i < |run| && P.Quiet(run[i])
    requires run[k].s.enqueued == RangesOf(Outcome(cfg, Some(list), fs, finished).queue.sources)
    requires Count(Kept(Outcome(cfg, Some(list), fs, finished).prev, f), x) == 0
    ensures b in Outcome(cfg, Some(list), fs, finished).queue.sources && b.meta.relPath == f.relPath
    ensures (b.meta.seqId, x) in run[i].written
  {
    var ss := Outcome(cfg, Some(list), fs, finished).queue.sources;
    QueueTilesFiles(cfg, list, fs, finished, f, x);
    var j := OwingFound(ss, f.relPath, x);
    b := ss[j];
    EnqueuedStays(run, steps, k, i);
    assert run[i].s.enqueued[j] == run[k].s.enqueued[j] == RangeOf(b);
    P.TimesPositive(run[i].s.enqueued, b.meta.seqId, x);
    P.CompleteWhenQuiet(run, steps, i, b.meta.seqId, x);
  }

  lemma EnqueuedStaysToTheEnd(run: seq<E.System>, steps: seq<E.Step>, k: nat, i: nat)
    requires E.IsRun(run, steps) && k <= i < |run|
    ensures run[k].w.s.enqueued <= run[i].w.s.enqueued
  {
    var logs := seq(|run|, j requires 0 <= j < |run| => run[j].w.s.enqueued);
    forall j | 0 <= j < |logs| - 1 ensures logs[j] <= logs[j + 1] {
      var part := E.RetryPart(run[j], steps[j]);
      if part.Some? {
        StepKeepsEnqueued(run[j].w, part.value, run[j + 1].w);
      }
    }
    PrefixesChain(logs, k, i);
  }

  /**
   When a receiver thread may answer DONE to a resumed transfer, each byte of each discovered file is one the receiver
   had, or is on its disk, or is still to be sent, unless an exceptional port has it in a block that is not verified.
   */
  lemma ResumedTransferAtDone(cfg: Config, list: seq<FileChunks>, fs: seq<File>, finished: bool, run: seq<E.System>,
                              steps: seq<E.Step>, k: nat, i: nat, t: nat, f: File, x: int) returns (b: Source)
    requires EntriesOk(list) && DistinctNames(fs) && f in fs && 0 <= x < f.size
    requires E.IsRun(run, steps) && k <= i < |run| && F.Enabled(run[i].f, F.FindQuiet(t))
    requires run[k].w.s.enqueued == RangesOf(Outcome(cfg, Some(list), fs, finished).queue.sources)
    requires Count(Kept(Outcome(cfg, Some(list), fs, finished).prev, f), x) == 0
    ensures b in Outcome(cfg, Some(list), fs, finished).queue.sources && b.meta.relPath == f.relPath
    ensures |run[i].w.ports| == |run[i].w.s.threads| == |run[i].f.threads| == |run[i].sides|
    ensures E.Lost(run[i].w, b.meta.seqId, x)
            <==> (b.meta.seqId, x) !in run[i].w.written
                 && exists u :: 0 <= u < |run[i].sides| && E.Exceptional(run[i], u)
                                && E.Unverified(run[i].w, u, b.meta.seqId, x)
  {
    var ss := Outcome(cfg, Some(list), fs, finished).queue.sources;
    QueueTilesFiles(cfg, list, fs, finished, f, x);
    var j := OwingFound(ss, f.relPath, x);
    b := ss[j];
    EnqueuedStaysToTheEnd(run, steps, k, i);
    assert run[i].w.s.enqueued[j] == run[k].w.s.enqueued[j] == RangeOf(b);
    P.TimesPositive(run[i].w.s.enqueued, b.meta.seqId, x);
    E.LostAtDoneIff(run, steps, i, t, b.meta.seqId, x);
  }
}
