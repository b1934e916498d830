/**
 What the rebuilt queue promises: it does not depend on when the list arrives, it tiles every file together with
 what the receiver has, it conserves bytes, and it never gives one sequence id to two files.
 */
module ResumptionLaws {
  import opened Options
  import opened Wire
  import opened Intervals
  import opened Sources
  import opened Resumption

  // ---- when the list arrives

  predicate Finished(es: seq<Event>) {
    exists i :: 0 <= i < |es| && es[i].Finish?
  }

  /** Discovery ends once, and nothing is discovered afterwards; lists may arrive at any time, any number of times. */
  predicate Legal(es: seq<Event>) {
    && (forall i :: 0 <= i < |es| && !es[i].Arrive? ==> !Finished(es[..i]))
    && (forall i :: 0 <= i < |es| && es[i].Arrive? ==> EntriesOk(es[i].list))
  }

  function FilesOf(es: seq<Event>): seq<File> {
    if es == [] then []
    else FilesOf(es[..|es| - 1]) + if es[|es| - 1].Discover? then [es[|es| - 1].file] else []
  }

  function FirstList(es: seq<Event>): Option<seq<FileChunks>> {
    if es == [] then None
    else if es[0].Arrive? then Some(es[0].list)
    else FirstList(es[1..])
  }

  function Step(cfg: Config, s: State, e: Event): (s': State)
    requires EntriesOk(s.prev) && (e.Arrive? ==> EntriesOk(e.list))
    ensures EntriesOk(s'.prev)
  {
    match e
    case Discover(f) => AfterDiscover(cfg, s, f)
    case Arrive(list) => IndexedOk(list); AfterArrive(cfg, s, list)
    case Finish => AfterFinish(cfg, s)
  }

  function After(cfg: Config, es: seq<Event>): (s: State)
    requires Legal(es)
    ensures EntriesOk(s.prev)
  {
    if es == [] then INITIAL
    else
      LegalPrefix(es);
      Step(cfg, After(cfg, es[..|es| - 1]), es[|es| - 1])
  }

  lemma LegalPrefix(es: seq<Event>)
    requires Legal(es) && es != []
    ensures Legal(es[..|es| - 1])
  {
    var init := es[..|es| - 1];
    forall i | 0 <= i < |init| && !init[i].Arrive? ensures !Finished(init[..i]) {
      assert init[i] == es[i] && init[..i] == es[..i];
    }
  }

  /** The queue of these files and this list, made in one go. */
  function Outcome(cfg: Config, list: Option<seq<FileChunks>>, fs: seq<File>, finished: bool): State
    requires list.Some? ==> EntriesOk(list.value)
  {
    if list.None? then State([], fs, finished, false, AddFiles(cfg, [], EmptyQueue(FIRST_SEQ_ID), fs))
    else
      IndexedOk(list.value);
      var prev := Indexed(list.value);
      WithDeletions(cfg, State(prev, fs, finished, true,
                               AddFiles(cfg, prev, EmptyQueue(NextSeqId(list.value)), fs)))
  }

  lemma {:induction false} FirstListSnoc(es: seq<Event>)
    requires es != []
    ensures var init, e := es[..|es| - 1], es[|es| - 1];
            FirstList(es) == if FirstList(init).Some? then FirstList(init)
                             else if e.Arrive? then Some(e.list) else None
  {
    if |es| == 1 {
      assert es[1..] == [];
    } else {
      assert es[1..][..|es| - 2] == es[..|es| - 1][1..];
      FirstListSnoc(es[1..]);
    }
  }

  lemma {:induction false} FirstListOk(es: seq<Event>)
    requires Legal(es)
    ensures FirstList(es).Some? ==> EntriesOk(FirstList(es).value)
  {
    if es != [] {
      LegalPrefix(es);
      FirstListSnoc(es);
      FirstListOk(es[..|es| - 1]);
    }
  }

  lemma {:induction false} NothingSaved(cfg: Config, q: Queue, fs: seq<File>)
    ensures AddFiles(cfg, [], q, fs).previouslySent == q.previouslySent
  {
    if fs != [] {
      NothingSaved(cfg, q, fs[..|fs| - 1]);
    }
  }

  lemma FinishedSnoc(es: seq<Event>)
    requires es != []
    ensures Finished(es) <==> Finished(es[..|es| - 1]) || es[|es| - 1].Finish?
  {
    var init := es[..|es| - 1];
    if Finished(init) {
      var i :| 0 <= i < |init| && init[i].Finish?;
      assert es[i].Finish?;
    }
    if Finished(es) && !es[|es| - 1].Finish? {
      var i :| 0 <= i < |es| && es[i].Finish?;
      assert init[i].Finish?;
    }
  }

  lemma StepOutcome(cfg: Config, list: Option<seq<FileChunks>>, fs: seq<File>, finished: bool, e: Event)
    requires list.Some? ==> EntriesOk(list.value)
    requires e.Arrive? ==> EntriesOk(e.list)
    requires !e.Arrive? ==> !finished
    ensures var s := Outcome(cfg, list, fs, finished);
            && EntriesOk(s.prev)
            && Step(cfg, s, e) ==
               Outcome(cfg, if list.None? && e.Arrive? then Some(e.list) else list,
                       if e.Discover? then fs + [e.file] else fs, finished || e.Finish?)
  {
    if list.Some? {
      IndexedOk(list.value);
    }
    NothingSaved(cfg, EmptyQueue(FIRST_SEQ_ID), fs);
    if e.Discover? {
      assert (fs + [e.file])[..|fs|] == fs;
    } else if e.Finish? && list.None? {
      var q := Outcome(cfg, list, fs, finished).queue;
      assert q.sources + [] == q.sources;
    }
  }

  /** For every run, the queue and its counters are those made in one go from the files and the first list. */
  lemma {:induction false} ArrivalTimeIsIrrelevant(cfg: Config, es: seq<Event>)
    requires Legal(es)
    ensures FirstList(es).Some? ==> EntriesOk(FirstList(es).value)
    ensures After(cfg, es) == Outcome(cfg, FirstList(es), FilesOf(es), Finished(es))
  {
    FirstListOk(es);
    if es != [] {
      var init, e := es[..|es| - 1], es[|es| - 1];
      LegalPrefix(es);
      ArrivalTimeIsIrrelevant(cfg, init);
      FirstListSnoc(es);
      FinishedSnoc(es);
      StepOutcome(cfg, FirstList(init), FilesOf(init), Finished(init), e);
      if !e.Discover? {
        assert FilesOf(init) + [] == FilesOf(init);
      }
    }
  }

  // ---- sequence ids

  predicate DistinctSeqIds(ps: seq<FileChunks>) {
    forall i, j :: 0 <= i < j < |ps| ==> ps[i].seqId != ps[j].seqId
  }

  predicate DistinctNames(fs: seq<File>) {
    forall i, j :: 0 <= i < j < |fs| ==> fs[i].relPath != fs[j].relPath
  }

  predicate SameNameSameId(a: Source, b: Source) {
    a.meta.relPath == b.meta.relPath <==> a.meta.seqId == b.meta.seqId
  }

  predicate IdsMatchNames(ss: seq<Source>) {
    forall a, b :: a in ss && b in ss ==> SameNameSameId(a, b)
  }

  /** The id was given out in this session, or is the one the receiver knows the name by. */
  predicate IdKnown(prev: seq<FileChunks>, base: nat, next: nat, m: MetaData) {
    || base <= m.seqId < next
    || (Find(prev, m.relPath).Some? && Find(prev, m.relPath).value.seqId == m.seqId)
  }

  lemma {:induction false} SplitMeta(meta: MetaData, offset: nat, remaining: nat, blockSize: nat)
    requires remaining > 0 ==> blockSize > 0
    ensures var ss := Split(meta, offset, remaining, blockSize); forall b :: b in ss ==> b.meta == meta
    decreases remaining
  {
    var size := Least(remaining, blockSize);
    if remaining > size {
      SplitMeta(meta, offset + size, remaining - size, blockSize);
    }
  }

  lemma {:induction false} SplitAllMeta(meta: MetaData, chunks: seq<Interval>, blockSize: nat)
    requires Splittable(chunks, blockSize)
    ensures var ss := SplitAll(meta, chunks, blockSize); forall b :: b in ss ==> b.meta == meta
  {
    if chunks != [] {
      var n := |chunks| - 1;
      SplitAllMeta(meta, chunks[..n], blockSize);
      SplitMeta(meta, chunks[n].start, chunks[n].end - chunks[n].start, blockSize);
    }
  }

  /** What adding a file does to the queue: it appends blocks of one description and nothing else. */
  lemma AddFileAppends(cfg: Config, prev: seq<FileChunks>, q: Queue, f: File) returns (added: seq<Source>)
    requires EntriesOk(prev)
    ensures var known, q' := Find(prev, f.relPath), AddFile(cfg, prev, q, f);
            && Splittable(ToSend(known, f.size), BlockSize(cfg, f.size))
            && added == SplitAll(MetaOf(known, f, q.nextSeqId), ToSend(known, f.size), BlockSize(cfg, f.size))
            && q'.sources == q.sources + added
            && q'.nextSeqId == (if Resumes(known, f.size) then q.nextSeqId else q.nextSeqId + 1)
    ensures forall b :: b in added ==> b.meta == MetaOf(Find(prev, f.relPath), f, q.nextSeqId)
  {
    var known := Find(prev, f.relPath);
    ToSendSplittable(cfg, known, f.size);
    added := SplitAll(MetaOf(known, f, q.nextSeqId), ToSend(known, f.size), BlockSize(cfg, f.size));
    SplitAllMeta(MetaOf(known, f, q.nextSeqId), ToSend(known, f.size), BlockSize(cfg, f.size));
    assert q.sources + [] == q.sources;
  }

  /** Two descriptions of different names never have the same id. */
  lemma IdsDiffer(prev: seq<FileChunks>, base: nat, next: nat, a: MetaData, f: File)
    requires DistinctSeqIds(prev) && forall p :: p in prev ==> p.seqId < base
    requires base <= next && IdKnown(prev, base, next, a) && a.relPath != f.relPath
    ensures a.seqId != MetaOf(Find(prev, f.relPath), f, next).seqId
  {
    var known := Find(prev, f.relPath);
    if Resumes(known, f.size) && a.seqId == known.value.seqId {
      SameIdSameEntry(prev, Find(prev, a.relPath).value, known.value);
    }
  }

  lemma SameIdSameEntry(prev: seq<FileChunks>, p: FileChunks, p': FileChunks)
    requires DistinctSeqIds(prev) && p in prev && p' in prev && p.seqId == p'.seqId
    ensures p == p'
  {
    var i :| 0 <= i < |prev| && prev[i] == p;
    var j :| 0 <= j < |prev| && prev[j] == p';
  }

  lemma {:induction false} FilesKeepIds(cfg: Config, prev: seq<FileChunks>, base: nat, fs: seq<File>)
    requires EntriesOk(prev) && DistinctNames(fs)
    requires DistinctSeqIds(prev) && forall p :: p in prev ==> p.seqId < base
    ensures var q := AddFiles(cfg, prev, EmptyQueue(base), fs);
            && q.nextSeqId >= base
            && (forall b :: b in q.sources ==>
                IdKnown(prev, base, q.nextSeqId, b.meta) && Discovered(fs, b.meta.relPath))
            && IdsMatchNames(q.sources)
  {
    if fs != [] {
      var n := |fs| - 1;
      var q := AddFiles(cfg, prev, EmptyQueue(base), fs[..n]);
      FilesKeepIds(cfg, prev, base, fs[..n]);
      var added := AddFileAppends(cfg, prev, q, fs[n]);
      forall a | a in q.sources
        ensures a.meta.relPath != fs[n].relPath && Discovered(fs, a.meta.relPath)
        ensures a.meta.seqId != MetaOf(Find(prev, fs[n].relPath), fs[n], q.nextSeqId).seqId
      {
        var i :| 0 <= i < n && fs[..n][i].relPath == a.meta.relPath;
        assert fs[i].relPath == a.meta.relPath;
        IdsDiffer(prev, base, q.nextSeqId, a.meta, fs[n]);
      }
    }
  }

  predicate DistinctEntries(ps: seq<FileChunks>) {
    forall i, j :: 0 <= i < j < |ps| ==> ps[i].name != ps[j].name
  }

  lemma {:induction false} IndexedNames(list: seq<FileChunks>)
    ensures DistinctEntries(Indexed(list))
  {
    if list != [] {
      IndexedNames(list[..|list| - 1]);
    }
  }

  lemma {:induction false} IndexedIds(list: seq<FileChunks>)
    requires EntriesOk(list) && DistinctSeqIds(list)
    ensures DistinctSeqIds(Indexed(list))
  {
    if list != [] {
      var n := |list| - 1;
      var ps := Indexed(list[..n]);
      IndexedIds(list[..n]);
      IndexedOk(list[..n]);
      forall i | 0 <= i < |ps| ensures ps[i].seqId != list[n].seqId {
        assert ps[i] in list[..n];
      }
    }
  }

  lemma {:induction false} NextSeqIdAbove(list: seq<FileChunks>)
    ensures forall p :: p in list ==> p.seqId < NextSeqId(list)
  {
    if list != [] {
      NextSeqIdAbove(list[..|list| - 1]);
    }
  }

  lemma IndexedDistinct(list: seq<FileChunks>)
    requires EntriesOk(list) && DistinctSeqIds(list)
    ensures var ps := Indexed(list); DistinctEntries(ps) && DistinctSeqIds(ps)
    ensures forall p :: p in list ==> p.seqId < NextSeqId(list)
  {
    IndexedNames(list);
    IndexedIds(list);
    NextSeqIdAbove(list);
  }

  /** Deletions name received entries that were not discovered. */
  predicate IsDeletion(prev: seq<FileChunks>, fs: seq<File>, b: Source) {
    exists i :: 0 <= i < |prev| && b == Deletion(prev[i]) && !Discovered(fs, prev[i].name)
  }

  lemma {:induction false} DeletionsNamed(prev: seq<FileChunks>, fs: seq<File>)
    ensures forall b :: b in Deletions(prev, fs) <==> IsDeletion(prev, fs, b)
  {
    if prev != [] {
      var n := |prev| - 1;
      DeletionsNamed(prev[..n], fs);
      forall b ensures b in Deletions(prev, fs) <==> IsDeletion(prev, fs, b) {
        if IsDeletion(prev[..n], fs, b) {
          var i :| 0 <= i < n && b == Deletion(prev[..n][i]) && !Discovered(fs, prev[..n][i].name);
          assert prev[..n][i] == prev[i];
        }
        if IsDeletion(prev, fs, b) {
          var i :| 0 <= i < |prev| && b == Deletion(prev[i]) && !Discovered(fs, prev[i].name);
          assert i < n ==> prev[..n][i] == prev[i];
        }
      }
    }
  }

  lemma DeletionsMatchNames(prev: seq<FileChunks>, fs: seq<File>, a: Source, b: Source)
    requires DistinctEntries(prev) && DistinctSeqIds(prev)
    requires IsDeletion(prev, fs, a) && IsDeletion(prev, fs, b)
    ensures SameNameSameId(a, b)
  {
    var i :| 0 <= i < |prev| && a == Deletion(prev[i]) && !Discovered(fs, prev[i].name);
    var j :| 0 <= j < |prev| && b == Deletion(prev[j]) && !Discovered(fs, prev[j].name);
  }

  lemma DeletionMatchesFile(prev: seq<FileChunks>, fs: seq<File>, base: nat, next: nat, a: Source, b: Source)
    requires DistinctEntries(prev) && DistinctSeqIds(prev) && forall p :: p in prev ==> p.seqId < base
    requires IdKnown(prev, base, next, a.meta) && Discovered(fs, a.meta.relPath) && IsDeletion(prev, fs, b)
    ensures a.meta.relPath != b.meta.relPath && a.meta.seqId != b.meta.seqId
  {
    var j :| 0 <= j < |prev| && b == Deletion(prev[j]) && !Discovered(fs, prev[j].name);
    if a.meta.seqId == b.meta.seqId {
      SameIdSameEntry(prev, Find(prev, a.meta.relPath).value, prev[j]);
    }
  }

  /** Blocks have the same sequence id exactly if they belong to the same file, deletions included. */
  lemma SeqIdsMatchFiles(cfg: Config, list: seq<FileChunks>, fs: seq<File>, finished: bool)
    requires EntriesOk(list) && DistinctSeqIds(list) && DistinctNames(fs)
    ensures IdsMatchNames(Outcome(cfg, Some(list), fs, finished).queue.sources)
  {
    IndexedOk(list);
    IndexedDistinct(list);
    var prev, base := Indexed(list), NextSeqId(list);
    FilesKeepIds(cfg, prev, base, fs);
    DeletionsNamed(prev, fs);
    var q := AddFiles(cfg, prev, EmptyQueue(base), fs);
    var all := Outcome(cfg, Some(list), fs, finished).queue.sources;
    forall a, b | a in all && b in all ensures SameNameSameId(a, b) {
      if a in q.sources && b !in q.sources {
        DeletionMatchesFile(prev, fs, base, q.nextSeqId, a, b);
      } else if a !in q.sources && b in q.sources {
        DeletionMatchesFile(prev, fs, base, q.nextSeqId, b, a);
      } else if a !in q.sources {
        DeletionsMatchNames(prev, fs, a, b);
      }
    }
  }

  /**
   The program states that the first valid sequence id is 1.  After a list arrived that holds exactly if the list
   was not empty (or there is nothing to send), because the rebuild starts counting at 0.
   */
  lemma SeqIdsValidIff(cfg: Config, list: seq<FileChunks>, fs: seq<File>, finished: bool)
    requires EntriesOk(list) && forall p :: p in list ==> p.seqId >= FIRST_SEQ_ID
    ensures (forall b :: b in Outcome(cfg, Some(list), fs, finished).queue.sources ==> b.meta.seqId >= FIRST_SEQ_ID)
            <==> list != [] || fs == []
  {
    IndexedOk(list);
    var prev, base := Indexed(list), NextSeqId(list);
    IdsStartAt(cfg, prev, base, fs);
    DeletionsNamed(prev, fs);
    if list == [] && fs != [] {
      FirstIdIsUsed(cfg, prev, base, fs);
    }
  }

  /** A new transfer to a receiver that has nothing: its first file gets id 0. */
  lemma EmptyListGivesIdZero(cfg: Config, f: File, finished: bool) returns (b: Source)
    ensures b in Outcome(cfg, Some([]), [f], finished).queue.sources && b.meta.seqId == 0
  {
    SeqIdsValidIff(cfg, [], [f], finished);
    b :| b in Outcome(cfg, Some([]), [f], finished).queue.sources && b.meta.seqId < FIRST_SEQ_ID;
  }

  lemma {:induction false} IdsStartAt(cfg: Config, prev: seq<FileChunks>, base: nat, fs: seq<File>)
    requires EntriesOk(prev)
    ensures var q := AddFiles(cfg, prev, EmptyQueue(base), fs);
            && q.nextSeqId >= base
            && forall b :: b in q.sources ==> b.meta.seqId >= base || exists p :: p in prev && p.seqId == b.meta.seqId
  {
    if fs != [] {
      var n := |fs| - 1;
      IdsStartAt(cfg, prev, base, fs[..n]);
      var added := AddFileAppends(cfg, prev, AddFiles(cfg, prev, EmptyQueue(base), fs[..n]), fs[n]);
    }
  }

  lemma {:induction false} FirstIdIsUsed(cfg: Config, prev: seq<FileChunks>, base: nat, fs: seq<File>)
    requires prev == [] && fs != []
    ensures exists b :: b in AddFiles(cfg, prev, EmptyQueue(base), fs).sources && b.meta.seqId == base
  {
    var n := |fs| - 1;
    var q := AddFiles(cfg, prev, EmptyQueue(base), fs[..n]);
    var added := AddFileAppends(cfg, prev, q, fs[n]);
    if n > 0 {
      FirstIdIsUsed(cfg, prev, base, fs[..n]);
      var b :| b in q.sources && b.meta.seqId == base;
      assert b in AddFiles(cfg, prev, EmptyQueue(base), fs).sources;
    } else {
      assert [Interval(0, fs[0].size)][..0] == [];
      assert added[0] in AddFiles(cfg, prev, EmptyQueue(base), fs).sources;
    }
  }

  // ---- tiling

  predicate Covers(b: Source, name: Bytes, x: int) {
    b.meta.relPath == name && b.offset <= x < b.offset + b.size
  }

  /** How many queued blocks of the named file contain a position. */
  function Owing(ss: seq<Source>, name: Bytes, x: int): nat {
    if ss == [] then 0 else Owing(ss[..|ss| - 1], name, x) + if Covers(ss[|ss| - 1], name, x) then 1 else 0
  }

  function Inside(x: int, from: int, to: int): nat {
    if from <= x < to then 1 else 0
  }

  lemma {:induction false} OwingConcat(a: seq<Source>, b: seq<Source>, name: Bytes, x: int)
    ensures Owing(a + b, name, x) == Owing(a, name, x) + Owing(b, name, x)
  {
    if b == [] {
      assert a + b == a;
    } else {
      assert (a + b)[..|a + b| - 1] == a + b[..|b| - 1];
      OwingConcat(a, b[..|b| - 1], name, x);
    }
  }

  lemma {:induction false} OwingNone(ss: seq<Source>, name: Bytes, x: int)
    requires forall b :: b in ss ==> !Covers(b, name, x)
    ensures Owing(ss, name, x) == 0
  {
    if ss != [] {
      assert ss[|ss| - 1] in ss;
      OwingNone(ss[..|ss| - 1], name, x);
    }
  }

  predicate FitBlocks(ss: seq<Source>, blockSize: nat) {
    forall b :: b in ss ==> 0 <= b.size <= blockSize && b.start == b.offset
  }

  lemma {:induction false} SplitFits(meta: MetaData, offset: nat, remaining: nat, blockSize: nat)
    requires remaining > 0 ==> blockSize > 0
    ensures FitBlocks(Split(meta, offset, remaining, blockSize), blockSize)
    decreases remaining
  {
    var size := Least(remaining, blockSize);
    if remaining > size {
      SplitFits(meta, offset + size, remaining - size, blockSize);
    }
  }

  lemma {:induction false} SplitAllFits(meta: MetaData, chunks: seq<Interval>, blockSize: nat)
    requires Splittable(chunks, blockSize)
    ensures FitBlocks(SplitAll(meta, chunks, blockSize), blockSize)
  {
    if chunks != [] {
      var n := |chunks| - 1;
      SplitAllFits(meta, chunks[..n], blockSize);
      SplitFits(meta, chunks[n].start, chunks[n].end - chunks[n].start, blockSize);
    }
  }

  lemma OwingOne(b: Source, name: Bytes, x: int)
    ensures Owing([b], name, x) == if Covers(b, name, x) then 1 else 0
  {
    assert [b][..0] == [];
  }

  lemma OwingCons(b: Source, rest: seq<Source>, name: Bytes, x: int)
    ensures Owing([b] + rest, name, x) == Owing(rest, name, x) + if Covers(b, name, x) then 1 else 0
  {
    OwingConcat([b], rest, name, x);
    OwingOne(b, name, x);
  }

  lemma TileInFront(meta: MetaData, size: nat, offset: nat, rest: seq<Source>, whole: seq<Source>, end: nat, x: int)
    requires whole == [NewSource(meta, size, offset)] + rest && offset + size <= end
    requires Owing(rest, meta.relPath, x) == Inside(x, offset + size, end)
    ensures Owing(whole, meta.relPath, x) == Inside(x, offset, end)
  {
    OwingCons(NewSource(meta, size, offset), rest, meta.relPath, x);
  }

  lemma {:induction false} SplitTiles(meta: MetaData, offset: nat, remaining: nat, blockSize: nat, x: int)
    requires remaining > 0 ==> blockSize > 0
    ensures Owing(Split(meta, offset, remaining, blockSize), meta.relPath, x) == Inside(x, offset, offset + remaining)
    decreases remaining
  {
    var size, whole := Least(remaining, blockSize), Split(meta, offset, remaining, blockSize);
    var rest := if remaining > size then Split(meta, offset + size, remaining - size, blockSize) else [];
    assert whole == [NewSource(meta, size, offset)] + rest;
    if remaining > size {
      SplitTiles(meta, offset + size, remaining - size, blockSize, x);
    }
    TileInFront(meta, size, offset, rest, whole, offset + remaining, x);
  }

  lemma {:induction false} SplitAllTiles(meta: MetaData, chunks: seq<Interval>, blockSize: nat, x: int)
    requires Splittable(chunks, blockSize)
    ensures Owing(SplitAll(meta, chunks, blockSize), meta.relPath, x) == Count(chunks, x)
  {
    if chunks != [] {
      var n := |chunks| - 1;
      var c, init := chunks[n], chunks[..n];
      SplitAllTiles(meta, init, blockSize, x);
      SplitTiles(meta, c.start, c.end - c.start, blockSize, x);
      OwingParts(SplitAll(meta, init, blockSize), Split(meta, c.start, c.end - c.start, blockSize),
                 SplitAll(meta, chunks, blockSize), meta.relPath, x);
      CountLast(chunks, x);
    }
  }

  lemma OwingParts(a: seq<Source>, b: seq<Source>, whole: seq<Source>, name: Bytes, x: int)
    requires whole == a + b
    ensures Owing(whole, name, x) == Owing(a, name, x) + Owing(b, name, x)
  {
    OwingConcat(a, b, name, x);
  }

  lemma CountLast(cs: seq<Interval>, x: int)
    requires cs != []
    ensures var n := |cs| - 1; Count(cs, x) == Count(cs[..n], x) + Inside(x, cs[n].start, cs[n].end)
  {
    var n := |cs| - 1;
    CountSnoc(cs[..n], cs[n], x);
    assert cs == cs[..n] + [cs[n]];
  }

  lemma CountSnoc(cs: seq<Interval>, c: Interval, x: int)
    ensures Count(cs + [c], x) == Count(cs, x) + Inside(x, c.start, c.end)
  {
    CountConcat(cs, [c], x);
    assert [c][1..] == [];
  }

  /** The part of a file that need not be sent. */
  function Kept(prev: seq<FileChunks>, f: File): seq<Interval> {
    if Resumes(Find(prev, f.relPath), f.size) then Find(prev, f.relPath).value.chunks else []
  }

  lemma FileTiles(cfg: Config, prev: seq<FileChunks>, q: Queue, f: File, x: int) returns (added: seq<Source>)
    requires EntriesOk(prev)
    ensures AddFile(cfg, prev, q, f).sources == q.sources + added
    ensures forall b :: b in added ==> b.meta.relPath == f.relPath && b.meta.fileSize == f.size
    ensures FitBlocks(added, BlockSize(cfg, f.size))
    ensures Count(Kept(prev, f), x) + Owing(added, f.relPath, x) == Inside(x, 0, f.size)
  {
    added := AddFileAppends(cfg, prev, q, f);
    var known := Find(prev, f.relPath);
    SplitAllTiles(MetaOf(known, f, q.nextSeqId), ToSend(known, f.size), BlockSize(cfg, f.size), x);
    SplitAllFits(MetaOf(known, f, q.nextSeqId), ToSend(known, f.size), BlockSize(cfg, f.size));
    if Resumes(known, f.size) {
      RemainingTiles(known.value.chunks, 0, f.size, x);
    } else {
      assert [Interval(0, f.size)][1..] == [];
    }
  }

  predicate BlocksFit(cfg: Config, ss: seq<Source>) {
    forall b :: b in ss ==> 0 <= b.size <= BlockSize(cfg, b.meta.fileSize) && b.start == b.offset
  }

  lemma {:induction false} FilesTile(cfg: Config, prev: seq<FileChunks>, base: nat, fs: seq<File>, f: File, x: int)
    requires EntriesOk(prev) && DistinctNames(fs)
    ensures var ss := AddFiles(cfg, prev, EmptyQueue(base), fs).sources;
            && BlocksFit(cfg, ss)
            && (forall b :: b in ss ==> Discovered(fs, b.meta.relPath))
            && (f in fs ==> Count(Kept(prev, f), x) + Owing(ss, f.relPath, x) == Inside(x, 0, f.size))
  {
    if fs != [] {
      var n := |fs| - 1;
      var q := AddFiles(cfg, prev, EmptyQueue(base), fs[..n]);
      FilesTile(cfg, prev, base, fs[..n], f, x);
      var added := FileTiles(cfg, prev, q, fs[n], x);
      OwingConcat(q.sources, added, f.relPath, x);
      forall b | b in q.sources ensures b.meta.relPath != fs[n].relPath && Discovered(fs, b.meta.relPath) {
        var i :| 0 <= i < n && fs[..n][i].relPath == b.meta.relPath;
        assert fs[i].relPath == b.meta.relPath;
      }
      if f == fs[n] {
        OwingNone(q.sources, f.relPath, x);
      } else if f in fs {
        OwingNone(added, f.relPath, x);
      }
    }
  }

  /**
   Resumption is exact: what the receiver has of a discovered file and what is queued for it contain every byte of
   the file exactly once and no other byte, in blocks of at most the block size.
   */
  lemma QueueTilesFiles(cfg: Config, list: seq<FileChunks>, fs: seq<File>, finished: bool, f: File, x: int)
    requires EntriesOk(list) && DistinctNames(fs) && f in fs
    ensures var s := Outcome(cfg, Some(list), fs, finished);
            && BlocksFit(cfg, s.queue.sources)
            && Count(Kept(s.prev, f), x) + Owing(s.queue.sources, f.relPath, x) == Inside(x, 0, f.size)
  {
    IndexedOk(list);
    var prev, base := Indexed(list), NextSeqId(list);
    FilesTile(cfg, prev, base, fs, f, x);
    DeletionsNamed(prev, fs);
    if cfg.deleteFiles && finished {
      OwingConcat(AddFiles(cfg, prev, EmptyQueue(base), fs).sources, Deletions(prev, fs), f.relPath, x);
      OwingNone(Deletions(prev, fs), f.relPath, x);
    }
  }

  /** The same in the measure by which the sender's threads account for positions, per sequence id. */
  lemma {:induction false} OwedIsOwing(ss: seq<Source>, seqId: nat, name: Bytes, x: int)
    requires forall b :: b in ss ==> (b.meta.seqId == seqId <==> b.meta.relPath == name)
    ensures Sum(Owed(seqId, x), ss) == Owing(ss, name, x)
  {
    if ss != [] {
      assert ss[|ss| - 1] in ss;
      OwedIsOwing(ss[..|ss| - 1], seqId, name, x);
    }
  }

  lemma QueueOwesFiles(cfg: Config, list: seq<FileChunks>, fs: seq<File>, finished: bool, f: File, b: Source, x: int)
    requires EntriesOk(list) && DistinctSeqIds(list) && DistinctNames(fs) && f in fs
    requires b in Outcome(cfg, Some(list), fs, finished).queue.sources && b.meta.relPath == f.relPath
    ensures var s := Outcome(cfg, Some(list), fs, finished);
            Count(Kept(s.prev, f), x) + Sum(Owed(b.meta.seqId, x), s.queue.sources) == Inside(x, 0, f.size)
  {
    var ss := Outcome(cfg, Some(list), fs, finished).queue.sources;
    SeqIdsMatchFiles(cfg, list, fs, finished);
    QueueTilesFiles(cfg, list, fs, finished, f, x);
    forall a | a in ss ensures a.meta.seqId == b.meta.seqId <==> a.meta.relPath == f.relPath {
      assert SameNameSameId(a, b);
    }
    OwedIsOwing(ss, b.meta.seqId, f.relPath, x);
  }

  // ---- conservation

  function SizeOf(fs: seq<File>): nat {
    if fs == [] then 0 else SizeOf(fs[..|fs| - 1]) + fs[|fs| - 1].size
  }

  lemma {:induction false} TotalConcat(a: seq<Interval>, b: seq<Interval>)
    ensures TotalSize(a + b) == TotalSize(a) + TotalSize(b)
  {
    if b == [] {
      assert a + b == a;
    } else {
      assert (a + b)[..|a + b| - 1] == a + b[..|b| - 1];
      TotalConcat(a, b[..|b| - 1]);
    }
  }

  lemma TotalCons(c: Interval, cs: seq<Interval>)
    ensures TotalSize([c] + cs) == c.end - c.start + TotalSize(cs)
  {
    TotalConcat([c], cs);
    assert [c][..0] == [];
  }

  lemma MergedTail(cs: seq<Interval>, size: nat)
    requires Merged(cs) && Within(cs, size) && cs != []
    ensures Merged(cs[1..]) && Within(cs[1..], size) && cs[0].start <= cs[0].end <= size
    ensures cs[1..] != [] ==> cs[0].end <= cs[1..][0].start
  {
    assert forall j :: 0 <= j < |cs[1..]| ==> cs[1..][j] == cs[j + 1];
  }

  lemma {:induction false} RemainingTotal(cs: seq<Interval>, cur: nat, size: nat)
    requires Merged(cs) && Within(cs, size) && cur <= size && (cs != [] ==> cur <= cs[0].start)
    ensures TotalSize(cs) + TotalSize(Remaining(cs, cur, size)) == size - cur
  {
    if cs == [] {
      TotalCons(Interval(cur, size), []);
      assert [Interval(cur, size)] + [] == [Interval(cur, size)];
    } else {
      var c, rest := cs[0], cs[1..];
      MergedTail(cs, size);
      assert cs == [c] + rest;
      RemainingTotal(rest, c.end, size);
      TotalCons(c, rest);
      var later := Remaining(rest, c.end, size);
      if c.start > cur {
        TotalCons(Interval(cur, c.start), later);
      } else {
        assert [] + later == later;
      }
    }
  }

  lemma {:induction false} FilesConserve(cfg: Config, prev: seq<FileChunks>, base: nat, fs: seq<File>)
    requires EntriesOk(prev)
    ensures var q := AddFiles(cfg, prev, EmptyQueue(base), fs);
            q.totalFileSize + q.previouslySent == SizeOf(fs) && q.numBlocks == |q.sources|
  {
    if fs != [] {
      var n := |fs| - 1;
      var f := fs[n];
      FilesConserve(cfg, prev, base, fs[..n]);
      var known := Find(prev, f.relPath);
      ToSendSplittable(cfg, known, f.size);
      if Resumes(known, f.size) {
        RemainingTotal(known.value.chunks, 0, f.size);
      } else {
        var whole := [Interval(0, f.size)];
        assert whole[..0] == [];
        assert TotalSize(whole) == f.size;
      }
    }
  }

  /** Bytes to send and bytes saved add up to the sizes of all discovered files, and blocks are counted right. */
  lemma QueueConserves(cfg: Config, list: seq<FileChunks>, fs: seq<File>, finished: bool)
    requires EntriesOk(list)
    ensures var q := Outcome(cfg, Some(list), fs, finished).queue;
            q.totalFileSize + q.previouslySent == SizeOf(fs) && q.numBlocks == |q.sources|
  {
    IndexedOk(list);
    FilesConserve(cfg, Indexed(list), NextSeqId(list), fs);
  }
}
