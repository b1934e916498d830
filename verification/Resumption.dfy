/**
 How the sender's queue is built from discovered files and from the list of chunks the receiver already has.
 The list may arrive at any moment of the discovery; the queue is then rebuilt.
 */
module Resumption {
  import opened Options
  import opened Wire
  import opened Intervals
  import opened Sources

  const MEGABYTE := 1024 * 1024

  /** The first sequence id given out when no list arrives. */
  const FIRST_SEQ_ID := 1

  datatype File = File(relPath: Bytes, size: nat)

  datatype Config = Config(blockSizeMbytes: int, deleteFiles: bool)

  datatype Queue = Queue(nextSeqId: nat, sources: seq<Source>, numEntries: nat, numBlocks: nat,
                         totalFileSize: int, previouslySent: int)

  /** Everything the queue object knows; `prev` are the received entries, one per name. */
  datatype State = State(prev: seq<FileChunks>, files: seq<File>, finished: bool, listed: bool, queue: Queue)

  /** What can happen before the first block is handed out. */
  datatype Event = Discover(file: File) | Arrive(list: seq<FileChunks>) | Finish

  // ---- the received list

  /** What the receiver lists of a file: merged chunks inside the size it has allocated. */
  predicate EntryOk(p: FileChunks) {
    Merged(p.chunks) && Within(p.chunks, p.fileSize)
  }

  predicate EntriesOk(ps: seq<FileChunks>) {
    forall i :: 0 <= i < |ps| ==> EntryOk(ps[i])
  }

  function Find(ps: seq<FileChunks>, name: Bytes): (r: Option<FileChunks>)
    ensures r.Some? ==> r.value in ps && r.value.name == name
    ensures r.None? ==> forall p :: p in ps ==> p.name != name
  {
    if ps == [] then None
    else if ps[0].name == name then Some(ps[0])
    else Find(ps[1..], name)
  }

  /** Inserting into the map of entries keeps what a name already has. */
  function InsertEntry(ps: seq<FileChunks>, p: FileChunks): seq<FileChunks> {
    if Find(ps, p.name).Some? then ps else ps + [p]
  }

  function Indexed(list: seq<FileChunks>): seq<FileChunks> {
    if list == [] then [] else InsertEntry(Indexed(list[..|list| - 1]), list[|list| - 1])
  }

  /** New ids start behind every listed one. */
  function NextSeqId(list: seq<FileChunks>): nat {
    if list == [] then 0 else Max(NextSeqId(list[..|list| - 1]), list[|list| - 1].seqId + 1)
  }

  // ---- one file

  function BlockSize(cfg: Config, fileSize: nat): nat {
    if cfg.blockSizeMbytes > 0 then cfg.blockSizeMbytes * MEGABYTE else fileSize
  }

  /** The blocks of one range; even an empty range gets one. */
  function Split(meta: MetaData, offset: nat, remaining: nat, blockSize: nat): seq<Source>
    requires remaining > 0 ==> blockSize > 0
    decreases remaining
  {
    var size := Least(remaining, blockSize);
    [NewSource(meta, size, offset)] +
    if remaining > size then Split(meta, offset + size, remaining - size, blockSize) else []
  }

  predicate Splittable(chunks: seq<Interval>, blockSize: nat) {
    forall i :: 0 <= i < |chunks| ==>
      chunks[i].start <= chunks[i].end && (chunks[i].start < chunks[i].end ==> blockSize > 0)
  }

  function SplitAll(meta: MetaData, chunks: seq<Interval>, blockSize: nat): seq<Source>
    requires Splittable(chunks, blockSize)
  {
    if chunks == [] then []
    else
      var n := |chunks| - 1;
      SplitAll(meta, chunks[..n], blockSize) +
      Split(meta, chunks[n].start, chunks[n].end - chunks[n].start, blockSize)
  }

  function TotalSize(chunks: seq<Interval>): int {
    if chunks == [] then 0
    else TotalSize(chunks[..|chunks| - 1]) + (chunks[|chunks| - 1].end - chunks[|chunks| - 1].start)
  }

  function Enqueue(cfg: Config, q: Queue, meta: MetaData, chunks: seq<Interval>): Queue
    requires Splittable(chunks, BlockSize(cfg, meta.fileSize))
  {
    var blocks := SplitAll(meta, chunks, BlockSize(cfg, meta.fileSize));
    q.(sources := q.sources + blocks, numEntries := q.numEntries + 1, numBlocks := q.numBlocks + |blocks|,
       totalFileSize := q.totalFileSize + TotalSize(chunks))
  }

  /** What is to be sent of a file, given what the receiver has of it. */
  function ToSend(known: Option<FileChunks>, size: nat): seq<Interval> {
    if known.None? || known.value.fileSize > size then [Interval(0, size)]
    else Remaining(known.value.chunks, 0, size)
  }

  /** Whether the receiver's part of the file is used. */
  predicate Resumes(known: Option<FileChunks>, size: nat) {
    known.Some? && known.value.fileSize <= size
  }

  function MetaOf(known: Option<FileChunks>, f: File, nextSeqId: nat): MetaData {
    if known.None? then MetaData(f.relPath, f.size, nextSeqId, 0, NotExists)
    else if known.value.fileSize > f.size then MetaData(f.relPath, f.size, nextSeqId, known.value.seqId, ExistsTooLarge)
    else MetaData(f.relPath, f.size, known.value.seqId, 0,
                  if known.value.fileSize < f.size then ExistsTooSmall else ExistsCorrectSize)
  }

  lemma ToSendSplittable(cfg: Config, known: Option<FileChunks>, size: nat)
    requires known.Some? ==> EntryOk(known.value)
    ensures Splittable(ToSend(known, size), BlockSize(cfg, size))
  {
    if Resumes(known, size) {
      RemainingTiles(known.value.chunks, 0, size, 0);
    }
  }

  function AddFile(cfg: Config, prev: seq<FileChunks>, q: Queue, f: File): Queue
    requires EntriesOk(prev)
  {
    var known := Find(prev, f.relPath);
    var chunks := ToSend(known, f.size);
    var meta := MetaOf(known, f, q.nextSeqId);
    ToSendSplittable(cfg, known, f.size);
    if Resumes(known, f.size) then
      var q' := q.(previouslySent := q.previouslySent + TotalSize(known.value.chunks));
      if chunks == [] then q' else Enqueue(cfg, q', meta, chunks)
    else
      Enqueue(cfg, q.(nextSeqId := q.nextSeqId + 1), meta, chunks)
  }

  function AddFiles(cfg: Config, prev: seq<FileChunks>, q: Queue, fs: seq<File>): Queue
    requires EntriesOk(prev)
  {
    if fs == [] then q
    else AddFile(cfg, prev, AddFiles(cfg, prev, q, fs[..|fs| - 1]), fs[|fs| - 1])
  }

  // ---- files the receiver has and the sender does not

  predicate Discovered(fs: seq<File>, name: Bytes) {
    exists i :: 0 <= i < |fs| && fs[i].relPath == name
  }

  function Deletion(p: FileChunks): Source {
    NewSource(MetaData(p.name, 0, p.seqId, 0, ToBeDeleted), 0, 0)
  }

  function Deletions(prev: seq<FileChunks>, fs: seq<File>): seq<Source> {
    if prev == [] then []
    else
      var p := prev[|prev| - 1];
      Deletions(prev[..|prev| - 1], fs) + if Discovered(fs, p.name) then [] else [Deletion(p)]
  }

  function AddDeletions(cfg: Config, s: State): Queue {
    if !cfg.deleteFiles || !s.finished then s.queue
    else
      var ds := Deletions(s.prev, s.files);
      s.queue.(sources := s.queue.sources + ds, numEntries := s.queue.numEntries + |ds|,
               numBlocks := s.queue.numBlocks + |ds|)
  }

  // ---- the queue over time

  function EmptyQueue(nextSeqId: nat): Queue {
    Queue(nextSeqId, [], 0, 0, 0, 0)
  }

  const INITIAL := State([], [], false, false, EmptyQueue(FIRST_SEQ_ID))

  function AfterDiscover(cfg: Config, s: State, f: File): State
    requires EntriesOk(s.prev)
  {
    s.(files := s.files + [f], queue := AddFile(cfg, s.prev, s.queue, f))
  }

  lemma {:induction false} IndexedOk(list: seq<FileChunks>)
    requires EntriesOk(list)
    ensures EntriesOk(Indexed(list))
    ensures forall p :: p in Indexed(list) ==> p in list
  {
    if list != [] {
      IndexedOk(list[..|list| - 1]);
    }
  }

  /** Everything but the bytes saved starts afresh. */
  function Rebuilt(cfg: Config, s: State, list: seq<FileChunks>): State
    requires EntriesOk(list)
  {
    IndexedOk(list);
    var prev := Indexed(list);
    var empty := EmptyQueue(NextSeqId(list)).(previouslySent := s.queue.previouslySent);
    State(prev, s.files, s.finished, true, AddFiles(cfg, prev, empty, s.files))
  }

  function WithDeletions(cfg: Config, s: State): State {
    s.(queue := AddDeletions(cfg, s))
  }

  /** Only the first list counts. */
  function AfterArrive(cfg: Config, s: State, list: seq<FileChunks>): State
    requires EntriesOk(list)
  {
    if s.listed then s else WithDeletions(cfg, Rebuilt(cfg, s, list))
  }

  function AfterFinish(cfg: Config, s: State): State {
    WithDeletions(cfg, s.(finished := true))
  }
}
