/**
 The queue object shared by discovery and the sender threads.  The priority queue is a sequence, from which the top is
 taken; the map of received entries is walked in insertion order.
 */
module SourceQueues {
  import opened Options
  import opened Wire
  import opened Intervals
  import opened Sources
  import opened SourceOrder
  import opened Resumption

  function OpenFailed(s: Source): Source {
    s.(stats := s.stats.(ok := false))
  }

  function OpensFailed(ss: seq<Source>): seq<Source> {
    seq(|ss|, i requires 0 <= i < |ss| => OpenFailed(ss[i]))
  }

  /** What was tried, put in front of what is still to be served. */
  function ServeAfter(tried: seq<Source>, q: seq<Source>, readable: set<Bytes>): Served {
    var s := Serve(q, readable);
    s.(failed := tried + s.failed)
  }

  lemma TriedOne(tried: seq<Source>, q: seq<Source>, readable: set<Bytes>)
    requires q != [] && !Opens(q[Top(q)], readable)
    ensures ServeAfter(tried, q, readable) == ServeAfter(tried + [q[Top(q)]], Without(q, Top(q)), readable)
  {
    var top, s := q[Top(q)], Serve(Without(q, Top(q)), readable);
    assert Serve(q, readable) == s.(failed := [top] + s.failed);
    Regroup(tried, top, s.failed);
  }

  lemma Regroup(tried: seq<Source>, top: Source, failed: seq<Source>)
    ensures tried + ([top] + failed) == tried + [top] + failed
  {
  }

  function FileOf(m: MetaData): File {
    File(m.relPath, m.fileSize)
  }

  function FilesIn(shared: seq<MetaData>): seq<File> {
    seq(|shared|, i requires 0 <= i < |shared| => FileOf(shared[i]))
  }

  lemma AddFilesStep(cfg: Config, prev: seq<FileChunks>, q: Queue, files: seq<File>, i: nat)
    requires EntriesOk(prev) && i < |files|
    ensures AddFiles(cfg, prev, q, files[..i + 1]) == AddFile(cfg, prev, AddFiles(cfg, prev, q, files[..i]), files[i])
  {
    assert files[..i + 1][..i] == files[..i];
  }

  function BlocksLeft(meta: MetaData, offset: nat, remaining: nat, blockSize: nat, more: bool): seq<Source>
    requires remaining > 0 ==> blockSize > 0
  {
    if more then Split(meta, offset, remaining, blockSize) else []
  }

  lemma PushStep(queue: seq<Source>, meta: MetaData, offset: nat, remaining: nat, blockSize: nat)
    requires remaining > 0 ==> blockSize > 0
    ensures var size := Least(remaining, blockSize);
            queue + BlocksLeft(meta, offset, remaining, blockSize, true) ==
            queue + [NewSource(meta, size, offset)] +
            BlocksLeft(meta, offset + size, remaining - size, blockSize, remaining > size)
  {
  }

  lemma SplitAllStep(queue: seq<Source>, meta: MetaData, chunks: seq<Interval>, k: nat, blockSize: nat)
    requires Splittable(chunks, blockSize) && k < |chunks|
    ensures var c := chunks[k];
            && TotalSize(chunks[..k + 1]) == TotalSize(chunks[..k]) + (c.end - c.start)
            && queue + SplitAll(meta, chunks[..k + 1], blockSize) ==
               queue + SplitAll(meta, chunks[..k], blockSize) + Split(meta, c.start, c.end - c.start, blockSize)
  {
    assert chunks[..k + 1][..k] == chunks[..k];
  }

  lemma RebuiltIs(cfg: Config, s: State, list: seq<FileChunks>, q: Queue)
    requires EntriesOk(list) && EntriesOk(Indexed(list))
    requires q == AddFiles(cfg, Indexed(list), Queue(NextSeqId(list), [], 0, 0, 0, s.queue.previouslySent), s.files)
    ensures Rebuilt(cfg, s, list) == State(Indexed(list), s.files, s.finished, true, q)
  {
  }

  class DirectorySourceQueue {
    const config: Config
    var sourceQueue: seq<Source>
    var numBlocksDequeued: int
    var failedSources: seq<Source>
    var sharedFileData: seq<MetaData>
    var previouslyTransferred: seq<FileChunks>
    var chunksReceived: bool
    var initFinished: bool
    var nextSeqId: nat
    var numEntries: nat
    var numBlocks: nat
    var totalFileSize: int
    var previouslySentBytes: int

    ghost function Contents(): Queue
      reads this
    {
      Queue(nextSeqId, sourceQueue, numEntries, numBlocks, totalFileSize, previouslySentBytes)
    }

    /** Before deletions are appended, the shared data are exactly the discovered files. */
    ghost function Abstract(): State
      reads this
    {
      State(previouslyTransferred, FilesIn(sharedFileData), initFinished, chunksReceived, Contents())
    }

    ghost predicate Valid()
      reads this
    {
      EntriesOk(previouslyTransferred) && (!chunksReceived ==> previouslyTransferred == [])
    }

    constructor (config: Config)
      ensures Valid() && Abstract() == INITIAL && numBlocksDequeued == 0 && this.config == config
    {
      this.config := config;
      sourceQueue, numBlocksDequeued, failedSources := [], 0, [];
      sharedFileData, previouslyTransferred, chunksReceived, initFinished := [], [], false, false;
      nextSeqId, numEntries, numBlocks, totalFileSize, previouslySentBytes := FIRST_SEQ_ID, 0, 0, 0, 0;
    }

    /** Returned sources are pushed back one by one; each must have been handed out before. */
    method ReturnToQueue(sources: seq<Source>)
      requires numBlocksDequeued >= |sources|
      modifies this`sourceQueue, this`numBlocksDequeued
      ensures sourceQueue == old(sourceQueue) + sources
      ensures numBlocksDequeued == old(numBlocksDequeued) - |sources|
    {
      for i := 0 to |sources|
        invariant sourceQueue == old(sourceQueue) + sources[..i]
        invariant numBlocksDequeued == old(numBlocksDequeued) - i
      {
        sourceQueue := sourceQueue + [sources[i]];
        assert numBlocksDequeued > 0;
        numBlocksDequeued := numBlocksDequeued - 1;
      }
    }

    /** Hands out the first source, in the order of the queue, that opens; those that do not are set aside as failed. */
    method GetNextSource(readable: set<Bytes>) returns (source: Option<Source>)
      modifies this`sourceQueue, this`numBlocksDequeued, this`failedSources
      ensures var s := Serve(old(sourceQueue), readable);
              && failedSources == old(failedSources) + OpensFailed(s.failed) && sourceQueue == s.rest
              && source == (if s.found.Some? then Some(s.found.value.Opened()) else None)
              && numBlocksDequeued == old(numBlocksDequeued) + (if s.found.Some? then 1 else 0)
    {
      ghost var tried := [];
      while sourceQueue != []
        invariant ServeAfter(tried, sourceQueue, readable) == Serve(old(sourceQueue), readable)
        invariant failedSources == old(failedSources) + OpensFailed(tried)
        invariant numBlocksDequeued == old(numBlocksDequeued)
        decreases |sourceQueue|
      {
        var top := Top(sourceQueue);
        var next := sourceQueue[top];
        ghost var q := sourceQueue;
        sourceQueue := Without(sourceQueue, top);
        if Opens(next, readable) {
          numBlocksDequeued := numBlocksDequeued + 1;
          return Some(next.Opened());
        }
        TriedOne(tried, q, readable);
        tried := tried + [next];
        failedSources := failedSources + [OpenFailed(next)];
      }
      source := None;
    }

    /** The do/while loop that cuts a range into blocks. */
    method PushBlocks(metadata: MetaData, start: nat, remaining: nat, blockSize: nat) returns (blockCount: nat)
      requires remaining > 0 ==> blockSize > 0
      modifies this`sourceQueue
      ensures var blocks := Split(metadata, start, remaining, blockSize);
              sourceQueue == old(sourceQueue) + blocks && blockCount == |blocks|
    {
      var offset, remainingBytes, more := start, remaining, true;
      ghost var all := sourceQueue + Split(metadata, start, remaining, blockSize);
      blockCount := 0;
      while more
        invariant remainingBytes > 0 ==> blockSize > 0
        invariant all == sourceQueue + BlocksLeft(metadata, offset, remainingBytes, blockSize, more)
        invariant |sourceQueue| == |old(sourceQueue)| + blockCount
        decreases more, remainingBytes
      {
        var size := Least(remainingBytes, blockSize);
        PushStep(sourceQueue, metadata, offset, remainingBytes, blockSize);
        sourceQueue := sourceQueue + [NewSource(metadata, size, offset)];
        remainingBytes := remainingBytes - size;
        offset := offset + size;
        blockCount := blockCount + 1;
        more := remainingBytes > 0;
      }
    }

    /** Queues what is missing of the file whose data are at index `i`, and records its new id. */
    method CreateIntoQueueInternal(i: nat)
      requires Valid() && i < |sharedFileData|
      modifies this`sourceQueue, this`sharedFileData, this`nextSeqId, this`numEntries, this`numBlocks,
               this`totalFileSize, this`previouslySentBytes
      ensures Valid() && FilesIn(sharedFileData) == FilesIn(old(sharedFileData))
      ensures Contents() == AddFile(config, previouslyTransferred, old(Contents()), FileOf(old(sharedFileData[i])))
    {
      var f := FileOf(sharedFileData[i]);
      var known := Find(previouslyTransferred, f.relPath);
      ToSendSplittable(config, known, f.size);
      var blockSize := BlockSize(config, f.size);
      var metadata := MetaOf(known, f, nextSeqId);
      var remainingChunks := [Interval(0, f.size)];
      if known.None? || known.value.fileSize > f.size {
        nextSeqId := nextSeqId + 1;
      } else {
        previouslySentBytes := previouslySentBytes + TotalSize(known.value.chunks);
        remainingChunks := GetRemainingChunks(known.value.chunks, f.size);
        if remainingChunks == [] {
          return;
        }
      }
      sharedFileData := sharedFileData[i := metadata];
      PushChunks(metadata, remainingChunks, blockSize);
      numEntries := numEntries + 1;
    }

    method PushChunks(metadata: MetaData, chunks: seq<Interval>, blockSize: nat)
      requires Splittable(chunks, blockSize)
      modifies this`sourceQueue, this`numBlocks, this`totalFileSize
      ensures var blocks := SplitAll(metadata, chunks, blockSize);
              && sourceQueue == old(sourceQueue) + blocks && numBlocks == old(numBlocks) + |blocks|
              && totalFileSize == old(totalFileSize) + TotalSize(chunks)
    {
      var blockCount: nat := 0;
      assert chunks[..|chunks|] == chunks;
      for k := 0 to |chunks|
        invariant var blocks := SplitAll(metadata, chunks[..k], blockSize);
                  sourceQueue == old(sourceQueue) + blocks && blockCount == |blocks|
        invariant totalFileSize == old(totalFileSize) + TotalSize(chunks[..k]) && numBlocks == old(numBlocks)
      {
        SplitAllStep(old(sourceQueue), metadata, chunks, k, blockSize);
        var c := chunks[k];
        var count := PushBlocks(metadata, c.start, c.end - c.start, blockSize);
        blockCount := blockCount + count;
        totalFileSize := totalFileSize + (c.end - c.start);
      }
      numBlocks := numBlocks + blockCount;
    }

    /** Discovery found a file. */
    method CreateIntoQueue(f: File)
      requires Valid()
      modifies this`sourceQueue, this`sharedFileData, this`nextSeqId, this`numEntries, this`numBlocks,
               this`totalFileSize, this`previouslySentBytes
      ensures Valid() && Abstract() == AfterDiscover(config, old(Abstract()), f)
    {
      sharedFileData := sharedFileData + [MetaData(f.relPath, f.size, 0, 0, NotExists)];
      assert FilesIn(sharedFileData) == FilesIn(old(sharedFileData)) + [f];
      CreateIntoQueueInternal(|sharedFileData| - 1);
    }

    /** Queues a deletion for each received name that was not discovered, once both lists are complete. */
    method EnqueueFilesToBeDeleted()
      requires Valid()
      modifies this`sourceQueue, this`sharedFileData, this`numEntries, this`numBlocks
      ensures Valid() && Contents() == AddDeletions(config, old(Abstract()))
      ensures |sharedFileData| >= |old(sharedFileData)|
      ensures sharedFileData[..|old(sharedFileData)|] == old(sharedFileData)
    {
      if !config.deleteFiles || !initFinished {
        return;
      }
      if previouslyTransferred == [] {
        assert sourceQueue + [] == sourceQueue;
        return;
      }
      var discovered := FilesIn(sharedFileData);
      var prev := previouslyTransferred;
      var numToBeDeleted: nat := 0;
      for k := 0 to |prev|
        invariant var ds := Deletions(prev[..k], discovered);
                  sourceQueue == old(sourceQueue) + ds && numToBeDeleted == |ds|
        invariant |sharedFileData| >= |old(sharedFileData)|
        invariant sharedFileData[..|old(sharedFileData)|] == old(sharedFileData)
        invariant numEntries == old(numEntries) && numBlocks == old(numBlocks)
      {
        assert prev[..k + 1][..k] == prev[..k];
        if !Discovered(discovered, prev[k].name) {
          var source := Deletion(prev[k]);
          sharedFileData := sharedFileData + [source.meta];
          sourceQueue := sourceQueue + [source];
          numToBeDeleted := numToBeDeleted + 1;
        }
      }
      assert prev[..|prev|] == prev;
      numEntries := numEntries + numToBeDeleted;
      numBlocks := numBlocks + numToBeDeleted;
    }

    /** Discovery is over. */
    method FinishDiscovery()
      requires Valid()
      modifies this`initFinished, this`sourceQueue, this`sharedFileData, this`numEntries, this`numBlocks
      ensures Valid() && initFinished && Contents() == AfterFinish(config, old(Abstract())).queue
      ensures |sharedFileData| >= |old(sharedFileData)|
      ensures sharedFileData[..|old(sharedFileData)|] == old(sharedFileData)
    {
      initFinished := true;
      EnqueueFilesToBeDeleted();
    }

    /** The receiver's list arrived; it must come before any block is handed out, and only the first one counts. */
    method SetFileChunksInfo(list: seq<FileChunks>)
      requires Valid() && numBlocksDequeued == 0 && EntriesOk(list)
      modifies this
      ensures Valid() && numBlocksDequeued == 0
      ensures Contents() == AfterArrive(config, old(Abstract()), list).queue
      ensures chunksReceived && previouslyTransferred == AfterArrive(config, old(Abstract()), list).prev
      ensures FilesIn(old(sharedFileData)) <= FilesIn(sharedFileData)
    {
      if chunksReceived {
        return;
      }
      SetPreviouslyReceivedChunks(list);
    }

    method SetPreviouslyReceivedChunks(list: seq<FileChunks>)
      requires Valid() && numBlocksDequeued == 0 && EntriesOk(list) && !chunksReceived
      modifies this
      ensures Valid() && numBlocksDequeued == 0 && chunksReceived
      ensures Contents() == AfterArrive(config, old(Abstract()), list).queue
      ensures previouslyTransferred == Indexed(list)
      ensures FilesIn(old(sharedFileData)) <= FilesIn(sharedFileData)
    {
      ResetAndRebuild(list);
      ghost var shared, rebuilt := sharedFileData, Abstract();
      RebuiltIs(config, old(Abstract()), list, rebuilt.queue);
      EnqueueFilesToBeDeleted();
      assert FilesIn(sharedFileData)[..|shared|] == FilesIn(shared);
    }

    method ResetAndRebuild(list: seq<FileChunks>)
      requires Valid() && EntriesOk(list) && !chunksReceived
      modifies this`sourceQueue, this`sharedFileData, this`nextSeqId, this`numEntries, this`numBlocks,
               this`totalFileSize, this`previouslySentBytes, this`previouslyTransferred, this`chunksReceived
      ensures Valid() && chunksReceived && previouslyTransferred == Indexed(list)
      ensures FilesIn(sharedFileData) == FilesIn(old(sharedFileData))
      ensures Contents() == AddFiles(config, Indexed(list),
                                     Queue(NextSeqId(list), [], 0, 0, 0, old(previouslySentBytes)),
                                     FilesIn(old(sharedFileData)))
    {
      numEntries, numBlocks, totalFileSize := 0, 0, 0;
      IndexChunks(list);
      sourceQueue := [];
      RebuildQueue();
    }

    /** Keeps the first entry of each name, and moves the next id behind every listed one. */
    method IndexChunks(list: seq<FileChunks>)
      requires Valid() && !chunksReceived && EntriesOk(list)
      modifies this`nextSeqId, this`previouslyTransferred, this`chunksReceived
      ensures Valid() && chunksReceived && previouslyTransferred == Indexed(list) && nextSeqId == NextSeqId(list)
    {
      nextSeqId, chunksReceived := 0, true;
      assert list[..|list|] == list;
      for k := 0 to |list|
        invariant nextSeqId == NextSeqId(list[..k]) && previouslyTransferred == Indexed(list[..k]) && chunksReceived
      {
        assert list[..k + 1][..k] == list[..k];
        nextSeqId := Max(nextSeqId, list[k].seqId + 1);
        previouslyTransferred := InsertEntry(previouslyTransferred, list[k]);
      }
      IndexedOk(list);
    }

    method RebuildQueue()
      requires Valid()
      modifies this`sourceQueue, this`sharedFileData, this`nextSeqId, this`numEntries, this`numBlocks,
               this`totalFileSize, this`previouslySentBytes
      ensures Valid() && FilesIn(sharedFileData) == FilesIn(old(sharedFileData))
      ensures Contents() == AddFiles(config, previouslyTransferred, old(Contents()), FilesIn(old(sharedFileData)))
    {
      ghost var files := FilesIn(sharedFileData);
      for i := 0 to |sharedFileData|
        invariant Valid() && FilesIn(sharedFileData) == files && |sharedFileData| == |files|
        invariant Contents() == AddFiles(config, previouslyTransferred, old(Contents()), files[..i])
      {
        AddFilesStep(config, previouslyTransferred, old(Contents()), files, i);
        assert files[i] == FileOf(sharedFileData[i]);
        CreateIntoQueueInternal(i);
      }
      assert files[..|files|] == files;
    }
  }
}
