/** The log file, the parser that replays and fixes it, and the manager that rewrites it. */
module LogParsers {
  import opened Options
  import opened Wire
  import opened Intervals
  import opened OrderedMaps
  import opened LogEntries
  import opened LogReplay
  import opened LogLaws
  import opened LogCompaction
  import opened Resumption

  /** A file with a position; reads and writes that the operating system refuses are not modelled. */
  class LogFile {
    var bytes: Bytes
    var pos: nat

    ghost predicate Valid()
      reads this
    {
      pos <= |bytes|
    }

    /** Reads up to `n` bytes, fewer at the end. */
    method Read(n: nat) returns (data: Bytes)
      requires Valid()
      modifies this`pos
      ensures Valid() && pos == old(pos) + |data| && data == bytes[old(pos)..pos]
      ensures |data| == Least(n, |bytes| - old(pos))
    {
      var k := Least(n, |bytes| - pos);
      data := bytes[pos..pos + k];
      pos := pos + k;
    }

    method TruncateExtraBytesAtEnd(extra: nat)
      requires extra <= |bytes|
      modifies this
      ensures Valid() && bytes == old(bytes)[..|old(bytes)| - extra] && pos == |bytes|
    {
      bytes := bytes[..|bytes| - extra];
      pos := |bytes|;
    }

    method Append(data: Bytes)
      requires pos == |bytes|
      modifies this
      ensures bytes == old(bytes) + data && pos == |bytes|
    {
      bytes := bytes + data;
      pos := |bytes|;
    }

    method Rewind()
      modifies this`pos
      ensures pos == 0
    {
      pos := 0;
    }
  }

  /** The next entry, seen from a position in the log. */
  lemma NextAt(s: Bytes, here: nat)
    requires here <= |s|
    ensures |s| - here < LENGTH_LEN ==> NextEntry(s[here..]) == Tail
    ensures |s| - here >= LENGTH_LEN ==>
              var size := Unfixed(s[here..here + LENGTH_LEN]);
              var begin := here + LENGTH_LEN;
              && (size == 0 || size > MAX_ENTRY_LENGTH ==> NextEntry(s[here..]) == BadLength)
              && (0 < size <= MAX_ENTRY_LENGTH && |s| - begin < size ==> NextEntry(s[here..]) == Tail)
              && (0 < size <= MAX_ENTRY_LENGTH && |s| - begin >= size ==>
                    NextEntry(s[here..]) == Next.Entry(s[begin..begin + size])
                      && s[here..][LENGTH_LEN + size..] == s[begin + size..])
  {
    if |s| - here >= LENGTH_LEN {
      assert s[here..][..LENGTH_LEN] == s[here..here + LENGTH_LEN];
    }
  }

  /** What is parsed from a position on completes the whole. */
  predicate GoesOnAt(all: Parsed, later: Parsed, pos: nat) {
    all == later.(used := pos + later.used)
  }

  lemma ParseAt(step: Stepper, o: Outcome, s: Bytes, here: nat, body: Bytes)
    requires o.status != Invalid && here <= |s| && NextEntry(s[here..]) == Next.Entry(body)
    ensures var pos := here + LENGTH_LEN + |body|;
            var later := ParseWith(step, step(o, body), s[pos..]);
            ParseWith(step, o, s[here..]) == later.(used := LENGTH_LEN + |body| + later.used)
  {
    var pos := here + LENGTH_LEN + |body|;
    assert s[here..][LENGTH_LEN + |body|..] == s[pos..];
    ParseNext(step, o, s[here..], step(o, body), s[pos..]);
  }

  class LogParser {
    const env: Env
    var headerParsed: bool
    var fileInfoMap: OrderedMap<FileChunks>
    var seqIdToSizeMap: OrderedMap<Int64>
    var invalidSeqIds: OrderedMap<()>
    var senderIp: Bytes

    ghost function State(): Parser
      reads this
    {
      Parser(headerParsed, fileInfoMap, seqIdToSizeMap, invalidSeqIds, senderIp)
    }

    constructor (env: Env, senderIp: Bytes)
      ensures this.env == env && State() == NewParser(senderIp)
    {
      this.env := env;
      this.senderIp := senderIp;
      headerParsed, fileInfoMap, seqIdToSizeMap, invalidSeqIds := false, [], [], [];
    }

    method ClearParsedData()
      modifies this`fileInfoMap, this`seqIdToSizeMap, this`invalidSeqIds
      ensures State() == Cleared(old(State()))
    {
      fileInfoMap, seqIdToSizeMap, invalidSeqIds := [], [], [];
    }

    method ProcessHeaderEntry(e: Entry) returns (status: Status)
      requires e.Header?
      modifies this`headerParsed, this`senderIp
      ensures Outcome(status, State()) == ProcessHeader(env, old(State()), e)
    {
      senderIp := e.senderIp;
      if e.version != LOG_VERSION {
        return Invalid;
      }
      if senderIp == [] {
        return Invalid;
      }
      if env.recoveryId != e.recoveryId {
        return Inconsistent;
      }
      if env.config != e.config {
        return Inconsistent;
      }
      headerParsed := true;
      return Ok;
    }

    method ProcessFileCreationEntry(e: Entry) returns (status: Status)
      requires e.Creation?
      modifies this`fileInfoMap, this`seqIdToSizeMap, this`invalidSeqIds
      ensures Outcome(status, State()) == ProcessCreation(env, old(State()), e)
    {
      if !headerParsed {
        return Invalid;
      }
      if env.useDirTree {
        return Invalid;
      }
      if Get(fileInfoMap, e.seqId).Some? || Get(invalidSeqIds, e.seqId).Some? {
        return Invalid;
      }
      var sizeVerified := false;
      if e.name in env.disk {
        sizeVerified := if env.preallocate then env.disk[e.name] >= e.fileSize else true;
      }
      if sizeVerified {
        fileInfoMap := Set(fileInfoMap, e.seqId, FileChunks(e.seqId, e.name, env.disk[e.name], []));
        if Get(seqIdToSizeMap, e.seqId).None? {
          seqIdToSizeMap := Set(seqIdToSizeMap, e.seqId, e.fileSize);
        }
      } else {
        invalidSeqIds := Set(invalidSeqIds, e.seqId, ());
      }
      return Ok;
    }

    method ProcessFileResizeEntry(e: Entry) returns (status: Status)
      requires e.Resize?
      modifies this`seqIdToSizeMap
      ensures Outcome(status, State()) == ProcessResize(env, old(State()), e)
    {
      if !headerParsed || env.useDirTree {
        return Invalid;
      }
      var file := Get(fileInfoMap, e.seqId);
      if file.None? {
        return Invalid;
      }
      var size := Get(seqIdToSizeMap, e.seqId);
      if size.None? || e.fileSize < size.value {
        return Invalid;
      }
      if env.preallocate && e.fileSize > file.value.fileSize {
        return Invalid;
      }
      seqIdToSizeMap := Set(seqIdToSizeMap, e.seqId, e.fileSize);
      return Ok;
    }

    method ProcessBlockWriteEntry(e: Entry) returns (status: Status)
      requires e.BlockWrite?
      modifies this`fileInfoMap
      ensures Outcome(status, State()) == ProcessBlockWrite(env, old(State()), e)
    {
      if !headerParsed || env.useDirTree {
        return Invalid;
      }
      if Get(invalidSeqIds, e.seqId).Some? {
        return Ok;
      }
      var file := Get(fileInfoMap, e.seqId);
      if file.None? {
        return Invalid;
      }
      if e.offset + e.blockSize > file.value.fileSize {
        return Invalid;
      }
      var chunk := Interval(e.offset, e.offset + e.blockSize);
      fileInfoMap := Set(fileInfoMap, e.seqId, file.value.(chunks := file.value.chunks + [chunk]));
      return Ok;
    }

    method ProcessFileInvalidationEntry(e: Entry) returns (status: Status)
      requires e.Invalidation?
      modifies this`fileInfoMap, this`invalidSeqIds
      ensures Outcome(status, State()) == ProcessInvalidation(env, old(State()), e)
    {
      if !headerParsed || env.useDirTree {
        return Invalid;
      }
      if Get(fileInfoMap, e.seqId).None? && Get(invalidSeqIds, e.seqId).None? {
        return Invalid;
      }
      fileInfoMap := Remove(fileInfoMap, e.seqId);
      invalidSeqIds := Remove(invalidSeqIds, e.seqId);
      return Ok;
    }

    method ProcessEntry(e: Entry) returns (status: Status)
      modifies this
      ensures Outcome(status, State()) == Process(env, old(State()), e)
    {
      match e
      case Header(_, _, _, _, _) => status := ProcessHeaderEntry(e);
      case Creation(_, _, _, _) => status := ProcessFileCreationEntry(e);
      case BlockWrite(_, _, _, _) => status := ProcessBlockWriteEntry(e);
      case Resize(_, _, _) => status := ProcessFileResizeEntry(e);
      case Invalidation(_, _) => status := ProcessFileInvalidationEntry(e);
      case DirectoryInvalidation(_) =>
        headerParsed := false;
        status := Inconsistent;
    }

    /** One turn of the parse loop, once an entry has been read. */
    method ProcessBody(status: Status, body: Bytes) returns (status': Status)
      requires body != []
      modifies this
      ensures Outcome(status', State()) == StepBody(env, Outcome(status, old(State())), body)
    {
      if status == Inconsistent && body[0] != HEADER {
        return status;
      }
      var e := DecodeBody(body);
      if e.None? {
        return Invalid;
      }
      HeaderOnly(body);
      status' := ProcessEntry(e.value);
      if status' == Inconsistent {
        ClearParsedData();
      }
    }

    /** Reads the next entry; part of one at the end of the log is cut off. */
    method ReadEntry(log: LogFile) returns (next: Next)
      requires log.Valid()
      modifies log
      ensures next == NextEntry(old(log.bytes)[old(log.pos)..])
      ensures !next.Tail? ==> log.bytes == old(log.bytes)
      ensures next.Entry? ==> log.Valid() && log.pos == old(log.pos) + LENGTH_LEN + |next.body|
      ensures next.Tail? ==> log.bytes == old(log.bytes)[..old(log.pos)] && log.pos == |log.bytes|
    {
      NextAt(log.bytes, log.pos);
      var size := log.Read(LENGTH_LEN);
      if |size| == 0 {
        return Tail;
      }
      if |size| != LENGTH_LEN {
        log.TruncateExtraBytesAtEnd(|size|);
        return Tail;
      }
      var entrySize := Unfixed(size);
      if entrySize <= 0 || entrySize > MAX_ENTRY_LENGTH {
        return BadLength;
      }
      var entry := log.Read(entrySize);
      if |entry| != entrySize {
        log.TruncateExtraBytesAtEnd(|entry| + LENGTH_LEN);
        return Tail;
      }
      return Next.Entry(entry);
    }

    /** The state of the parse loop: what is left of the log decides the outcome. */
    ghost predicate Underway(step: Stepper, log: LogFile, s: Bytes, r: Parsed, status: Status)
      reads this, log
    {
      log.Valid() && log.bytes == s && status != Invalid
      && GoesOnAt(r, ParseWith(step, Outcome(status, State()), s[log.pos..]), log.pos)
    }

    ghost predicate Over(log: LogFile, s: Bytes, r: Parsed, status: Status)
      reads this, log
    {
      && Outcome(status, State()) == r.outcome
      && (status == Invalid ==> log.bytes == s)
      && (status != Invalid ==> r.used <= |s| && log.bytes == s[..r.used] && log.pos == |log.bytes|)
    }

    /** `step` is what this parser does with an entry. */
    ghost predicate Takes(step: Stepper) {
      forall o, body {:trigger StepBody(env, o, body)} :: body != [] ==> step(o, body) == StepBody(env, o, body)
    }

    method ProcessWith(status: Status, body: Bytes, ghost step: Stepper) returns (status': Status)
      requires body != [] && Takes(step)
      modifies this
      ensures Outcome(status', State()) == step(Outcome(status, old(State())), body)
    {
      status' := ProcessBody(status, body);
    }

    /** One turn of the parse loop. */
    method ReadAndProcess(log: LogFile, status: Status, ghost step: Stepper, ghost s: Bytes, ghost r: Parsed)
      returns (status': Status, more: bool)
      requires Takes(step) && Underway(step, log, s, r, status)
      modifies this, log
      ensures if more then Underway(step, log, s, r, status') && log.pos > old(log.pos) else Over(log, s, r, status')
    {
      ghost var here, o := log.pos, Outcome(status, State());
      StopsAt(step, o, s[here..]);
      var next := ReadEntry(log);
      if next.Tail? {
        return status, false;
      }
      if next.BadLength? {
        return Invalid, false;
      }
      ParseAt(step, o, s, here, next.body);
      status' := ProcessWith(status, next.body, step);
      StopsAt(step, Outcome(status', State()), s[log.pos..]);
      more := status' != Invalid;
    }

    /** The parse loop. */
    method ReadEntries(log: LogFile) returns (status: Status)
      requires log.pos == 0
      modifies this, log
      ensures Over(log, old(log.bytes), ParseLog(env, Outcome(Ok, old(State())), old(log.bytes)), status)
    {
      ghost var step, s := StepOf(env), log.bytes;
      ghost var r := ParseWith(step, Outcome(Ok, State()), s);
      assert s[0..] == s;
      status := Ok;
      var more := true;
      while more
        invariant if more then Underway(step, log, s, r, status) else Over(log, s, r, status)
        decreases more, |s| - log.pos
      {
        status, more := ReadAndProcess(log, status, step, s, r);
      }
    }

    /** Replays the log and records in it what turned out to be missing. */
    method ParseAndFix(log: LogFile, now: Int64) returns (status: Status, list: seq<FileChunks>)
      requires log.pos == 0
      modifies this, log
      ensures var r := ParseLog(env, Outcome(Ok, old(State())), old(log.bytes));
              && Outcome(status, State()) == r.outcome
              && AllEncodable(Invalidations(now, invalidSeqIds))
              && list == (if status == Ok then Listing(fileInfoMap) else [])
              && (status == Invalid ==> log.bytes == old(log.bytes))
              && (status == Inconsistent ==> log.bytes == old(log.bytes)[..r.used])
              && (status == Ok ==>
                    log.bytes == old(log.bytes)[..r.used] + EncodeAll(Invalidations(now, invalidSeqIds), []))
              && (status != Invalid ==> log.pos == |log.bytes|)
    {
      status := ReadEntries(log);
      list := [];
      InvalidationsFit(now, invalidSeqIds);
      if status == Ok {
        list := MergedFiles();
        WriteFileInvalidationEntries(log, now);
      }
    }

    method MergedFiles() returns (list: seq<FileChunks>)
      ensures list == Listing(fileInfoMap)
    {
      list := [];
      for i := 0 to |fileInfoMap|
        invariant list == Listing(fileInfoMap[..i])
      {
        assert fileInfoMap[..i + 1][..i] == fileInfoMap[..i];
        var file := fileInfoMap[i].value;
        var merged := MergeChunks(file.chunks);
        list := list + [file.(chunks := merged)];
      }
      assert fileInfoMap[..|fileInfoMap|] == fileInfoMap;
    }

    method WriteFileInvalidationEntries(log: LogFile, now: Int64)
      requires log.pos == |log.bytes|
      modifies log
      ensures AllEncodable(Invalidations(now, invalidSeqIds))
      ensures log.bytes == old(log.bytes) + EncodeAll(Invalidations(now, invalidSeqIds), []) && log.pos == |log.bytes|
    {
      InvalidationsFit(now, invalidSeqIds);
      ghost var rest := Invalidations(now, invalidSeqIds);
      ghost var all := log.bytes + EncodeAll(rest, []);
      var buf := new Byte[MAX_ENTRY_LENGTH];
      for i := 0 to |invalidSeqIds|
        invariant rest == Invalidations(now, invalidSeqIds[i..]) && AllWritable(rest)
        invariant all == log.bytes + EncodeAll(rest, []) && log.pos == |log.bytes|
        invariant fresh(buf) && buf.Length == MAX_ENTRY_LENGTH
      {
        var e := Invalidation(now, invalidSeqIds[i].key);
        NextInvalidation(now, invalidSeqIds, i, log.bytes);
        var size := WriteEntry(buf, MAX_ENTRY_LENGTH, e);
        log.Append(buf[..size]);
        rest := rest[1..];
      }
      assert log.bytes + [] == log.bytes;
    }
  }

  class TransferLogManager {
    const env: Env
    const log: LogFile
    var senderIp: Bytes

    constructor (env: Env, log: LogFile, senderIp: Bytes)
      ensures this.env == env && this.log == log && this.senderIp == senderIp
    {
      this.env, this.log, this.senderIp := env, log, senderIp;
    }

    /** Replays and repairs the log; an inconsistent directory is marked as such. */
    method ParseVerifyAndFix(now: Int64) returns (status: Status, list: seq<FileChunks>)
      requires log.pos == 0
      modifies this, log
      ensures Repair(status, list, log.bytes, senderIp) == Repaired(env, now, old(senderIp), old(log.bytes))
      ensures status != Invalid ==> log.pos == |log.bytes|
    {
      var parser := new LogParser(env, senderIp);
      status, list := parser.ParseAndFix(log, now);
      senderIp := parser.senderIp;
      if status == Inconsistent {
        InvalidateDirectory(now);
      }
    }

    method InvalidateDirectory(now: Int64)
      requires log.pos == |log.bytes|
      modifies log
      ensures log.bytes == old(log.bytes) + EncodeEntry(DirectoryInvalidation(now)) && log.pos == |log.bytes|
    {
      EntriesFit(DirectoryInvalidation(now));
      AppendEntry(DirectoryInvalidation(now));
    }

    method AppendEntry(e: Entry)
      requires log.pos == |log.bytes| && Writable(e)
      modifies log
      ensures log.bytes == old(log.bytes) + EncodeEntry(e) && log.pos == |log.bytes|
    {
      var buf := new Byte[MAX_ENTRY_LENGTH];
      var size := WriteEntry(buf, MAX_ENTRY_LENGTH, e);
      log.Append(buf[..size]);
    }

    /** A header that does not fit is -1 bytes long, and as many are written: nothing, without an error. */
    method WriteLogHeader(now: Int64)
      requires log.pos == |log.bytes| && Encodable(LogHeader(env, now, senderIp))
      modifies log
      ensures log.bytes == old(log.bytes) + (if Writable(LogHeader(env, now, senderIp)) then
                                               EncodeEntry(LogHeader(env, now, senderIp)) else [])
      ensures log.pos == |log.bytes|
    {
      var buf := new Byte[MAX_ENTRY_LENGTH];
      var size := WriteEntry(buf, MAX_ENTRY_LENGTH, LogHeader(env, now, senderIp));
      if size >= 0 {
        log.Append(buf[..size]);
      }
    }

    /** Rewrites a log of complete files as one creation and one write each; any other log is only repaired. */
    method CompactLog(now: Int64) returns (done: bool)
      requires DiskOk(env) && |env.recoveryId| < I64_LIMIT
      requires |Repaired(env, now, senderIp, log.bytes).senderIp| < I64_LIMIT
      modifies this, log
      ensures var r := Repaired(env, now, old(senderIp), old(log.bytes));
              && senderIp == r.senderIp && (done <==> r.status == Ok && AllComplete(r.list))
              && (if done then Loggable(r.list) && log.bytes == Compacted(env, now, r.senderIp, r.list)
                  else log.bytes == r.log)
    {
      log.Rewind();
      ghost var r := Repaired(env, now, senderIp, log.bytes);
      ListLoggable(env, now, senderIp, log.bytes);
      var status, list := ParseVerifyAndFix(now);
      if status != Ok {
        return false;
      }
      done := OnlyComplete(list);
      if !done {
        return;
      }
      log.TruncateExtraBytesAtEnd(|log.bytes|);
      WriteLogHeader(now);
      WriteFiles(now, list);
      CompactedIs(env, now, senderIp, list);
    }

    /** Each file has one chunk, as long as the file. */
    method OnlyComplete(list: seq<FileChunks>) returns (ok: bool)
      ensures ok <==> AllComplete(list)
    {
      for i := 0 to |list|
        invariant forall j :: 0 <= j < i ==> Complete(list[j])
      {
        if |list[i].chunks| != 1 || TotalSize(list[i].chunks) != list[i].fileSize {
          return false;
        }
      }
      return true;
    }

    method WriteFiles(now: Int64, list: seq<FileChunks>)
      requires Loggable(list) && log.pos == |log.bytes|
      modifies log
      ensures AllEncodable(CompactEntries(now, list))
      ensures log.bytes == old(log.bytes) + EncodeAll(CompactEntries(now, list), [])
    {
      CompactFits(now, list);
      for i := 0 to |list|
        invariant log.pos == |log.bytes| && AllWritable(CompactEntries(now, list[..i]))
        invariant log.bytes == old(log.bytes) + EncodeAll(CompactEntries(now, list[..i]), [])
      {
        var f := list[i];
        var c, b := Creation(now, f.name, f.seqId, f.fileSize), BlockWrite(now, f.seqId, 0, f.fileSize);
        EntriesFit(c);
        EntriesFit(b);
        AppendEntry(c);
        AppendEntry(b);
        WriteFilesStep(old(log.bytes), now, list, i);
      }
      assert list[..|list|] == list;
    }
  }

  lemma NextInvalidation(now: Int64, invalid: OrderedMap<()>, i: nat, log: Bytes)
    requires i < |invalid| && AllWritable(Invalidations(now, invalid[i..]))
    ensures var e, rest := Invalidation(now, invalid[i].key), Invalidations(now, invalid[i + 1..]);
            && Writable(e) && Invalidations(now, invalid[i..])[1..] == rest && AllWritable(rest)
            && log + EncodeAll(Invalidations(now, invalid[i..]), []) == log + EncodeEntry(e) + EncodeAll(rest, [])
  {
    var e, all := Invalidation(now, invalid[i].key), Invalidations(now, invalid[i..]);
    assert invalid[i..][1..] == invalid[i + 1..];
    assert all == [e] + Invalidations(now, invalid[i + 1..]);
    assert all[0] == e && all[1..] == Invalidations(now, invalid[i + 1..]);
  }

  lemma {:induction false} EncodeConcat(a: seq<Entry>, b: seq<Entry>)
    requires AllWritable(a) && AllWritable(b)
    ensures EncodeAll(a + b, []) == EncodeAll(a, []) + EncodeAll(b, [])
  {
    if a == [] {
      assert a + b == b;
    } else {
      EncodeConcat(a[1..], b);
      assert (a + b)[1..] == a[1..] + b && (a + b)[0] == a[0];
    }
  }

  lemma EncodeTwo(c: Entry, b: Entry)
    requires Writable(c) && Writable(b)
    ensures EncodeAll([c, b], []) == EncodeEntry(c) + EncodeEntry(b)
  {
    assert [c, b][1..] == [b] && [b][1..] == [];
    assert EncodeAll([b], []) == EncodeEntry(b);
  }

  lemma WriteFilesStep(log: Bytes, now: Int64, list: seq<FileChunks>, i: nat)
    requires Loggable(list) && i < |list| && AllWritable(CompactEntries(now, list[..i]))
    ensures var f := list[i];
            && AllWritable(CompactEntries(now, list[..i + 1]))
            && log + EncodeAll(CompactEntries(now, list[..i + 1]), []) ==
               log + EncodeAll(CompactEntries(now, list[..i]), [])
               + EncodeEntry(Creation(now, f.name, f.seqId, f.fileSize))
               + EncodeEntry(BlockWrite(now, f.seqId, 0, f.fileSize))
  {
    var f := list[i];
    var c, b := Creation(now, f.name, f.seqId, f.fileSize), BlockWrite(now, f.seqId, 0, f.fileSize);
    EntriesFit(c);
    EntriesFit(b);
    assert list[..i + 1][..i] == list[..i];
    EncodeConcat(CompactEntries(now, list[..i]), [c, b]);
    EncodeTwo(c, b);
  }

  lemma CompactedIs(env: Env, now: Int64, senderIp: Bytes, list: seq<FileChunks>)
    requires Loggable(list) && AllEncodable(CompactEntries(now, list)) && Encodable(LogHeader(env, now, senderIp))
    ensures Compacted(env, now, senderIp, list) ==
            [] + (if Writable(LogHeader(env, now, senderIp)) then EncodeEntry(LogHeader(env, now, senderIp)) else [])
            + EncodeAll(CompactEntries(now, list), [])
  {
    var h, es := LogHeader(env, now, senderIp), CompactEntries(now, list);
    assert ([h] + es)[1..] == es && [] + es == es;
  }

  lemma ListLoggable(env: Env, now: Int64, ip: Bytes, s: Bytes)
    requires DiskOk(env)
    ensures Loggable(Repaired(env, now, ip, s).list)
  {
    var o := Outcome(Ok, NewParser(ip));
    var p := ParseLog(env, o, s).outcome.parser;
    if Repaired(env, now, ip, s).status == Ok {
      ParseKeepsOk(env, o, s);
      ListingLoggable(env, p);
    }
  }

  lemma ListingLoggable(env: Env, p: Parser)
    requires DiskOk(env) && ParserOk(env, p)
    ensures Loggable(Listing(p.files))
  {
    ListingOk(env, p);
    var list := Listing(p.files);
    if p.files != [] {
      ListingAt(p.files, 0);
    }
    forall i | 0 <= i < |list| ensures list[i].seqId < I64_LIMIT {
      ListingAt(p.files, i);
      GetIs(p.files, i);
    }
  }

  lemma HeaderOnly(body: Bytes)
    requires body != [] && DecodeBody(body).Some?
    ensures DecodeBody(body).value.Header? <==> body[0] == HEADER
  {
  }
}
