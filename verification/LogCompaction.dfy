/** Rewriting a log that describes complete files only: when it preserves what the log means. */
module LogCompaction {
  import opened Wire
  import opened Intervals
  import opened Messages
  import opened OrderedMaps
  import opened LogEntries
  import opened LogReplay
  import opened LogLaws
  import Resumption

  /** The check before the log is rewritten: one chunk, as long as the file. */
  predicate Complete(f: FileChunks) {
    |f.chunks| == 1 && Resumption.TotalSize(f.chunks) == f.fileSize
  }

  predicate AllComplete(list: seq<FileChunks>) {
    forall i :: 0 <= i < |list| ==> Complete(list[i])
  }

  /** Paths the file system accepts. */
  predicate DiskOk(env: Env) {
    forall name :: name in env.disk ==> |name| <= PATH_MAX
  }

  predicate Loggable(list: seq<FileChunks>) {
    forall i :: 0 <= i < |list| ==>
      list[i].seqId < I64_LIMIT && list[i].fileSize < I64_LIMIT && |list[i].name| <= PATH_MAX
  }

  function CompactEntries(now: Int64, list: seq<FileChunks>): seq<Entry>
    requires Loggable(list)
  {
    if list == [] then []
    else
      var f := list[|list| - 1];
      CompactEntries(now, list[..|list| - 1])
      + [Creation(now, f.name, f.seqId, f.fileSize), BlockWrite(now, f.seqId, 0, f.fileSize)]
  }

  function LogHeader(env: Env, now: Int64, senderIp: Bytes): Entry {
    Header(now, LOG_VERSION, env.recoveryId, senderIp, env.config)
  }

  lemma {:induction false} CompactFits(now: Int64, list: seq<FileChunks>)
    requires Loggable(list)
    ensures AllWritable(CompactEntries(now, list))
  {
    if list != [] {
      var f := list[|list| - 1];
      CompactFits(now, list[..|list| - 1]);
      EntriesFit(Creation(now, f.name, f.seqId, f.fileSize));
      EntriesFit(BlockWrite(now, f.seqId, 0, f.fileSize));
    }
  }

  /** A header that does not fit its buffer is not written, and its absence goes unnoticed. */
  function HeaderEntries(env: Env, now: Int64, senderIp: Bytes): seq<Entry> {
    var h := LogHeader(env, now, senderIp);
    if Writable(h) then [h] else []
  }

  /** The rewritten log. */
  function Compacted(env: Env, now: Int64, senderIp: Bytes, list: seq<FileChunks>): Bytes
    requires Loggable(list)
  {
    CompactFits(now, list);
    EncodeAll(HeaderEntries(env, now, senderIp) + CompactEntries(now, list), [])
  }

  // ---- replaying it

  /** Complete files, in order, as they are on disk. */
  predicate Whole(env: Env, list: seq<FileChunks>) {
    && Loggable(list) && (list != [] ==> !env.useDirTree)
    && (forall i :: 0 <= i < |list| ==>
          && list[i].chunks == [Interval(0, list[i].fileSize)]
          && list[i].name in env.disk && list[i].fileSize == env.disk[list[i].name])
    && (forall i, j :: 0 <= i < j < |list| ==> list[i].seqId < list[j].seqId)
  }

  function FilesOf(list: seq<FileChunks>): OrderedMap<FileChunks>
    requires Loggable(list)
  {
    seq(|list|, i requires 0 <= i < |list| => Pair(list[i].seqId, list[i]))
  }

  function SizesOf(list: seq<FileChunks>): OrderedMap<Int64>
    requires Loggable(list)
  {
    seq(|list|, i requires 0 <= i < |list| => Pair(list[i].seqId, list[i].fileSize))
  }

  lemma ReplayTwo(env: Env, o: Outcome, a: Entry, b: Entry)
    requires o.status != Invalid && Step(env, o, a).status != Invalid
    ensures Replay(env, o, [a, b]) == Step(env, Step(env, o, a), b)
  {
    assert [a, b][1..] == [b] && [b][1..] == [];
    assert Replay(env, Step(env, o, a), [b]) == Replay(env, Step(env, Step(env, o, a), b), []);
  }

  function WholeParser(list: seq<FileChunks>, senderIp: Bytes): Parser
    requires Loggable(list)
  {
    Parser(true, FilesOf(list), SizesOf(list), [], senderIp)
  }

  lemma CreationReplays(env: Env, p: Parser, e: Entry)
    requires e.Creation? && p.headerParsed && !env.useDirTree && OnDisk(env, e.name, e.fileSize) && p.invalid == []
    requires forall i :: 0 <= i < |p.files| ==> p.files[i].key < e.seqId
    requires forall i :: 0 <= i < |p.sizes| ==> p.sizes[i].key < e.seqId
    ensures var f := FileChunks(e.seqId, e.name, env.disk[e.name], []);
            Step(env, Outcome(Ok, p), e) ==
            Outcome(Ok, p.(files := p.files + [Pair(e.seqId, f)], sizes := p.sizes + [Pair(e.seqId, e.fileSize)]))
  {
    SetLast(p.files, e.seqId, FileChunks(e.seqId, e.name, env.disk[e.name], []));
    SetLast(p.sizes, e.seqId, e.fileSize);
  }

  lemma BlockReplays(env: Env, p: Parser, e: Entry, files: OrderedMap<FileChunks>, f: FileChunks)
    requires e.BlockWrite? && p.headerParsed && !env.useDirTree && p.invalid == []
    requires p.files == files + [Pair(e.seqId, f)] && forall i :: 0 <= i < |files| ==> files[i].key < e.seqId
    requires f.chunks == [] && e.offset + e.blockSize <= f.fileSize
    ensures Step(env, Outcome(Ok, p), e) ==
            Outcome(Ok, p.(files := files
                           + [Pair(e.seqId, f.(chunks := [Interval(e.offset, e.offset + e.blockSize)]))]))
  {
    var chunk := Interval(e.offset, e.offset + e.blockSize);
    assert f.chunks + [chunk] == [chunk];
    SetLast(files, e.seqId, f.(chunks := [chunk]));
  }

  lemma OneFileReplays(env: Env, now: Int64, ip: Bytes, list: seq<FileChunks>, f: FileChunks)
    requires Whole(env, list + [f])
    ensures Loggable(list) && f.seqId < I64_LIMIT && f.fileSize < I64_LIMIT
    ensures Replay(env, Outcome(Ok, WholeParser(list, ip)),
                   [Creation(now, f.name, f.seqId, f.fileSize), BlockWrite(now, f.seqId, 0, f.fileSize)])
            == Outcome(Ok, WholeParser(list + [f], ip))
  {
    var all := list + [f];
    assert forall i :: 0 <= i < |list| ==> list[i] == all[i];
    assert all[|list|] == f;
    var c, b := Creation(now, f.name, f.seqId, f.fileSize), BlockWrite(now, f.seqId, 0, f.fileSize);
    var p := WholeParser(list, ip);
    CreationReplays(env, p, c);
    var created := FileChunks(f.seqId, f.name, f.fileSize, []);
    BlockReplays(env, Step(env, Outcome(Ok, p), c).parser, b, p.files, created);
    assert FilesOf(all) == p.files + [Pair(f.seqId, f)] && SizesOf(all) == p.sizes + [Pair(f.seqId, f.fileSize)];
    ReplayTwo(env, Outcome(Ok, p), c, b);
  }

  lemma {:induction false} CompactReplays(env: Env, now: Int64, ip: Bytes, list: seq<FileChunks>)
    requires Whole(env, list)
    ensures Replay(env, Outcome(Ok, WholeParser([], ip)), CompactEntries(now, list))
            == Outcome(Ok, WholeParser(list, ip))
  {
    if list != [] {
      var init, f := list[..|list| - 1], list[|list| - 1];
      assert init + [f] == list;
      CompactReplays(env, now, ip, init);
      ReplayConcat(env, Outcome(Ok, WholeParser([], ip)), CompactEntries(now, init),
                   [Creation(now, f.name, f.seqId, f.fileSize), BlockWrite(now, f.seqId, 0, f.fileSize)]);
      OneFileReplays(env, now, ip, init, f);
    }
  }

  lemma WholeListing(env: Env, list: seq<FileChunks>)
    requires Whole(env, list)
    ensures Listing(FilesOf(list)) == list
  {
    var files := FilesOf(list);
    if list != [] {
      ListingAt(files, 0);
    }
    forall i | 0 <= i < |list| ensures Listing(files)[i] == list[i] {
      ListingAt(files, i);
      MergeOne(list[i].chunks[0]);
    }
  }

  lemma MergeOne(c: Interval)
    ensures Merge([c]) == [c]
  {
    assert [c][1..] == [];
    assert Sort([c]) == [c];
    assert MergeFrom(c, []) == [c];
  }

  lemma CompleteIsOneChunk(f: FileChunks)
    requires Complete(f) && Proper(f.chunks) && Within(f.chunks, f.fileSize)
    ensures f.chunks == [Interval(0, f.fileSize)]
  {
    var c := f.chunks;
    assert c == [c[0]] && c[..0] == [];
    assert Resumption.TotalSize(c) == c[0].end - c[0].start;
  }

  /** What passes the check is whole files. */
  lemma CompleteIsWhole(env: Env, p: Parser)
    requires DiskOk(env) && ParserOk(env, p) && AllComplete(Listing(p.files))
    ensures Whole(env, Listing(p.files))
  {
    var list := Listing(p.files);
    ListingOk(env, p);
    if p.files != [] {
      ListingAt(p.files, 0);
    }
    forall i | 0 <= i < |list|
      ensures list[i].chunks == [Interval(0, list[i].fileSize)] && list[i].seqId < I64_LIMIT
    {
      ListingAt(p.files, i);
      GetIs(p.files, i);
      CompleteIsOneChunk(list[i]);
    }
  }

  lemma StepOkHasHeader(env: Env, o: Outcome, e: Entry)
    requires Step(env, o, e).status == Ok
    ensures Step(env, o, e).parser.headerParsed
  {
  }

  lemma {:induction false} OkHasHeader(env: Env, o: Outcome, s: Bytes)
    ensures var r := ParseLog(env, o, s);
            && (r.outcome.status == Ok && r.used > 0 ==> r.outcome.parser.headerParsed)
            && (r.outcome.status != Invalid && r.used == 0 ==> r.outcome == o)
    decreases |s|
  {
    StopsAt(StepOf(env), o, s);
    if o.status != Invalid && NextEntry(s).Entry? {
      var body := NextEntry(s).body;
      var o', rest := StepBody(env, o, body), s[LENGTH_LEN + |body|..];
      ParseNext(StepOf(env), o, s, o', rest);
      OkHasHeader(env, o', rest);
      if o'.status == Ok {
        StepOkHasHeader(env, o, DecodeBody(body).value);
      }
    }
  }

  /** When the rewritten log is as good as the old one. */
  predicate CompactionSafe(env: Env, now: Int64, ip: Bytes, s: Bytes, r: Repair) {
    if Writable(LogHeader(env, now, r.senderIp)) then ip != [] || NextEntry(s).Entry? else r.list == []
  }

  /**
   The rewritten log replays to the same files exactly if its header fits its buffer and a sender is known, from a
   header in the log or from the session; or if the header does not fit and there is nothing to log.
   */
  lemma CompactionKeepsFilesIff(env: Env, now: Int64, later: Int64, ip: Bytes, s: Bytes)
    requires DiskOk(env) && Repaired(env, now, ip, s).status == Ok && AllComplete(Repaired(env, now, ip, s).list)
    ensures var r := Repaired(env, now, ip, s);
            && Loggable(r.list)
            && var r' := Repaired(env, later, ip, Compacted(env, now, r.senderIp, r.list));
               (r'.status == Ok && r'.list == r.list) <==> CompactionSafe(env, now, ip, s, r)
  {
    var r := Repaired(env, now, ip, s);
    var o := Outcome(Ok, NewParser(ip));
    ParseKeepsOk(env, o, s);
    CompleteIsWhole(env, ParseLog(env, o, s).outcome.parser);
    SenderKnownIff(env, now, ip, s);
    if Writable(LogHeader(env, now, r.senderIp)) {
      CompactedParses(env, now, ip, r.senderIp, r.list);
      if r.senderIp != [] {
        WholeListing(env, r.list);
      }
    } else {
      HeaderlessParses(env, now, ip, r.senderIp, r.list);
    }
  }

  lemma HeaderlessParses(env: Env, now: Int64, ip: Bytes, senderIp: Bytes, list: seq<FileChunks>)
    requires Loggable(list) && !Writable(LogHeader(env, now, senderIp))
    ensures var r := ParseLog(env, Outcome(Ok, NewParser(ip)), Compacted(env, now, senderIp, list));
            if list == [] then r.outcome == Outcome(Ok, NewParser(ip)) else r.outcome.status == Invalid
  {
    var o, es := Outcome(Ok, NewParser(ip)), CompactEntries(now, list);
    CompactFits(now, list);
    assert [] + es == es;
    ParseIsReplay(env, o, es, []);
    if list != [] {
      CompactStarts(now, list);
      assert Replay(env, o, es) == Replay(env, Step(env, o, es[0]), es[1..]);
    }
  }

  lemma {:induction false} CompactStarts(now: Int64, list: seq<FileChunks>)
    requires Loggable(list) && list != []
    ensures CompactEntries(now, list) != [] && CompactEntries(now, list)[0].Creation?
  {
    if |list| > 1 {
      CompactStarts(now, list[..|list| - 1]);
    }
  }

  /** The second way to lose the files: an empty log of a session without a sender. */
  lemma EmptyLogIsLost(env: Env, now: Int64, later: Int64)
    requires DiskOk(env) && Writable(LogHeader(env, now, []))
    ensures Repaired(env, now, [], []) == Repair(Ok, [], [], [])
    ensures Repaired(env, later, [], Compacted(env, now, [], [])).status == Invalid
  {
    CompactedParses(env, now, [], [], []);
  }

  const LONG_ID := seq(4119, i => 0 as Byte)

  function OneFile(name: Bytes): seq<FileChunks> {
    [FileChunks(5, name, 10, [Interval(0, 10)])]
  }

  /**
   The first way: a log of one file whose header just fits.  Rewriting it when the time takes one byte more leaves
   the header out.
   */
  lemma LongHeaderIsLost(env: Env, name: Bytes, later: Int64) returns (s: Bytes)
    requires env.recoveryId == LONG_ID && env.config == 0 && !env.useDirTree
    requires |name| <= PATH_MAX && env.disk == map[name := 10]
    ensures var r := Repaired(env, 128, [], s);
            && r.status == Ok && r.list == OneFile(name) && AllComplete(r.list)
            && Repaired(env, later, [], Compacted(env, 128, r.senderIp, r.list)).status == Invalid
  {
    var list, ip: Bytes := OneFile(name), [1];
    LongHeaderFits(env, ip);
    OneFileIsWhole(env, name);
    s := Compacted(env, 0, ip, list);
    CompactedIsRepaired(env, 0, 128, [], ip, list);
    HeaderlessParses(env, 128, [], ip, list);
  }

  lemma LongHeaderFits(env: Env, ip: Bytes)
    requires env.recoveryId == LONG_ID && env.config == 0 && |ip| == 1
    ensures Writable(LogHeader(env, 0, ip)) && !Writable(LogHeader(env, 128, ip))
  {
    HeaderLength(LogHeader(env, 0, ip));
    HeaderLength(LogHeader(env, 128, ip));
    SmallLengths();
  }

  lemma OneFileIsWhole(env: Env, name: Bytes)
    requires !env.useDirTree && |name| <= PATH_MAX && env.disk == map[name := 10]
    ensures Whole(env, OneFile(name)) && AllComplete(OneFile(name))
  {
    var c := [Interval(0, 10)];
    assert c[..0] == [];
    assert Resumption.TotalSize(c) == 10;
  }

  lemma CompactedIsRepaired(env: Env, before: Int64, now: Int64, ip: Bytes, senderIp: Bytes, list: seq<FileChunks>)
    requires Whole(env, list) && Writable(LogHeader(env, before, senderIp)) && senderIp != []
    ensures var r := Repaired(env, now, ip, Compacted(env, before, senderIp, list));
            r.status == Ok && r.list == list && r.senderIp == senderIp
  {
    CompactedParses(env, before, ip, senderIp, list);
    WholeListing(env, list);
  }

  lemma HeaderLength(e: Entry)
    requires e.Header? && Encodable(e)
    ensures |Body(e)| == 1 + |VarU64(e.time)| + |VarU64(e.version)| + |VarU64(|e.recoveryId|)| + |e.recoveryId|
                         + |VarU64(|e.senderIp|)| + |e.senderIp| + |VarU64(e.config)|
  {
    var f4 := NumFields([e.config]);
    assert [e.config][1..] == [] && NumFields([]) == End;
    assert f4 == Num(e.config, End) && Encode(End) == [];
    assert |Encode(f4)| == |VarU64(e.config)|;
    var f3 := Str(e.senderIp, f4);
    var f2 := Str(e.recoveryId, f3);
    assert |Encode(f2)| == |VarU64(|e.recoveryId|)| + |e.recoveryId| + |Encode(f3)|;
    var f1 := Num(e.version, f2);
    assert |Encode(f1)| == |VarU64(e.version)| + |Encode(f2)|;
    assert |Encode(Num(e.time, f1))| == |VarU64(e.time)| + |Encode(f1)|;
    assert |Encode(f3)| == |VarU64(|e.senderIp|)| + |e.senderIp| + |Encode(f4)|;
    assert Body(e) == [HEADER] + Encode(Num(e.time, f1));
  }

  lemma SmallLengths()
    ensures |VarU64(0)| == |VarU64(1)| == |VarU64(2)| == 1
    ensures |VarU64(128)| == |VarU64(4119)| == 2
  {
    assert Var(128 / 128, 8) == [1] && Var(4119 / 128, 8) == [32];
  }

  lemma SenderKnownIff(env: Env, now: Int64, ip: Bytes, s: Bytes)
    requires Repaired(env, now, ip, s).status == Ok
    ensures Repaired(env, now, ip, s).senderIp != [] <==> ip != [] || NextEntry(s).Entry?
  {
    var o := Outcome(Ok, NewParser(ip));
    ParseKeepsOk(env, o, s);
    OkHasHeader(env, o, s);
  }

  lemma CompactedParses(env: Env, now: Int64, ip: Bytes, senderIp: Bytes, list: seq<FileChunks>)
    requires Whole(env, list) && Writable(LogHeader(env, now, senderIp))
    ensures var r := ParseLog(env, Outcome(Ok, NewParser(ip)), Compacted(env, now, senderIp, list));
            if senderIp == [] then r.outcome.status == Invalid
            else r.outcome == Outcome(Ok, WholeParser(list, senderIp))
  {
    var o := Outcome(Ok, NewParser(ip));
    var h, es := LogHeader(env, now, senderIp), CompactEntries(now, list);
    CompactFits(now, list);
    ParseIsReplay(env, o, [h] + es, []);
    assert ([h] + es)[1..] == es;
    var o1 := Step(env, o, h);
    assert Replay(env, o, [h] + es) == Replay(env, o1, es);
    if senderIp != [] {
      assert FilesOf([]) == [] && SizesOf([]) == [];
      assert o1 == Outcome(Ok, WholeParser([], senderIp));
      CompactReplays(env, now, senderIp, list);
    }
  }
}
