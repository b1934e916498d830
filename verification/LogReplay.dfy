/**
 What replaying a transfer log means, entry by entry and byte by byte.  The files on disk are an oracle from name
 to size; the log that replay leaves behind is a value.
 */
module LogReplay {
  import opened Wire
  import opened Intervals
  import opened OrderedMaps
  import opened LogEntries

  datatype Status = Ok | Inconsistent | Invalid

  /** The current transfer and the disk. */
  datatype Env = Env(recoveryId: Bytes, config: Int64, useDirTree: bool, preallocate: bool, disk: map<Bytes, Int64>)

  datatype Parser = Parser(headerParsed: bool, files: OrderedMap<FileChunks>, sizes: OrderedMap<Int64>,
                           invalid: OrderedMap<()>, senderIp: Bytes)

  datatype Outcome = Outcome(status: Status, parser: Parser)

  function NewParser(senderIp: Bytes): Parser {
    Parser(false, [], [], [], senderIp)
  }

  function Cleared(p: Parser): Parser {
    p.(files := [], sizes := [], invalid := [])
  }

  function Fail(p: Parser): Outcome {
    Outcome(Invalid, p)
  }

  // ---- the entries

  function ProcessHeader(env: Env, p: Parser, e: Entry): Outcome
    requires e.Header?
  {
    var p' := p.(senderIp := e.senderIp);
    if e.version != LOG_VERSION || e.senderIp == [] then Fail(p')
    else if env.recoveryId != e.recoveryId || env.config != e.config then Outcome(Inconsistent, p')
    else Outcome(Ok, p'.(headerParsed := true))
  }

  /** The file is there, and large enough if space is allocated beforehand. */
  predicate OnDisk(env: Env, name: Bytes, size: nat) {
    name in env.disk && (env.preallocate ==> env.disk[name] >= size)
  }

  function ProcessCreation(env: Env, p: Parser, e: Entry): Outcome
    requires e.Creation?
  {
    if !p.headerParsed || env.useDirTree then Fail(p)
    else if Get(p.files, e.seqId).Some? || Get(p.invalid, e.seqId).Some? then Fail(p)
    else if OnDisk(env, e.name, e.fileSize) then
      Outcome(Ok, p.(files := Set(p.files, e.seqId, FileChunks(e.seqId, e.name, env.disk[e.name], [])),
                     sizes := if Get(p.sizes, e.seqId).Some? then p.sizes else Set(p.sizes, e.seqId, e.fileSize)))
    else Outcome(Ok, p.(invalid := Set(p.invalid, e.seqId, ())))
  }

  function ProcessResize(env: Env, p: Parser, e: Entry): Outcome
    requires e.Resize?
  {
    if !p.headerParsed || env.useDirTree then Fail(p)
    else
      var file, size := Get(p.files, e.seqId), Get(p.sizes, e.seqId);
      if file.None? || size.None? then Fail(p)
      else if e.fileSize < size.value || (env.preallocate && e.fileSize > file.value.fileSize) then Fail(p)
      else Outcome(Ok, p.(sizes := Set(p.sizes, e.seqId, e.fileSize)))
  }

  function ProcessBlockWrite(env: Env, p: Parser, e: Entry): Outcome
    requires e.BlockWrite?
  {
    if !p.headerParsed || env.useDirTree then Fail(p)
    else if Get(p.invalid, e.seqId).Some? then Outcome(Ok, p)
    else
      var file := Get(p.files, e.seqId);
      if file.None? || e.offset + e.blockSize > file.value.fileSize then Fail(p)
      else
        var chunk := Interval(e.offset, e.offset + e.blockSize);
        Outcome(Ok, p.(files := Set(p.files, e.seqId, file.value.(chunks := file.value.chunks + [chunk]))))
  }

  function ProcessInvalidation(env: Env, p: Parser, e: Entry): Outcome
    requires e.Invalidation?
  {
    if !p.headerParsed || env.useDirTree then Fail(p)
    else if Get(p.files, e.seqId).None? && Get(p.invalid, e.seqId).None? then Fail(p)
    else Outcome(Ok, p.(files := Remove(p.files, e.seqId), invalid := Remove(p.invalid, e.seqId)))
  }

  function Process(env: Env, p: Parser, e: Entry): Outcome {
    match e
    case Header(_, _, _, _, _) => ProcessHeader(env, p, e)
    case Creation(_, _, _, _) => ProcessCreation(env, p, e)
    case BlockWrite(_, _, _, _) => ProcessBlockWrite(env, p, e)
    case Invalidation(_, _) => ProcessInvalidation(env, p, e)
    case Resize(_, _, _) => ProcessResize(env, p, e)
    case DirectoryInvalidation(_) => Outcome(Inconsistent, p.(headerParsed := false))
  }

  /** An inconsistent directory forgets everything, and only a header can make it consistent again. */
  function Step(env: Env, o: Outcome, e: Entry): Outcome {
    if o.status == Inconsistent && !e.Header? then o
    else
      var o' := Process(env, o.parser, e);
      if o'.status == Inconsistent then o'.(parser := Cleared(o'.parser)) else o'
  }

  /** Replay of a log given as entries; an invalid entry ends it. */
  function Replay(env: Env, o: Outcome, es: seq<Entry>): Outcome
    decreases |es|
  {
    if es == [] || o.status == Invalid then o else Replay(env, Step(env, o, es[0]), es[1..])
  }

  // ---- the bytes

  /** The next entry's body, if all of it is there. */
  datatype Next = Entry(body: Bytes) | Tail | BadLength

  function NextEntry(s: Bytes): (r: Next)
    ensures r.Entry? ==> 0 < |r.body| && LENGTH_LEN + |r.body| <= |s|
  {
    if |s| < LENGTH_LEN then Tail
    else
      var size := Unfixed(s[..LENGTH_LEN]);
      if size == 0 || size > MAX_ENTRY_LENGTH then BadLength
      else if |s| - LENGTH_LEN < size then Tail
      else Next.Entry(s[LENGTH_LEN..LENGTH_LEN + size])
  }

  function StepBody(env: Env, o: Outcome, body: Bytes): Outcome
    requires body != []
  {
    if o.status == Inconsistent && body[0] != HEADER then o
    else
      var e := DecodeBody(body);
      if e.None? then Fail(o.parser) else Step(env, o, e.value)
  }

  datatype Parsed = Parsed(outcome: Outcome, used: nat)

  /** What an entry does to the state of the parser. */
  type Stepper = (Outcome, Bytes) -> Outcome

  function StepOf(env: Env): Stepper {
    (o: Outcome, body: Bytes) => if body == [] then o else StepBody(env, o, body)
  }

  /** The parse loop; `used` is where the last whole entry ends. */
  function ParseWith(step: Stepper, o: Outcome, s: Bytes): (r: Parsed)
    ensures r.used <= |s|
    decreases |s|
  {
    if o.status == Invalid then Parsed(o, 0)
    else
      var next := NextEntry(s);
      if next.Tail? then Parsed(o, 0)
      else if next.BadLength? then Parsed(Fail(o.parser), 0)
      else
        var n := LENGTH_LEN + |next.body|;
        var r := ParseWith(step, step(o, next.body), s[n..]);
        r.(used := n + r.used)
  }

  function ParseLog(env: Env, o: Outcome, s: Bytes): (r: Parsed)
    ensures r.used <= |s|
  {
    ParseWith(StepOf(env), o, s)
  }

  // ---- what replay leaves behind

  function Listing(files: OrderedMap<FileChunks>): seq<FileChunks> {
    if files == [] then []
    else
      var n := |files| - 1;
      Listing(files[..n]) + [files[n].value.(chunks := Merge(files[n].value.chunks))]
  }

  function Invalidations(now: Int64, invalid: OrderedMap<()>): seq<Entry> {
    if invalid == [] then [] else [Invalidation(now, invalid[0].key)] + Invalidations(now, invalid[1..])
  }

  predicate AllEncodable(es: seq<Entry>) {
    forall i :: 0 <= i < |es| ==> Encodable(es[i])
  }

  /** The entries one after the other, with `tail` behind them. */
  function EncodeAll(es: seq<Entry>, tail: Bytes): (r: Bytes)
    requires AllEncodable(es)
    ensures |r| >= |tail|
  {
    if es == [] then tail else EncodeEntry(es[0]) + EncodeAll(es[1..], tail)
  }

  lemma {:induction false} InvalidationsFit(now: Int64, invalid: OrderedMap<()>)
    ensures AllWritable(Invalidations(now, invalid))
  {
    if invalid != [] {
      EntriesFit(Invalidation(now, invalid[0].key));
      InvalidationsFit(now, invalid[1..]);
    }
  }

  predicate AllWritable(es: seq<Entry>) {
    forall i :: 0 <= i < |es| ==> Writable(es[i])
  }

  /** Status, listed files and the log afterwards. */
  datatype Repair = Repair(status: Status, list: seq<FileChunks>, log: Bytes, senderIp: Bytes)

  /**
   Parsing and fixing a log: an invalid one is left alone; otherwise an incomplete entry at the end goes, and
   what was found missing is recorded.
   */
  function Repaired(env: Env, now: Int64, senderIp: Bytes, s: Bytes): Repair {
    var r := ParseLog(env, Outcome(Ok, NewParser(senderIp)), s);
    var p := r.outcome.parser;
    match r.outcome.status
    case Invalid => Repair(Invalid, [], s, p.senderIp)
    case Inconsistent =>
      Repair(Inconsistent, [], s[..r.used] + EncodeEntry(DirectoryInvalidation(now)), p.senderIp)
    case Ok =>
      InvalidationsFit(now, p.invalid);
      Repair(Ok, Listing(p.files), s[..r.used] + EncodeAll(Invalidations(now, p.invalid), []), p.senderIp)
  }
}
