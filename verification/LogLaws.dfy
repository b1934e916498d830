/**
 What replay promises: a crash in the middle of a write costs at most the entry being written, a repaired log
 replays to the same files, and every listed chunk lies inside its file.
 */
module LogLaws {
  import opened Options
  import opened Wire
  import opened Intervals
  import opened Messages
  import opened OrderedMaps
  import opened LogEntries
  import opened LogReplay

  // ---- what every replayed state satisfies

  predicate FileOk(env: Env, id: Int64, f: FileChunks) {
    && f.seqId == id && Proper(f.chunks) && Within(f.chunks, f.fileSize)
    && f.name in env.disk && f.fileSize == env.disk[f.name]
  }

  predicate ParserOk(env: Env, p: Parser) {
    && Sorted(p.files) && Sorted(p.sizes) && Sorted(p.invalid)
    && (forall id :: Get(p.files, id).Some? ==>
          FileOk(env, id, Get(p.files, id).value) && Get(p.sizes, id).Some? && Get(p.invalid, id).None?)
    && (p.files != [] || p.invalid != [] ==> p.headerParsed && !env.useDirTree)
    && (p.headerParsed ==> p.senderIp != [])
  }

  lemma CreationKeepsOk(env: Env, p: Parser, e: Entry)
    requires ParserOk(env, p) && e.Creation?
    ensures ParserOk(env, ProcessCreation(env, p, e).parser)
  {
    var p' := ProcessCreation(env, p, e).parser;
    if ProcessCreation(env, p, e).status == Ok && OnDisk(env, e.name, e.fileSize) {
      var f := FileChunks(e.seqId, e.name, env.disk[e.name], []);
      SetOk(p.files, e.seqId, f);
      SetOk(p.sizes, e.seqId, e.fileSize);
      forall id: Int64 | Get(p'.files, id).Some?
        ensures FileOk(env, id, Get(p'.files, id).value) && Get(p'.sizes, id).Some? && Get(p'.invalid, id).None?
      {
        GetSet(p.files, e.seqId, f, id);
        GetSet(p.sizes, e.seqId, e.fileSize, id);
      }
    } else if ProcessCreation(env, p, e).status == Ok {
      SetOk(p.invalid, e.seqId, ());
      forall id: Int64 | Get(p'.files, id).Some? ensures Get(p'.invalid, id).None? {
        GetSet(p.invalid, e.seqId, (), id);
      }
    }
  }

  lemma ResizeKeepsOk(env: Env, p: Parser, e: Entry)
    requires ParserOk(env, p) && e.Resize?
    ensures ParserOk(env, ProcessResize(env, p, e).parser)
  {
    SetOk(p.sizes, e.seqId, e.fileSize);
    forall id: Int64 ensures Get(p.sizes, id).Some? ==> Get(Set(p.sizes, e.seqId, e.fileSize), id).Some? {
      GetSet(p.sizes, e.seqId, e.fileSize, id);
    }
  }

  lemma BlockWriteKeepsOk(env: Env, p: Parser, e: Entry)
    requires ParserOk(env, p) && e.BlockWrite?
    ensures ParserOk(env, ProcessBlockWrite(env, p, e).parser)
  {
    var p' := ProcessBlockWrite(env, p, e).parser;
    if p' != p {
      var f := Get(p.files, e.seqId).value;
      var f' := f.(chunks := f.chunks + [Interval(e.offset, e.offset + e.blockSize)]);
      SetOk(p.files, e.seqId, f');
      forall id: Int64 | Get(p'.files, id).Some?
        ensures FileOk(env, id, Get(p'.files, id).value) && Get(p'.sizes, id).Some? && Get(p'.invalid, id).None?
      {
        GetSet(p.files, e.seqId, f', id);
      }
      assert p.files != [];
    }
  }

  lemma InvalidationKeepsOk(env: Env, p: Parser, e: Entry)
    requires ParserOk(env, p) && e.Invalidation?
    ensures ParserOk(env, ProcessInvalidation(env, p, e).parser)
  {
    var p' := ProcessInvalidation(env, p, e).parser;
    if p' != p {
      RemoveOk(p.files, e.seqId);
      RemoveOk(p.invalid, e.seqId);
      forall id: Int64 | Get(p'.files, id).Some?
        ensures Get(p.files, id) == Get(p'.files, id) && Get(p'.invalid, id).None?
      {
        GetRemove(p.files, e.seqId, id);
        GetRemove(p.invalid, e.seqId, id);
      }
    }
  }

  lemma StepKeepsOk(env: Env, o: Outcome, e: Entry)
    requires ParserOk(env, o.parser)
    ensures Step(env, o, e).status != Invalid ==> ParserOk(env, Step(env, o, e).parser)
  {
    if e.Creation? {
      CreationKeepsOk(env, o.parser, e);
    } else if e.Resize? {
      ResizeKeepsOk(env, o.parser, e);
    } else if e.BlockWrite? {
      BlockWriteKeepsOk(env, o.parser, e);
    } else if e.Invalidation? {
      InvalidationKeepsOk(env, o.parser, e);
    }
  }

  lemma ParseNext(step: Stepper, o: Outcome, s: Bytes, o': Outcome, rest: Bytes)
    requires o.status != Invalid && NextEntry(s).Entry?
    requires o' == step(o, NextEntry(s).body) && rest == s[LENGTH_LEN + |NextEntry(s).body|..]
    ensures var r' := ParseWith(step, o', rest); ParseWith(step, o, s) == r'.(used := |s| - |rest| + r'.used)
  {
  }

  /** Where replay stops. */
  lemma StopsAt(step: Stepper, o: Outcome, w: Bytes)
    ensures o.status == Invalid || NextEntry(w) == Tail ==> ParseWith(step, o, w) == Parsed(o, 0)
    ensures o.status != Invalid && NextEntry(w) == BadLength ==> ParseWith(step, o, w) == Parsed(Fail(o.parser), 0)
  {
  }

  lemma BodyKeepsOk(env: Env, o: Outcome, body: Bytes)
    requires body != [] && ParserOk(env, o.parser)
    ensures StepBody(env, o, body).status != Invalid ==> ParserOk(env, StepBody(env, o, body).parser)
  {
    if DecodeBody(body).Some? {
      StepKeepsOk(env, o, DecodeBody(body).value);
    }
  }

  /** Every replay of any bytes keeps these facts; in particular the size a resize compares with is always there. */
  lemma {:induction false} ParseKeepsOk(env: Env, o: Outcome, s: Bytes)
    requires ParserOk(env, o.parser)
    ensures ParseLog(env, o, s).outcome.status != Invalid ==> ParserOk(env, ParseLog(env, o, s).outcome.parser)
    decreases |s|
  {
    var step, next := StepOf(env), NextEntry(s);
    StopsAt(step, o, s);
    if o.status != Invalid && next.Entry? {
      var o', rest := step(o, next.body), s[LENGTH_LEN + |next.body|..];
      ParseNext(step, o, s, o', rest);
      BodyKeepsOk(env, o, next.body);
      StopsAt(step, o', rest);
      if o'.status != Invalid {
        ParseKeepsOk(env, o', rest);
      }
    }
  }

  predicate ListOk(env: Env, list: seq<FileChunks>) {
    && (forall i :: 0 <= i < |list| ==> Merged(list[i].chunks) && Within(list[i].chunks, list[i].fileSize)
                                        && list[i].name in env.disk && list[i].fileSize == env.disk[list[i].name])
    && (forall i, j :: 0 <= i < j < |list| ==> list[i].seqId < list[j].seqId)
  }

  lemma {:induction false} ListingAt(files: OrderedMap<FileChunks>, i: nat)
    requires i < |files|
    ensures |Listing(files)| == |files|
    ensures Listing(files)[i] == files[i].value.(chunks := Merge(files[i].value.chunks))
    decreases |files|
  {
    var n := |files| - 1;
    if n > 0 {
      ListingAt(files[..n], if i < n then i else 0);
    }
  }

  /** Whatever is listed was written inside the file as it is on disk, in merged form, one entry per id. */
  lemma ListingOk(env: Env, p: Parser)
    requires ParserOk(env, p)
    ensures ListOk(env, Listing(p.files))
  {
    var list := Listing(p.files);
    if p.files != [] {
      ListingAt(p.files, 0);
    }
    forall i | 0 <= i < |list|
      ensures Merged(list[i].chunks) && Within(list[i].chunks, list[i].fileSize)
              && list[i].name in env.disk && list[i].fileSize == env.disk[list[i].name]
              && list[i].seqId == p.files[i].key
    {
      ListingAt(p.files, i);
      GetIs(p.files, i);
      MergeOk(p.files[i].value.chunks);
      MergeWithin(p.files[i].value.chunks, p.files[i].value.fileSize);
    }
  }

  // ---- bytes and entries

  lemma EntryIsNext(e: Entry, rest: Bytes)
    requires Writable(e)
    ensures NextEntry(EncodeEntry(e) + rest) == Next.Entry(Body(e))
    ensures (EncodeEntry(e) + rest)[LENGTH_LEN + |Body(e)|..] == rest
  {
    var body := Body(e);
    var s := EncodeEntry(e) + rest;
    Powers();
    UnfixedFixed(|body|, LENGTH_LEN);
    assert s == Fixed(|body|, LENGTH_LEN) + (body + rest);
    assert s[..LENGTH_LEN] == Fixed(|body|, LENGTH_LEN);
    assert s[LENGTH_LEN..LENGTH_LEN + |body|] == body;
  }

  /** Part of an entry is never taken for an entry. */
  lemma PartIsTail(e: Entry, k: nat)
    requires Writable(e) && k < |EncodeEntry(e)|
    ensures NextEntry(EncodeEntry(e)[..k]) == Tail
  {
    var body := Body(e);
    Powers();
    UnfixedFixed(|body|, LENGTH_LEN);
    if k >= LENGTH_LEN {
      assert EncodeEntry(e)[..k][..LENGTH_LEN] == Fixed(|body|, LENGTH_LEN);
    }
  }

  lemma BodyStep(env: Env, o: Outcome, e: Entry)
    requires Encodable(e)
    ensures StepBody(env, o, Body(e)) == Step(env, o, e)
  {
    BodyRoundTrip(e);
    assert Body(e)[0] == TypeOf(e);
  }

  lemma ParseEntry(env: Env, o: Outcome, e: Entry, rest: Bytes)
    requires Writable(e) && o.status != Invalid
    ensures var r, r' := ParseLog(env, o, EncodeEntry(e) + rest), ParseLog(env, Step(env, o, e), rest);
            r == r'.(used := |EncodeEntry(e)| + r'.used)
  {
    EntryIsNext(e, rest);
    BodyStep(env, o, e);
    ParseNext(StepOf(env), o, EncodeEntry(e) + rest, Step(env, o, e), rest);
  }

  /** Replaying the bytes of entries is replaying the entries, whatever incomplete entry follows them. */
  lemma {:induction false} ParseIsReplay(env: Env, o: Outcome, es: seq<Entry>, tail: Bytes)
    requires AllWritable(es) && NextEntry(tail) == Tail
    ensures var s := EncodeAll(es, tail);
            var r := ParseLog(env, o, s);
            r.outcome == Replay(env, o, es) && (r.outcome.status != Invalid ==> r.used == |s| - |tail|)
    decreases |es|
  {
    StopsAt(StepOf(env), o, EncodeAll(es, tail));
    if es != [] && o.status != Invalid {
      var e, rest := es[0], es[1..];
      assert forall i :: 0 <= i < |rest| ==> rest[i] == es[i + 1];
      ParseEntry(env, o, e, EncodeAll(rest, tail));
      ParseIsReplay(env, Step(env, o, e), rest, tail);
    }
  }

  // ---- a crash while writing

  /** How many entries lie wholly in the first `k` bytes. */
  function WholeEntries(es: seq<Entry>, k: nat): (n: nat)
    requires AllWritable(es)
    ensures n <= |es|
  {
    if es == [] || k < |EncodeEntry(es[0])| then 0
    else 1 + WholeEntries(es[1..], k - |EncodeEntry(es[0])|)
  }

  lemma {:induction false} EncodeAllSplits(es: seq<Entry>, tail: Bytes)
    requires AllWritable(es)
    ensures EncodeAll(es, tail) == EncodeAll(es, []) + tail
  {
    if es != [] {
      EncodeAllSplits(es[1..], tail);
    }
  }

  lemma {:induction false} CutIsPrefix(es: seq<Entry>, k: nat) returns (tail: Bytes)
    requires AllWritable(es) && k <= |EncodeAll(es, [])|
    ensures NextEntry(tail) == Tail
    ensures EncodeAll(es, [])[..k] == EncodeAll(es[..WholeEntries(es, k)], tail)
    decreases |es|
  {
    if es == [] {
      tail := [];
    } else {
      var e, rest := es[0], es[1..];
      var first, later := EncodeEntry(e), EncodeAll(rest, []);
      if k < |first| {
        tail := first[..k];
        assert (first + later)[..k] == first[..k];
        PartIsTail(e, k);
        assert es[..0] == [];
      } else {
        tail := CutIsPrefix(rest, k - |first|);
        var n := WholeEntries(rest, k - |first|);
        assert (first + later)[..k] == first + later[..k - |first|];
        assert es[..n + 1][1..] == rest[..n] && es[..n + 1][0] == e;
      }
    }
  }

  /**
   However a log is cut short, it replays to what its longest prefix of whole entries replays to, and that prefix
   is what replay keeps.
   */
  lemma CutReplaysWholeEntries(env: Env, o: Outcome, es: seq<Entry>, k: nat)
    requires AllWritable(es) && k <= |EncodeAll(es, [])|
    ensures var cut, whole := EncodeAll(es, [])[..k], es[..WholeEntries(es, k)];
            var r := ParseLog(env, o, cut);
            && r.outcome == Replay(env, o, whole)
            && (r.outcome.status != Invalid ==> cut[..r.used] == EncodeAll(whole, []))
  {
    var whole := es[..WholeEntries(es, k)];
    var tail := CutIsPrefix(es, k);
    ParseIsReplay(env, o, whole, tail);
    EncodeAllSplits(whole, tail);
  }

  // ---- repair

  /** A prefix of whole entries replays alike in front of anything. */
  lemma {:induction false} ParsePrefix(step: Stepper, o: Outcome, s: Bytes, t: Bytes)
    requires ParseWith(step, o, s).outcome.status != Invalid
    ensures var r := ParseWith(step, o, s);
            var r' := ParseWith(step, r.outcome, t);
            ParseWith(step, o, s[..r.used] + t) == r'.(used := r.used + r'.used)
    decreases |s|
  {
    if NextEntry(s).Entry? {
      var n := LENGTH_LEN + |NextEntry(s).body|;
      var o', rest := step(o, NextEntry(s).body), s[n..];
      ParseNext(step, o, s, o', rest);
      ParsePrefix(step, o', rest, t);
      PrefixStep(step, o, s, o', ParseWith(step, o', rest).used, t);
    } else {
      assert s[..0] + t == t;
    }
  }

  lemma SplitPrefix(s: Bytes, n: nat, k: nat, t: Bytes)
    requires n + k <= |s|
    ensures s[..n + k] + t == s[..n] + (s[n..][..k] + t)
  {
  }

  lemma PrefixStep(step: Stepper, o: Outcome, s: Bytes, o': Outcome, k: nat, t: Bytes)
    requires o.status != Invalid && NextEntry(s).Entry? && o' == step(o, NextEntry(s).body)
    requires LENGTH_LEN + |NextEntry(s).body| + k <= |s|
    ensures var n := LENGTH_LEN + |NextEntry(s).body|;
            var r := ParseWith(step, o', s[n..][..k] + t);
            ParseWith(step, o, s[..n + k] + t) == r.(used := n + r.used)
  {
    var n := LENGTH_LEN + |NextEntry(s).body|;
    var rest := s[n..][..k] + t;
    SplitPrefix(s, n, k, t);
    NextAlone(s, rest);
    ParseNext(step, o, s[..n] + rest, o', rest);
  }

  /** What follows an entry does not matter to it. */
  lemma NextAlone(s: Bytes, t: Bytes)
    requires NextEntry(s).Entry?
    ensures var n := LENGTH_LEN + |NextEntry(s).body|;
            NextEntry(s[..n] + t) == NextEntry(s) && (s[..n] + t)[n..] == t
  {
    var n := LENGTH_LEN + |NextEntry(s).body|;
    var s' := s[..n] + t;
    assert s'[..LENGTH_LEN] == s[..LENGTH_LEN] && s'[LENGTH_LEN..n] == s[LENGTH_LEN..n];
  }

  /** The appended invalidations clear exactly what was found missing. */
  lemma {:induction false} InvalidationsReplay(env: Env, now: Int64, p: Parser)
    requires ParserOk(env, p)
    ensures Replay(env, Outcome(Ok, p), Invalidations(now, p.invalid)) == Outcome(Ok, p.(invalid := []))
    decreases |p.invalid|
  {
    if p.invalid != [] {
      var id := p.invalid[0].key;
      var e := Invalidation(now, id);
      assert Get(p.invalid, id).Some?;
      RemoveAbsent(p.files, id);
      StepKeepsOk(env, Outcome(Ok, p), e);
      assert Step(env, Outcome(Ok, p), e) == Outcome(Ok, p.(invalid := p.invalid[1..]));
      InvalidationsReplay(env, now, p.(invalid := p.invalid[1..]));
      var es := Invalidations(now, p.invalid);
      assert es[0] == e && es[1..] == Invalidations(now, p.invalid[1..]);
    }
  }

  lemma RepairedReplays(env: Env, now: Int64, o: Outcome, s: Bytes)
    requires ParserOk(env, o.parser) && ParseLog(env, o, s).outcome.status == Ok
    ensures var r := ParseLog(env, o, s);
            var p := r.outcome.parser;
            && AllEncodable(Invalidations(now, p.invalid))
            && var log := s[..r.used] + EncodeAll(Invalidations(now, p.invalid), []);
               ParseLog(env, o, log) == Parsed(Outcome(Ok, p.(invalid := [])), |log|)
  {
    var r := ParseLog(env, o, s);
    var p := r.outcome.parser;
    var es := Invalidations(now, p.invalid);
    ParseKeepsOk(env, o, s);
    InvalidationsFit(now, p.invalid);
    InvalidationsReplay(env, now, p);
    ParseIsReplay(env, r.outcome, es, []);
    ParsePrefix(StepOf(env), o, s, EncodeAll(es, []));
  }

  /** Replaying a repaired log on the same disk gives the same files, and leaves the log as it is. */
  lemma RepairIsStable(env: Env, now: Int64, later: Int64, ip: Bytes, s: Bytes)
    requires Repaired(env, now, ip, s).status == Ok
    ensures var r := Repaired(env, now, ip, s); Repaired(env, later, ip, r.log) == r
  {
    RepairedReplays(env, now, Outcome(Ok, NewParser(ip)), s);
    var log := Repaired(env, now, ip, s).log;
    assert log[..|log|] + [] == log;
  }

  /** Neither an invalid nor an inconsistent log becomes usable by being replayed. */
  lemma RepairKeepsStatus(env: Env, now: Int64, later: Int64, ip: Bytes, s: Bytes)
    ensures var r := Repaired(env, now, ip, s); Repaired(env, later, ip, r.log).status == r.status
  {
    var o := Outcome(Ok, NewParser(ip));
    var r := ParseLog(env, o, s);
    if r.outcome.status == Ok {
      RepairIsStable(env, now, later, ip, s);
    } else if r.outcome.status == Inconsistent {
      var e := DirectoryInvalidation(now);
      EntriesFit(e);
      ParsePrefix(StepOf(env), o, s, EncodeEntry(e));
      ParseEntry(env, r.outcome, e, []);
      assert EncodeEntry(e) + [] == EncodeEntry(e);
    }
  }

  // ---- sizes of an id's earlier life

  function RecordedSize(p: Parser, id: Int64): Option<Int64> {
    Get(p.sizes, id)
  }

  /**
   Invalidating an id forgets the file but not the size recorded for it.  So when the id is used again, growing
   the new file is accepted exactly if the new size also reaches the recorded one.
   */
  lemma GrowingIff(env: Env, p: Parser, c: Entry, r: Entry)
    requires ParserOk(env, p) && p.headerParsed && !env.useDirTree
    requires c.Creation? && r.Resize? && c.seqId == r.seqId && c.fileSize <= r.fileSize
    requires Get(p.files, c.seqId).None? && Get(p.invalid, c.seqId).None?
    requires c.name in env.disk && r.fileSize <= env.disk[c.name]
    ensures Replay(env, Outcome(Ok, p), [c, r]).status == Ok <==>
            (RecordedSize(p, c.seqId).Some? ==> RecordedSize(p, c.seqId).value <= r.fileSize)
  {
    var f := FileChunks(c.seqId, c.name, env.disk[c.name], []);
    GetSet(p.files, c.seqId, f, c.seqId);
    GetSet(p.sizes, c.seqId, c.fileSize, c.seqId);
    var o1 := Step(env, Outcome(Ok, p), c);
    assert Get(o1.parser.files, c.seqId) == Some(f);
    GetSizeAfterCreation(p, c);
    ReplayCons(env, Outcome(Ok, p), c, [r]);
    ReplayCons(env, o1, r, []);
    assert [c, r] == [c] + [r] && [r] == [r] + [];
  }

  lemma GetSizeAfterCreation(p: Parser, c: Entry)
    requires Sorted(p.sizes) && c.Creation?
    ensures var sizes := if Get(p.sizes, c.seqId).Some? then p.sizes else Set(p.sizes, c.seqId, c.fileSize);
            RecordedSize(p.(sizes := sizes), c.seqId) ==
            if RecordedSize(p, c.seqId).Some? then RecordedSize(p, c.seqId) else Some(c.fileSize)
  {
    GetSet(p.sizes, c.seqId, c.fileSize, c.seqId);
  }

  lemma ReplayCons(env: Env, o: Outcome, e: Entry, rest: seq<Entry>)
    requires o.status != Invalid
    ensures Replay(env, o, [e] + rest) == Replay(env, Step(env, o, e), rest)
  {
    assert ([e] + rest)[1..] == rest;
  }

  lemma {:induction false} ReplayConcat(env: Env, o: Outcome, a: seq<Entry>, b: seq<Entry>)
    ensures Replay(env, o, a + b) == Replay(env, Replay(env, o, a), b)
    decreases |a|
  {
    if a == [] {
      assert a + b == b;
    } else if o.status != Invalid {
      assert (a + b)[1..] == a[1..] + b;
      ReplayConcat(env, Step(env, o, a[0]), a[1..], b);
    }
  }

  /** The entry makes the directory inconsistent, which clears all that was replayed. */
  predicate Clears(env: Env, e: Entry) {
    || e.DirectoryInvalidation?
    || (e.Header? && e.version == LOG_VERSION && e.senderIp != []
        && (env.recoveryId != e.recoveryId || env.config != e.config))
  }

  /** The size that an entry gives to an id: that of a resize, or of the first creation that is found on disk. */
  function GivenSize(env: Env, e: Entry, id: Int64, known: bool): seq<Int64> {
    if e.Resize? && e.seqId == id then [e.fileSize]
    else if e.Creation? && e.seqId == id && OnDisk(env, e.name, e.fileSize) && !known then [e.fileSize]
    else []
  }

  /**
   The sizes that the log gives to an id since it was last cleared; behind that, everything up to a header is void.
   */
  function SizesOfId(env: Env, es: seq<Entry>, id: Int64, void: bool, sizes: seq<Int64>): seq<Int64>
    decreases |es|
  {
    if es == [] then sizes
    else if Clears(env, es[0]) then SizesOfId(env, es[1..], id, true, [])
    else if es[0].Header? then SizesOfId(env, es[1..], id, false, sizes)
    else if void then SizesOfId(env, es[1..], id, true, sizes)
    else SizesOfId(env, es[1..], id, false, sizes + GivenSize(env, es[0], id, sizes != []))
  }

  function Larger(a: Option<Int64>, size: Int64): Option<Int64> {
    if a.Some? && a.value >= size then a else Some(size)
  }

  function Largest(a: Option<Int64>, sizes: seq<Int64>): Option<Int64>
    decreases |sizes|
  {
    if sizes == [] then a else Largest(Larger(a, sizes[0]), sizes[1..])
  }

  lemma {:induction false} LargestBelow(a: Option<Int64>, sizes: seq<Int64>, limit: Int64)
    ensures (Largest(a, sizes).Some? ==> Largest(a, sizes).value <= limit)
            <==> (a.Some? ==> a.value <= limit) && forall i :: 0 <= i < |sizes| ==> sizes[i] <= limit
    decreases |sizes|
  {
    if sizes != [] {
      LargestBelow(Larger(a, sizes[0]), sizes[1..], limit);
      assert forall i :: 0 <= i < |sizes[1..]| ==> sizes[1..][i] == sizes[i + 1];
      assert forall i :: 0 < i < |sizes| ==> sizes[i] == sizes[1..][i - 1];
    }
  }

  lemma {:induction false} LargestOfMore(a: Option<Int64>, sizes: seq<Int64>, size: Int64)
    ensures Largest(a, sizes + [size]) == Larger(Largest(a, sizes), size)
    decreases |sizes|
  {
    if sizes == [] {
      assert [size][1..] == [];
    } else {
      assert (sizes + [size])[1..] == sizes[1..] + [size];
      LargestOfMore(Larger(a, sizes[0]), sizes[1..], size);
    }
  }

  /** What the parser has recorded for the id is the largest of these sizes; an inconsistent directory has none. */
  predicate RecordsLargest(o: Outcome, id: Int64, sizes: seq<Int64>) {
    RecordedSize(o.parser, id) == Largest(None, sizes) && (sizes == [] <==> RecordedSize(o.parser, id).None?)
  }

  lemma SizeStep(env: Env, p: Parser, e: Entry, id: Int64, sizes: seq<Int64>)
    requires ParserOk(env, p) && RecordsLargest(Outcome(Ok, p), id, sizes) && !Clears(env, e)
    requires Step(env, Outcome(Ok, p), e).status != Invalid
    ensures var o' := Step(env, Outcome(Ok, p), e);
            o'.status == Ok && RecordsLargest(o', id, sizes + GivenSize(env, e, id, sizes != []))
  {
    if e.Resize? || e.Creation? {
      GetSet(p.sizes, e.seqId, e.fileSize, id);
      LargestOfMore(None, sizes, e.fileSize);
    }
    assert sizes + [] == sizes;
  }

  /** In any log that is not invalid, the recorded size is the largest given since the log was last cleared. */
  lemma {:induction false} RecordedIsLargest(env: Env, o: Outcome, es: seq<Entry>, id: Int64, sizes: seq<Int64>)
    requires ParserOk(env, o.parser) && RecordsLargest(o, id, sizes) && o.status != Invalid
    requires o.status == Inconsistent ==> o.parser.sizes == []
    requires Replay(env, o, es).status != Invalid
    ensures var o' := Replay(env, o, es);
            && ParserOk(env, o'.parser)
            && RecordsLargest(o', id, SizesOfId(env, es, id, o.status == Inconsistent, sizes))
    decreases |es|
  {
    if es != [] {
      StepKeepsOk(env, o, es[0]);
      var o' := Step(env, o, es[0]);
      if Clears(env, es[0]) {
        RecordedIsLargest(env, o', es[1..], id, []);
      } else if o.status == Inconsistent {
        RecordedIsLargest(env, o', es[1..], id, sizes);
      } else {
        assert o == Outcome(Ok, o.parser);
        SizeStep(env, o.parser, es[0], id, sizes);
        assert es[0].Header? ==> GivenSize(env, es[0], id, sizes != []) == [] && sizes + [] == sizes;
        RecordedIsLargest(env, o', es[1..], id, sizes + GivenSize(env, es[0], id, sizes != []));
      }
    }
  }

  /**
   So it is the log that decides: after any log that replays, growing a file of a reused id is accepted exactly if the
   new size reaches every size the log has given to the id since it was last cleared.
   */
  lemma GrowingReusedIdIff(env: Env, from: Bytes, es: seq<Entry>, c: Entry, r: Entry)
    requires Replay(env, Outcome(Ok, NewParser(from)), es).status == Ok
    requires c.Creation? && r.Resize? && c.seqId == r.seqId && c.fileSize <= r.fileSize
    requires var p := Replay(env, Outcome(Ok, NewParser(from)), es).parser;
             p.headerParsed && !env.useDirTree && Get(p.files, c.seqId).None? && Get(p.invalid, c.seqId).None?
    requires c.name in env.disk && r.fileSize <= env.disk[c.name]
    ensures var sizes := SizesOfId(env, es, c.seqId, false, []);
            Replay(env, Outcome(Ok, NewParser(from)), es + [c, r]).status == Ok <==>
            forall i :: 0 <= i < |sizes| ==> sizes[i] <= r.fileSize
  {
    var o, id := Outcome(Ok, NewParser(from)), c.seqId;
    RecordedIsLargest(env, o, es, id, []);
    LargestBelow(None, SizesOfId(env, es, id, false, []), r.fileSize);
    ReplayConcat(env, o, es, [c, r]);
    GrowingIff(env, Replay(env, o, es).parser, c, r);
  }

  /** A log of one honest history that no longer replays: create, lose, create smaller under the same id, grow. */
  lemma StaleSizeMakesLogInvalid(env: Env, name: Bytes, ip: Bytes, from: Bytes)
    requires env.disk == map[name := 100] && !env.useDirTree && ip != []
    ensures var es := [Header(0, LOG_VERSION, env.recoveryId, ip, env.config), Creation(0, name, 5, 100),
                       Invalidation(0, 5), Creation(0, name, 5, 50), Resize(0, 5, 60)];
            && Replay(env, Outcome(Ok, NewParser(from)), es[..4]).status == Ok
            && Replay(env, Outcome(Ok, NewParser(from)), es).status == Invalid
  {
    var h := Header(0, LOG_VERSION, env.recoveryId, ip, env.config);
    var e1, e2, e3, e4 := Creation(0, name, 5, 100), Invalidation(0, 5), Creation(0, name, 5, 50), Resize(0, 5, 60);
    var f := FileChunks(5, name, 100, []);
    var p0 := Parser(true, [], [], [], ip);
    var p1 := p0.(files := [Pair(5, f)], sizes := [Pair(5, 100)]);
    var p2 := p1.(files := []);
    var o := Outcome(Ok, NewParser(from));
    assert Step(env, o, h) == Outcome(Ok, p0);
    assert Step(env, Outcome(Ok, p0), e1) == Outcome(Ok, p1);
    assert [Pair(5, f)][1..] == [];
    assert Step(env, Outcome(Ok, p1), e2) == Outcome(Ok, p2);
    assert Step(env, Outcome(Ok, p2), e3) == Outcome(Ok, p1);
    assert Step(env, Outcome(Ok, p1), e4).status == Invalid;
    var es := [h, e1, e2, e3, e4];
    FourSteps(env, o, h, e1, e2, e3, []);
    FourSteps(env, o, h, e1, e2, e3, [e4]);
    assert es[..4] == [h, e1, e2, e3] + [] && es == [h, e1, e2, e3] + [e4];
    assert [e4][1..] == [];
  }

  lemma FourSteps(env: Env, o: Outcome, e0: Entry, e1: Entry, e2: Entry, e3: Entry, rest: seq<Entry>)
    requires var o1 := Step(env, o, e0); var o2 := Step(env, o1, e1); var o3 := Step(env, o2, e2);
             o.status != Invalid && o1.status != Invalid && o2.status != Invalid && o3.status != Invalid
    ensures Replay(env, o, [e0, e1, e2, e3] + rest) ==
            Replay(env, Step(env, Step(env, Step(env, Step(env, o, e0), e1), e2), e3), rest)
  {
    var o1 := Step(env, o, e0);
    var o2 := Step(env, o1, e1);
    var o3 := Step(env, o2, e2);
    ReplayCons(env, o, e0, [e1, e2, e3] + rest);
    ReplayCons(env, o1, e1, [e2, e3] + rest);
    ReplayCons(env, o2, e2, [e3] + rest);
    ReplayCons(env, o3, e3, rest);
    assert [e0, e1, e2, e3] + rest == [e0] + ([e1, e2, e3] + rest);
    assert [e1, e2, e3] + rest == [e1] + ([e2, e3] + rest) && [e2, e3] + rest == [e2] + ([e3] + rest);
  }
}
