/**
 The list of already received chunks, as the receiver sends it: in pages of at most one buffer, each with its size
 in front, and the sender's loop that puts the pages together again.
 */
module ChunkPages {
  import opened Options
  import opened Wire
  import opened Intervals
  import opened Messages

  /** Every page leaves room for its size. */
  const SIZE_LEN := 4

  predicate ListOk(list: seq<FileChunks>) {
    forall i :: 0 <= i < |list| ==> FileChunksOk(list[i])
  }

  predicate BufferOk(bufSize: nat) {
    SIZE_LEN <= bufSize < I32_LIMIT
  }

  predicate EntryFits(f: FileChunks, bufSize: nat) {
    MaxEncodeLen(f) + SIZE_LEN < bufSize
  }

  predicate AllFit(list: seq<FileChunks>, bufSize: nat) {
    forall i :: 0 <= i < |list| ==> EntryFits(list[i], bufSize)
  }

  function EncodeList(list: seq<FileChunks>): Bytes
    requires ListOk(list)
  {
    Joined(Parts(list))
  }

  function Parts(list: seq<FileChunks>): seq<Bytes>
    requires ListOk(list)
  {
    seq(|list|, i requires 0 <= i < |list| => Encode(FileFields(list[i])))
  }

  /** The entries that go into a page: from `i` on, skipping those that fit no page, until one finds no room. */
  function Taken(list: seq<FileChunks>, i: nat, off: nat, bufSize: nat): (r: seq<FileChunks>)
    requires i <= |list| && ListOk(list)
    ensures ListOk(r) && |r| <= |list| - i
    decreases |list| - i
  {
    if i == |list| then []
    else if MaxEncodeLen(list[i]) + SIZE_LEN > bufSize then Taken(list, i + 1, off, bufSize)
    else if MaxEncodeLen(list[i]) + off >= bufSize then []
    else [list[i]] + Taken(list, i + 1, off + |Encode(FileFields(list[i]))|, bufSize)
  }

  function PageOf(entries: seq<FileChunks>): Bytes
    requires ListOk(entries)
  {
    Fixed(|EncodeList(entries)|, SIZE_LEN) + EncodeList(entries)
  }

  /** `pages` are the entries of everything the page loop writes, from entry `start` on until it ends. */
  predicate Writes(list: seq<FileChunks>, bufSize: nat, start: nat, pages: seq<seq<FileChunks>>)
    requires ListOk(list)
    decreases |pages|
  {
    if start >= |list| then pages == []
    else
      && pages != [] && pages[0] == Taken(list, start, SIZE_LEN, bufSize)
      && Writes(list, bufSize, start + |pages[0]|, pages[1..])
  }

  /** Pages the size field can describe, which together hold `n` entries and have none behind the last. */
  predicate PagesOk(pages: seq<seq<FileChunks>>, n: int) {
    if pages == [] then n == 0
    else
      && n > 0 && |pages[0]| <= n && ListOk(pages[0]) && |EncodeList(pages[0])| < I32_LIMIT
      && PagesOk(pages[1..], n - |pages[0]|)
  }

  /** What goes to the socket, with `rest` behind it. */
  function StreamFrom(pages: seq<seq<FileChunks>>, rest: Bytes): Bytes
    requires forall i :: 0 <= i < |pages| ==> ListOk(pages[i])
  {
    if pages == [] then rest else PageOf(pages[0]) + StreamFrom(pages[1..], rest)
  }

  function Flatten(pages: seq<seq<FileChunks>>): seq<FileChunks> {
    if pages == [] then [] else pages[0] + Flatten(pages[1..])
  }

  // ---- reading

  /** Decodes entries until the page is used up. */
  function DecodeList(s: Bytes): Option<seq<FileChunks>>
    decreases |s|
  {
    if s == [] then Some([])
    else
      var f := DecodeFileChunks(s);
      if f.None? then None else
      assert |f.value.rest| < |s| by { DecodeFileShrinks(s); }
      var fs := DecodeList(f.value.rest);
      if fs.None? then None else Some([f.value.value] + fs.value)
  }

  lemma StringShrinks(s: Bytes)
    ensures DecodeString(s).Some? ==> |DecodeString(s).value.rest| < |s|
  {
    if DecodeU64(s).Some? {
      UnvarBounds(s, 9);
    }
  }

  lemma {:induction false} ChunksShrink(n: nat, s: Bytes)
    ensures DecodeChunks(n, s).Some? ==> |DecodeChunks(n, s).value.rest| <= |s|
    decreases n
  {
    if n > 0 {
      I64Shrinks(s);
      var start := DecodeI64C(s);
      if start.Some? {
        I64Shrinks(start.value.rest);
        var c := DecodeChunk(s);
        if c.Some? {
          ChunksShrink(n - 1, c.value.rest);
        }
      }
    }
  }

  lemma DecodeFileShrinks(s: Bytes)
    requires DecodeFileChunks(s).Some?
    ensures |DecodeFileChunks(s).value.rest| < |s|
  {
    I64Shrinks(s);
    var s1 := DecodeI64C(s).value.rest;
    StringShrinks(s1);
    var s2 := DecodeString(s1).value.rest;
    I64Shrinks(s2);
    var s3 := DecodeI64C(s2).value.rest;
    I64Shrinks(s3);
    var n := DecodeI64C(s3).value;
    ChunksShrink(n.value, n.rest);
  }

  /** The sender's loop: page after page until the announced number of entries has arrived. */
  function Receive(s: Bytes, numFiles: nat, got: seq<FileChunks>): Parse<seq<FileChunks>>
    decreases |s|
  {
    if |got| > numFiles then None
    else if |got| == numFiles then Some(Decoded(got, s))
    else if |s| < SIZE_LEN then None
    else
      var size := Unfixed(s[..SIZE_LEN]);
      var s' := s[SIZE_LEN..];
      if size > |s'| then None
      else
        var page := DecodeList(s'[..size]);
        if page.None? then None else Receive(s'[size..], numFiles, got + page.value)
  }

  // ---- one page

  lemma EncodeListSnoc(fs: seq<FileChunks>, g: FileChunks)
    requires ListOk(fs) && FileChunksOk(g)
    ensures EncodeList(fs + [g]) == EncodeList(fs) + Encode(FileFields(g))
  {
    var parts := Parts(fs + [g]);
    assert parts[..|fs|] == Parts(fs);
  }

  lemma EncodeListCons(f: FileChunks, fs: seq<FileChunks>)
    requires FileChunksOk(f) && ListOk(fs)
    ensures EncodeList([f] + fs) == Encode(FileFields(f)) + EncodeList(fs)
  {
    assert Parts([f] + fs) == [Encode(FileFields(f))] + Parts(fs);
    JoinedCons(Encode(FileFields(f)), Parts(fs));
  }

  lemma Associate(a: Bytes, b: Bytes, c: Bytes)
    ensures (a + b) + c == a + (b + c)
  {
  }

  lemma {:induction false} ListRoundTrip(fs: seq<FileChunks>)
    requires ListOk(fs)
    ensures DecodeList(EncodeList(fs)) == Some(fs)
  {
    if fs != [] {
      var f := fs[0];
      assert fs == [f] + fs[1..];
      EncodeListCons(f, fs[1..]);
      FileChunksRoundTrip(f, EncodeList(fs[1..]));
      ListRoundTrip(fs[1..]);
      NumStep(f.seqId, FileFields(f).next, EncodeList(fs[1..]));
    }
  }

  /** What is taken stays inside the buffer: the encoder always finds room. */
  lemma {:induction false} TakenInside(list: seq<FileChunks>, i: nat, off: nat, bufSize: nat)
    requires i <= |list| && ListOk(list) && BufferOk(bufSize) && off <= bufSize
    ensures off + |EncodeList(Taken(list, i, off, bufSize))| <= bufSize
    decreases |list| - i
  {
    if i < |list| {
      var f := list[i];
      if MaxEncodeLen(f) + SIZE_LEN > bufSize {
        TakenInside(list, i + 1, off, bufSize);
      } else if MaxEncodeLen(f) + off < bufSize {
        EncodeLenBound(f);
        var off' := off + |Encode(FileFields(f))|;
        TakenInside(list, i + 1, off', bufSize);
        EncodeListCons(f, Taken(list, i + 1, off', bufSize));
      }
    }
  }

  /** If every entry fits, a page takes entries in order, and at least one. */
  lemma {:induction false} TakenInOrder(list: seq<FileChunks>, i: nat, off: nat, bufSize: nat)
    requires i <= |list| && ListOk(list) && AllFit(list, bufSize)
    ensures var r := Taken(list, i, off, bufSize);
            r == list[i..i + |r|] && (i < |list| && off == SIZE_LEN ==> r != [])
    decreases |list| - i
  {
    if i < |list| {
      assert EntryFits(list[i], bufSize);
      if MaxEncodeLen(list[i]) + off < bufSize {
        TakenInOrder(list, i + 1, off + |Encode(FileFields(list[i]))|, bufSize);
      }
    }
  }

  /** Nothing is ever taken that does not fit a page of its own. */
  lemma {:induction false} TakenOnlyFitting(list: seq<FileChunks>, i: nat, off: nat, bufSize: nat)
    requires i <= |list| && ListOk(list) && off >= SIZE_LEN
    ensures AllFit(Taken(list, i, off, bufSize), bufSize)
    decreases |list| - i
  {
    if i < |list| {
      if MaxEncodeLen(list[i]) + SIZE_LEN > bufSize {
        TakenOnlyFitting(list, i + 1, off, bufSize);
      } else if MaxEncodeLen(list[i]) + off < bufSize {
        TakenOnlyFitting(list, i + 1, off + |Encode(FileFields(list[i]))|, bufSize);
      }
    }
  }

  lemma ReceivePage(entries: seq<FileChunks>, rest: Bytes, numFiles: nat, got: seq<FileChunks>)
    requires ListOk(entries) && |EncodeList(entries)| < I32_LIMIT && |got| < numFiles
    ensures Receive(PageOf(entries) + rest, numFiles, got) == Receive(rest, numFiles, got + entries)
  {
    var body := EncodeList(entries);
    var s := PageOf(entries) + rest;
    Powers();
    UnfixedFixed(|body|, SIZE_LEN);
    assert s == Fixed(|body|, SIZE_LEN) + (body + rest);
    assert s[..SIZE_LEN] == Fixed(|body|, SIZE_LEN) && s[SIZE_LEN..] == body + rest;
    assert (body + rest)[..|body|] == body && (body + rest)[|body|..] == rest;
    ListRoundTrip(entries);
  }

  // ---- the whole list

  lemma {:induction false} PagesOkEach(pages: seq<seq<FileChunks>>, n: int)
    requires PagesOk(pages, n)
    ensures forall i :: 0 <= i < |pages| ==> ListOk(pages[i])
  {
    if pages != [] {
      PagesOkEach(pages[1..], n - |pages[0]|);
      assert forall i :: 0 < i < |pages| ==> pages[i] == pages[1..][i - 1];
    }
  }

  /** The sender puts any such pages together, and stops exactly behind the last one. */
  lemma {:induction false} ReceiveAll(pages: seq<seq<FileChunks>>, rest: Bytes, n: nat, got: seq<FileChunks>)
    requires |got| <= n && PagesOk(pages, n - |got|)
    requires forall i :: 0 <= i < |pages| ==> ListOk(pages[i])
    ensures Receive(StreamFrom(pages, rest), n, got) == Some(Decoded(got + Flatten(pages), rest))
    decreases |pages|
  {
    var s, all := StreamFrom(pages, rest), got + Flatten(pages);
    if pages == [] {
      assert s == rest && all == got;
    } else {
      var later := pages[1..];
      var s' := StreamFrom(later, rest);
      assert s == PageOf(pages[0]) + s';
      assert (got + pages[0]) + Flatten(later) == all;
      ReceiveAll(later, rest, n, got + pages[0]);
      ReceivePage(pages[0], s', n, got);
    }
  }

  lemma {:induction false} StreamSplits(pages: seq<seq<FileChunks>>, rest: Bytes)
    requires forall i :: 0 <= i < |pages| ==> ListOk(pages[i])
    ensures StreamFrom(pages, rest) == StreamFrom(pages, []) + rest
  {
    if pages != [] {
      StreamSplits(pages[1..], rest);
    }
  }

  /** Whatever the loop writes until it ends is such a list of pages, with entries that fit a page. */
  lemma {:induction false} WritesPagesOk(list: seq<FileChunks>, bufSize: nat, start: nat, pages: seq<seq<FileChunks>>)
    requires ListOk(list) && BufferOk(bufSize) && start <= |list| && Writes(list, bufSize, start, pages)
    ensures PagesOk(pages, |list| - start) && AllFit(Flatten(pages), bufSize)
    decreases |pages|
  {
    if start < |list| {
      TakenInside(list, start, SIZE_LEN, bufSize);
      TakenOnlyFitting(list, start, SIZE_LEN, bufSize);
      WritesPagesOk(list, bufSize, start + |pages[0]|, pages[1..]);
    }
  }

  /** If every entry fits, the loop ends and its pages hold the rest of the list in order. */
  lemma {:induction false} FittingListIsWritten(list: seq<FileChunks>, bufSize: nat, start: nat)
    returns (pages: seq<seq<FileChunks>>)
    requires ListOk(list) && AllFit(list, bufSize) && start <= |list|
    ensures Writes(list, bufSize, start, pages) && Flatten(pages) == list[start..]
    decreases |list| - start
  {
    if start == |list| {
      pages := [];
    } else {
      TakenInOrder(list, start, SIZE_LEN, bufSize);
      var entries := Taken(list, start, SIZE_LEN, bufSize);
      var later := FittingListIsWritten(list, bufSize, start + |entries|);
      pages := [entries] + later;
      assert pages[1..] == later;
      assert list[start..] == entries + list[start + |entries|..];
    }
  }

  /** The loop ends after writing some pages from which the sender gets exactly the list. */
  ghost predicate Delivers(list: seq<FileChunks>, bufSize: nat, rest: Bytes)
    requires ListOk(list) && BufferOk(bufSize)
  {
    exists pages :: Writes(list, bufSize, 0, pages) && Arrives(pages, list, rest)
  }

  predicate Arrives(pages: seq<seq<FileChunks>>, list: seq<FileChunks>, rest: Bytes) {
    && (forall i :: 0 <= i < |pages| ==> ListOk(pages[i]))
    && Receive(StreamFrom(pages, rest), |list|, []) == Some(Decoded(list, rest))
  }

  /**
   The page loop ends and delivers exactly the list if and only if every entry leaves room for itself in a page.
   An entry one byte too long stops the loop from advancing, and a longer one is skipped without being counted.
   */
  lemma ListArrivesIff(list: seq<FileChunks>, bufSize: nat, rest: Bytes)
    requires ListOk(list) && BufferOk(bufSize)
    ensures AllFit(list, bufSize) <==> Delivers(list, bufSize, rest)
  {
    if AllFit(list, bufSize) {
      var pages := FittingListIsWritten(list, bufSize, 0);
      FlattenedArrives(list, bufSize, pages, rest);
      assert list[0..] == list;
      assert Arrives(pages, list, rest);
    }
    if Delivers(list, bufSize, rest) {
      var pages :| Writes(list, bufSize, 0, pages) && Arrives(pages, list, rest);
      FlattenedArrives(list, bufSize, pages, rest);
    }
  }

  /** A file whose name is as long as the page: its list does not arrive. */
  lemma LongNameDoesNotArrive(bufSize: nat, rest: Bytes) returns (list: seq<FileChunks>)
    requires BufferOk(bufSize)
    ensures ListOk(list) && |list| == 1 && |list[0].name| == bufSize && !Delivers(list, bufSize, rest)
  {
    list := [FileChunks(1, seq(bufSize, i => 97), 0, [])];
    assert !EntryFits(list[0], bufSize);
    ListArrivesIff(list, bufSize, rest);
  }

  lemma FlattenedArrives(list: seq<FileChunks>, bufSize: nat, pages: seq<seq<FileChunks>>, rest: Bytes)
    requires ListOk(list) && BufferOk(bufSize) && Writes(list, bufSize, 0, pages)
    ensures AllFit(Flatten(pages), bufSize)
    ensures forall i :: 0 <= i < |pages| ==> ListOk(pages[i])
    ensures Receive(StreamFrom(pages, rest), |list|, []) == Some(Decoded(Flatten(pages), rest))
  {
    WritesPagesOk(list, bufSize, 0, pages);
    PagesOkEach(pages, |list|);
    ReceiveAll(pages, rest, |list|, []);
    assert [] + Flatten(pages) == Flatten(pages);
  }

  // ---- the loops

  /** Fills one page behind its size field and returns how many entries went in. */
  method EncodeFileChunksInfoList(data: array<Byte>, start: nat, list: seq<FileChunks>) returns (n: nat, off: nat)
    requires BufferOk(data.Length) && ListOk(list) && start <= |list|
    modifies data
    ensures var entries := Taken(list, start, SIZE_LEN, data.Length);
            && n == |entries| && off == SIZE_LEN + |EncodeList(entries)| <= data.Length
            && data[SIZE_LEN..off] == EncodeList(entries) && data[..SIZE_LEN] == old(data[..SIZE_LEN])
  {
    n, off := 0, SIZE_LEN;
    ghost var all, done: seq<FileChunks> := Taken(list, start, SIZE_LEN, data.Length), [];
    var i := start;
    while i < |list|
      invariant start <= i <= |list| && ListOk(done) && n == |done|
      invariant off == SIZE_LEN + |EncodeList(done)| <= data.Length
      invariant data[SIZE_LEN..off] == EncodeList(done) && data[..SIZE_LEN] == old(data[..SIZE_LEN])
      invariant all == done + Taken(list, i, off, data.Length)
    {
      var maxLength := MaxEncodeLen(list[i]);
      if maxLength + SIZE_LEN <= data.Length {
        if maxLength + off >= data.Length {
          assert done + [] == done;
          return;
        }
        ghost var o := off;
        off := PutEntry(data, off, list[i], done);
        TakenStep(list, i, o, data.Length, done);
        done := done + [list[i]];
        n := n + 1;
      }
      i := i + 1;
    }
    assert done + [] == done;
  }

  /** The encoder always finds room, so that its result may be ignored. */
  method PutEntry(data: array<Byte>, off: nat, f: FileChunks, ghost done: seq<FileChunks>) returns (off': nat)
    requires BufferOk(data.Length) && FileChunksOk(f) && ListOk(done) && SIZE_LEN <= off
    requires off + MaxEncodeLen(f) < data.Length
    requires off == SIZE_LEN + |EncodeList(done)| && data[SIZE_LEN..off] == EncodeList(done)
    modifies data
    ensures off' == off + |Encode(FileFields(f))| == SIZE_LEN + |EncodeList(done + [f])| <= data.Length
    ensures data[SIZE_LEN..off'] == EncodeList(done + [f]) && data[..SIZE_LEN] == old(data[..SIZE_LEN])
  {
    ghost var before := data[..];
    var ok;
    ok, off' := PutFields(data, off, data.Length, FileFields(f));
    EncodeLenBound(f);
    assert ok;
    PageGrows(before, data[..], off, done, f);
    EncodeListSnoc(done, f);
  }

  lemma TakenStep(list: seq<FileChunks>, i: nat, off: nat, bufSize: nat, done: seq<FileChunks>)
    requires i < |list| && ListOk(list) && MaxEncodeLen(list[i]) + SIZE_LEN <= bufSize
    requires MaxEncodeLen(list[i]) + off < bufSize
    ensures done + Taken(list, i, off, bufSize) ==
            (done + [list[i]]) + Taken(list, i + 1, off + |Encode(FileFields(list[i]))|, bufSize)
  {
  }

  lemma PageGrows(before: Bytes, after: Bytes, off: nat, done: seq<FileChunks>, f: FileChunks)
    requires ListOk(done) && FileChunksOk(f) && SIZE_LEN <= off <= |before| && before[SIZE_LEN..off] == EncodeList(done)
    requires off + |Encode(FileFields(f))| <= |before| && after == Splice(before, off, Encode(FileFields(f)))
    ensures after[SIZE_LEN..off + |Encode(FileFields(f))|] == EncodeList(done + [f])
    ensures after[..SIZE_LEN] == before[..SIZE_LEN]
  {
    EncodeListSnoc(done, f);
  }

  /** Stores the size of the page in front of it. */
  method StoreSize(data: array<Byte>, size: nat)
    requires SIZE_LEN <= data.Length
    modifies data
    ensures data[..] == Splice(old(data[..]), 0, Fixed(size, SIZE_LEN))
  {
    var bytes := Fixed(size, SIZE_LEN);
    for i := 0 to SIZE_LEN
      invariant data[..] == Splice(old(data[..]), 0, bytes[..i])
    {
      SpliceByte(old(data[..]), 0, bytes[..i], bytes[i]);
      assert bytes[..i] + [bytes[i]] == bytes[..i + 1];
      Store(data, i, bytes[i]);
    }
    assert bytes[..SIZE_LEN] == bytes;
  }

  /** One turn of the page loop: the bytes that go to the socket. */
  method FillPage(data: array<Byte>, start: nat, list: seq<FileChunks>) returns (n: nat, page: Bytes)
    requires BufferOk(data.Length) && ListOk(list) && start <= |list|
    modifies data
    ensures var entries := Taken(list, start, SIZE_LEN, data.Length); n == |entries| && page == PageOf(entries)
  {
    var off;
    n, off := EncodeFileChunksInfoList(data, start, list);
    ghost var before := data[..];
    StoreSize(data, off - SIZE_LEN);
    page := data[..off];
    SizedPage(before, data[..], Fixed(off - SIZE_LEN, SIZE_LEN), off);
  }

  lemma SizedPage(before: Bytes, after: Bytes, size: Bytes, off: nat)
    requires |size| == SIZE_LEN <= off <= |before| && after == Splice(before, 0, size)
    ensures after[..off] == size + before[SIZE_LEN..off]
  {
  }

  /** The page loop; `stream` collects what goes to the socket. */
  method SendPages(list: seq<FileChunks>, data: array<Byte>) returns (stream: Bytes)
    requires BufferOk(data.Length) && ListOk(list) && AllFit(list, data.Length)
    modifies data
    ensures forall rest :: Receive(stream + rest, |list|, []) == Some(Decoded(list, rest))
  {
    ghost var all := FittingListIsWritten(list, data.Length, 0);
    WritesPagesOk(list, data.Length, 0, all);
    PagesOkEach(all, |list|);
    stream := WritePages(list, data, all);
    forall rest ensures Receive(stream + rest, |list|, []) == Some(Decoded(list, rest)) {
      WrittenArrives(list, data.Length, all, rest);
    }
  }

  method WritePages(list: seq<FileChunks>, data: array<Byte>, ghost all: seq<seq<FileChunks>>) returns (stream: Bytes)
    requires BufferOk(data.Length) && ListOk(list) && AllFit(list, data.Length) && Writes(list, data.Length, 0, all)
    requires forall i :: 0 <= i < |all| ==> ListOk(all[i])
    modifies data
    ensures stream == StreamFrom(all, [])
  {
    stream := [];
    ghost var later := all;
    var numWritten := 0;
    while numWritten < |list|
      invariant Sending(list, data.Length, numWritten, all, later, stream)
      decreases |list| - numWritten
    {
      SendingStep(list, data.Length, numWritten, all, later, stream);
      var n, page := FillPage(data, numWritten, list);
      stream := stream + page;
      numWritten := numWritten + n;
      later := later[1..];
    }
    assert stream + [] == stream;
  }

  /** The state of the page loop: `stream` has been written, and the pages `later` are still to be. */
  predicate Sending(list: seq<FileChunks>, bufSize: nat, start: int, all: seq<seq<FileChunks>>,
                    later: seq<seq<FileChunks>>, stream: Bytes)
    requires ListOk(list) && forall i :: 0 <= i < |all| ==> ListOk(all[i])
  {
    && 0 <= start <= |list| && Writes(list, bufSize, start, later)
    && (forall i :: 0 <= i < |later| ==> ListOk(later[i]))
    && StreamFrom(all, []) == stream + StreamFrom(later, [])
  }

  lemma SendingStep(list: seq<FileChunks>, bufSize: nat, start: nat, all: seq<seq<FileChunks>>,
                    later: seq<seq<FileChunks>>, stream: Bytes)
    requires ListOk(list) && AllFit(list, bufSize) && forall i :: 0 <= i < |all| ==> ListOk(all[i])
    requires Sending(list, bufSize, start, all, later, stream) && start < |list|
    ensures var entries := Taken(list, start, SIZE_LEN, bufSize);
            && ListOk(entries) && entries != [] && later != []
            && Sending(list, bufSize, start + |entries|, all, later[1..], stream + PageOf(entries))
  {
    TakenInOrder(list, start, SIZE_LEN, bufSize);
    Associate(stream, PageOf(later[0]), StreamFrom(later[1..], []));
  }

  lemma WrittenArrives(list: seq<FileChunks>, bufSize: nat, pages: seq<seq<FileChunks>>, rest: Bytes)
    requires ListOk(list) && BufferOk(bufSize) && Writes(list, bufSize, 0, pages) && Flatten(pages) == list[0..]
    requires forall i :: 0 <= i < |pages| ==> ListOk(pages[i])
    ensures Receive(StreamFrom(pages, []) + rest, |list|, []) == Some(Decoded(list, rest))
  {
    FlattenedArrives(list, bufSize, pages, rest);
    StreamSplits(pages, rest);
    assert list[0..] == list;
  }
}
