/** The entries of the transfer log: two bytes of length, a type byte, and the fields of the type. */
module LogEntries {
  import opened Options
  import opened Wire
  import opened Messages

  const LOG_VERSION := 2
  const LENGTH_LEN := 2
  const MAX_ENTRY_LENGTH := 2 + 1 + 10 + PATH_MAX + 2 * 10

  const HEADER := 0
  const FILE_CREATION := 1
  const BLOCK_WRITE := 2
  const FILE_INVALIDATION := 3
  const FILE_RESIZE := 4
  const DIRECTORY_INVALIDATION := 5

  datatype Entry =
    | Header(time: Int64, version: Int32, recoveryId: Bytes, senderIp: Bytes, config: Int64)
    | Creation(time: Int64, name: Bytes, seqId: Int64, fileSize: Int64)
    | BlockWrite(time: Int64, seqId: Int64, offset: Int64, blockSize: Int64)
    | Invalidation(time: Int64, seqId: Int64)
    | Resize(time: Int64, seqId: Int64, fileSize: Int64)
    | DirectoryInvalidation(time: Int64)

  function NumFields(vs: seq<Int64>): Fields {
    if vs == [] then End else Num(vs[0], NumFields(vs[1..]))
  }

  function TypeOf(e: Entry): Byte {
    match e
    case Header(_, _, _, _, _) => HEADER
    case Creation(_, _, _, _) => FILE_CREATION
    case BlockWrite(_, _, _, _) => BLOCK_WRITE
    case Invalidation(_, _) => FILE_INVALIDATION
    case Resize(_, _, _) => FILE_RESIZE
    case DirectoryInvalidation(_) => DIRECTORY_INVALIDATION
  }

  /** Strings have a length the program can represent. */
  predicate Encodable(e: Entry) {
    && (e.Header? ==> |e.recoveryId| < I64_LIMIT && |e.senderIp| < I64_LIMIT)
    && (e.Creation? ==> |e.name| < I64_LIMIT)
  }

  function EntryFields(e: Entry): Fields
    requires Encodable(e)
  {
    match e
    case Header(time, version, recoveryId, senderIp, config) =>
      Num(time, Num(version, Str(recoveryId, Str(senderIp, NumFields([config])))))
    case Creation(time, name, seqId, fileSize) => Num(time, Str(name, NumFields([seqId, fileSize])))
    case BlockWrite(time, seqId, offset, blockSize) => NumFields([time, seqId, offset, blockSize])
    case Invalidation(time, seqId) => NumFields([time, seqId])
    case Resize(time, seqId, fileSize) => NumFields([time, seqId, fileSize])
    case DirectoryInvalidation(time) => NumFields([time])
  }

  function Body(e: Entry): (r: Bytes)
    requires Encodable(e)
    ensures r != []
  {
    Encode(Raw(TypeOf(e), EntryFields(e)))
  }

  /** The encoder finds room for the entry in its buffer. */
  predicate Writable(e: Entry) {
    Encodable(e) && LENGTH_LEN + |Body(e)| <= MAX_ENTRY_LENGTH
  }

  function EncodeEntry(e: Entry): Bytes
    requires Encodable(e)
  {
    Fixed(|Body(e)|, LENGTH_LEN) + Body(e)
  }

  // ---- decoding

  /** Exactly `n` numbers and nothing behind them. */
  function DecodeNums(n: nat, s: Bytes): (r: Option<seq<Int64>>)
    ensures r.Some? ==> |r.value| == n
  {
    if n == 0 then if s == [] then Some([]) else None
    else
      var v := DecodeI64C(s);
      if v.None? then None else
      var vs := DecodeNums(n - 1, v.value.rest);
      if vs.None? then None else Some([v.value.value] + vs.value)
  }

  function DecodeLogHeader(s: Bytes): Option<Entry> {
    var time := DecodeI64C(s);
    if time.None? then None else
    var version := DecodeI32C(time.value.rest);
    if version.None? then None else
    var recoveryId := DecodeString(version.value.rest);
    if recoveryId.None? then None else
    var senderIp := DecodeString(recoveryId.value.rest);
    if senderIp.None? then None else
    var config := DecodeNums(1, senderIp.value.rest);
    if config.None? then None
    else Some(Header(time.value.value, version.value.value, recoveryId.value.value, senderIp.value.value,
                     config.value[0]))
  }

  function DecodeCreation(s: Bytes): Option<Entry> {
    var time := DecodeI64C(s);
    if time.None? then None else
    var name := DecodeString(time.value.rest);
    if name.None? then None else
    var vs := DecodeNums(2, name.value.rest);
    if vs.None? then None else Some(Creation(time.value.value, name.value.value, vs.value[0], vs.value[1]))
  }

  function DecodeBlockWrite(s: Bytes): Option<Entry> {
    var vs := DecodeNums(4, s);
    if vs.None? then None else Some(BlockWrite(vs.value[0], vs.value[1], vs.value[2], vs.value[3]))
  }

  function DecodeInvalidation(s: Bytes): Option<Entry> {
    var vs := DecodeNums(2, s);
    if vs.None? then None else Some(Invalidation(vs.value[0], vs.value[1]))
  }

  function DecodeResize(s: Bytes): Option<Entry> {
    var vs := DecodeNums(3, s);
    if vs.None? then None else Some(Resize(vs.value[0], vs.value[1], vs.value[2]))
  }

  function DecodeDirectoryInvalidation(s: Bytes): Option<Entry> {
    var vs := DecodeNums(1, s);
    if vs.None? then None else Some(DirectoryInvalidation(vs.value[0]))
  }

  function DecodeBody(body: Bytes): Option<Entry>
    requires body != []
  {
    var t, s := body[0], body[1..];
    if t == HEADER then DecodeLogHeader(s)
    else if t == FILE_CREATION then DecodeCreation(s)
    else if t == BLOCK_WRITE then DecodeBlockWrite(s)
    else if t == FILE_INVALIDATION then DecodeInvalidation(s)
    else if t == FILE_RESIZE then DecodeResize(s)
    else if t == DIRECTORY_INVALIDATION then DecodeDirectoryInvalidation(s)
    else None
  }

  // ---- round trips

  lemma {:induction false} NumsRoundTrip(vs: seq<Int64>)
    ensures DecodeNums(|vs|, Encode(NumFields(vs))) == Some(vs)
  {
    if vs != [] {
      NumStep(vs[0], NumFields(vs[1..]), []);
      assert Encode(NumFields(vs)) + [] == Encode(NumFields(vs));
      assert Encode(NumFields(vs[1..])) + [] == Encode(NumFields(vs[1..]));
      NumsRoundTrip(vs[1..]);
      assert vs == [vs[0]] + vs[1..];
    }
  }

  lemma NumThen(v: Int64, next: Fields)
    ensures DecodeI64C(Encode(Num(v, next))) == Some(Decoded(v, Encode(next)))
  {
    NumStep(v, next, []);
    assert Encode(Num(v, next)) + [] == Encode(Num(v, next)) && Encode(next) + [] == Encode(next);
  }

  lemma StrThen(s: Text, next: Fields)
    ensures DecodeString(Encode(Str(s, next))) == Some(Decoded(s, Encode(next)))
  {
    StrStep(s, next, []);
    assert Encode(Str(s, next)) + [] == Encode(Str(s, next)) && Encode(next) + [] == Encode(next);
  }

  lemma LogHeaderRoundTrip(e: Entry)
    requires e.Header? && Encodable(e)
    ensures DecodeLogHeader(Encode(EntryFields(e))) == Some(e)
  {
    var f4 := NumFields([e.config]);
    var f3 := Str(e.senderIp, f4);
    var f2 := Str(e.recoveryId, f3);
    NumThen(e.time, Num(e.version, f2));
    NumThen(e.version, f2);
    StrThen(e.recoveryId, f3);
    StrThen(e.senderIp, f4);
    NumsRoundTrip([e.config]);
  }

  lemma CreationRoundTrip(e: Entry)
    requires e.Creation? && Encodable(e)
    ensures DecodeCreation(Encode(EntryFields(e))) == Some(e)
  {
    var f2 := NumFields([e.seqId, e.fileSize]);
    NumThen(e.time, Str(e.name, f2));
    StrThen(e.name, f2);
    NumsRoundTrip([e.seqId, e.fileSize]);
  }

  /** Every entry decodes to itself. */
  lemma BodyRoundTrip(e: Entry)
    requires Encodable(e)
    ensures DecodeBody(Body(e)) == Some(e)
  {
    assert Body(e)[1..] == Encode(EntryFields(e));
    match e
    case Header(_, _, _, _, _) => LogHeaderRoundTrip(e);
    case Creation(_, _, _, _) => CreationRoundTrip(e);
    case BlockWrite(time, seqId, offset, blockSize) => NumsRoundTrip([time, seqId, offset, blockSize]);
    case Invalidation(time, seqId) => NumsRoundTrip([time, seqId]);
    case Resize(time, seqId, fileSize) => NumsRoundTrip([time, seqId, fileSize]);
    case DirectoryInvalidation(time) => NumsRoundTrip([time]);
  }

  lemma {:induction false} NumsLength(vs: seq<Int64>)
    ensures |Encode(NumFields(vs))| <= 9 * |vs|
  {
    if vs != [] {
      NumsLength(vs[1..]);
    }
  }

  /** The log buffers hold any entry whose name is a legal path; only a header can be too long. */
  lemma EntriesFit(e: Entry)
    requires !e.Header? && (e.Creation? ==> |e.name| <= PATH_MAX)
    ensures Writable(e)
  {
    assert |Body(e)| == 1 + |Encode(EntryFields(e))|;
    if e.Creation? {
      VarLength2(|e.name|);
      var f2 := NumFields([e.seqId, e.fileSize]);
      NumsLength([e.seqId, e.fileSize]);
      assert |Encode(Str(e.name, f2))| <= 2 + PATH_MAX + 18;
    } else if e.BlockWrite? {
      NumsLength([e.time, e.seqId, e.offset, e.blockSize]);
    } else if e.Invalidation? {
      NumsLength([e.time, e.seqId]);
    } else if e.Resize? {
      NumsLength([e.time, e.seqId, e.fileSize]);
    } else {
      NumsLength([e.time]);
    }
  }

  // ---- the encoders

  /** Type and fields behind room for the length, then the length; nothing is promised of the buffer on failure. */
  method WriteEntry(dest: array<Byte>, max: nat, e: Entry) returns (r: int)
    requires Encodable(e) && LENGTH_LEN + 1 <= max <= dest.Length && max <= MAX_ENTRY_LENGTH
    modifies dest
    ensures r == if LENGTH_LEN + |Body(e)| <= max then LENGTH_LEN + |Body(e)| else -1
    ensures r >= 0 ==> r <= dest.Length && dest[..r] == EncodeEntry(e)
  {
    var ok, size := PutFields(dest, LENGTH_LEN, max, Raw(TypeOf(e), EntryFields(e)));
    if !ok {
      return -1;
    }
    assert dest[LENGTH_LEN..size] == Body(e);
    var length := Fixed(size - LENGTH_LEN, LENGTH_LEN);
    dest[0] := length[0];
    dest[1] := length[1];
    assert dest[..size] == length + dest[LENGTH_LEN..size];
    return size;
  }
}
