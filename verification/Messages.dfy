/**
 The messages of the protocol and the versions that add fields to them.  Encoders are given as the bytes they
 produce, and for block headers and chunk lists also as the code that moves an offset through a buffer.
 */
module Messages {
  import opened Options
  import opened Wire
  import opened Intervals

  const SETTINGS_FLAG_VERSION := 12
  const HEADER_FLAG_AND_PREV_SEQ_ID_VERSION := 13
  const CHECKPOINT_OFFSET_VERSION := 16
  const CHECKPOINT_SEQ_ID_VERSION := 21
  const VARINT_CHANGE := 27

  const PATH_MAX := 4096
  const MAX_HEADER := 1 + 2 + PATH_MAX + 4 * 10 + 1 + 10
  const MAX_CHUNK_ENCODE_LEN := 20

  /** File allocation states as they go over the wire. */
  const EXISTS_TOO_LARGE := 2
  const EXISTS_TOO_SMALL := 3
  const TO_BE_DELETED := 4

  // ---- messages as lists of fields

  /** What an encoder writes, field by field: varints, strings with their length, and single bytes. */
  datatype Fields = End | Num(v: Int64, next: Fields) | Str(s: Text, next: Fields) | Raw(b: Byte, next: Fields)

  function Encode(fs: Fields): Bytes {
    match fs
    case End => []
    case Num(v, next) => EncodeI64C(v) + Encode(next)
    case Str(s, next) => EncodeString(s) + Encode(next)
    case Raw(b, next) => [b] + Encode(next)
  }

  lemma NumStep(v: Int64, next: Fields, rest: Bytes)
    ensures DecodeI64C(Encode(Num(v, next)) + rest) == Some(Decoded(v, Encode(next) + rest))
    ensures Encode(Num(v, next)) + rest != []
  {
    assert Encode(Num(v, next)) + rest == EncodeI64C(v) + (Encode(next) + rest);
    U64RoundTrip(v, Encode(next) + rest);
  }

  lemma StrStep(s: Text, next: Fields, rest: Bytes)
    ensures DecodeString(Encode(Str(s, next)) + rest) == Some(Decoded(s, Encode(next) + rest))
  {
    assert Encode(Str(s, next)) + rest == EncodeString(s) + (Encode(next) + rest);
    StringRoundTrip(s, Encode(next) + rest);
  }

  lemma RawStep(b: Byte, next: Fields, rest: Bytes)
    ensures var e := Encode(Raw(b, next)) + rest; e != [] && e[0] == b && e[1..] == Encode(next) + rest
  {
    assert Encode(Raw(b, next)) + rest == [b] + (Encode(next) + rest);
  }

  lemma EndStep(rest: Bytes)
    ensures Encode(End) + rest == rest
  {
  }

  method PutField(data: array<Byte>, off: nat, max: nat, fs: Fields) returns (ok: bool, off': nat)
    requires off <= max <= data.Length && fs != End
    modifies data
    ensures Put(old(data[..]), data[..], off, max, off', ok, EncodeOne(fs))
  {
    match fs
    case Num(v, _) => ok, off' := EncodeVarU64(data, max, off, v);
    case Str(s, _) => ok, off' := PutString(data, max, off, s);
    case Raw(b, _) => ok, off' := PutByte(data, max, off, b);
  }

  /** The chain of encoder calls that stops at the first one without room. */
  method PutFields(data: array<Byte>, off: nat, max: nat, fields: Fields) returns (ok: bool, off': nat)
    requires off <= max <= data.Length
    modifies data
    ensures Put(old(data[..]), data[..], off, max, off', ok, Encode(fields))
    decreases fields
  {
    if fields == End {
      SpliceNothing(data[..], off);
      return true, off;
    }
    ghost var before, one := data[..], EncodeOne(fields);
    ok, off' := PutField(data, off, max, fields);
    if !ok {
      PutFails(before, data[..], off, max, off', one, Encode(fields.next));
      return;
    }
    ghost var mid, o := data[..], off';
    ok, off' := PutFields(data, off', max, fields.next);
    PutThenPut(before, mid, data[..], off, o, off', max, ok, one, Encode(fields.next));
  }

  lemma SpliceNothing(buf: Bytes, off: nat)
    requires off <= |buf|
    ensures Splice(buf, off, []) == buf
  {
  }

  function EncodeOne(fs: Fields): (r: Bytes)
    requires fs != End
    ensures Encode(fs) == r + Encode(fs.next)
  {
    match fs
    case Num(v, _) => EncodeI64C(v)
    case Str(s, _) => EncodeString(s)
    case Raw(b, _) => [b]
  }

  method PutByte(data: array<Byte>, max: nat, off: nat, b: Byte) returns (ok: bool, off': nat)
    requires off <= max <= data.Length
    modifies data
    ensures Put(old(data[..]), data[..], off, max, off', ok, [b])
  {
    if off >= max {
      return false, off;
    }
    Store(data, off, b);
    return true, off + 1;
  }

  // ---- block headers

  datatype BlockDetails = BlockDetails(fileName: Bytes, seqId: Int64, dataSize: Int64, offset: Int64, fileSize: Int64,
                                       allocation: Byte, prevSeqId: Int64)

  predicate HeaderOk(d: BlockDetails) {
    |d.fileName| < I64_LIMIT && d.allocation <= TO_BE_DELETED
  }

  predicate HasPrevSeqId(allocation: nat) {
    allocation == EXISTS_TOO_SMALL || allocation == EXISTS_TOO_LARGE
  }

  function HeaderFlags(version: int, d: BlockDetails): Fields
    requires HeaderOk(d)
  {
    if version < HEADER_FLAG_AND_PREV_SEQ_ID_VERSION then End
    else Raw(d.allocation, if HasPrevSeqId(d.allocation) then Num(d.prevSeqId, End) else End)
  }

  function HeaderFields(version: int, d: BlockDetails): Fields
    requires HeaderOk(d)
  {
    Str(d.fileName, Num(d.seqId, Num(d.dataSize, Num(d.offset, Num(d.fileSize, HeaderFlags(version, d))))))
  }

  /** Name, seq-id and the three sizes. */
  function DecodeHeaderStart(s: Bytes): Parse<BlockDetails> {
    var name := DecodeString(s);
    if name.None? then None else
    var seqId := DecodeI64C(name.value.rest);
    if seqId.None? then None else
    var dataSize := DecodeI64C(seqId.value.rest);
    if dataSize.None? then None else
    var offset := DecodeI64C(dataSize.value.rest);
    if offset.None? then None else
    var fileSize := DecodeI64C(offset.value.rest);
    if fileSize.None? then None
    else Some(Decoded(BlockDetails(name.value.value, seqId.value.value, dataSize.value.value, offset.value.value,
                                   fileSize.value.value, 0, 0), fileSize.value.rest))
  }

  /** The flag byte, whose low three bits are the allocation state, and what depends on it. */
  function DecodeHeaderFlags(d: BlockDetails, s: Bytes): Parse<BlockDetails> {
    if s == [] then None
    else
      var allocation := s[0] % 8;
      if !HasPrevSeqId(allocation) then Some(Decoded(d.(allocation := allocation), s[1..]))
      else
        var prev := DecodeI64C(s[1..]);
        if prev.None? then None
        else Some(Decoded(d.(allocation := allocation, prevSeqId := prev.value.value), prev.value.rest))
  }

  function DecodeHeader(version: int, s: Bytes): Parse<BlockDetails> {
    var start := DecodeHeaderStart(s);
    if start.None? || version < HEADER_FLAG_AND_PREV_SEQ_ID_VERSION then start
    else DecodeHeaderFlags(start.value.value, start.value.rest)
  }

  /** What a version carries of the details. */
  function CarriedHeader(version: int, d: BlockDetails): BlockDetails {
    if version < HEADER_FLAG_AND_PREV_SEQ_ID_VERSION then d.(allocation := 0, prevSeqId := 0)
    else if HasPrevSeqId(d.allocation) then d
    else d.(prevSeqId := 0)
  }

  lemma HeaderStartRoundTrip(version: int, d: BlockDetails, rest: Bytes)
    requires HeaderOk(d)
    ensures DecodeHeaderStart(Encode(HeaderFields(version, d)) + rest)
            == Some(Decoded(d.(allocation := 0, prevSeqId := 0), Encode(HeaderFlags(version, d)) + rest))
  {
    var f5 := HeaderFlags(version, d);
    var f4 := Num(d.fileSize, f5);
    var f3 := Num(d.offset, f4);
    var f2 := Num(d.dataSize, f3);
    StrStep(d.fileName, Num(d.seqId, f2), rest);
    NumStep(d.seqId, f2, rest);
    NumStep(d.dataSize, f3, rest);
    NumStep(d.offset, f4, rest);
    NumStep(d.fileSize, f5, rest);
  }

  lemma PrevSeqIdRoundTrip(d0: BlockDetails, a: Byte, prev: Int64, rest: Bytes)
    requires a <= TO_BE_DELETED && HasPrevSeqId(a)
    ensures DecodeHeaderFlags(d0, Encode(Raw(a, Num(prev, End))) + rest)
            == Some(Decoded(d0.(allocation := a, prevSeqId := prev), rest))
  {
    RawStep(a, Num(prev, End), rest);
    NumStep(prev, End, rest);
    EndStep(rest);
    FlaggedPrev(d0, Encode(Raw(a, Num(prev, End))) + rest, a, prev, rest);
  }

  lemma FlaggedPrev(d0: BlockDetails, s: Bytes, a: Byte, prev: Int64, rest: Bytes)
    requires a <= TO_BE_DELETED && HasPrevSeqId(a)
    requires s != [] && s[0] == a && DecodeI64C(s[1..]) == Some(Decoded(prev, rest))
    ensures DecodeHeaderFlags(d0, s) == Some(Decoded(d0.(allocation := a, prevSeqId := prev), rest))
  {
    assert a % 8 == a;
  }

  lemma HeaderFlagsRoundTrip(version: int, d: BlockDetails, d0: BlockDetails, rest: Bytes)
    requires HeaderOk(d) && version >= HEADER_FLAG_AND_PREV_SEQ_ID_VERSION
    requires d0 == d.(allocation := 0, prevSeqId := 0)
    ensures DecodeHeaderFlags(d0, Encode(HeaderFlags(version, d)) + rest)
            == Some(Decoded(CarriedHeader(version, d), rest))
  {
    if HasPrevSeqId(d.allocation) {
      PrevSeqIdRoundTrip(d0, d.allocation, d.prevSeqId, rest);
    } else {
      RawStep(d.allocation, End, rest);
      EndStep(rest);
    }
  }

  /** Every header decodes to what its version carries, and decoding stops exactly behind it. */
  lemma HeaderRoundTrip(version: int, d: BlockDetails, rest: Bytes)
    requires HeaderOk(d)
    ensures DecodeHeader(version, Encode(HeaderFields(version, d)) + rest)
            == Some(Decoded(CarriedHeader(version, d), rest))
  {
    HeaderStartRoundTrip(version, d, rest);
    if version >= HEADER_FLAG_AND_PREV_SEQ_ID_VERSION {
      HeaderFlagsRoundTrip(version, d, d.(allocation := 0, prevSeqId := 0), rest);
    } else {
      EndStep(rest);
    }
  }

  lemma {:induction false} VarLength2(v: nat)
    requires v < 16384
    ensures |VarU64(v)| <= 2
  {
    Capacity9();
    if v >= 128 {
      assert Var(v / 128, 8) == [v / 128];
    }
  }

  /** Behind the command, the status and its own length, any header with a legal path fits its buffer. */
  lemma HeaderFits(version: int, d: BlockDetails)
    requires HeaderOk(d) && |d.fileName| <= PATH_MAX
    ensures 4 + |Encode(HeaderFields(version, d))| <= MAX_HEADER
  {
    VarLength2(|d.fileName|);
    var f5 := HeaderFlags(version, d);
    assert |Encode(Num(d.prevSeqId, End))| <= 9;
    assert |Encode(f5)| <= 10;
    var f3 := Num(d.offset, Num(d.fileSize, f5));
    assert |Encode(f3)| <= 28;
    assert |Encode(Num(d.seqId, Num(d.dataSize, f3)))| <= 46;
  }

  // ---- checkpoints

  /** A checkpoint on the wire; only versions with seq-ids set `hasSeqId`. */
  datatype WireCheckpoint = WireCheckpoint(port: Int32, numBlocks: Int64, bytes: Int64, seqId: int, offset: Int64,
                                           hasSeqId: bool)

  /** Only decoding can produce a negative seq-id, from an old peer. */
  predicate CheckpointOk(c: WireCheckpoint) {
    0 <= c.seqId < I64_LIMIT
  }

  predicate CheckpointsOk(cs: seq<WireCheckpoint>) {
    forall i :: 0 <= i < |cs| ==> CheckpointOk(cs[i])
  }

  /** One checkpoint, followed by `next`. */
  function CheckpointFields(version: int, c: WireCheckpoint, next: Fields): Fields
    requires CheckpointOk(c)
  {
    var tail := if version >= CHECKPOINT_SEQ_ID_VERSION then Num(c.seqId, Num(c.offset, next)) else next;
    Num(c.port, Num(c.numBlocks, if version >= CHECKPOINT_OFFSET_VERSION then Num(c.bytes, tail) else tail))
  }

  function CheckpointsFields(version: int, cs: seq<WireCheckpoint>): Fields
    requires CheckpointsOk(cs)
  {
    if cs == [] then End else CheckpointFields(version, cs[0], CheckpointsFields(version, cs[1..]))
  }

  function CheckpointList(version: int, cs: seq<WireCheckpoint>): Fields
    requires CheckpointsOk(cs) && |cs| < I64_LIMIT
  {
    Num(|cs|, CheckpointsFields(version, cs))
  }

  /** Before the varint change, -1 took ten bytes: nine of 0xff that read as the largest value, then a 0x01. */
  function DecodeSeqId(version: int, s: Bytes): Parse<int> {
    var r := DecodeU64(s);
    if r.None? then None
    else
      var Decoded(uv, s') := r.value;
      if version < VARINT_CHANGE && uv == U64_LIMIT - 1 && s' != [] then
        if s'[0] != 1 then None else Some(Decoded(-1, s'[1..]))
      else Some(Decoded(if uv >= I64_LIMIT then uv - U64_LIMIT else uv, s'))
  }

  function DecodeCheckpoint(version: int, s: Bytes): Parse<WireCheckpoint> {
    var port := DecodeI32C(s);
    if port.None? then None else
    var num := DecodeI64C(port.value.rest);
    if num.None? then None else
    var bytes := if version >= CHECKPOINT_OFFSET_VERSION then DecodeI64C(num.value.rest)
                 else Some(Decoded(0, num.value.rest));
    if bytes.None? then None else
    var c := WireCheckpoint(port.value.value, num.value.value, bytes.value.value, 0, 0, false);
    if version < CHECKPOINT_SEQ_ID_VERSION then Some(Decoded(c, bytes.value.rest))
    else
      var seqId := DecodeSeqId(version, bytes.value.rest);
      if seqId.None? then None else
      var offset := DecodeI64C(seqId.value.rest);
      if offset.None? then None
      else Some(Decoded(c.(seqId := seqId.value.value, offset := offset.value.value, hasSeqId := true),
                        offset.value.rest))
  }

  function DecodeMany(version: int, n: nat, s: Bytes): Parse<seq<WireCheckpoint>>
    decreases n
  {
    if n == 0 then Some(Decoded([], s))
    else
      var c := DecodeCheckpoint(version, s);
      if c.None? then None else
      var cs := DecodeMany(version, n - 1, c.value.rest);
      if cs.None? then None else Some(Decoded([c.value.value] + cs.value.value, cs.value.rest))
  }

  function DecodeCheckpoints(version: int, s: Bytes): Parse<seq<WireCheckpoint>> {
    var n := DecodeU64(s);
    if n.None? then None else DecodeMany(version, n.value.value, n.value.rest)
  }

  function CarriedCheckpoint(version: int, c: WireCheckpoint): WireCheckpoint {
    if version >= CHECKPOINT_SEQ_ID_VERSION then c.(hasSeqId := true)
    else if version >= CHECKPOINT_OFFSET_VERSION then c.(seqId := 0, offset := 0, hasSeqId := false)
    else c.(bytes := 0, seqId := 0, offset := 0, hasSeqId := false)
  }

  function CarriedAll(version: int, cs: seq<WireCheckpoint>): seq<WireCheckpoint> {
    seq(|cs|, i requires 0 <= i < |cs| => CarriedCheckpoint(version, cs[i]))
  }

  lemma CheckpointRoundTrip(version: int, c: WireCheckpoint, next: Fields, rest: Bytes)
    requires CheckpointOk(c)
    ensures DecodeCheckpoint(version, Encode(CheckpointFields(version, c, next)) + rest)
            == Some(Decoded(CarriedCheckpoint(version, c), Encode(next) + rest))
  {
    var tail := if version >= CHECKPOINT_SEQ_ID_VERSION then Num(c.seqId, Num(c.offset, next)) else next;
    var mid := if version >= CHECKPOINT_OFFSET_VERSION then Num(c.bytes, tail) else tail;
    NumStep(c.port, Num(c.numBlocks, mid), rest);
    NumStep(c.numBlocks, mid, rest);
    if version >= CHECKPOINT_OFFSET_VERSION {
      NumStep(c.bytes, tail, rest);
    }
    if version >= CHECKPOINT_SEQ_ID_VERSION {
      NumStep(c.seqId, Num(c.offset, next), rest);
      NumStep(c.offset, next, rest);
    }
  }

  lemma CarriedCons(version: int, cs: seq<WireCheckpoint>)
    requires cs != []
    ensures CarriedAll(version, cs) == [CarriedCheckpoint(version, cs[0])] + CarriedAll(version, cs[1..])
  {
  }

  lemma {:induction false} ManyRoundTrip(version: int, cs: seq<WireCheckpoint>, rest: Bytes)
    requires CheckpointsOk(cs)
    ensures DecodeMany(version, |cs|, Encode(CheckpointsFields(version, cs)) + rest)
            == Some(Decoded(CarriedAll(version, cs), rest))
  {
    if cs == [] {
      EndStep(rest);
      assert CarriedAll(version, cs) == [];
    } else {
      var next := CheckpointsFields(version, cs[1..]);
      CheckpointRoundTrip(version, cs[0], next, rest);
      ManyRoundTrip(version, cs[1..], rest);
      CarriedCons(version, cs);
      ManyStep(version, |cs|, Encode(CheckpointFields(version, cs[0], next)) + rest, CarriedCheckpoint(version, cs[0]),
               Encode(next) + rest, CarriedAll(version, cs[1..]), rest);
    }
  }

  lemma ManyStep(version: int, n: nat, s: Bytes, c: WireCheckpoint, s': Bytes, cs: seq<WireCheckpoint>, rest: Bytes)
    requires n > 0 && DecodeCheckpoint(version, s) == Some(Decoded(c, s'))
    requires DecodeMany(version, n - 1, s') == Some(Decoded(cs, rest))
    ensures DecodeMany(version, n, s) == Some(Decoded([c] + cs, rest))
  {
  }

  lemma CheckpointsRoundTrip(version: int, cs: seq<WireCheckpoint>, rest: Bytes)
    requires CheckpointsOk(cs) && |cs| < I64_LIMIT
    ensures DecodeCheckpoints(version, Encode(CheckpointList(version, cs)) + rest)
            == Some(Decoded(CarriedAll(version, cs), rest))
  {
    NumStep(|cs|, CheckpointsFields(version, cs), rest);
    ManyRoundTrip(version, cs, rest);
  }

  /** A local checkpoint always fits the fixed length that both sides agree on for it. */
  function MaxLocalCheckpointLength(version: int): nat {
    10 + 20 + (if version >= CHECKPOINT_OFFSET_VERSION then 10 else 0)
    + (if version >= CHECKPOINT_SEQ_ID_VERSION then 20 else 0)
  }

  lemma LocalCheckpointFits(version: int, c: WireCheckpoint)
    requires CheckpointOk(c)
    ensures |Encode(CheckpointList(version, [c]))| <= MaxLocalCheckpointLength(version)
  {
    var tail := if version >= CHECKPOINT_SEQ_ID_VERSION then Num(c.seqId, Num(c.offset, End)) else End;
    var mid := if version >= CHECKPOINT_OFFSET_VERSION then Num(c.bytes, tail) else tail;
    assert [c][1..] == [];
    assert CheckpointsFields(version, [c][1..]) == End;
    assert |Encode(Num(c.offset, End))| <= 9;
    assert |Encode(tail)| <= if version >= CHECKPOINT_SEQ_ID_VERSION then 18 else 0;
    assert |Encode(Num(c.port, Num(c.numBlocks, mid)))| <= 18 + |Encode(mid)|;
  }

  // ---- settings

  datatype Settings = Settings(readTimeout: Int32, writeTimeout: Int32, transferId: Bytes,
                               checksum: bool, sendFileChunks: bool, blockModeDisabled: bool, heartBeat: bool)

  function Bit(b: bool): nat {
    if b then 1 else 0
  }

  function SettingsFlags(st: Settings): Byte {
    Bit(st.checksum) + 2 * Bit(st.sendFileChunks) + 4 * Bit(st.blockModeDisabled) + 8 * Bit(st.heartBeat)
  }

  function SettingsFields(version: Int32, st: Settings): Fields
    requires |st.transferId| < I64_LIMIT
  {
    Num(version, Num(st.readTimeout, Num(st.writeTimeout, Str(st.transferId,
      if version >= SETTINGS_FLAG_VERSION then Raw(SettingsFlags(st), End) else End))))
  }

  function DecodeVersion(s: Bytes): Parse<Int32> {
    DecodeI32C(s)
  }

  function DecodeSettingsFlags(version: int, st: Settings, s: Bytes): Parse<Settings> {
    if version < SETTINGS_FLAG_VERSION then Some(Decoded(st, s))
    else if s == [] then None
    else
      var f := s[0];
      Some(Decoded(st.(checksum := f % 2 == 1, sendFileChunks := f / 2 % 2 == 1,
                       blockModeDisabled := f / 4 % 2 == 1, heartBeat := f / 8 % 2 == 1), s[1..]))
  }

  function DecodeSettings(version: int, s: Bytes): Parse<Settings> {
    if s == [] then None else
    var rt := DecodeI32C(s);
    if rt.None? then None else
    var wt := DecodeI32C(rt.value.rest);
    if wt.None? then None else
    var id := DecodeString(wt.value.rest);
    if id.None? then None
    else DecodeSettingsFlags(version,
                             Settings(rt.value.value, wt.value.value, id.value.value, false, false, false, false),
                             id.value.rest)
  }

  function CarriedSettings(version: int, st: Settings): Settings {
    if version >= SETTINGS_FLAG_VERSION then st
    else st.(checksum := false, sendFileChunks := false, blockModeDisabled := false, heartBeat := false)
  }

  /** The receiver reads the version first and then, by that version, the rest. */
  lemma SettingsRoundTrip(version: Int32, st: Settings, rest: Bytes)
    requires |st.transferId| < I64_LIMIT
    ensures var v := DecodeVersion(Encode(SettingsFields(version, st)) + rest);
            && v.Some? && v.value.value == version
            && DecodeSettings(version, v.value.rest) == Some(Decoded(CarriedSettings(version, st), rest))
  {
    var f4 := if version >= SETTINGS_FLAG_VERSION then Raw(SettingsFlags(st), End) else End;
    var f2 := Num(st.writeTimeout, Str(st.transferId, f4));
    NumStep(version, Num(st.readTimeout, f2), rest);
    SettingsBodyRoundTrip(version, st, f4, rest);
    SettingsFlagsRoundTrip(version, st, rest);
  }

  /** Timeouts and transfer id, in front of whatever flags follow. */
  lemma SettingsBodyRoundTrip(version: int, st: Settings, flags: Fields, rest: Bytes)
    requires |st.transferId| < I64_LIMIT
    ensures var s := Encode(Num(st.readTimeout, Num(st.writeTimeout, Str(st.transferId, flags)))) + rest;
            DecodeSettings(version, s) ==
            DecodeSettingsFlags(version,
                                Settings(st.readTimeout, st.writeTimeout, st.transferId, false, false, false, false),
                                Encode(flags) + rest)
  {
    var f3 := Str(st.transferId, flags);
    NumStep(st.readTimeout, Num(st.writeTimeout, f3), rest);
    NumStep(st.writeTimeout, f3, rest);
    StrStep(st.transferId, flags, rest);
  }

  lemma SettingsFlagsRoundTrip(version: int, st: Settings, rest: Bytes)
    ensures var none := st.(checksum := false, sendFileChunks := false, blockModeDisabled := false, heartBeat := false);
            var f := if version >= SETTINGS_FLAG_VERSION then Raw(SettingsFlags(st), End) else End;
            DecodeSettingsFlags(version, none, Encode(f) + rest) == Some(Decoded(CarriedSettings(version, st), rest))
  {
    EndStep(rest);
    if version >= SETTINGS_FLAG_VERSION {
      RawStep(SettingsFlags(st), End, rest);
      FlagsBits(st);
    }
  }

  lemma FlagsBits(st: Settings)
    ensures var f := SettingsFlags(st);
            && (f % 2 == 1 <==> st.checksum) && (f / 2 % 2 == 1 <==> st.sendFileChunks)
            && (f / 4 % 2 == 1 <==> st.blockModeDisabled) && (f / 8 % 2 == 1 <==> st.heartBeat)
  {
  }

  // ---- the smaller commands

  /** Older versions do not say how many bytes were sent; the receiver then keeps -1. */
  datatype Done = Done(numBlocks: Int64, bytesSent: int)

  function DoneFields(version: int, d: Done): Fields
    requires 0 <= d.bytesSent < I64_LIMIT
  {
    Num(d.numBlocks, if version >= CHECKPOINT_OFFSET_VERSION then Num(d.bytesSent, End) else End)
  }

  function DecodeDone(version: int, s: Bytes): Parse<Done> {
    var n := DecodeI64C(s);
    if n.None? then None
    else if version < CHECKPOINT_OFFSET_VERSION then Some(Decoded(Done(n.value.value, -1), n.value.rest))
    else
      var b := DecodeI64C(n.value.rest);
      if b.None? then None else Some(Decoded(Done(n.value.value, b.value.value), b.value.rest))
  }

  lemma DoneRoundTrip(version: int, d: Done, rest: Bytes)
    requires 0 <= d.bytesSent < I64_LIMIT
    ensures DecodeDone(version, Encode(DoneFields(version, d)) + rest)
            == Some(Decoded(if version >= CHECKPOINT_OFFSET_VERSION then d else d.(bytesSent := -1), rest))
  {
    NumStep(d.numBlocks, DoneFields(version, d).next, rest);
    EndStep(rest);
    if version >= CHECKPOINT_OFFSET_VERSION {
      NumStep(d.bytesSent, End, rest);
    }
  }

  function EncodeFooter(checksum: int): Bytes
    requires -I32_LIMIT <= checksum < I32_LIMIT
  {
    VarU64(ZigZag(checksum))
  }

  lemma FooterRoundTrip(checksum: int, rest: Bytes)
    requires -I32_LIMIT <= checksum < I32_LIMIT
    ensures DecodeI32(EncodeFooter(checksum) + rest) == Some(Decoded(checksum, rest))
  {
    U64RoundTrip(ZigZag(checksum), rest);
  }

  datatype Abort = Abort(version: Int32, errCode: Byte, checkpoint: Int64)

  function EncodeAbort(a: Abort): Bytes {
    Fixed(a.version, 4) + ([a.errCode] + Fixed(a.checkpoint, 8))
  }

  function DecodeAbort(s: Bytes): Parse<Abort> {
    if |s| < 13 then None else
    var v := DecodeFixed(s, 4);
    if v.None? then None else
    var c := DecodeFixed(v.value.rest[1..], 8);
    Powers();
    if c.None? then None
    else Some(Decoded(Abort(v.value.value, v.value.rest[0], c.value.value), c.value.rest))
  }

  lemma AbortRoundTrip(a: Abort, rest: Bytes)
    ensures DecodeAbort(EncodeAbort(a) + rest) == Some(Decoded(a, rest))
  {
    var s1 := [a.errCode] + (Fixed(a.checkpoint, 8) + rest);
    assert EncodeAbort(a) + rest == Fixed(a.version, 4) + s1;
    Powers();
    FixedRoundTrip(a.version, 4, s1);
    assert s1[1..] == Fixed(a.checkpoint, 8) + rest;
    FixedRoundTrip(a.checkpoint, 8, rest);
  }

  lemma Powers()
    ensures Power256(2) == 0x1_0000 && Power256(4) == 2 * I32_LIMIT && Power256(8) == 2 * I64_LIMIT
  {
    assert Power256(2) == 0x1_0000;
    assert Power256(4) == 256 * 256 * Power256(2);
    assert Power256(6) == 256 * 256 * Power256(4);
    assert Power256(8) == 256 * 256 * Power256(6);
  }

  // ---- chunk lists

  predicate IntervalOk(c: Interval) {
    c.start < I64_LIMIT && c.end < I64_LIMIT
  }

  predicate ChunksOk(cs: seq<Interval>) {
    forall i :: 0 <= i < |cs| ==> IntervalOk(cs[i])
  }

  predicate FileChunksOk(f: FileChunks) {
    f.seqId < I64_LIMIT && |f.name| < I64_LIMIT && f.fileSize < I64_LIMIT && |f.chunks| < I64_LIMIT
      && ChunksOk(f.chunks)
  }

  function ChunksFields(cs: seq<Interval>): Fields
    requires ChunksOk(cs)
  {
    if cs == [] then End else Num(cs[0].start, Num(cs[0].end, ChunksFields(cs[1..])))
  }

  function FileFields(f: FileChunks): Fields
    requires FileChunksOk(f)
  {
    Num(f.seqId, Str(f.name, Num(f.fileSize, Num(|f.chunks|, ChunksFields(f.chunks)))))
  }

  function DecodeChunk(s: Bytes): Parse<Interval> {
    var start := DecodeI64C(s);
    if start.None? then None else
    var end := DecodeI64C(start.value.rest);
    if end.None? then None else Some(Decoded(Interval(start.value.value, end.value.value), end.value.rest))
  }

  function DecodeChunks(n: nat, s: Bytes): Parse<seq<Interval>>
    decreases n
  {
    if n == 0 then Some(Decoded([], s))
    else
      var c := DecodeChunk(s);
      if c.None? then None else
      var cs := DecodeChunks(n - 1, c.value.rest);
      if cs.None? then None else Some(Decoded([c.value.value] + cs.value.value, cs.value.rest))
  }

  function DecodeFileChunks(s: Bytes): Parse<FileChunks> {
    var seqId := DecodeI64C(s);
    if seqId.None? then None else
    var name := DecodeString(seqId.value.rest);
    if name.None? then None else
    var size := DecodeI64C(name.value.rest);
    if size.None? then None else
    var n := DecodeI64C(size.value.rest);
    if n.None? then None else
    var cs := DecodeChunks(n.value.value, n.value.rest);
    if cs.None? then None
    else Some(Decoded(FileChunks(seqId.value.value, name.value.value, size.value.value, cs.value.value), cs.value.rest))
  }

  lemma ChunkRoundTrip(c: Interval, next: Fields, rest: Bytes)
    requires IntervalOk(c)
    ensures DecodeChunk(Encode(Num(c.start, Num(c.end, next))) + rest) == Some(Decoded(c, Encode(next) + rest))
  {
    NumStep(c.start, Num(c.end, next), rest);
    NumStep(c.end, next, rest);
  }

  lemma {:induction false} ChunksRoundTrip(cs: seq<Interval>, rest: Bytes)
    requires ChunksOk(cs)
    ensures DecodeChunks(|cs|, Encode(ChunksFields(cs)) + rest) == Some(Decoded(cs, rest))
  {
    if cs == [] {
      EndStep(rest);
    } else {
      var next := ChunksFields(cs[1..]);
      ChunkRoundTrip(cs[0], next, rest);
      ChunksRoundTrip(cs[1..], rest);
      assert cs == [cs[0]] + cs[1..];
      ChunksStep(|cs|, Encode(Num(cs[0].start, Num(cs[0].end, next))) + rest, cs[0], Encode(next) + rest, cs[1..],
                 rest);
    }
  }

  lemma ChunksStep(n: nat, s: Bytes, c: Interval, s': Bytes, cs: seq<Interval>, rest: Bytes)
    requires n > 0 && DecodeChunk(s) == Some(Decoded(c, s')) && DecodeChunks(n - 1, s') == Some(Decoded(cs, rest))
    ensures DecodeChunks(n, s) == Some(Decoded([c] + cs, rest))
  {
  }

  lemma FileChunksRoundTrip(f: FileChunks, rest: Bytes)
    requires FileChunksOk(f)
    ensures DecodeFileChunks(Encode(FileFields(f)) + rest) == Some(Decoded(f, rest))
  {
    var f4 := ChunksFields(f.chunks);
    var f3 := Num(|f.chunks|, f4);
    var f2 := Num(f.fileSize, f3);
    NumStep(f.seqId, Str(f.name, f2), rest);
    StrStep(f.name, f2, rest);
    NumStep(f.fileSize, f3, rest);
    NumStep(|f.chunks|, f4, rest);
    ChunksRoundTrip(f.chunks, rest);
  }

  function MaxEncodeLen(f: FileChunks): nat {
    10 + 2 + |f.name| + 10 + 10 + |f.chunks| * MAX_CHUNK_ENCODE_LEN
  }

  lemma {:induction false} ChunksLength(cs: seq<Interval>)
    requires ChunksOk(cs)
    ensures |Encode(ChunksFields(cs))| <= 18 * |cs|
  {
    if cs != [] {
      var next := ChunksFields(cs[1..]);
      ChunksLength(cs[1..]);
      assert |Encode(Num(cs[0].end, next))| <= 9 + |Encode(next)|;
    }
  }

  lemma {:induction false} VarLength(v: nat, k: nat, n: nat)
    requires 1 <= n <= k && v < Capacity(k) && 2 * v < Capacity(n)
    ensures |Var(v, k)| <= n
    decreases n
  {
    if k > 1 && v >= 128 {
      assert n > 1;
      VarLength(v / 128, k - 1, n - 1);
    }
  }

  /**
   The bound that page building relies on.  Two bytes are set aside for the length of a name; the slack of the
   other varints pays for three more, so the bound holds for every name shorter than 32 GiB.
   */
  lemma EncodeLenBound(f: FileChunks)
    requires FileChunksOk(f) && |f.name| < 0x8_0000_0000
    ensures |Encode(FileFields(f))| <= MaxEncodeLen(f)
  {
    ChunksLength(f.chunks);
    Capacity9();
    assert Capacity(2) == 32768 && Capacity(3) == 128 * Capacity(2);
    assert Capacity(5) == 128 * 128 * Capacity(3);
    VarLength(|f.name|, 9, 5);
    var f3 := Num(|f.chunks|, ChunksFields(f.chunks));
    assert |Encode(f3)| <= 9 + 18 * |f.chunks|;
    var f2 := Num(f.fileSize, f3);
    assert |Encode(f2)| <= 18 + 18 * |f.chunks|;
    assert |Encode(Str(f.name, f2))| == |EncodeString(f.name)| + |Encode(f2)|;
  }
}
