/**
 What a connection carries to a receiver thread: commands, and the data of blocks behind their headers.  The plain
 parser reads this off the stream of bytes; the thread's buffer loop has to do the same whatever the socket does.
 */
module ReceiverStream {
  import opened Options
  import opened Wire
  import opened Messages

  const DONE_CMD := 0x44
  const FILE_CMD := 0x4C
  const SETTINGS_CMD := 0x53
  const SIZE_CMD := 0x5A
  const FOOTER_CMD := 0x46

  /** A command is looked at only when this many bytes are there; a sender pads its last one. */
  const MIN_BUF_LENGTH := 256
  const MAX_FOOTER := 1 + 10
  const MAX_TRANSFER_ID := 1024
  const MAX_SETTINGS := 1 + 3 * 10 + MAX_TRANSFER_ID + 1
  /** Settings are decoded from this many bytes, whether or not so many were read. */
  const SETTINGS_WINDOW := 10 + MAX_SETTINGS

  datatype Message =
    | FileMsg(details: BlockDetails, len: nat)
    | SettingsMsg(settings: Settings, len: nat)
    | VersionMsg(version: Int32, len: nat)
    | SizeMsg(totalBytes: Int64, len: nat)
    | DoneMsg(done: Done, len: nat)
    | FooterMsg(checksum: int, len: nat)

  // ---- one command

  /** The length a block header claims, counted from the command byte: two bytes, signed. */
  function HeaderLen(w: Bytes): int
    requires |w| >= 4
  {
    var n := Unfixed(w[2..4]);
    if n < 0x8000 then n else n - 0x1_0000
  }

  function DecodeFile(version: int, w: Bytes): Option<Message> {
    if |w| < 4 then None else FileFrom(DecodeHeader(version, w[4..]), HeaderLen(w), |w|)
  }

  function FileFrom(r: Parse<BlockDetails>, len: int, n: nat): Option<Message> {
    if r.None? || len <= 0 || len != n - |r.value.rest| then None
    else if r.value.value.allocation == TO_BE_DELETED
      && (r.value.value.fileSize != 0 || r.value.value.dataSize != 0) then None
    else Some(FileMsg(r.value.value, len))
  }

  function Clip(w: Bytes): Bytes {
    if |w| <= SETTINGS_WINDOW then w else w[..SETTINGS_WINDOW]
  }

  /** Settings of this version, or the other version that they are of. */
  function DecodeSettingsCmd(version: int, w: Bytes): Option<Message>
    requires w != []
  {
    VersionFrom(version, DecodeVersion(Clip(w)[1..]), |Clip(w)|)
  }

  function VersionFrom(version: int, v: Parse<Int32>, n: nat): Option<Message> {
    if v.None? || |v.value.rest| >= n then None
    else if v.value.value != version then Some(VersionMsg(v.value.value, n - |v.value.rest|))
    else SettingsFrom(DecodeSettings(version, v.value.rest), n)
  }

  function SettingsFrom(r: Parse<Settings>, n: nat): Option<Message> {
    if r.None? || |r.value.rest| >= n then None else Some(SettingsMsg(r.value.value, n - |r.value.rest|))
  }

  function DecodeSizeCmd(w: Bytes): Option<Message>
    requires w != []
  {
    SizeFrom(DecodeI64C(w[1..]), |w|)
  }

  function SizeFrom(r: Parse<Int64>, n: nat): Option<Message> {
    if r.None? || |r.value.rest| >= n then None else Some(SizeMsg(r.value.value, n - |r.value.rest|))
  }

  function DecodeDoneCmd(version: int, w: Bytes): Option<Message> {
    if |w| < 2 then None else DoneFrom(DecodeDone(version, w[2..]), |w|)
  }

  function DoneFrom(r: Parse<Done>, n: nat): Option<Message> {
    if r.None? || |r.value.rest| >= n then None else Some(DoneMsg(r.value.value, n - |r.value.rest|))
  }

  function DecodeFooterCmd(w: Bytes): Option<Message>
    requires w != []
  {
    FooterFrom(DecodeI32(w[1..]), |w|)
  }

  function FooterFrom(r: Parse<int>, n: nat): Option<Message> {
    if r.None? || n - MAX_FOOTER > |r.value.rest| || |r.value.rest| >= n then None
    else Some(FooterMsg(r.value.value, n - |r.value.rest|))
  }

  function DecodeCmd(version: int, w: Bytes): Option<Message>
    requires w != []
  {
    if w[0] == FILE_CMD then DecodeFile(version, w)
    else if w[0] == SETTINGS_CMD then DecodeSettingsCmd(version, w)
    else if w[0] == SIZE_CMD then DecodeSizeCmd(w)
    else if w[0] == DONE_CMD then DecodeDoneCmd(version, w)
    else if w[0] == FOOTER_CMD then DecodeFooterCmd(w)
    else None
  }

  // ---- more bytes do not change a decoded command

  /** Decoding of a longer input gives the same value and leaves the additional bytes. */
  predicate Grows<T(==)>(r: Parse<T>, r': Parse<T>, x: Bytes) {
    r.Some? ==> r' == Some(Decoded(r.value.value, r.value.rest + x))
  }

  lemma {:induction false} UnvarGrows(s: Bytes, k: nat, x: Bytes)
    requires k >= 1
    ensures Grows(Unvar(s, k), Unvar(s + x, k), x)
    decreases k
  {
    if s != [] {
      assert (s + x)[0] == s[0] && (s + x)[1..] == s[1..] + x;
      if k > 1 {
        UnvarGrows(s[1..], k - 1, x);
      }
    }
  }

  lemma I64Grows(s: Bytes, x: Bytes)
    ensures Grows(DecodeI64C(s), DecodeI64C(s + x), x)
  {
    UnvarGrows(s, 9, x);
  }

  lemma I32Grows(s: Bytes, x: Bytes)
    ensures Grows(DecodeI32C(s), DecodeI32C(s + x), x)
  {
    UnvarGrows(s, 9, x);
  }

  lemma StringGrows(s: Bytes, x: Bytes)
    ensures Grows(DecodeString(s), DecodeString(s + x), x)
  {
    UnvarGrows(s, 9, x);
    var r := DecodeU64(s);
    if r.Some? && r.value.value <= |r.value.rest| {
      var n, rest := r.value.value, r.value.rest;
      assert (rest + x)[..n] == rest[..n] && (rest + x)[n..] == rest[n..] + x;
    }
  }

  lemma HeaderStartGrows(s: Bytes, x: Bytes)
    ensures Grows(DecodeHeaderStart(s), DecodeHeaderStart(s + x), x)
  {
    StringGrows(s, x);
    var s1 := DecodeString(s);
    if s1.Some? {
      I64Grows(s1.value.rest, x);
      var s2 := DecodeI64C(s1.value.rest);
      if s2.Some? {
        I64Grows(s2.value.rest, x);
        var s3 := DecodeI64C(s2.value.rest);
        if s3.Some? {
          I64Grows(s3.value.rest, x);
          var s4 := DecodeI64C(s3.value.rest);
          if s4.Some? {
            I64Grows(s4.value.rest, x);
          }
        }
      }
    }
  }

  lemma HeaderFlagsGrows(d: BlockDetails, s: Bytes, x: Bytes)
    ensures Grows(DecodeHeaderFlags(d, s), DecodeHeaderFlags(d, s + x), x)
  {
    if s != [] {
      assert (s + x)[0] == s[0] && (s + x)[1..] == s[1..] + x;
      I64Grows(s[1..], x);
    }
  }

  lemma HeaderGrows(version: int, s: Bytes, x: Bytes)
    ensures Grows(DecodeHeader(version, s), DecodeHeader(version, s + x), x)
  {
    HeaderStartGrows(s, x);
    var start := DecodeHeaderStart(s);
    if start.Some? {
      HeaderFlagsGrows(start.value.value, start.value.rest, x);
    }
  }

  lemma SettingsFlagsGrows(version: int, st: Settings, s: Bytes, x: Bytes)
    ensures Grows(DecodeSettingsFlags(version, st, s), DecodeSettingsFlags(version, st, s + x), x)
  {
    if s != [] {
      assert (s + x)[0] == s[0] && (s + x)[1..] == s[1..] + x;
    }
  }

  lemma SettingsGrows(version: int, s: Bytes, x: Bytes)
    ensures Grows(DecodeSettings(version, s), DecodeSettings(version, s + x), x)
  {
    I32Grows(s, x);
    var rt := DecodeI32C(s);
    if s != [] && rt.Some? {
      I32Grows(rt.value.rest, x);
      var wt := DecodeI32C(rt.value.rest);
      if wt.Some? {
        StringGrows(wt.value.rest, x);
        var id := DecodeString(wt.value.rest);
        if id.Some? {
          SettingsFlagsGrows(version,
                             Settings(rt.value.value, wt.value.value, id.value.value, false, false, false, false),
                             id.value.rest, x);
        }
      }
    }
  }

  lemma FileGrows(version: int, w: Bytes, x: Bytes)
    requires DecodeFile(version, w).Some?
    ensures DecodeFile(version, w + x) == DecodeFile(version, w)
  {
    var body := w[4..];
    HeaderGrows(version, body, x);
    FrontGrows(w, x);
    FileFromGrows(DecodeHeader(version, body), DecodeHeader(version, body + x), HeaderLen(w), |w|, x);
  }

  lemma FrontGrows(w: Bytes, x: Bytes)
    requires |w| >= 4
    ensures (w + x)[4..] == w[4..] + x && HeaderLen(w + x) == HeaderLen(w) && (w + x)[0] == w[0]
  {
    assert (w + x)[2..4] == w[2..4];
  }

  /** The result for the longer input is that for the shorter one, with the additional bytes left over. */
  predicate Extends<T(==)>(r: Parse<T>, r': Parse<T>, x: Bytes) {
    r' == if r.None? then None else Some(Decoded(r.value.value, r.value.rest + x))
  }

  lemma FileFromGrows(r: Parse<BlockDetails>, r': Parse<BlockDetails>, len: int, n: nat, x: Bytes)
    requires Extends(r, r', x)
    ensures FileFrom(r', len, n + |x|) == FileFrom(r, len, n)
  {
  }

  lemma SettingsFromGrows(r: Parse<Settings>, r': Parse<Settings>, n: nat, x: Bytes)
    requires Extends(r, r', x)
    ensures SettingsFrom(r', n + |x|) == SettingsFrom(r, n)
  {
  }

  lemma VersionFromGrows(version: int, v: Parse<Int32>, v': Parse<Int32>, n: nat, x: Bytes)
    requires VersionFrom(version, v, n).Some? && Grows(v, v', x)
    ensures VersionFrom(version, v', n + |x|) == VersionFrom(version, v, n)
  {
    var rest := v.value.rest;
    if v.value.value == version {
      SettingsGrows(version, rest, x);
      SettingsFromGrows(DecodeSettings(version, rest), DecodeSettings(version, rest + x), n, x);
    }
  }

  lemma ClipGrows(w: Bytes, x: Bytes) returns (y: Bytes)
    requires w != []
    ensures Clip(w + x) == Clip(w) + y && Clip(w + x)[1..] == Clip(w)[1..] + y
    ensures |w| >= SETTINGS_WINDOW ==> y == []
  {
    y := Clip(w + x)[|Clip(w)|..];
    assert Clip(w) == Clip(w + x)[..|Clip(w)|];
  }

  lemma SettingsCmdExtends(version: int, w: Bytes, x: Bytes)
    requires w != [] && (DecodeSettingsCmd(version, w).Some? || |w| >= SETTINGS_WINDOW)
    ensures DecodeSettingsCmd(version, w + x) == DecodeSettingsCmd(version, w)
  {
    var y := ClipGrows(w, x);
    var s, n := Clip(w)[1..], |Clip(w)|;
    if y == [] {
      assert Clip(w) + y == Clip(w);
    } else {
      I32Grows(s, y);
      VersionFromGrows(version, DecodeVersion(s), DecodeVersion(s + y), n, y);
    }
  }

  // ---- nine bytes are enough for a number

  lemma {:induction false} UnvarTotal(s: Bytes, k: nat)
    requires 1 <= k <= |s|
    ensures Unvar(s, k).Some? && |Unvar(s, k).value.rest| >= |s| - k
    decreases k
  {
    if k > 1 {
      UnvarTotal(s[1..], k - 1);
    }
  }

  lemma I64Extends(s: Bytes, x: Bytes)
    requires DecodeI64C(s).Some? || |s| >= 9
    ensures Extends(DecodeI64C(s), DecodeI64C(s + x), x)
  {
    if |s| >= 9 {
      UnvarTotal(s, 9);
    }
    UnvarGrows(s, 9, x);
  }

  lemma I32Extends(s: Bytes, x: Bytes)
    requires DecodeI32(s).Some? || |s| >= 9
    ensures Extends(DecodeI32(s), DecodeI32(s + x), x)
  {
    if |s| >= 9 {
      UnvarTotal(s, 9);
    }
    UnvarGrows(s, 9, x);
  }

  lemma DoneExtends(version: int, s: Bytes, x: Bytes)
    requires DecodeDone(version, s).Some? || |s| >= 18
    ensures Extends(DecodeDone(version, s), DecodeDone(version, s + x), x)
  {
    I64Extends(s, x);
    if |s| >= 18 {
      UnvarTotal(s, 9);
    }
    var r := DecodeI64C(s);
    if r.Some? && version >= CHECKPOINT_OFFSET_VERSION {
      I64Extends(r.value.rest, x);
    }
  }

  lemma SizeFromGrows(r: Parse<Int64>, r': Parse<Int64>, n: nat, x: Bytes)
    requires Extends(r, r', x)
    ensures SizeFrom(r', n + |x|) == SizeFrom(r, n)
  {
  }

  lemma DoneFromGrows(r: Parse<Done>, r': Parse<Done>, n: nat, x: Bytes)
    requires Extends(r, r', x)
    ensures DoneFrom(r', n + |x|) == DoneFrom(r, n)
  {
  }

  lemma FooterFromGrows(r: Parse<int>, r': Parse<int>, n: nat, x: Bytes)
    requires Extends(r, r', x)
    ensures FooterFrom(r', n + |x|) == FooterFrom(r, n)
  {
  }

  lemma SizeCmdExtends(w: Bytes, x: Bytes)
    requires w != [] && (DecodeSizeCmd(w).Some? || |w| >= MIN_BUF_LENGTH)
    ensures DecodeSizeCmd(w + x) == DecodeSizeCmd(w)
  {
    var s := w[1..];
    assert (w + x)[1..] == s + x;
    I64Extends(s, x);
    SizeFromGrows(DecodeI64C(s), DecodeI64C(s + x), |w|, x);
  }

  lemma DoneCmdExtends(version: int, w: Bytes, x: Bytes)
    requires DecodeDoneCmd(version, w).Some? || |w| >= MIN_BUF_LENGTH
    ensures DecodeDoneCmd(version, w + x) == DecodeDoneCmd(version, w)
  {
    var s := w[2..];
    assert (w + x)[2..] == s + x;
    DoneExtends(version, s, x);
    DoneFromGrows(DecodeDone(version, s), DecodeDone(version, s + x), |w|, x);
  }

  lemma FooterCmdExtends(w: Bytes, x: Bytes)
    requires w != [] && (DecodeFooterCmd(w).Some? || |w| >= MIN_BUF_LENGTH)
    ensures DecodeFooterCmd(w + x) == DecodeFooterCmd(w)
  {
    var s := w[1..];
    assert (w + x)[1..] == s + x;
    I32Extends(s, x);
    FooterFromGrows(DecodeI32(s), DecodeI32(s + x), |w|, x);
  }

  // ---- bytes behind a block header have no part in it

  /** If more bytes are needed to decode, some of them are used up. */
  predicate Needs<T(==)>(r: Parse<T>, r': Parse<T>, x: Bytes) {
    r.None? && r'.Some? ==> |r'.value.rest| < |x|
  }

  lemma {:induction false} UnvarNeeds(s: Bytes, k: nat, x: Bytes)
    requires k >= 1
    ensures Needs(Unvar(s, k), Unvar(s + x, k), x)
    decreases k
  {
    if s != [] {
      assert (s + x)[0] == s[0] && (s + x)[1..] == s[1..] + x;
      if k > 1 {
        UnvarNeeds(s[1..], k - 1, x);
      }
    } else {
      assert s + x == x;
      UnvarShrinks(x, k);
    }
  }

  lemma {:induction false} UnvarShrinks(s: Bytes, k: nat)
    requires k >= 1
    ensures Unvar(s, k).Some? ==> |Unvar(s, k).value.rest| < |s|
    decreases k
  {
    if s != [] && k > 1 {
      UnvarShrinks(s[1..], k - 1);
    }
  }

  lemma I64Needs(s: Bytes, x: Bytes)
    ensures Needs(DecodeI64C(s), DecodeI64C(s + x), x)
    ensures DecodeI64C(s + x).Some? ==> |DecodeI64C(s + x).value.rest| < |s + x|
  {
    UnvarGrows(s, 9, x);
    UnvarNeeds(s, 9, x);
    UnvarShrinks(s + x, 9);
  }

  lemma StringNeeds(s: Bytes, x: Bytes)
    ensures Needs(DecodeString(s), DecodeString(s + x), x)
  {
    UnvarGrows(s, 9, x);
    UnvarNeeds(s, 9, x);
  }

  /** A number in a header: `s` is what is left of the short input, `s'` of the long one. */
  predicate Behind(s: Bytes, s': Bytes, x: Bytes) {
    s' == s + x || |s'| < |x|
  }

  lemma NumberBehind(s: Bytes, s': Bytes, x: Bytes)
    requires Behind(s, s', x) && DecodeI64C(s').Some?
    ensures |DecodeI64C(s').value.rest| >= |x| ==>
              DecodeI64C(s).Some? && Behind(DecodeI64C(s).value.rest, DecodeI64C(s').value.rest, x)
  {
    I64Shrinks(s');
    if s' == s + x {
      I64Needs(s, x);
      I64Grows(s, x);
    }
  }

  lemma HeaderStartNeeds(s: Bytes, x: Bytes)
    ensures Needs(DecodeHeaderStart(s), DecodeHeaderStart(s + x), x)
  {
    var r' := DecodeHeaderStart(s + x);
    if r'.Some? && |r'.value.rest| >= |x| {
      StringNeeds(s, x);
      StringGrows(s, x);
      var l1 := DecodeString(s + x).value.rest;
      var l2 := DecodeI64C(l1).value.rest;
      var l3 := DecodeI64C(l2).value.rest;
      var l4 := DecodeI64C(l3).value.rest;
      I64Shrinks(l1);
      I64Shrinks(l2);
      I64Shrinks(l3);
      I64Shrinks(l4);
      var s1 := DecodeString(s).value.rest;
      NumberBehind(s1, l1, x);
      var s2 := DecodeI64C(s1).value.rest;
      NumberBehind(s2, l2, x);
      var s3 := DecodeI64C(s2).value.rest;
      NumberBehind(s3, l3, x);
      NumberBehind(DecodeI64C(s3).value.rest, l4, x);
    }
  }

  lemma HeaderFlagsNeeds(d: BlockDetails, s: Bytes, x: Bytes)
    ensures Needs(DecodeHeaderFlags(d, s), DecodeHeaderFlags(d, s + x), x)
    ensures DecodeHeaderFlags(d, s).Some? ==> |DecodeHeaderFlags(d, s).value.rest| < |s|
  {
    if s != [] {
      assert (s + x)[0] == s[0] && (s + x)[1..] == s[1..] + x;
      I64Needs(s[1..], x);
      I64Shrinks(s[1..]);
    } else {
      assert s + x == x;
      if x != [] {
        I64Shrinks(x[1..]);
      }
    }
  }

  lemma HeaderNeeds(version: int, s: Bytes, x: Bytes)
    ensures Needs(DecodeHeader(version, s), DecodeHeader(version, s + x), x)
  {
    HeaderStartNeeds(s, x);
    HeaderStartGrows(s, x);
    var start, start' := DecodeHeaderStart(s), DecodeHeaderStart(s + x);
    if start.Some? {
      HeaderFlagsNeeds(start.value.value, start.value.rest, x);
    } else if start'.Some? {
      HeaderFlagsNeeds(start'.value.value, start'.value.rest, []);
    }
  }

  lemma FileNeeds(version: int, w: Bytes, x: Bytes)
    requires DecodeFile(version, w + x).Some? && DecodeFile(version, w + x).value.len <= |w|
    ensures DecodeFile(version, w).Some?
  {
    HeaderStartIsLong(version, w + x);
    FrontGrows(w, x);
    HeaderNeeds(version, w[4..], x);
    HeaderGrows(version, w[4..], x);
  }

  /** The four bytes in front are part of the length. */
  lemma HeaderStartIsLong(version: int, w: Bytes)
    requires DecodeFile(version, w).Some?
    ensures DecodeFile(version, w).value.len >= 4
  {
    HeaderShrinks(version, w[4..]);
  }

  lemma HeaderShrinks(version: int, s: Bytes)
    ensures DecodeHeader(version, s).Some? ==> |DecodeHeader(version, s).value.rest| <= |s|
  {
    var start := DecodeHeaderStart(s);
    if start.Some? {
      UnvarShrinks(s, 9);
      var l1 := DecodeString(s).value.rest;
      var l2 := DecodeI64C(l1).value.rest;
      var l3 := DecodeI64C(l2).value.rest;
      I64Shrinks(l1);
      I64Shrinks(l2);
      I64Shrinks(l3);
      I64Shrinks(DecodeI64C(l3).value.rest);
      HeaderFlagsNeeds(start.value.value, start.value.rest, []);
    }
  }

  lemma FileExtends(version: int, w: Bytes, x: Bytes)
    requires DecodeFile(version, w).Some? || (|w| >= 4 && HeaderLen(w) <= |w|)
    ensures DecodeFile(version, w + x) == DecodeFile(version, w)
  {
    if DecodeFile(version, w).Some? {
      FileGrows(version, w, x);
    } else if DecodeFile(version, w + x).Some? {
      FrontGrows(w, x);
      FileNeeds(version, w, x);
    }
  }

  /** The bytes at hand decide which command they begin with, if any. */
  predicate Settled(w: Bytes) {
    |w| >= 4 &&
    if w[0] == FILE_CMD then HeaderLen(w) <= |w|
    else if w[0] == SETTINGS_CMD then |w| >= SETTINGS_WINDOW
    else |w| >= MIN_BUF_LENGTH
  }

  /** A command that is there in full, or known not to be one, decodes alike whatever follows it. */
  lemma CmdExtends(version: int, w: Bytes, x: Bytes)
    requires w != [] && (DecodeCmd(version, w).Some? || Settled(w))
    ensures DecodeCmd(version, w + x) == DecodeCmd(version, w)
  {
    assert (w + x)[0] == w[0];
    if w[0] == FILE_CMD {
      FileExtends(version, w, x);
    } else if w[0] == SETTINGS_CMD {
      SettingsCmdExtends(version, w, x);
    } else if w[0] == SIZE_CMD {
      SizeCmdExtends(w, x);
    } else if w[0] == DONE_CMD {
      DoneCmdExtends(version, w, x);
    } else if w[0] == FOOTER_CMD {
      FooterCmdExtends(w, x);
    }
  }

  lemma CmdLength(version: int, w: Bytes)
    requires w != [] && DecodeCmd(version, w).Some?
    ensures 0 < DecodeCmd(version, w).value.len <= |w|
    ensures DecodeCmd(version, w).value.FooterMsg? ==> DecodeCmd(version, w).value.len <= MAX_FOOTER
  {
  }

  // ---- the plain parser

  /** How commands are decoded, and a checksum that is computed piece by piece. */
  datatype Protocol = Protocol(decode: Bytes -> Option<Message>, crc: (int, Bytes) -> int)

  /** A command's length, and what its first byte tells of it. */
  predicate MessageOk(w: Bytes, m: Message) {
    && 0 < m.len <= |w|
    && (w[0] == FILE_CMD <==> m.FileMsg?) && (w[0] == FOOTER_CMD <==> m.FooterMsg?)
    && (m.FileMsg? ==> |w| >= 4 && m.len == HeaderLen(w))
    && (m.FooterMsg? ==> m.len <= MAX_FOOTER)
  }

  /** What the bytes begin with will not change with more of them. */
  predicate Known(pr: Protocol, w: Bytes) {
    pr.decode(w).Some? || Settled(w)
  }

  ghost predicate ProtocolOk(pr: Protocol) {
    && (forall w :: pr.decode(w).Some? ==> MessageOk(w, pr.decode(w).value))
    && (forall w, x {:trigger pr.decode(w + x)} :: Known(pr, w) ==> pr.decode(w + x) == pr.decode(w))
    && (forall v, a, b {:trigger pr.crc(pr.crc(v, a), b)} :: pr.crc(pr.crc(v, a), b) == pr.crc(v, a + b))
  }

  /** The commands of this protocol version. */
  function ProtocolOf(version: int, crc: (int, Bytes) -> int): Protocol {
    Protocol(w => if w == [] then None else DecodeCmd(version, w), crc)
  }

  lemma CommandsAreOk(version: int, crc: (int, Bytes) -> int)
    requires forall v, a, b {:trigger crc(crc(v, a), b)} :: crc(crc(v, a), b) == crc(v, a + b)
    ensures ProtocolOk(ProtocolOf(version, crc))
  {
    var pr := ProtocolOf(version, crc);
    forall w | pr.decode(w).Some? ensures MessageOk(w, pr.decode(w).value) {
      CmdLength(version, w);
    }
    forall w, x | Known(pr, w) ensures pr.decode(w + x) == pr.decode(w) {
      CmdExtends(version, w, x);
    }
  }

  datatype Received = Received(details: BlockDetails, data: Bytes)

  /**
   How a stream ends.  `Malformed` stands for an unknown command, a bad one or a missing footer; after
   `DoneThenMore` it depends on the socket whether the command is taken or the bytes behind it are an error.
   */
  datatype Ending =
    | Finished(done: Done)
    | DoneThenMore(done: Done)
    | ChunksAsked
    | OtherVersion(version: Int32)
    | Short
    | Partial(received: Received)
    | Mismatch(received: Received)
    | Malformed

  datatype Next = Block(received: Received, rest: Bytes) | Control(footer: bool, len: nat, rest: Bytes)
    | Ends(ending: Ending)

  /** The footer at the head of the stream, if that is one. */
  function FooterAt(pr: Protocol, s: Bytes): (m: Option<Message>)
    ensures m.Some? ==> m.value.FooterMsg? && 0 < m.value.len <= |s| && m.value.len <= MAX_FOOTER
  {
    var m := pr.decode(s);
    if m.Some? && m.value.FooterMsg? && 0 < m.value.len <= |s| && m.value.len <= MAX_FOOTER then m else None
  }

  function AfterBlock(pr: Protocol, footer: bool, received: Received, rest: Bytes): Next {
    if !footer then Block(received, rest)
    else if |rest| < MIN_BUF_LENGTH then Ends(Short)
    else AfterFooter(FooterAt(pr, rest), pr.crc(0, received.data), received, rest)
  }

  function AfterFooter(m: Option<Message>, checksum: int, received: Received, rest: Bytes): Next
    requires m.Some? ==> m.value.FooterMsg? && m.value.len <= |rest|
  {
    if m.None? then Ends(Malformed)
    else if m.value.checksum == checksum then Block(received, rest[m.value.len..])
    else Ends(Mismatch(received))
  }

  function AfterHeader(pr: Protocol, footer: bool, d: BlockDetails, s: Bytes): Next {
    if |s| < d.dataSize then Ends(Partial(Received(d, s)))
    else AfterBlock(pr, footer, Received(d, s[..d.dataSize]), s[d.dataSize..])
  }

  /** What follows from a command other than a block at the head of the stream. */
  function AfterControl(footer: bool, s: Bytes, m: Message): Next
    requires 0 < m.len <= |s|
  {
    match m
    case SettingsMsg(st, len) => if st.sendFileChunks then Ends(ChunksAsked) else Control(st.checksum, len, s[len..])
    case VersionMsg(v, _) => Ends(OtherVersion(v))
    case SizeMsg(_, len) => Control(footer, len, s[len..])
    case DoneMsg(done, _) => Ends(if |s| == MIN_BUF_LENGTH then Finished(done) else DoneThenMore(done))
    case FileMsg(_, _) => Ends(Malformed)
    case FooterMsg(_, _) => Ends(Malformed)
  }

  /** The command at the head of the stream, if that is one. */
  function CommandAt(pr: Protocol, s: Bytes): (m: Option<Message>)
    ensures m.Some? ==> 0 < m.value.len <= |s|
  {
    var m := pr.decode(s);
    if m.Some? && 0 < m.value.len <= |s| then m else None
  }

  function NextFrom(pr: Protocol, footer: bool, s: Bytes, m: Option<Message>): Next
    requires m.Some? ==> 0 < m.value.len <= |s|
  {
    if m.None? then Ends(Malformed)
    else if m.value.FileMsg? then AfterHeader(pr, footer, m.value.details, s[m.value.len..])
    else AfterControl(footer, s, m.value)
  }

  function NextOf(pr: Protocol, footer: bool, s: Bytes): Next {
    if |s| < MIN_BUF_LENGTH then Ends(Short) else NextFrom(pr, footer, s, CommandAt(pr, s))
  }

  lemma NextShrinks(pr: Protocol, footer: bool, s: Bytes)
    ensures var n := NextOf(pr, footer, s);
            (n.Block? ==> |n.rest| < |s|) && (n.Control? ==> |n.rest| < |s| && n.len == |s| - |n.rest|)
  {
  }

  /** What is known of the bytes in the buffer is so of the stream. */
  lemma WindowDecodes(pr: Protocol, w: Bytes, more: Bytes)
    requires ProtocolOk(pr) && Known(pr, w)
    ensures pr.decode(w + more) == pr.decode(w) && CommandAt(pr, w + more) == CommandAt(pr, w)
  {
  }

  lemma KnownGrows(pr: Protocol, w: Bytes, x: Bytes)
    requires ProtocolOk(pr) && Known(pr, w)
    ensures Known(pr, w + x)
  {
    if pr.decode(w).Some? {
      assert pr.decode(w + x) == pr.decode(w);
    } else {
      FrontGrows(w, x);
    }
  }

  datatype Result = Result(blocks: seq<Received>, ending: Ending)

  /** Everything a stream brings. */
  function Plain(pr: Protocol, footer: bool, s: Bytes): Result
    decreases |s|
  {
    NextShrinks(pr, footer, s);
    match NextOf(pr, footer, s)
    case Ends(ending) => Result([], ending)
    case Control(footer', len, rest) => Plain(pr, footer', rest)
    case Block(received, rest) => Prepend(received, Plain(pr, footer, rest))
  }

  function Prepend(received: Received, later: Result): Result {
    Result([received] + later.blocks, later.ending)
  }

  lemma PlainIs(pr: Protocol, footer: bool, s: Bytes, next: Next)
    requires next == NextOf(pr, footer, s)
    ensures !next.Ends? ==> |next.rest| < |s|
    ensures next.Ends? ==> Plain(pr, footer, s) == Result([], next.ending)
    ensures next.Control? ==> Plain(pr, footer, s) == Plain(pr, next.footer, next.rest)
    ensures next.Block? ==> Plain(pr, footer, s) == Prepend(next.received, Plain(pr, footer, next.rest))
  {
    NextShrinks(pr, footer, s);
  }

  // ---- where the buffer is too small

  /** The least number of bytes waited for does not settle the command at the head of the stream. */
  predicate LongCommand(pr: Protocol, s: Bytes) {
    |s| >= MIN_BUF_LENGTH && !Known(pr, s[..MIN_BUF_LENGTH])
  }

  lemma ShortIsKnown(pr: Protocol, w: Bytes, more: Bytes)
    requires ProtocolOk(pr) && |w| >= MIN_BUF_LENGTH && !LongCommand(pr, w + more)
    ensures Known(pr, w)
  {
    var head, tail := w[..MIN_BUF_LENGTH], w[MIN_BUF_LENGTH..];
    assert (w + more)[..MIN_BUF_LENGTH] == head && w == head + tail;
    KnownGrows(pr, head, tail);
  }

  /** No command of the stream is long. */
  predicate ShortCommands(pr: Protocol, footer: bool, s: Bytes)
    decreases |s|
  {
    NextShrinks(pr, footer, s);
    !LongCommand(pr, s) &&
    match NextOf(pr, footer, s)
    case Ends(_) => true
    case Control(footer', len, rest) => ShortCommands(pr, footer', rest)
    case Block(received, rest) => ShortCommands(pr, footer, rest)
  }

  lemma ShortCommandsIs(pr: Protocol, footer: bool, s: Bytes, next: Next)
    requires next == NextOf(pr, footer, s)
    ensures ShortCommands(pr, footer, s) <==>
            !LongCommand(pr, s) && (next.Control? ==> ShortCommands(pr, next.footer, next.rest))
            && (next.Block? ==> ShortCommands(pr, footer, next.rest))
  {
    NextShrinks(pr, footer, s);
  }

  /** How many bytes of settings and sizes come before anything else. */
  function LeadIn(pr: Protocol, footer: bool, s: Bytes): nat
    decreases |s|
  {
    NextShrinks(pr, footer, s);
    var next := NextOf(pr, footer, s);
    if next.Control? then next.len + LeadIn(pr, next.footer, next.rest) else 0
  }

  lemma LeadInIs(pr: Protocol, footer: bool, s: Bytes, next: Next)
    requires next == NextOf(pr, footer, s)
    ensures LeadIn(pr, footer, s) == if next.Control? then next.len + LeadIn(pr, next.footer, next.rest) else 0
  {
    NextShrinks(pr, footer, s);
  }

  /** How many bytes of settings and sizes a buffer of this size surely takes behind a block. */
  function GapLimit(bufSize: nat): int {
    (if bufSize / 2 < MAX_HEADER then bufSize / 2 else MAX_HEADER) - MIN_BUF_LENGTH - MAX_FOOTER
  }

  /** `ctl` bytes of them have come since the last block, or since the beginning. */
  predicate Room(bufSize: nat, first: bool, ctl: nat) {
    if first then ctl + MIN_BUF_LENGTH <= bufSize else ctl <= GapLimit(bufSize)
  }

  /** Wherever the loop waits for a command, there is room for it. */
  predicate GapsFit(pr: Protocol, footer: bool, s: Bytes, bufSize: nat, first: bool, ctl: nat)
    decreases |s|
  {
    NextShrinks(pr, footer, s);
    Room(bufSize, first, ctl) &&
    match NextOf(pr, footer, s)
    case Ends(_) => true
    case Control(footer', len, rest) => GapsFit(pr, footer', rest, bufSize, first, ctl + len)
    case Block(received, rest) => GapsFit(pr, footer, rest, bufSize, false, 0)
  }

  lemma GapsFitIs(pr: Protocol, footer: bool, s: Bytes, bufSize: nat, first: bool, ctl: nat, next: Next)
    requires next == NextOf(pr, footer, s)
    ensures GapsFit(pr, footer, s, bufSize, first, ctl) <==>
            Room(bufSize, first, ctl)
            && (next.Control? ==> GapsFit(pr, next.footer, next.rest, bufSize, first, ctl + next.len))
            && (next.Block? ==> GapsFit(pr, footer, next.rest, bufSize, false, 0))
  {
    NextShrinks(pr, footer, s);
  }

  // ---- topping up a long header

  /**
   The buffer from the command on after the read that is to complete a header: `held` is what was there of it and
   `stale` as many bytes behind that; the new bytes land behind both, but only the count of `held` and them is kept.
   */
  function ToppedUp(held: Bytes, stale: Bytes, arrived: Bytes): Bytes
    requires |stale| == |held|
  {
    (held + stale + arrived)[..|held| + |arrived|]
  }

  /** The bytes in the buffer are those of the stream exactly if the new ones begin the stale ones and themselves. */
  lemma TopUpExact(held: Bytes, stale: Bytes, arrived: Bytes)
    requires |stale| == |held|
    ensures ToppedUp(held, stale, arrived) == held + arrived <==> arrived <= stale + arrived
  {
    var k := |arrived|;
    assert ToppedUp(held, stale, arrived) == held + (stale + arrived)[..k];
    assert (held + arrived)[|held|..] == arrived && (held + (stale + arrived)[..k])[|held|..] == (stale + arrived)[..k];
  }

  /** Whatever the buffer held before, the header comes out right, if and only if nothing had to be read. */
  lemma TopUpSafeIff(held: Bytes, arrived: Bytes)
    requires held != []
    ensures (forall stale: Bytes :: |stale| == |held| ==> ToppedUp(held, stale, arrived) == held + arrived)
            <==> arrived == []
  {
    if arrived == [] {
      forall stale: Bytes | |stale| == |held| ensures ToppedUp(held, stale, arrived) == held + arrived {
        TopUpExact(held, stale, arrived);
      }
    } else {
      var other: Byte := if arrived[0] == 0 then 1 else 0;
      var stale := seq(|held|, i => other);
      TopUpExact(held, stale, arrived);
      assert (stale + arrived)[0] == other;
      assert ToppedUp(held, stale, arrived) != held + arrived;
    }
  }
}
