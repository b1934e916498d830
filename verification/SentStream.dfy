/** What a sender thread writes on a connection, and that the receiver's parser reads exactly that. */
module SentStream {
  import opened Options
  import opened Wire
  import opened Messages
  import opened ReceiverStream

  datatype Item =
    | SettingsItem(settings: Settings)
    | SizeItem(totalBytes: Int64)
    | BlockItem(status: Byte, details: BlockDetails, data: Bytes)

  /** How the connection ends: the last command, padded so that it reaches the receiver. */
  datatype Closing = Closing(status: Byte, done: Done)

  // ---- encodings

  function SettingsBytes(version: Int32, st: Settings): Bytes
    requires |st.transferId| < I64_LIMIT
  {
    [SETTINGS_CMD] + Encode(SettingsFields(version, st))
  }

  function SizeBytes(n: Int64): Bytes {
    [SIZE_CMD] + Encode(Num(n, End))
  }

  function HeaderBytes(version: int, status: Byte, d: BlockDetails): Bytes
    requires HeaderOk(d)
  {
    var header := Encode(HeaderFields(version, d));
    [FILE_CMD, status] + Fixed(4 + |header|, 2) + header
  }

  function FooterBytes(checksum: int): Bytes
    requires -I32_LIMIT <= checksum < I32_LIMIT
  {
    [FOOTER_CMD] + EncodeFooter(checksum)
  }

  function DoneBytes(version: int, c: Closing): Bytes
    requires 0 <= c.done.bytesSent < I64_LIMIT
  {
    [DONE_CMD, c.status] + Encode(DoneFields(version, c.done))
  }

  // ---- each decodes

  lemma SettingsDecode(version: Int32, st: Settings)
    requires |st.transferId| < I64_LIMIT && |SettingsBytes(version, st)| <= MAX_SETTINGS
    ensures var w := SettingsBytes(version, st);
            && w[0] == SETTINGS_CMD
            && DecodeSettingsCmd(version, w) == Some(SettingsMsg(CarriedSettings(version, st), |w|))
  {
    var body := Encode(SettingsFields(version, st));
    SettingsRoundTrip(version, st, []);
    assert body + [] == body;
    I64Shrinks(body);
    SettingsBehind(version, body, CarriedSettings(version, st));
  }

  lemma SettingsBehind(version: Int32, body: Bytes, st: Settings)
    requires |body| < SETTINGS_WINDOW
    requires var v := DecodeVersion(body);
             && v.Some? && v.value.value == version && DecodeSettings(version, v.value.rest) == Some(Decoded(st, []))
             && |v.value.rest| <= |body|
    ensures DecodeSettingsCmd(version, [SETTINGS_CMD] + body) == Some(SettingsMsg(st, 1 + |body|))
  {
    var w := [SETTINGS_CMD] + body;
    assert Clip(w) == w && w[1..] == body;
  }

  lemma SizeDecodes(n: Int64)
    ensures var w := SizeBytes(n); w[0] == SIZE_CMD && DecodeSizeCmd(w) == Some(SizeMsg(n, |w|))
  {
    var body := Encode(Num(n, End));
    NumStep(n, End, []);
    assert SizeBytes(n)[1..] == body && body + [] == body;
  }

  lemma HeaderDecodes(version: int, status: Byte, d: BlockDetails)
    requires HeaderOk(d) && |HeaderBytes(version, status, d)| <= MAX_HEADER
    requires d.allocation == TO_BE_DELETED ==> d.fileSize == 0 && d.dataSize == 0
    ensures var w := HeaderBytes(version, status, d);
            w[0] == FILE_CMD && DecodeFile(version, w) == Some(FileMsg(CarriedHeader(version, d), |w|))
  {
    HeaderAlone(version, d);
    HeaderBehind(version, status, Encode(HeaderFields(version, d)), CarriedHeader(version, d));
  }

  lemma HeaderAlone(version: int, d: BlockDetails)
    requires HeaderOk(d)
    ensures DecodeHeader(version, Encode(HeaderFields(version, d))) == Some(Decoded(CarriedHeader(version, d), []))
  {
    var header := Encode(HeaderFields(version, d));
    HeaderRoundTrip(version, d, []);
    assert header + [] == header;
  }

  lemma HeaderBehind(version: int, status: Byte, header: Bytes, d: BlockDetails)
    requires 4 + |header| <= MAX_HEADER && DecodeHeader(version, header) == Some(Decoded(d, []))
    requires d.allocation == TO_BE_DELETED ==> d.fileSize == 0 && d.dataSize == 0
    ensures |Fixed(4 + |header|, 2)| == 2
    ensures DecodeFile(version, [FILE_CMD, status] + Fixed(4 + |header|, 2) + header) == Some(FileMsg(d, 4 + |header|))
  {
    var w := [FILE_CMD, status] + Fixed(4 + |header|, 2) + header;
    Powers();
    UnfixedFixed(4 + |header|, 2);
    assert w[4..] == header && w[2..4] == Fixed(4 + |header|, 2);
  }

  lemma FooterDecodes(checksum: int)
    requires -I32_LIMIT <= checksum < I32_LIMIT
    ensures var w := FooterBytes(checksum);
            w[0] == FOOTER_CMD && DecodeFooterCmd(w) == Some(FooterMsg(checksum, |w|)) && |w| <= MAX_FOOTER
  {
    var body := EncodeFooter(checksum);
    FooterRoundTrip(checksum, []);
    assert FooterBytes(checksum)[1..] == body && body + [] == body;
  }

  lemma DoneDecodes(version: int, c: Closing)
    requires 0 <= c.done.bytesSent < I64_LIMIT
    ensures var w := DoneBytes(version, c);
            && w[0] == DONE_CMD && DecodeDoneCmd(version, w) == Some(DoneMsg(CarriedDone(version, c.done), |w|))
            && |w| <= 20
  {
    var body := Encode(DoneFields(version, c.done));
    DoneRoundTrip(version, c.done, []);
    assert DoneBytes(version, c)[2..] == body && body + [] == body;
    assert |Encode(Num(c.done.bytesSent, End))| <= 9;
  }

  function CarriedDone(version: int, d: Done): Done {
    if version >= CHECKPOINT_OFFSET_VERSION then d else d.(bytesSent := -1)
  }

  // ---- a header that is misread

  lemma BeginAlike(lead: Bytes, a: Bytes, b: Bytes, rest: Bytes, n: nat)
    requires |a| == |b| >= n && a[..n] == b[..n]
    ensures var w, w' := lead + a + rest, lead + b + rest; |w| == |w'| && w[..n] == w'[..n]
  {
    assert a == a[..n] + a[n..] && b == a[..n] + b[n..];
    assert lead + a + rest == (lead + a[..n]) + (a[n..] + rest) && lead + b + rest == (lead + a[..n]) + (b[n..] + rest);
  }

  /** A header is what stands before the name, the name, and what stands behind it. */
  lemma HeaderParts(version: int, status: Byte, d: BlockDetails)
    requires HeaderOk(d)
    ensures var rest := Encode(Num(d.seqId, Num(d.dataSize, Num(d.offset, Num(d.fileSize, HeaderFlags(version, d))))));
            var n := |d.fileName|;
            && |rest| <= 46
            && HeaderBytes(version, status, d) ==
               [FILE_CMD, status] + Fixed(4 + |VarU64(n)| + n + |rest|, 2) + VarU64(n) + d.fileName + rest
  {
    var flags := HeaderFlags(version, d);
    assert |Encode(flags)| <= 10;
    var f := Num(d.offset, Num(d.fileSize, flags));
    assert |Encode(f)| <= 28;
    var rest := Encode(Num(d.seqId, Num(d.dataSize, f)));
    assert Encode(HeaderFields(version, d)) == EncodeString(d.fileName) + rest;
  }

  /** Two blocks of the same kind whose long names are alike for as many bytes as are waited for. */
  predicate LookAlike(d: BlockDetails, other: BlockDetails) {
    && HeaderOk(d) && HeaderOk(other) && other == d.(fileName := other.fileName)
    && MIN_BUF_LENGTH <= |d.fileName| == |other.fileName| <= 400
    && d.fileName[..MIN_BUF_LENGTH] == other.fileName[..MIN_BUF_LENGTH]
    && (d.allocation == TO_BE_DELETED ==> d.fileSize == 0 && d.dataSize == 0)
  }

  lemma HeadersBeginAlike(version: int, status: Byte, d: BlockDetails, other: BlockDetails)
    requires LookAlike(d, other)
    ensures var w, w' := HeaderBytes(version, status, d), HeaderBytes(version, status, other);
            MIN_BUF_LENGTH < |w| == |w'| < 2 * MIN_BUF_LENGTH && w[..MIN_BUF_LENGTH] == w'[..MIN_BUF_LENGTH]
  {
    var m := |d.fileName|;
    var rest := Encode(Num(d.seqId, Num(d.dataSize, Num(d.offset, Num(d.fileSize, HeaderFlags(version, d))))));
    HeaderParts(version, status, d);
    HeaderParts(version, status, other);
    BeginAlike([FILE_CMD, status] + Fixed(4 + |VarU64(m)| + m + |rest|, 2) + VarU64(m), d.fileName, other.fileName,
               rest, MIN_BUF_LENGTH);
  }

  lemma ToppedUpWithOther(w: Bytes, w': Bytes, pad: Bytes, n: nat)
    requires n <= |w| == |w'| && |w'| - n + |pad| == n && w[..n] == w'[..n]
    ensures ToppedUp(w[..n], w'[n..] + pad, w[n..]) == w' && w[..n] + w[n..] == w
  {
  }

  /**
   When the bytes waited for end inside a long name, and the buffer behind them holds what is left of another such
   header, then it is that other block that is read, whatever arrives.
   */
  lemma HeaderIsMisread(version: int, status: Byte, d: BlockDetails, other: BlockDetails, pad: Bytes)
    requires LookAlike(d, other) && |HeaderBytes(version, status, other)| + |pad| == 2 * MIN_BUF_LENGTH
    ensures var w := HeaderBytes(version, status, d);
            && |w| > MIN_BUF_LENGTH
            && var held, arrived := w[..MIN_BUF_LENGTH], w[MIN_BUF_LENGTH..];
               var stale := HeaderBytes(version, status, other)[MIN_BUF_LENGTH..] + pad;
               && |stale| == |held|
               && DecodeFile(version, held + arrived) == Some(FileMsg(CarriedHeader(version, d), |w|))
               && DecodeFile(version, ToppedUp(held, stale, arrived))
                  == Some(FileMsg(CarriedHeader(version, other), |w|))
  {
    HeadersBeginAlike(version, status, d, other);
    ToppedUpWithOther(HeaderBytes(version, status, d), HeaderBytes(version, status, other), pad, MIN_BUF_LENGTH);
    HeaderDecodes(version, status, d);
    HeaderDecodes(version, status, other);
  }

  /** There are such blocks: a name of three hundred letters a is read as one that ends in forty letters b. */
  lemma OtherNameIsRead(version: int, status: Byte) returns (d: BlockDetails, other: BlockDetails, stale: Bytes)
    ensures HeaderOk(d) && |d.fileName| == 300 && (forall i :: 0 <= i < 300 ==> d.fileName[i] == 97)
    ensures other.fileName == d.fileName[..260] + seq(40, i => 98) && other == d.(fileName := other.fileName)
    ensures var w := HeaderBytes(version, status, d);
            && MIN_BUF_LENGTH < |w| <= MAX_HEADER && |stale| == MIN_BUF_LENGTH
            && DecodeFile(version, ToppedUp(w[..MIN_BUF_LENGTH], stale, w[MIN_BUF_LENGTH..]))
               == Some(FileMsg(CarriedHeader(version, other), |w|))
  {
    d := BlockDetails(seq(300, i => 97), 1, 10, 0, 10, 0, 0);
    other := d.(fileName := d.fileName[..260] + seq(40, i => 98));
    assert d.fileName[..MIN_BUF_LENGTH] == other.fileName[..MIN_BUF_LENGTH];
    HeadersBeginAlike(version, status, d, other);
    var w' := HeaderBytes(version, status, other);
    var pad: Bytes := seq(2 * MIN_BUF_LENGTH - |w'|, i => 0);
    HeaderIsMisread(version, status, d, other, pad);
    stale := w'[MIN_BUF_LENGTH..] + pad;
  }

  // ---- whole connections

  /** Settings that fit their buffer and do not ask for the list of chunks; then a connection has a pause. */
  predicate SettingsOk(version: Int32, st: Settings) {
    |st.transferId| < I64_LIMIT && !st.sendFileChunks && |SettingsBytes(version, st)| <= MAX_SETTINGS
  }

  predicate BlockOk(version: int, b: Item, footer: bool, crc: (int, Bytes) -> int)
    requires b.BlockItem?
  {
    && HeaderOk(b.details) && |HeaderBytes(version, b.status, b.details)| <= MAX_HEADER
    && (b.details.allocation == TO_BE_DELETED ==> b.details.fileSize == 0 && b.details.dataSize == 0)
    && |b.data| == b.details.dataSize && (footer ==> -I32_LIMIT <= crc(0, b.data) < I32_LIMIT)
  }

  function FooterAfter(version: Int32, st: Settings): bool {
    CarriedSettings(version, st).checksum
  }

  predicate ItemOk(version: Int32, crc: (int, Bytes) -> int, footer: bool, item: Item) {
    match item
    case SettingsItem(st) => SettingsOk(version, st)
    case SizeItem(_) => true
    case BlockItem(_, _, _) => BlockOk(version, item, footer, crc)
  }

  function FooterOf(crc: (int, Bytes) -> int, footer: bool, data: Bytes): Bytes
    requires footer ==> -I32_LIMIT <= crc(0, data) < I32_LIMIT
  {
    if footer then FooterBytes(crc(0, data)) else []
  }

  /** The bytes of one item, with `rest` behind them. */
  function ItemBytes(version: Int32, crc: (int, Bytes) -> int, footer: bool, item: Item, rest: Bytes): (w: Bytes)
    requires ItemOk(version, crc, footer, item)
    ensures |w| >= |rest|
  {
    match item
    case SettingsItem(st) => SettingsBytes(version, st) + rest
    case SizeItem(n) => SizeBytes(n) + rest
    case BlockItem(status, d, data) => HeaderBytes(version, status, d) + (data + (FooterOf(crc, footer, data) + rest))
  }

  function FooterBehind(version: Int32, footer: bool, item: Item): bool {
    if item.SettingsItem? then FooterAfter(version, item.settings) else footer
  }

  /** Headers and settings fit the sender's buffers. */
  predicate ItemsOk(version: Int32, crc: (int, Bytes) -> int, footer: bool, items: seq<Item>)
    decreases |items|
  {
    items != [] ==>
      ItemOk(version, crc, footer, items[0])
        && ItemsOk(version, crc, FooterBehind(version, footer, items[0]), items[1..])
  }

  /** The bytes of the items, with `rest` behind them. */
  function Sent(version: Int32, crc: (int, Bytes) -> int, footer: bool, items: seq<Item>, rest: Bytes): (w: Bytes)
    requires ItemsOk(version, crc, footer, items)
    ensures |w| >= |rest|
    decreases |items|
  {
    if items == [] then rest
    else
      var later := Sent(version, crc, FooterBehind(version, footer, items[0]), items[1..], rest);
      ItemBytes(version, crc, footer, items[0], later)
  }

  /** What arrives: the blocks, with the header fields that the version carries. */
  function Arriving(version: int, items: seq<Item>): seq<Received> {
    if items == [] then []
    else if items[0].BlockItem? then
      [Received(CarriedHeader(version, items[0].details), items[0].data)] + Arriving(version, items[1..])
    else Arriving(version, items[1..])
  }

  /** The bytes of an item that is not a block. */
  function ControlLen(version: Int32, item: Item): nat {
    match item
    case SettingsItem(st) => if |st.transferId| < I64_LIMIT then |SettingsBytes(version, st)| else 0
    case SizeItem(n) => |SizeBytes(n)|
    case BlockItem(_, _, _) => 0
  }

  /** The item's command fits the least number of bytes in the receiver's buffer. */
  predicate ShortItem(version: Int32, item: Item) {
    match item
    case SettingsItem(st) => |st.transferId| < I64_LIMIT ==> |SettingsBytes(version, st)| <= MIN_BUF_LENGTH
    case SizeItem(_) => true
    case BlockItem(status, d, _) => HeaderOk(d) ==> |HeaderBytes(version, status, d)| <= MIN_BUF_LENGTH
  }

  predicate AllShort(version: Int32, items: seq<Item>) {
    forall item :: item in items ==> ShortItem(version, item)
  }

  /** Between blocks, and before the first, there is room in the receiver's buffer for settings and sizes. */
  predicate ItemsFit(version: Int32, bufSize: nat, items: seq<Item>, first: bool, ctl: nat)
    decreases |items|
  {
    && Room(bufSize, first, ctl)
    && (items != [] ==>
          if items[0].BlockItem? then ItemsFit(version, bufSize, items[1..], false, 0)
          else ItemsFit(version, bufSize, items[1..], first, ctl + ControlLen(version, items[0])))
  }

  /** The bytes of settings and sizes before the first block. */
  function LeadLength(version: Int32, items: seq<Item>): nat {
    if items == [] || items[0].BlockItem? then 0 else ControlLen(version, items[0]) + LeadLength(version, items[1..])
  }

  // ---- one item

  function FooterFor(m: Message, footer: bool): bool {
    if m.SettingsMsg? then m.settings.checksum else footer
  }

  lemma ControlNext(pr: Protocol, footer: bool, head: Bytes, rest: Bytes, m: Message)
    requires ProtocolOk(pr) && pr.decode(head) == Some(m) && m.len == |head| && MIN_BUF_LENGTH <= |rest|
    requires m.SizeMsg? || (m.SettingsMsg? && !m.settings.sendFileChunks)
    ensures NextOf(pr, footer, head + rest) == Control(FooterFor(m, footer), |head|, rest)
  {
    assert pr.decode(head + rest) == Some(m);
    assert (head + rest)[|head|..] == rest;
  }

  lemma BlockStep(pr: Protocol, footer: bool, head: Bytes, data: Bytes, foot: Bytes, rest: Bytes, m: Message)
    requires ProtocolOk(pr) && pr.decode(head) == Some(m) && m.len == |head| && MIN_BUF_LENGTH <= |rest|
    requires m.FileMsg? && m.details.dataSize == |data|
    requires if footer then pr.decode(foot) == Some(FooterMsg(pr.crc(0, data), |foot|)) else foot == []
    ensures NextOf(pr, footer, head + (data + (foot + rest))) == Block(Received(m.details, data), rest)
  {
    var body := data + (foot + rest);
    assert pr.decode(head + body) == Some(m);
    assert (head + body)[|head|..] == body;
    assert body[..|data|] == data && body[|data|..] == foot + rest;
    BlockBehind(pr, footer, Received(m.details, data), foot, rest);
  }

  lemma BlockBehind(pr: Protocol, footer: bool, received: Received, foot: Bytes, rest: Bytes)
    requires ProtocolOk(pr) && MIN_BUF_LENGTH <= |rest|
    requires if footer then pr.decode(foot) == Some(FooterMsg(pr.crc(0, received.data), |foot|)) else foot == []
    ensures AfterBlock(pr, footer, received, foot + rest) == Block(received, rest)
  {
    if footer {
      assert pr.decode(foot + rest) == pr.decode(foot);
      assert (foot + rest)[|foot|..] == rest;
    } else {
      assert foot + rest == rest;
    }
  }

  /** The first bytes settle a command that is whole, and do not settle settings or a header that is not. */
  lemma LongIff(pr: Protocol, head: Bytes, rest: Bytes, m: Message)
    requires ProtocolOk(pr) && pr.decode(head) == Some(m) && m.len == |head| && MIN_BUF_LENGTH <= |rest|
    requires m.SettingsMsg? ==> head[0] == SETTINGS_CMD
    requires |head| > MIN_BUF_LENGTH ==> m.FileMsg? || m.SettingsMsg?
    ensures LongCommand(pr, head + rest) <==> |head| > MIN_BUF_LENGTH
  {
    var s := head + rest;
    var front := s[..MIN_BUF_LENGTH];
    if |head| <= MIN_BUF_LENGTH {
      assert front == head + front[|head|..];
      KnownGrows(pr, head, front[|head|..]);
    } else {
      assert s == front + s[MIN_BUF_LENGTH..] && pr.decode(s) == Some(m);
      assert front[0] == head[0] && front[2..4] == head[2..4];
    }
  }

  lemma DoneStep(pr: Protocol, footer: bool, head: Bytes, pad: Bytes, m: Message)
    requires ProtocolOk(pr) && pr.decode(head) == Some(m) && m.DoneMsg? && |head + pad| == MIN_BUF_LENGTH
    ensures Follows(pr, footer, head + pad, Ends(Finished(m.done))) && !LongCommand(pr, head + pad)
  {
    assert pr.decode(head + pad) == Some(m);
    assert (head + pad)[..MIN_BUF_LENGTH] == head + pad;
  }

  /** The receiver understands each command the sender writes. */
  ghost predicate Understands(pr: Protocol, version: Int32) {
    && ProtocolOk(pr)
    && (forall st :: SettingsOk(version, st) ==>
          pr.decode(SettingsBytes(version, st))
            == Some(SettingsMsg(CarriedSettings(version, st), |SettingsBytes(version, st)|)))
    && (forall n :: pr.decode(SizeBytes(n)) == Some(SizeMsg(n, |SizeBytes(n)|)))
    && (forall b: Item, footer :: b.BlockItem? && BlockOk(version, b, footer, pr.crc) ==>
          pr.decode(HeaderBytes(version, b.status, b.details))
          == Some(FileMsg(CarriedHeader(version, b.details), |HeaderBytes(version, b.status, b.details)|)))
    && (forall v :: -I32_LIMIT <= v < I32_LIMIT ==> pr.decode(FooterBytes(v)) == Some(FooterMsg(v, |FooterBytes(v)|)))
    && (forall c: Closing :: 0 <= c.done.bytesSent < I64_LIMIT ==>
          pr.decode(DoneBytes(version, c)) == Some(DoneMsg(CarriedDone(version, c.done), |DoneBytes(version, c)|)))
  }

  lemma ProtocolUnderstands(version: Int32, crc: (int, Bytes) -> int)
    requires forall v, a, b {:trigger crc(crc(v, a), b)} :: crc(crc(v, a), b) == crc(v, a + b)
    ensures Understands(ProtocolOf(version, crc), version)
  {
    CommandsAreOk(version, crc);
    forall st | SettingsOk(version, st)
      ensures DecodeCmd(version, SettingsBytes(version, st))
              == Some(SettingsMsg(CarriedSettings(version, st), |SettingsBytes(version, st)|))
    {
      SettingsDecode(version, st);
    }
    forall n ensures DecodeCmd(version, SizeBytes(n)) == Some(SizeMsg(n, |SizeBytes(n)|)) {
      SizeDecodes(n);
    }
    forall b: Item, footer | b.BlockItem? && BlockOk(version, b, footer, crc)
      ensures DecodeCmd(version, HeaderBytes(version, b.status, b.details))
              == Some(FileMsg(CarriedHeader(version, b.details), |HeaderBytes(version, b.status, b.details)|))
    {
      HeaderDecodes(version, b.status, b.details);
    }
    forall v | -I32_LIMIT <= v < I32_LIMIT
      ensures DecodeCmd(version, FooterBytes(v)) == Some(FooterMsg(v, |FooterBytes(v)|)) {
      FooterDecodes(v);
    }
    forall c: Closing | 0 <= c.done.bytesSent < I64_LIMIT
      ensures DecodeCmd(version, DoneBytes(version, c))
              == Some(DoneMsg(CarriedDone(version, c.done), |DoneBytes(version, c)|))
    {
      DoneDecodes(version, c);
    }
  }

  // ---- the parser, step by step

  /** What is read of a stream, whether its commands are short, whether it fits a buffer, and what leads it in. */
  datatype Reading = Reading(result: Result, short: bool, fits: bool, leadIn: nat)

  /** Whether checksums are expected, whether this is before the first block, and the settings and sizes since. */
  datatype Where = Where(footer: bool, first: bool, ctl: nat)

  predicate Follows(pr: Protocol, footer: bool, s: Bytes, next: Next) {
    next == NextOf(pr, footer, s)
  }

  function WhereBehind(at: Where, next: Next): Where {
    match next
    case Ends(_) => at
    case Control(footer, len, _) => Where(footer, at.first, at.ctl + len)
    case Block(_, _) => Where(at.footer, false, 0)
  }

  function Consing(next: Next, later: Result): Result {
    match next
    case Ends(ending) => Result([], ending)
    case Control(_, _, _) => later
    case Block(received, _) => Prepend(received, later)
  }

  function ReadingFrom(next: Next, long: bool, room: bool, later: Reading): Reading {
    if next.Ends? then Reading(Consing(next, later.result), !long, room, 0)
    else Reading(Consing(next, later.result), !long && later.short, room && later.fits, Leading(next, later.leadIn))
  }

  function Leading(next: Next, later: nat): nat {
    if next.Control? then next.len + later else 0
  }

  /** What is read of a stream follows from its first command and what is read of the rest. */
  ghost predicate IsReader(pr: Protocol, bufSize: nat, read: (Where, Bytes) -> Reading) {
    forall at: Where, s, next {:trigger read(at, s), Follows(pr, at.footer, s, next)} ::
      Follows(pr, at.footer, s, next) ==>
        read(at, s) == ReadingFrom(next, LongCommand(pr, s), Room(bufSize, at.first, at.ctl),
                                   read(WhereBehind(at, next), if next.Ends? then [] else next.rest))
  }

  function ReaderOf(pr: Protocol, bufSize: nat): (Where, Bytes) -> Reading {
    (at: Where, s: Bytes) => Reads(pr, bufSize, at, s)
  }

  lemma PlainIsReader(pr: Protocol, bufSize: nat)
    ensures IsReader(pr, bufSize, ReaderOf(pr, bufSize))
  {
    var read := ReaderOf(pr, bufSize);
    forall at: Where, s, next | Follows(pr, at.footer, s, next)
      ensures read(at, s) == ReadingFrom(next, LongCommand(pr, s), Room(bufSize, at.first, at.ctl),
                                         read(WhereBehind(at, next), if next.Ends? then [] else next.rest))
    {
      ReadStep(pr, bufSize, at, s, next);
    }
  }

  function Reads(pr: Protocol, bufSize: nat, at: Where, s: Bytes): Reading {
    Reading(Plain(pr, at.footer, s), ShortCommands(pr, at.footer, s),
            GapsFit(pr, at.footer, s, bufSize, at.first, at.ctl),
            LeadIn(pr, at.footer, s))
  }

  lemma ReadStep(pr: Protocol, bufSize: nat, at: Where, s: Bytes, next: Next)
    requires Follows(pr, at.footer, s, next)
    ensures Reads(pr, bufSize, at, s)
            == ReadingFrom(next, LongCommand(pr, s), Room(bufSize, at.first, at.ctl),
                           Reads(pr, bufSize, WhereBehind(at, next), if next.Ends? then [] else next.rest))
  {
    PlainReads(pr, at.footer, s, next);
    ShortCommandsIs(pr, at.footer, s, next);
    GapsFitIs(pr, at.footer, s, bufSize, at.first, at.ctl, next);
    LeadInIs(pr, at.footer, s, next);
  }

  lemma PlainReads(pr: Protocol, footer: bool, s: Bytes, next: Next)
    requires Follows(pr, footer, s, next)
    ensures next.Ends? ==> Plain(pr, footer, s) == Result([], next.ending)
    ensures next.Control? ==> Plain(pr, footer, s) == Plain(pr, next.footer, next.rest)
    ensures next.Block? ==> Plain(pr, footer, s) == Prepend(next.received, Plain(pr, footer, next.rest))
  {
    PlainIs(pr, footer, s, next);
  }

  /** What the parser makes of an item with `rest` behind it. */
  function Expected(version: Int32, footer: bool, item: Item, rest: Bytes): Next
    requires item.SettingsItem? ==> |item.settings.transferId| < I64_LIMIT
  {
    match item
    case SettingsItem(st) => Control(FooterAfter(version, st), |SettingsBytes(version, st)|, rest)
    case SizeItem(n) => Control(footer, |SizeBytes(n)|, rest)
    case BlockItem(_, d, data) => Block(Received(CarriedHeader(version, d), data), rest)
  }

  ghost predicate IsNext(version: Int32, pr: Protocol, footer: bool, item: Item, rest: Bytes)
    requires ItemOk(version, pr.crc, footer, item)
  {
    var s := ItemBytes(version, pr.crc, footer, item, rest);
    Follows(pr, footer, s, Expected(version, footer, item, rest)) && LongCommand(pr, s) == !ShortItem(version, item)
  }

  lemma SentSettings(version: Int32, pr: Protocol, footer: bool, item: Item, rest: Bytes)
    requires Understands(pr, version) && ItemOk(version, pr.crc, footer, item) && item.SettingsItem?
    requires |rest| >= MIN_BUF_LENGTH
    ensures IsNext(version, pr, footer, item, rest)
  {
    var st := item.settings;
    var head := SettingsBytes(version, st);
    var m := SettingsMsg(CarriedSettings(version, st), |head|);
    ControlNext(pr, footer, head, rest, m);
    LongIff(pr, head, rest, m);
  }

  lemma SentSize(version: Int32, pr: Protocol, footer: bool, item: Item, rest: Bytes)
    requires Understands(pr, version) && ItemOk(version, pr.crc, footer, item) && item.SizeItem?
    requires |rest| >= MIN_BUF_LENGTH
    ensures IsNext(version, pr, footer, item, rest)
  {
    var n := item.totalBytes;
    SizeLength(n);
    ControlNext(pr, footer, SizeBytes(n), rest, SizeMsg(n, |SizeBytes(n)|));
    LongIff(pr, SizeBytes(n), rest, SizeMsg(n, |SizeBytes(n)|));
  }

  lemma SizeLength(n: Int64)
    ensures |SizeBytes(n)| <= 10
  {
    assert Encode(Num(n, End)) == EncodeI64C(n) + Encode(End) && Encode(End) == [];
  }

  lemma SentBlock(version: Int32, pr: Protocol, footer: bool, b: Item, rest: Bytes)
    requires Understands(pr, version) && ItemOk(version, pr.crc, footer, b) && b.BlockItem? && |rest| >= MIN_BUF_LENGTH
    ensures IsNext(version, pr, footer, b, rest)
  {
    var head, foot := HeaderBytes(version, b.status, b.details), FooterOf(pr.crc, footer, b.data);
    var m := FileMsg(CarriedHeader(version, b.details), |head|);
    BlockStep(pr, footer, head, b.data, foot, rest, m);
    LongIff(pr, head, b.data + (foot + rest), m);
  }

  lemma SentItem(version: Int32, pr: Protocol, footer: bool, item: Item, rest: Bytes)
    requires Understands(pr, version) && ItemOk(version, pr.crc, footer, item) && |rest| >= MIN_BUF_LENGTH
    ensures IsNext(version, pr, footer, item, rest)
  {
    if item.SettingsItem? {
      SentSettings(version, pr, footer, item, rest);
    } else if item.SizeItem? {
      SentSize(version, pr, footer, item, rest);
    } else {
      SentBlock(version, pr, footer, item, rest);
    }
  }

  lemma AllShortCons(version: Int32, items: seq<Item>)
    requires items != []
    ensures AllShort(version, items) == (ShortItem(version, items[0]) && AllShort(version, items[1..]))
  {
    assert forall item :: item in items <==> item == items[0] || item in items[1..];
  }

  /** Whatever follows an item, it is read and then what follows it. */
  ghost predicate ReadsItems(version: Int32, crc: (int, Bytes) -> int, bufSize: nat, read: (Where, Bytes) -> Reading) {
    forall at: Where, item, rest {:trigger read(at, ItemBytes(version, crc, at.footer, item, rest))} ::
      ItemOk(version, crc, at.footer, item) && |rest| >= MIN_BUF_LENGTH ==>
        ReadsItem(version, crc, bufSize, read, at, item, rest)
  }

  ghost predicate ReadsItem(version: Int32, crc: (int, Bytes) -> int, bufSize: nat, read: (Where, Bytes) -> Reading,
                            at: Where, item: Item, rest: Bytes)
    requires ItemOk(version, crc, at.footer, item)
  {
    var next := Expected(version, at.footer, item, rest);
    read(at, ItemBytes(version, crc, at.footer, item, rest))
    == ReadingFrom(next, !ShortItem(version, item), Room(bufSize, at.first, at.ctl), read(WhereBehind(at, next), rest))
  }

  lemma ReaderReadsItems(version: Int32, pr: Protocol, bufSize: nat, read: (Where, Bytes) -> Reading)
    requires Understands(pr, version) && IsReader(pr, bufSize, read)
    ensures ReadsItems(version, pr.crc, bufSize, read)
  {
    forall at: Where, item, rest | ItemOk(version, pr.crc, at.footer, item) && |rest| >= MIN_BUF_LENGTH
      ensures ReadsItem(version, pr.crc, bufSize, read, at, item, rest)
    {
      SentItem(version, pr, at.footer, item, rest);
      ReadingOfNext(version, pr, bufSize, read, at, item, ItemBytes(version, pr.crc, at.footer, item, rest), rest);
    }
  }

  lemma ReadingOfNext(version: Int32, pr: Protocol, bufSize: nat, read: (Where, Bytes) -> Reading,
                      at: Where, item: Item, s: Bytes, rest: Bytes)
    requires item.SettingsItem? ==> |item.settings.transferId| < I64_LIMIT
    requires IsReader(pr, bufSize, read) && Follows(pr, at.footer, s, Expected(version, at.footer, item, rest))
    requires LongCommand(pr, s) == !ShortItem(version, item)
    ensures var next := Expected(version, at.footer, item, rest);
            read(at, s)
            == ReadingFrom(next, !ShortItem(version, item), Room(bufSize, at.first, at.ctl),
                           read(WhereBehind(at, next), rest))
  {
  }

  lemma {:induction false} SentIsUnderstood(version: Int32, crc: (int, Bytes) -> int, bufSize: nat,
                                            read: (Where, Bytes) -> Reading, at: Where,
                                            items: seq<Item>, last: Bytes, ending: Ending)
    requires ReadsItems(version, crc, bufSize, read) && ItemsOk(version, crc, at.footer, items)
    requires |last| >= MIN_BUF_LENGTH
    requires forall at' :: read(at', last) == Reading(Result([], ending), true, Room(bufSize, at'.first, at'.ctl), 0)
    ensures read(at, Sent(version, crc, at.footer, items, last))
            == Reading(Result(Arriving(version, items), ending), AllShort(version, items),
                       ItemsFit(version, bufSize, items, at.first, at.ctl), LeadLength(version, items))
    decreases |items|
  {
    if items != [] {
      var footer' := FooterBehind(version, at.footer, items[0]);
      var rest := Sent(version, crc, footer', items[1..], last);
      var at' := WhereBehind(at, Expected(version, at.footer, items[0], rest));
      SentIsUnderstood(version, crc, bufSize, read, at', items[1..], last, ending);
      assert ReadsItem(version, crc, bufSize, read, at, items[0], rest);
      ItemsCons(version, bufSize, at, items, rest, ending);
    }
  }

  /** What is to be read of the items, by the first of them. */
  lemma ItemsCons(version: Int32, bufSize: nat, at: Where, items: seq<Item>, rest: Bytes, ending: Ending)
    requires items != [] && (items[0].SettingsItem? ==> |items[0].settings.transferId| < I64_LIMIT)
    ensures var next := Expected(version, at.footer, items[0], rest);
            var at' := WhereBehind(at, next);
            && ReadingFrom(next, !ShortItem(version, items[0]), Room(bufSize, at.first, at.ctl),
                           Reading(Result(Arriving(version, items[1..]), ending), AllShort(version, items[1..]),
                                   ItemsFit(version, bufSize, items[1..], at'.first, at'.ctl),
                                   LeadLength(version, items[1..])))
               == Reading(Result(Arriving(version, items), ending), AllShort(version, items),
                          ItemsFit(version, bufSize, items, at.first, at.ctl), LeadLength(version, items))
  {
    var next := Expected(version, at.footer, items[0], rest);
    var at' := WhereBehind(at, next);
    AllShortCons(version, items);
    ArrivingCons(version, at.footer, items, rest, ending);
    ItemsFitCons(version, bufSize, at, items, rest);
    ReadingParts(next, !ShortItem(version, items[0]), Room(bufSize, at.first, at.ctl),
                 Result(Arriving(version, items[1..]), ending), AllShort(version, items[1..]),
                 ItemsFit(version, bufSize, items[1..], at'.first, at'.ctl), LeadLength(version, items[1..]));
    LeadCons(version, at.footer, items, rest);
  }

  lemma LeadCons(version: Int32, footer: bool, items: seq<Item>, rest: Bytes)
    requires items != [] && (items[0].SettingsItem? ==> |items[0].settings.transferId| < I64_LIMIT)
    ensures LeadLength(version, items)
            == Leading(Expected(version, footer, items[0], rest), LeadLength(version, items[1..]))
  {
  }

  lemma ReadingParts(next: Next, long: bool, room: bool, result: Result, short: bool, fits: bool, leadIn: nat)
    requires !next.Ends?
    ensures ReadingFrom(next, long, room, Reading(result, short, fits, leadIn))
            == Reading(Consing(next, result), !long && short, room && fits, Leading(next, leadIn))
  {
  }

  lemma ArrivingCons(version: Int32, footer: bool, items: seq<Item>, rest: Bytes, ending: Ending)
    requires items != [] && (items[0].SettingsItem? ==> |items[0].settings.transferId| < I64_LIMIT)
    ensures !Expected(version, footer, items[0], rest).Ends?
    ensures Consing(Expected(version, footer, items[0], rest), Result(Arriving(version, items[1..]), ending))
            == Result(Arriving(version, items), ending)
  {
  }

  lemma ItemsFitCons(version: Int32, bufSize: nat, at: Where, items: seq<Item>, rest: Bytes)
    requires items != [] && (items[0].SettingsItem? ==> |items[0].settings.transferId| < I64_LIMIT)
    ensures var at' := WhereBehind(at, Expected(version, at.footer, items[0], rest));
            ItemsFit(version, bufSize, items, at.first, at.ctl)
            == (Room(bufSize, at.first, at.ctl) && ItemsFit(version, bufSize, items[1..], at'.first, at'.ctl))
  {
  }

  /**
   Whatever a sender writes on a connection, the parser reads those blocks, in that order, and the end; its commands
   are all short exactly if each one is, and it fits a buffer exactly if the settings and sizes between blocks do.
   */
  lemma SentIsParsed(version: Int32, crc: (int, Bytes) -> int, footer: bool, items: seq<Item>, c: Closing, pad: Bytes,
                     bufSize: nat)
    requires forall v, a, b {:trigger crc(crc(v, a), b)} :: crc(crc(v, a), b) == crc(v, a + b)
    requires ItemsOk(version, crc, footer, items)
    requires 0 <= c.done.bytesSent < I64_LIMIT && |DoneBytes(version, c) + pad| == MIN_BUF_LENGTH
    ensures var pr, s := ProtocolOf(version, crc), Sent(version, crc, footer, items, DoneBytes(version, c) + pad);
            && Plain(pr, footer, s) == Result(Arriving(version, items), Finished(CarriedDone(version, c.done)))
            && ShortCommands(pr, footer, s) == AllShort(version, items)
            && GapsFit(pr, footer, s, bufSize, true, 0) == ItemsFit(version, bufSize, items, true, 0)
            && LeadIn(pr, footer, s) == LeadLength(version, items)
  {
    var pr, last := ProtocolOf(version, crc), DoneBytes(version, c) + pad;
    var read := ReaderOf(pr, bufSize);
    ProtocolUnderstands(version, crc);
    PlainIsReader(pr, bufSize);
    ReaderReadsItems(version, pr, bufSize, read);
    var ending := Finished(CarriedDone(version, c.done));
    forall at: Where ensures read(at, last) == Reading(Result([], ending), true, Room(bufSize, at.first, at.ctl), 0) {
      DoneStep(pr, at.footer, DoneBytes(version, c), pad, pr.decode(DoneBytes(version, c)).value);
    }
    var s := Sent(version, crc, footer, items, last);
    SentIsUnderstood(version, crc, bufSize, read, Where(footer, true, 0), items, last, ending);
    assert read(Where(footer, true, 0), s)
        == Reading(Plain(pr, footer, s), ShortCommands(pr, footer, s), GapsFit(pr, footer, s, bufSize, true, 0),
                   LeadIn(pr, footer, s));
  }
}
