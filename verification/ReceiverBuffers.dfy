/**
 The receiver thread's buffer: commands and data are read into one array, an offset and a length move through it,
 and what is left over is moved to the front only when little of it remains far behind.
 */
module ReceiverBuffers {
  import opened Options
  import opened Wire
  import opened Messages
  import opened ReceiverStream

  lemma FrontOf(w: Bytes, more: Bytes, n: nat)
    requires n <= |w|
    ensures (w + more)[..n] == w[..n] && (w + more)[n..] == w[n..] + more
    ensures n == |w| ==> w[..n] == w && w[n..] + more == more
  {
  }

  lemma SplitBehind(w: Bytes, more: Bytes, n: nat)
    requires n <= |w|
    ensures (w + more)[n..] == w[n..] + more
  {
  }

  /** What waiting for a command comes to. */
  datatype Wait = Ready | Over | Tripped

  /** Why the loop stops short of an ending: no room to wait for a command, or one that the buffer does not settle. */
  datatype Failure = NoRoom | Torn

  /** Whether this is an ending the plain parser allows. */
  predicate Matches(plain: Ending, ending: Ending) {
    if plain.DoneThenMore? then ending == Finished(plain.done) || ending == Malformed else ending == plain
  }

  /** Between commands: how far the offset may be, `ctl` bytes of settings and sizes behind the last block. */
  predicate RoomyAt(bufSize: nat, off: nat, numRead: nat, first: bool, ctl: nat) {
    if first then off == ctl else off <= bufSize / 2 + MAX_FOOTER + ctl || numRead + MAX_FOOTER + ctl >= MAX_HEADER
  }

  lemma NoFooter(pr: Protocol, s: Bytes)
    requires ProtocolOk(pr) && s != [] && s[0] != FOOTER_CMD
    ensures FooterAt(pr, s).None?
  {
  }

  /** Where bytes land that are read `n` places behind the first `n` of a header. */
  lemma TopUpLands(before: Bytes, after: Bytes, at: nat, n: nat, len: nat, coming: Bytes, later: Bytes)
    requires |before| == |after| && at + n + len <= |after| && n <= len && before[..at + n] == after[..at + n]
    requires after[at + n..at + n + len] + later == before[at + n..at + n + n] + coming
    ensures len - n <= |coming| && later == coming[len - n..]
    ensures after[at..at + len] == ToppedUp(before[at..at + n], before[at + n..at + n + n], coming[..len - n])
  {
    var held, stale, got := before[at..at + n], before[at + n..at + n + n], after[at + n..at + n + len];
    assert |got| + |later| == n + |coming|;
    assert got == (stale + coming)[..len] == stale + coming[..len - n];
    assert later == (stale + coming)[len..] == coming[len - n..];
    assert after[at..at + n] == after[..at + n][at..] == held;
    assert after[at..at + n + len] == held + got == held + stale + coming[..len - n];
    assert after[at..at + len] == after[at..at + n + len][..len];
  }

  class Connection {
    const buf: array<Byte>
    const pr: Protocol
    var off: nat
    var oldOffset: nat
    var numRead: nat
    var checksumFooter: bool
    /** What will come out of the socket. */
    var incoming: Bytes
    /** Blocks received and verified. */
    var blocks: seq<Received>

    constructor (buf: array<Byte>, pr: Protocol, incoming: Bytes)
      requires buf.Length >= MAX_HEADER
      ensures this.buf == buf && this.pr == pr && !checksumFooter
      ensures this.incoming == incoming && off == 0 && numRead == 0 && blocks == []
    {
      this.buf, this.pr, this.incoming := buf, pr, incoming;
      off, oldOffset, numRead, checksumFooter, blocks := 0, 0, 0, false, [];
    }

    ghost predicate Valid()
      reads this
    {
      off + numRead <= buf.Length && buf.Length >= MAX_HEADER
    }

    /** What is in the buffer and what is still to come. */
    ghost function Rest(): Bytes
      requires Valid()
      reads this, buf
    {
      buf[off..off + numRead] + incoming
    }

    ghost predicate Roomy(first: bool, ctl: nat)
      reads this
    {
      RoomyAt(buf.Length, off, numRead, first, ctl)
    }

    /** The socket gives any number of bytes it has; none means there are no more. */
    method SocketRead(at: nat, max: nat) returns (n: nat)
      requires max > 0 && at + max <= buf.Length
      modifies buf, this`incoming
      ensures n <= max && (n == 0 <==> old(incoming) == [])
      ensures buf[..at] == old(buf[..at]) && buf[at..at + n] + incoming == old(incoming)
    {
      if incoming == [] {
        return 0;
      }
      n :| 0 < n <= max && n <= |incoming|;
      forall i | 0 <= i < n {
        buf[at + i] := incoming[i];
      }
      assert buf[at..at + n] == incoming[..n];
      incoming := incoming[n..];
    }

    /** The first two requirements are the checks the program makes. */
    method ReadAtLeast(at: nat, max: nat, atLeast: nat, len: nat) returns (len': nat)
      requires atLeast > 0 && atLeast <= max
      requires len <= max && at + max <= buf.Length
      modifies buf, this`incoming
      ensures len <= len' <= max && (len' < atLeast ==> incoming == []) && buf[..at] == old(buf[..at])
      ensures buf[at..at + len'] + incoming == old(buf[at..at + len] + incoming)
    {
      len' := len;
      while len' < atLeast
        invariant len <= len' <= max && buf[..at] == old(buf[..at])
        invariant buf[at..at + len'] + incoming == old(buf[at..at + len] + incoming)
        decreases |incoming|
      {
        ghost var before, coming := buf[..], incoming;
        var n := SocketRead(at + len', max - len');
        assert buf[..at + len'] == before[..at + len'];
        assert buf[..at] == buf[..at + len'][..at];
        if n == 0 {
          return;
        }
        assert buf[at..at + len' + n] == before[at..at + len'] + buf[at + len'..at + len' + n];
        assert |coming| == n + |incoming|;
        len' := len' + n;
      }
    }

    /** Waits until enough is there to look at a command.  The program's own check stops it if there is no room. */
    method AwaitCommand() returns (wait: Wait)
      requires Valid()
      modifies buf, this`incoming, this`oldOffset, this`numRead
      ensures Valid() && oldOffset == off && numRead >= old(numRead) && Rest() == old(Rest())
      ensures wait == Tripped <==> off + MIN_BUF_LENGTH > buf.Length
      ensures wait != Tripped ==> (wait == Ready <==> |Rest()| >= MIN_BUF_LENGTH)
      ensures wait == Ready ==> numRead >= MIN_BUF_LENGTH
    {
      oldOffset := off;
      if MIN_BUF_LENGTH > buf.Length - off {
        return Tripped;
      }
      numRead := ReadAtLeast(off, buf.Length - off, MIN_BUF_LENGTH, numRead);
      wait := if numRead < MIN_BUF_LENGTH then Over else Ready;
    }

    /** The command at the offset, and the offset behind it; `whole` unless the buffer does not settle what it is. */
    method TakeCommand(ghost s: Bytes) returns (m: Option<Message>, whole: bool)
      requires ProtocolOk(pr) && Valid() && off == oldOffset && numRead >= MIN_BUF_LENGTH && s == Rest()
      modifies this`off
      ensures whole <==> Known(pr, buf[oldOffset..oldOffset + numRead])
      ensures !LongCommand(pr, s) ==> whole
      ensures whole ==> m == CommandAt(pr, s)
      ensures whole && m.Some? ==>
              TookCommand(m.value.len) && buf[off..oldOffset + numRead] + incoming == s[m.value.len..]
    {
      var window := buf[off..off + numRead];
      ghost var more := incoming;
      assert s == window + more;
      if !LongCommand(pr, s) {
        ShortIsKnown(pr, window, more);
      }
      m, whole := None, Known(pr, window);
      if whole {
        WindowDecodes(pr, window, more);
        m := CommandAt(pr, window);
        if m.Some? {
          SplitBehind(window, more, m.value.len);
          off := off + m.value.len;
          assert buf[off..oldOffset + numRead] == window[m.value.len..];
        }
      }
    }

    /** Data of a block: what is in the buffer already, then straight from the socket. */
    method ReadData(dataSize: nat, left: nat, ghost s: Bytes) returns (data: Bytes, checksum: int, left': nat)
      requires off + left <= buf.Length && buf.Length >= MAX_HEADER && ProtocolOk(pr)
      requires s == buf[off..off + left] + incoming
      modifies buf, this`incoming, this`off
      ensures data == s[..Least(dataSize, |s|)] && checksum == pr.crc(0, data)
      ensures off + left' <= buf.Length && buf[off..off + left'] + incoming == s[|data|..]
    {
      var toWrite := Least(left, dataSize);
      var window := buf[off..off + left];
      FrontOf(window, incoming, toWrite);
      data := window[..toWrite];
      assert buf[off + toWrite..off + left] == window[toWrite..];
      checksum := pr.crc(0, data);
      off := off + toWrite;
      left' := left - toWrite;
      if toWrite < dataSize {
        data, checksum := ReadRest(dataSize, data, checksum, s);
        assert buf[off..off] + incoming == incoming;
      }
    }

    method ReadRest(dataSize: nat, start: Bytes, checksum: int, ghost s: Bytes) returns (data: Bytes, checksum': int)
      requires |start| <= dataSize && buf.Length >= MAX_HEADER && ProtocolOk(pr) && checksum == pr.crc(0, start)
      requires s == start + incoming
      modifies buf, this`incoming
      ensures data == s[..Least(dataSize, |s|)] && incoming == s[|data|..] && checksum' == pr.crc(0, data)
    {
      data, checksum' := start, checksum;
      while |data| < dataSize
        invariant |data| <= dataSize && s == data + incoming && checksum' == pr.crc(0, data)
        decreases dataSize - |data|
      {
        ghost var coming := incoming;
        var n := SocketRead(0, Least(dataSize - |data|, buf.Length));
        if n == 0 {
          break;
        }
        var piece := buf[..n];
        assert coming == piece + incoming;
        assert data + coming == (data + piece) + incoming;
        checksum' := pr.crc(checksum', piece);
        data := data + piece;
      }
    }

    /** Leftover bytes stay where they are unless they are few and far behind. */
    method KeepLeftover(left: nat, ghost rest: Bytes)
      requires off + left <= buf.Length && buf.Length >= MAX_HEADER && rest == buf[off..off + left] + incoming
      modifies buf, this`off, this`numRead
      ensures Valid() && Rest() == rest && (off <= buf.Length / 2 || numRead >= MAX_HEADER)
    {
      if left > 0 {
        numRead := left;
        if left < MAX_HEADER && off > buf.Length / 2 {
          ghost var kept := buf[off..off + left];
          forall i | 0 <= i < left {
            buf[i] := buf[off + i];
          }
          assert buf[..left] == kept;
          off := 0;
        }
      } else {
        numRead, off := 0, 0;
      }
    }

    /** The state a turn of the command loop leaves, given what the plain parser does next. */
    ghost predicate Went(next: Next, footer: bool, first: bool, ctl: nat, before: seq<Received>, ending: Option<Ending>)
      reads this, buf
    {
      match next
      case Ends(e) => ending.Some? && Matches(e, ending.value) && blocks == before
      case Block(received, rest) => GoesOn(rest, footer, false, 0, ending) && blocks == before + [received]
      case Control(footer', len, rest) => GoesOn(rest, footer', first, ctl + len, ending) && blocks == before
    }

    ghost predicate GoesOn(rest: Bytes, footer: bool, first: bool, ctl: nat, ending: Option<Ending>)
      reads this, buf
    {
      ending == None && Valid() && Roomy(first, ctl) && Rest() == rest && checksumFooter == footer
    }

    /** The footer at the offset, if that is one, and the offset behind it. */
    method TakeFooter(ghost s: Bytes) returns (m: Option<Message>)
      requires ProtocolOk(pr) && Valid() && numRead >= MIN_BUF_LENGTH && s == Rest()
      modifies this`off, this`numRead
      ensures Valid() && m == FooterAt(pr, s)
      ensures m.Some? ==>
                && off == old(off) + m.value.len && numRead == old(numRead) - m.value.len
                && Rest() == s[m.value.len..]
    {
      var window := buf[off..off + numRead];
      ghost var more := incoming;
      assert s == window + more;
      if window[0] != FOOTER_CMD {
        NoFooter(pr, window + more);
        return None;
      }
      WindowDecodes(pr, window, more);
      m := FooterAt(pr, window);
      if m.Some? {
        SplitBehind(window, more, m.value.len);
        off := off + m.value.len;
        numRead := numRead - m.value.len;
        assert buf[off..off + numRead] == window[m.value.len..];
      }
    }

    /** The checksum command behind a block; there is always room to wait for it. */
    method ProcessFooter(received: Received, checksum: int, ghost next: Next) returns (ending: Option<Ending>)
      requires ProtocolOk(pr) && Valid() && checksum == pr.crc(0, received.data)
      requires off <= buf.Length / 2 || numRead >= MAX_HEADER
      requires next == AfterBlock(pr, true, received, Rest())
      modifies this`off, this`oldOffset, this`numRead, this`incoming, this`blocks, buf
      ensures Went(next, checksumFooter, false, 0, old(blocks), ending)
    {
      ghost var s := Rest();
      var wait := AwaitCommand();
      assert wait != Tripped;
      if wait == Over {
        return Some(Short);
      }
      ending := CheckFooter(received, checksum, s, next);
    }

    method CheckFooter(received: Received, checksum: int, ghost s: Bytes, ghost next: Next)
      returns (ending: Option<Ending>)
      requires ProtocolOk(pr) && Valid() && numRead >= MIN_BUF_LENGTH && s == Rest()
      requires off <= buf.Length / 2 || numRead >= MAX_HEADER
      requires next == AfterFooter(FooterAt(pr, s), checksum, received, s)
      modifies this`off, this`numRead, this`blocks
      ensures Went(next, checksumFooter, false, 0, old(blocks), ending)
    {
      var m := TakeFooter(s);
      if m.None? {
        return Some(Malformed);
      }
      if m.value.checksum != checksum {
        return Some(Mismatch(received));
      }
      blocks := blocks + [received];
      return None;
    }

    /** A command of `len` bytes has been taken; lengths still count from its start. */
    ghost predicate TookCommand(len: nat)
      reads this
    {
      oldOffset + numRead <= buf.Length && buf.Length >= MAX_HEADER && off == oldOffset + len && len <= numRead
    }

    /** The data of a block; if they are complete, what is left over becomes the new start. */
    method TakeData(dataSize: nat, ghost s: Bytes) returns (data: Bytes, checksum: int)
      requires ProtocolOk(pr) && oldOffset <= off <= oldOffset + numRead <= buf.Length && buf.Length >= MAX_HEADER
      requires s == buf[off..oldOffset + numRead] + incoming
      modifies this`off, this`numRead, this`incoming, buf
      ensures checksum == pr.crc(0, data) && data == s[..Least(dataSize, |s|)]
      ensures |data| == dataSize ==>
              Valid() && Rest() == s[dataSize..] && (off <= buf.Length / 2 || numRead >= MAX_HEADER)
    {
      var left := oldOffset + numRead - off;
      data, checksum, left := ReadData(dataSize, left, s);
      if |data| == dataSize {
        KeepLeftover(left, s[dataSize..]);
      }
    }

    /** A block: its data, what is left over, and its checksum if there is one. */
    method ProcessFileCmd(d: BlockDetails, len: nat, ghost s: Bytes, ghost next: Next) returns (ending: Option<Ending>)
      requires TookCommand(len) && ProtocolOk(pr) && s == buf[off..oldOffset + numRead] + incoming
      requires next == AfterHeader(pr, checksumFooter, d, s)
      modifies this`off, this`oldOffset, this`numRead, this`incoming, this`blocks, buf
      ensures !next.Control? && Went(next, checksumFooter, false, 0, old(blocks), ending)
    {
      var data, checksum := TakeData(d.dataSize, s);
      if |data| != d.dataSize {
        assert s[..|s|] == s;
        return Some(Partial(Received(d, data)));
      }
      ending := FinishBlock(Received(d, data), checksum, next);
    }

    method FinishBlock(received: Received, checksum: int, ghost next: Next) returns (ending: Option<Ending>)
      requires ProtocolOk(pr) && Valid() && checksum == pr.crc(0, received.data)
      requires off <= buf.Length / 2 || numRead >= MAX_HEADER
      requires next == AfterBlock(pr, checksumFooter, received, Rest())
      modifies this`off, this`oldOffset, this`numRead, this`incoming, this`blocks, buf
      ensures Went(next, checksumFooter, false, 0, old(blocks), ending)
    {
      if checksumFooter {
        ending := ProcessFooter(received, checksum, next);
      } else {
        blocks := blocks + [received];
        ending := None;
      }
    }

    /** Settings, sizes and the end of the stream. */
    method ProcessControl(m: Message, ghost first: bool, ghost ctl: nat, ghost s: Bytes)
      returns (ending: Option<Ending>)
      requires !m.FileMsg? && TookCommand(m.len) && numRead >= MIN_BUF_LENGTH && 0 < m.len <= |s|
      requires RoomyAt(buf.Length, oldOffset, numRead, first, ctl)
      requires numRead <= |s| && s[m.len..] == buf[off..oldOffset + numRead] + incoming
      modifies this`off, this`numRead, this`checksumFooter
      ensures Went(AfterControl(old(checksumFooter), s, m), old(checksumFooter), first, ctl, blocks, ending)
    {
      match m
      case SettingsMsg(settings, len) =>
        checksumFooter := settings.checksum;
        if settings.sendFileChunks {
          numRead, off := 0, 0;
          return Some(ChunksAsked);
        }
        numRead := numRead - len;
        return None;
      case SizeMsg(totalBytes, len) =>
        numRead := numRead - len;
        return None;
      case DoneMsg(done, len) =>
        return Some(if numRead != MIN_BUF_LENGTH then Malformed else Finished(done));
      case VersionMsg(version, len) =>
        return Some(OtherVersion(version));
      case FooterMsg(checksum, len) =>
        return Some(Malformed);
    }

    /**
     Reads what is missing of a header as the program does: the new bytes land as far behind the old ones as there
     are of these.  The program's own check stops it if there is no room.
     */
    method TopUpHeader(headerLen: nat) returns (tripped: bool)
      requires Valid() && off == oldOffset && 0 < numRead < headerLen
      modifies buf, this`incoming, this`numRead
      ensures tripped <==> headerLen > buf.Length - (oldOffset + old(numRead))
      ensures var n := numRead - old(numRead);
              && 0 <= n <= |old(incoming)| && incoming == old(incoming)[n..] && (tripped ==> n == 0)
              && (!tripped && numRead < headerLen ==> incoming == [])
              && oldOffset + numRead <= buf.Length
              && (!tripped ==>
                    buf[oldOffset..oldOffset + numRead] ==
                    ToppedUp(old(buf[oldOffset..oldOffset + numRead]),
                             old(buf[oldOffset + numRead..oldOffset + 2 * numRead]), old(incoming)[..n]))
    {
      var end := oldOffset + numRead;
      if headerLen > buf.Length - end {
        return true;
      }
      ghost var before := buf[..];
      var len := ReadAtLeast(end, buf.Length - end, headerLen, numRead);
      ghost var after := buf[..];
      assert after[..end] == before[..end];
      TopUpLands(before, after, oldOffset, numRead, len, old(incoming), incoming);
      numRead := len;
      tripped := false;
    }

    method ProcessMessage(m: Option<Message>, ghost first: bool, ghost ctl: nat, ghost s: Bytes, ghost next: Next)
      returns (ending: Option<Ending>)
      requires ProtocolOk(pr) && numRead >= MIN_BUF_LENGTH && numRead <= |s|
      requires m.Some? ==> 0 < m.value.len <= |s| && TookCommand(m.value.len)
                           && s[m.value.len..] == buf[off..oldOffset + numRead] + incoming
      requires RoomyAt(buf.Length, oldOffset, numRead, first, ctl)
      requires next == NextFrom(pr, checksumFooter, s, m)
      modifies this`off, this`oldOffset, this`numRead, this`incoming, this`blocks, this`checksumFooter, buf
      ensures Went(next, old(checksumFooter), first, ctl, old(blocks), ending)
    {
      if m.None? {
        return Some(Malformed);
      }
      if m.value.FileMsg? {
        ending := ProcessFileCmd(m.value.details, m.value.len, s[m.value.len..], next);
      } else {
        ending := ProcessControl(m.value, first, ctl, s);
      }
    }

    /** One turn of the command loop. */
    method ProcessCommand(ghost first: bool, ghost ctl: nat, ghost s: Bytes, ghost next: Next)
      returns (ending: Option<Ending>, failure: Option<Failure>)
      requires Valid() && Roomy(first, ctl) && ProtocolOk(pr) && s == Rest()
      requires next == NextOf(pr, checksumFooter, s)
      modifies this`off, this`oldOffset, this`numRead, this`incoming, this`blocks, this`checksumFooter, buf
      ensures failure.None? ==> Went(next, old(checksumFooter), first, ctl, old(blocks), ending)
      ensures failure.Some? ==> ending.None? && blocks == old(blocks)
      ensures failure == Some(NoRoom) <==> old(off) + MIN_BUF_LENGTH > buf.Length
      ensures failure == Some(Torn) ==> LongCommand(pr, s)
    {
      var wait := AwaitCommand();
      if wait == Tripped {
        return None, Some(NoRoom);
      }
      if wait == Over {
        return Some(Short), None;
      }
      var m, whole := TakeCommand(s);
      if !whole {
        return None, Some(Torn);
      }
      ending := ProcessMessage(m, first, ctl, s, next);
      failure := None;
    }

    /** Between commands: what has come and what is ahead make up the whole. */
    ghost predicate OnTrack(start: Start, first: bool, ctl: nat)
      reads this, buf
    {
      && Valid() && Roomy(first, ctl) && (first <==> blocks == [])
      && IsAhead(start, pr, checksumFooter, Rest(), buf.Length, first, ctl, blocks)
    }

    method Turn(ghost start: Start, ghost first: bool, ghost ctl: nat)
      returns (ending: Option<Ending>, failure: Option<Failure>, ghost first': bool, ghost ctl': nat)
      requires ProtocolOk(pr) && OnTrack(start, first, ctl)
      modifies this`off, this`oldOffset, this`numRead, this`incoming, this`blocks, this`checksumFooter, buf
      ensures ending.None? && failure.None? ==> OnTrack(start, first', ctl') && |Rest()| < |old(Rest())|
      ensures (ending.Some? || failure.Some?) ==> Conclusion(start, buf.Length, blocks, ending, failure)
    {
      ghost var s, footer, before := Rest(), checksumFooter, blocks;
      ghost var next := NextOf(pr, footer, s);
      AheadStep(start, pr, footer, s, buf.Length, first, ctl, before, next);
      ending, failure := ProcessCommand(first, ctl, s, next);
      first', ctl' := first && !next.Block?, if next.Control? then ctl + next.len else 0;
      if ending.Some? || failure.Some? {
        Concludes(start, pr, footer, s, buf.Length, old(off), old(numRead), first, ctl, before, next, ending, failure);
      }
    }

    /**
     However the socket splits the stream: unless the buffer is too small for a command, or for waiting for one, the
     loop ends as the plain parser does, with the same blocks.
     */
    method Run() returns (ending: Option<Ending>, failure: Option<Failure>)
      requires Valid() && off == 0 && ProtocolOk(pr) && blocks == []
      modifies this`off, this`oldOffset, this`numRead, this`incoming, this`blocks, this`checksumFooter, buf
      ensures ending.Some? <==> failure.None?
      ensures Conclusion(StartOf(pr, old(checksumFooter), old(Rest()), buf.Length), buf.Length, blocks, ending, failure)
    {
      ghost var start := StartOf(pr, checksumFooter, Rest(), buf.Length);
      ghost var first, ctl: nat := true, 0;
      ending, failure := None, None;
      while ending.None? && failure.None?
        invariant ending.None? && failure.None? ==> OnTrack(start, first, ctl)
        invariant ending.Some? || failure.Some? ==> Conclusion(start, buf.Length, blocks, ending, failure)
        decreases ending.None? && failure.None?, if ending.None? && failure.None? then |Rest()| else 0
      {
        ending, failure, first, ctl := Turn(start, first, ctl);
      }
    }
  }

  /** What is to be said of a stream as a whole. */
  datatype Start = Start(result: Result, short: bool, fits: bool, leadIn: nat)

  ghost function StartOf(pr: Protocol, footer: bool, s: Bytes, bufSize: nat): Start {
    Start(Plain(pr, footer, s), ShortCommands(pr, footer, s), GapsFit(pr, footer, s, bufSize, true, 0),
          LeadIn(pr, footer, s))
  }

  /**
   What the loop has done in the end.  A failure leaves a part of the blocks.  Short commands are not torn, and there
   is room if the settings and sizes between blocks are few; before the first block, exactly if they are.
   */
  predicate Conclusion(start: Start, bufSize: nat, blocks: seq<Received>, ending: Option<Ending>,
                       failure: Option<Failure>) {
    && (ending.Some? <==> failure.None?)
    && (ending.Some? ==> blocks == start.result.blocks && Matches(start.result.ending, ending.value))
    && blocks <= start.result.blocks
    && (start.short ==> failure != Some(Torn))
    && (start.fits ==> failure != Some(NoRoom))
    && (failure != Some(Torn) ==>
          (failure == Some(NoRoom) && blocks == [] <==> start.leadIn + MIN_BUF_LENGTH > bufSize))
  }

  /** What was received so far and what is ahead make up the whole. */
  predicate Ahead(all: Result, blocks: seq<Received>, later: Result) {
    all == Result(blocks + later.blocks, later.ending)
  }

  ghost predicate IsAhead(start: Start, pr: Protocol, footer: bool, s: Bytes, bufSize: nat, first: bool, ctl: nat,
                          blocks: seq<Received>)
  {
    && Ahead(start.result, blocks, Plain(pr, footer, s))
    && (start.short ==> ShortCommands(pr, footer, s))
    && (start.fits ==> GapsFit(pr, footer, s, bufSize, first, ctl))
    && (if first then start.leadIn == ctl + LeadIn(pr, footer, s) else start.leadIn + MIN_BUF_LENGTH <= bufSize)
  }

  lemma PlainStep(pr: Protocol, footer: bool, s: Bytes, next: Next, all: Result, blocks: seq<Received>)
    requires next == NextOf(pr, footer, s) && Ahead(all, blocks, Plain(pr, footer, s))
    ensures blocks <= all.blocks
    ensures next.Ends? ==> all == Result(blocks, next.ending)
    ensures next.Control? ==> |next.rest| < |s| && Ahead(all, blocks, Plain(pr, next.footer, next.rest))
    ensures next.Block? ==> |next.rest| < |s| && Ahead(all, blocks + [next.received], Plain(pr, footer, next.rest))
                            && blocks + [next.received] <= all.blocks
  {
    PlainIs(pr, footer, s, next);
    if next.Ends? {
      assert blocks + [] == blocks;
    } else if next.Block? {
      AheadBlock(all, blocks, next.received, Plain(pr, footer, next.rest));
    }
  }

  lemma AheadBlock(all: Result, blocks: seq<Received>, received: Received, later: Result)
    requires Ahead(all, blocks, Prepend(received, later))
    ensures Ahead(all, blocks + [received], later) && blocks + [received] <= all.blocks
  {
    assert blocks + ([received] + later.blocks) == (blocks + [received]) + later.blocks;
  }

  /** The bookkeeping over one command, if there was room for it. */
  lemma AheadStep(start: Start, pr: Protocol, footer: bool, s: Bytes, bufSize: nat, first: bool, ctl: nat,
                  blocks: seq<Received>, next: Next)
    requires next == NextOf(pr, footer, s) && IsAhead(start, pr, footer, s, bufSize, first, ctl, blocks)
    ensures blocks <= start.result.blocks && (start.short ==> !LongCommand(pr, s))
    ensures start.fits ==> Room(bufSize, first, ctl)
    ensures next.Ends? ==> start.result == Result(blocks, next.ending) && (first ==> start.leadIn == ctl)
    ensures next.Control? ==>
              |next.rest| < |s| && IsAhead(start, pr, next.footer, next.rest, bufSize, first, ctl + next.len, blocks)
    ensures next.Block? && (first ==> ctl + MIN_BUF_LENGTH <= bufSize) ==>
              |next.rest| < |s| && IsAhead(start, pr, footer, next.rest, bufSize, false, 0, blocks + [next.received])
  {
    PlainStep(pr, footer, s, next, start.result, blocks);
    ShortCommandsIs(pr, footer, s, next);
    GapsFitIs(pr, footer, s, bufSize, first, ctl, next);
    LeadInIs(pr, footer, s, next);
  }

  lemma Concludes(start: Start, pr: Protocol, footer: bool, s: Bytes, bufSize: nat, off: nat, numRead: nat,
                  first: bool, ctl: nat, blocks: seq<Received>, next: Next, ending: Option<Ending>,
                  failure: Option<Failure>)
    requires next == NextOf(pr, footer, s) && IsAhead(start, pr, footer, s, bufSize, first, ctl, blocks)
    requires (first <==> blocks == []) && off + numRead <= bufSize && RoomyAt(bufSize, off, numRead, first, ctl)
    requires failure == Some(NoRoom) <==> off + MIN_BUF_LENGTH > bufSize
    requires failure == Some(Torn) ==> LongCommand(pr, s)
    requires ending.Some? <==> failure.None?
    requires ending.Some? ==> next.Ends? && Matches(next.ending, ending.value)
    ensures Conclusion(start, bufSize, blocks, ending, failure)
  {
    AheadStep(start, pr, footer, s, bufSize, first, ctl, blocks, next);
    if failure.Some? {
      assert failure.value == NoRoom || failure.value == Torn;
    }
  }
}
