/** A connection from end to end: the blocks a sender writes are the blocks the receiver's buffer loop takes in. */
module BlockDelivery {
  import opened Options
  import opened Wire
  import opened Messages
  import opened ReceiverStream
  import opened ReceiverBuffers
  import opened SentStream

  /**
   However the socket splits what a sender wrote: the receiver has the first of its blocks, and all of them and the
   end if nothing stops it.  Nothing does if all commands are short and the settings and sizes between blocks fit.
   Before the first block there is no room exactly if those in front of it come too near the end of the buffer.
   */
  method Receive(version: Int32, crc: (int, Bytes) -> int, items: seq<Item>, c: Closing, pad: Bytes, bufSize: nat)
    returns (blocks: seq<Received>, ending: Option<Ending>, failure: Option<Failure>)
    requires forall v, a, b {:trigger crc(crc(v, a), b)} :: crc(crc(v, a), b) == crc(v, a + b)
    requires bufSize >= MAX_HEADER && ItemsOk(version, crc, false, items)
    requires 0 <= c.done.bytesSent < I64_LIMIT && |DoneBytes(version, c) + pad| == MIN_BUF_LENGTH
    ensures blocks <= Arriving(version, items)
    ensures failure.None? ==>
            blocks == Arriving(version, items) && ending == Some(Finished(CarriedDone(version, c.done)))
    ensures failure == Some(Torn) ==> !AllShort(version, items)
    ensures failure == Some(NoRoom) ==> !ItemsFit(version, bufSize, items, true, 0)
    ensures failure != Some(Torn) ==>
              (failure == Some(NoRoom) && blocks == [] <==> LeadLength(version, items) + MIN_BUF_LENGTH > bufSize)
  {
    var pr, stream := ProtocolOf(version, crc), Sent(version, crc, false, items, DoneBytes(version, c) + pad);
    CommandsAreOk(version, crc);
    SentIsParsed(version, crc, false, items, c, pad, bufSize);
    var buf := new Byte[bufSize];
    var connection := new Connection(buf, pr, stream);
    assert connection.Rest() == stream;
    ending, failure := connection.Run();
    blocks := connection.blocks;
  }

  // ---- what a sender writes

  /** Settings first, then blocks, and a size after any of these but never two in a row. */
  predicate Orderly(items: seq<Item>) {
    && (forall i :: 0 < i < |items| ==> !items[i].SettingsItem?)
    && (forall i :: 0 < i < |items| && items[i].SizeItem? ==> !items[i - 1].SizeItem?)
  }

  /** How many bytes may have gone before. */
  predicate LittleBefore(items: seq<Item>, ctl: nat) {
    if items != [] && items[0].SettingsItem? then ctl == 0
    else if items != [] && items[0].SizeItem? then ctl <= MAX_SETTINGS
    else ctl <= MAX_SETTINGS + 10
  }

  /** There is always room for what a sender writes. */
  lemma {:induction false} OrderlyFits(version: Int32, crc: (int, Bytes) -> int, footer: bool, bufSize: nat,
                                       items: seq<Item>, first: bool, ctl: nat)
    requires bufSize >= MAX_HEADER && Orderly(items) && ItemsOk(version, crc, footer, items) && LittleBefore(items, ctl)
    ensures ItemsFit(version, bufSize, items, first, ctl)
    decreases |items|
  {
    if items != [] {
      var rest, len := items[1..], ControlLen(version, items[0]);
      OrderlyRest(items);
      if items[0].SizeItem? {
        SizeLength(items[0].totalBytes);
      }
      var footer' := FooterBehind(version, footer, items[0]);
      if items[0].BlockItem? {
        OrderlyFits(version, crc, footer', bufSize, rest, false, 0);
      } else {
        OrderlyFits(version, crc, footer', bufSize, rest, first, ctl + len);
      }
    }
  }

  lemma OrderlyRest(items: seq<Item>)
    requires items != [] && Orderly(items)
    ensures Orderly(items[1..])
    ensures |items| > 1 ==> !items[1].SettingsItem? && (items[1].SizeItem? ==> !items[0].SizeItem?)
  {
  }

  /** There is not always room for what a receiver would accept: as many sizes as the buffer has bytes are too many. */
  lemma ManySizesHaveNoRoom(version: Int32, crc: (int, Bytes) -> int, bufSize: nat) returns (items: seq<Item>)
    ensures ItemsOk(version, crc, false, items) && AllShort(version, items)
    ensures LeadLength(version, items) + MIN_BUF_LENGTH > bufSize
  {
    items := seq(bufSize, i => SizeItem(0));
    Sizes(version, crc, items);
  }

  lemma {:induction false} Sizes(version: Int32, crc: (int, Bytes) -> int, items: seq<Item>)
    requires forall i :: 0 <= i < |items| ==> items[i].SizeItem?
    ensures ItemsOk(version, crc, false, items) && LeadLength(version, items) >= |items|
  {
    if items != [] {
      Sizes(version, crc, items[1..]);
    }
  }
}
