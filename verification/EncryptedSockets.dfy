/**
 The two ends of an encrypted connection as the program runs them: writes and reads of any size are broken at tag
 positions computed from the running totals, and low-level reads may return fewer bytes than asked for.
 */
module EncryptedSockets {
  import opened Options
  import opened Wire
  import opened EncryptedStream

  // ---- runs without a tag

  /** How many bytes may pass before the next tag; 0 if it is due now. */
  function NextTagOffset(total: nat, tagInterval: nat): (off: nat)
    requires tagInterval > 0
    ensures off <= tagInterval
  {
    if total == 0 then tagInterval
    else
      var off := tagInterval - total % tagInterval;
      if off == tagInterval then 0 else off
  }

  predicate NoTagDue(cfg: Config, from: nat, to: nat) {
    forall t :: from <= t < to ==> !TagDue(cfg, t)
  }

  lemma ModuloPlus(total: nat, i: nat, n: nat)
    requires n > 0 && total % n + i < n
    ensures (total + i) % n == total % n + i
  {
    assert total + i == (total / n) * n + (total % n + i);
    ModuloIs(total / n, n, total % n + i);
  }

  /** The computed offset is where the next tag is due, and nowhere before. */
  lemma NextTagIsThere(cfg: Config, total: nat)
    requires cfg.tagInterval > 0
    ensures var off := NextTagOffset(total, cfg.tagInterval);
            NoTagDue(cfg, total, total + off) && TagDue(cfg, total + off)
  {
    var n := cfg.tagInterval;
    var off := NextTagOffset(total, n);
    SmallModulo(0, n);
    forall t: nat | total <= t < total + off ensures !TagDue(cfg, t) {
      ModuloPlus(total, t - total, n);
    }
    if off > 0 {
      ModuloPlus(total, off - 1, n);
      ModuloStep(total + off - 1, n);
    }
  }

  /** Right behind a tag there is room for a whole interval. */
  lemma RoomBehindTag(cfg: Config, total: nat, n: nat)
    requires TagDue(cfg, total) && 0 < n <= cfg.tagInterval
    ensures NoTagDue(cfg, total + 1, total + n)
  {
    forall t: nat | total + 1 <= t < total + n ensures !TagDue(cfg, t) {
      ModuloPlus(total, t - total, cfg.tagInterval);
    }
  }

  function EncryptRun(cfg: Config, e: End, p: Bytes): (w: Bytes)
    ensures |w| == |p|
    decreases |p|
  {
    if p == [] then [] else [EncryptByte(cfg, e, p[0])] + EncryptRun(cfg, Advance(e, p[0]), p[1..])
  }

  function DecryptRun(cfg: Config, e: End, w: Bytes): (p: Bytes)
    ensures |p| == |w|
    decreases |w|
  {
    if w == [] then []
    else
      var b := cfg.cipher.decrypt(e.iv, |e.since|, w[0]);
      [b] + DecryptRun(cfg, Advance(e, b), w[1..])
  }

  function Ran(e: End, p: Bytes): End {
    e.(total := e.total + |p|, since := e.since + p)
  }

  lemma {:induction false} RunIsFrame(cfg: Config, e: End, p: Bytes)
    requires NoTagDue(cfg, e.total, e.total + |p|)
    ensures Frame(cfg, e, p) == EncryptRun(cfg, e, p) && After(cfg, e, p) == Ran(e, p)
    decreases |p|
  {
    if p == [] {
      assert e.since + [] == e.since;
    } else {
      assert !TagDue(cfg, e.total);
      RunIsFrame(cfg, Advance(e, p[0]), p[1..]);
      assert e.since + [p[0]] + p[1..] == e.since + p;
    }
  }

  lemma RunBehindTag(cfg: Config, e: End, e1: End, p: Bytes)
    requires TagDue(cfg, e.total) && 0 < |p| <= cfg.tagInterval && e1.total == e.total + 1
    ensures Frame(cfg, e1, p[1..]) == EncryptRun(cfg, e1, p[1..]) && After(cfg, e1, p[1..]) == Ran(e1, p[1..])
  {
    RoomBehindTag(cfg, e.total, |p|);
    RunIsFrame(cfg, e1, p[1..]);
  }

  /** A run that begins where a tag is due is the lead and then a run. */
  lemma LeadThenRun(cfg: Config, e: End, p: Bytes)
    requires TagDue(cfg, e.total) && 0 < |p| <= cfg.tagInterval
    ensures var e' := AfterLead(cfg, e);
            Frame(cfg, e, p) == Lead(cfg, e) + EncryptRun(cfg, e', p) && After(cfg, e, p) == Ran(e', p)
  {
    var e', lead := AfterLead(cfg, e), Lead(cfg, e);
    var e1, x := Advance(e', p[0]), EncryptByte(cfg, e', p[0]);
    RunBehindTag(cfg, e, e1, p);
    RanFirst(e', p);
    var rest := EncryptRun(cfg, e1, p[1..]);
    assert lead + [x] + rest == lead + ([x] + rest);
  }

  lemma RanFirst(e: End, p: Bytes)
    requires p != []
    ensures Ran(Advance(e, p[0]), p[1..]) == Ran(e, p)
  {
    assert e.since + [p[0]] + p[1..] == e.since + p;
  }

  /** A write that a tag falls into. */
  lemma TagWithin(cfg: Config, e: End, p: Bytes, off: nat, out: Bytes)
    requires off < |p| <= cfg.tagInterval && NoTagDue(cfg, e.total, e.total + off) && TagDue(cfg, e.total + off)
    ensures var e1 := Ran(e, p[..off]);
            var e2 := AfterLead(cfg, e1);
            && out + Frame(cfg, e, p) ==
               out + EncryptRun(cfg, e, p[..off]) + Lead(cfg, e1) + EncryptRun(cfg, e2, p[off..])
            && After(cfg, e, p) == Ran(e2, p[off..])
  {
    var head, tail := p[..off], p[off..];
    assert p == head + tail;
    FramesOfParts(cfg, e, head, tail);
    var e1 := Ran(e, head);
    Regroup(out, EncryptRun(cfg, e, head), Lead(cfg, e1), EncryptRun(cfg, AfterLead(cfg, e1), tail), Frame(cfg, e, p));
  }

  lemma FramesOfParts(cfg: Config, e: End, head: Bytes, tail: Bytes)
    requires NoTagDue(cfg, e.total, e.total + |head|) && TagDue(cfg, e.total + |head|) && 0 < |tail| <= cfg.tagInterval
    ensures var e1 := Ran(e, head);
            var e2 := AfterLead(cfg, e1);
            && Frame(cfg, e, head + tail) == EncryptRun(cfg, e, head) + (Lead(cfg, e1) + EncryptRun(cfg, e2, tail))
            && After(cfg, e, head + tail) == Ran(e2, tail)
  {
    RunIsFrame(cfg, e, head);
    FrameConcat(cfg, e, head, tail);
    LeadThenRun(cfg, Ran(e, head), tail);
  }

  lemma Regroup(out: Bytes, a: Bytes, b: Bytes, c: Bytes, all: Bytes)
    requires all == a + (b + c)
    ensures out + all == out + a + b + c
  {
  }

  lemma FrameAppends(cfg: Config, e: End, p: Bytes, q: Bytes, out: Bytes)
    ensures out + Frame(cfg, e, p + q) == out + Frame(cfg, e, p) + Frame(cfg, After(cfg, e, p), q)
    ensures After(cfg, e, p + q) == After(cfg, After(cfg, e, p), q)
  {
    FrameConcat(cfg, e, p, q);
  }

  lemma {:induction false} RunIsUnframed(cfg: Config, e: End, w: Bytes, k: nat)
    requires k <= |w| && NoTagDue(cfg, e.total, e.total + k)
    ensures var p := DecryptRun(cfg, e, w[..k]);
            && p <= Unframe(cfg, e, w) && |p| == k
            && Take(cfg, e, w, k) == (Ran(e, p), w[k..])
    decreases k
  {
    if k == 0 {
      assert e.since + [] == e.since;
    } else {
      assert !TagDue(cfg, e.total);
      var b := cfg.cipher.decrypt(e.iv, |e.since|, w[0]);
      var e1 := Advance(e, b);
      RunIsUnframed(cfg, e1, w[1..], k - 1);
      var q := DecryptRun(cfg, e1, w[1..][..k - 1]);
      assert w[..k][1..] == w[1..][..k - 1];
      assert Unframe(cfg, e, w) == [b] + Unframe(cfg, e1, w[1..]);
      assert e.since + [b] + q == e.since + ([b] + q);
      assert w[1..][k - 1..] == w[k..];
    }
  }

  lemma LeadThenUnframed(cfg: Config, e: End, w: Bytes, e': End, w': Bytes, k: nat)
    requires TagDue(cfg, e.total) && 0 < k <= cfg.tagInterval && k <= |w'|
    requires ReadLead(cfg, e, w).Some? && ReadLead(cfg, e, w).value == (e', w')
    ensures var p := DecryptRun(cfg, e', w'[..k]);
            && p <= Unframe(cfg, e, w) && |p| == k
            && Take(cfg, e, w, k) == (Ran(e', p), w'[k..])
  {
    var b := cfg.cipher.decrypt(e'.iv, |e'.since|, w'[0]);
    var e1 := Advance(e', b);
    RoomBehindTag(cfg, e.total, k);
    RunIsUnframed(cfg, e1, w'[1..], k - 1);
    var q := DecryptRun(cfg, e1, w'[1..][..k - 1]);
    assert w'[..k][1..] == w'[1..][..k - 1];
    assert Unframe(cfg, e, w) == [b] + Unframe(cfg, e1, w'[1..]);
    assert e'.since + [b] + q == e'.since + ([b] + q);
    assert w'[1..][k - 1..] == w'[k..];
  }

  // ---- the writing end

  class WritingEnd {
    const config: Config
    var sent: Bytes
    var totalWritten: nat
    var iv: Bytes
    var encrypted: Bytes
    var drawn: nat

    constructor (config: Config, iv: Bytes)
      ensures this.config == config && Here() == Start(iv) && sent == []
    {
      this.config, this.iv := config, iv;
      sent, totalWritten, encrypted, drawn := [], 0, [], 0;
    }

    ghost function Here(): End
      reads this
    {
      End(totalWritten, iv, encrypted, drawn)
    }

    method EncryptAndWrite(buf: Bytes)
      modifies this`sent, this`encrypted, this`totalWritten
      ensures sent == old(sent) + EncryptRun(config, old(Here()), buf) && Here() == Ran(old(Here()), buf)
    {
      ghost var e := Here();
      ghost var all := sent + EncryptRun(config, e, buf);
      for i := 0 to |buf|
        invariant Here() == Ran(e, buf[..i]) && all == sent + EncryptRun(config, Here(), buf[i..])
      {
        ghost var before, here := sent, Here();
        var b := buf[i];
        assert buf[i..][0] == b && buf[i..][1..] == buf[i + 1..] && buf[..i + 1] == buf[..i] + [b];
        sent := sent + [config.cipher.encrypt(iv, |encrypted|, b)];
        encrypted := encrypted + [b];
        totalWritten := totalWritten + 1;
        assert encrypted == e.since + buf[..i + 1];
        assert before + EncryptRun(config, here, buf[i..]) == sent + EncryptRun(config, Advance(here, b), buf[i + 1..]);
      }
      assert buf[..|buf|] == buf && sent + [] == sent;
    }

    /** The tag, and a new IV if it is time for one. */
    method WriteTagAndChangeIv()
      requires TagDue(config, totalWritten)
      modifies this`sent, this`iv, this`encrypted, this`drawn
      ensures sent == old(sent) + Lead(config, old(Here())) && Here() == AfterLead(config, old(Here()))
    {
      var tag := config.cipher.tag(iv, encrypted);
      sent := sent + tag;
      if config.ivChangeInterval == 0 {
        return;
      }
      if |encrypted| + config.tagInterval <= config.ivChangeInterval {
        return;
      }
      iv, encrypted := config.cipher.newIv(drawn), [];
      drawn := drawn + 1;
      sent := sent + iv;
    }

    method EncryptAndWriteWithTag(buf: Bytes)
      requires 0 < |buf| <= config.tagInterval
      modifies this`sent, this`iv, this`encrypted, this`drawn, this`totalWritten
      ensures sent == old(sent) + Frame(config, old(Here()), buf) && Here() == After(config, old(Here()), buf)
    {
      var nextTagOffset := NextTagOffset(totalWritten, config.tagInterval);
      NextTagIsThere(config, totalWritten);
      ghost var e := Here();
      if nextTagOffset < |buf| {
        TagWithin(config, e, buf, nextTagOffset, sent);
        if nextTagOffset > 0 {
          EncryptAndWrite(buf[..nextTagOffset]);
        } else {
          assert e.since + [] == e.since && sent + [] == sent;
        }
        WriteTagAndChangeIv();
        EncryptAndWrite(buf[nextTagOffset..]);
      } else {
        RunIsFrame(config, e, buf);
        EncryptAndWrite(buf);
      }
    }

    /** A write of any size. */
    method Write(buf: Bytes)
      modifies this`sent, this`iv, this`encrypted, this`drawn, this`totalWritten
      ensures sent == old(sent) + Frame(config, old(Here()), buf) && Here() == After(config, old(Here()), buf)
    {
      ghost var e := Here();
      if config.tagInterval == 0 {
        RunIsFrame(config, e, buf);
        EncryptAndWrite(buf);
        return;
      }
      var written := 0;
      while written < |buf|
        invariant 0 <= written <= |buf|
        invariant sent == old(sent) + Frame(config, e, buf[..written]) && Here() == After(config, e, buf[..written])
      {
        var toWrite := Least(|buf| - written, config.tagInterval);
        var next := buf[written..written + toWrite];
        FrameAppends(config, e, buf[..written], next, old(sent));
        assert buf[..written + toWrite] == buf[..written] + next;
        EncryptAndWriteWithTag(next);
        written := written + toWrite;
      }
      assert buf[..|buf|] == buf;
    }
  }

  // ---- the reading end

  /** Tags are only used with a cipher that has them. */
  predicate TagsOk(cfg: Config) {
    cfg.tagInterval > 0 ==> cfg.cipher.tagLen > 0
  }

  class ReadingEnd {
    const config: Config
    /** What has come in and was not read yet. */
    var incoming: Bytes
    var totalRead: nat
    var iv: Bytes
    var decrypted: Bytes
    var drawn: nat
    /** A low-level read failed, or something was wrong with a tag; nothing is read any more. */
    var closed: bool

    constructor (config: Config, iv: Bytes)
      ensures this.config == config && Here() == Start(iv) && incoming == [] && !closed
    {
      this.config, this.iv := config, iv;
      incoming, totalRead, decrypted, drawn, closed := [], 0, [], 0, false;
    }

    ghost function Here(): End
      reads this
    {
      End(totalRead, iv, decrypted, drawn)
    }

    /** More of the stream comes in. */
    method Arrive(bytes: Bytes)
      modifies this`incoming
      ensures incoming == old(incoming) + bytes
    {
      incoming := incoming + bytes;
    }

    /** A low-level read gives any number of bytes up to what is asked for and there; none closes the session. */
    method ReadInternal(nbyte: nat) returns (data: Bytes)
      requires nbyte > 0
      modifies this`incoming, this`closed
      ensures |data| <= nbyte && old(incoming) == data + incoming
      ensures closed == (old(closed) || data == [])
    {
      var n: nat :| n <= nbyte && n <= |incoming|;
      data := incoming[..n];
      incoming := incoming[n..];
      if n == 0 {
        closed := true;
      }
    }

    method ReadAndDecrypt(nbyte: nat) returns (data: Bytes)
      requires nbyte > 0 && !closed
      modifies this`incoming, this`closed, this`decrypted, this`totalRead
      ensures |data| <= nbyte && |data| <= |old(incoming)| && closed == (data == [])
      ensures data == DecryptRun(config, old(Here()), old(incoming)[..|data|])
      ensures Here() == Ran(old(Here()), data) && incoming == old(incoming)[|data|..]
    {
      var raw := ReadInternal(nbyte);
      assert old(incoming)[..|raw|] == raw && old(incoming)[|raw|..] == incoming;
      data := Decrypt(raw);
    }

    method Decrypt(raw: Bytes) returns (data: Bytes)
      modifies this`decrypted, this`totalRead
      ensures data == DecryptRun(config, old(Here()), raw) && Here() == Ran(old(Here()), data)
    {
      ghost var e := Here();
      ghost var all := DecryptRun(config, e, raw);
      data := [];
      assert e.since + [] == e.since;
      for i := 0 to |raw|
        invariant |data| == i && Here() == Ran(e, data) && all == data + DecryptRun(config, Here(), raw[i..])
      {
        var b := config.cipher.decrypt(iv, |decrypted|, raw[i]);
        DecryptNext(config, e, Here(), data, raw, i, all);
        data := data + [b];
        decrypted := decrypted + [b];
        totalRead := totalRead + 1;
      }
      assert data + [] == data;
    }

    /** The tag must be there and right, and so must the IV behind it if one is due. */
    method ReadTagAndChangeIv() returns (ok: bool)
      requires TagDue(config, totalRead) && !closed && TagsOk(config)
      modifies this`incoming, this`closed, this`iv, this`decrypted, this`drawn
      ensures var lead := ReadLead(config, old(Here()), old(incoming));
              ok == !closed && (ok ==> lead.Some? && lead.value == (Here(), incoming))
    {
      var tag := ReadInternal(config.cipher.tagLen);
      if |tag| != config.cipher.tagLen || tag != config.cipher.tag(iv, decrypted) {
        closed := true;
        return false;
      }
      assert old(incoming)[..config.cipher.tagLen] == tag && old(incoming)[config.cipher.tagLen..] == incoming;
      if config.ivChangeInterval == 0 {
        return true;
      }
      if |decrypted| + config.tagInterval <= config.ivChangeInterval {
        return true;
      }
      ghost var behind := incoming;
      var newIv := ReadInternal(AES_BLOCK_SIZE);
      if |newIv| != AES_BLOCK_SIZE {
        closed := true;
        return false;
      }
      assert behind[..AES_BLOCK_SIZE] == newIv && behind[AES_BLOCK_SIZE..] == incoming;
      iv, decrypted := newIv, [];
      drawn := drawn + 1;
      return true;
    }

    /** One read of at most a tag interval. */
    method ReadAndDecryptWithTag(nbyte: nat) returns (data: Bytes)
      requires 0 < nbyte <= config.tagInterval && !closed && TagsOk(config)
      modifies this`incoming, this`closed, this`iv, this`decrypted, this`drawn, this`totalRead
      ensures |data| <= nbyte && data <= Unframe(config, old(Here()), old(incoming))
      ensures !closed ==> data != [] && Take(config, old(Here()), old(incoming), |data|) == (Here(), incoming)
    {
      var nextTagOffset := NextTagOffset(totalRead, config.tagInterval);
      NextTagIsThere(config, totalRead);
      ghost var e, w := Here(), incoming;
      if nextTagOffset >= nbyte {
        data := ReadAndDecrypt(nbyte);
        RunIsUnframed(config, e, w, |data|);
        return;
      }
      data := [];
      if nextTagOffset > 0 {
        data := ReadAndDecrypt(nextTagOffset);
        RunIsUnframed(config, e, w, |data|);
        if |data| < nextTagOffset {
          return;
        }
      }
      ghost var e1, w1 := Here(), incoming;
      assert Take(config, e, w, |data|) == (e1, w1);
      var ok := ReadTagAndChangeIv();
      if !ok {
        return;
      }
      ghost var e2, w2 := Here(), incoming;
      var rest := ReadAndDecrypt(nbyte - |data|);
      if rest == [] {
        return;
      }
      LeadThenUnframed(config, e1, w1, e2, w2, |rest|);
      ReadMore(config, e, w, data, e1, w1, rest);
      data := data + rest;
    }

    /** A read of any size; it may be short, and what it gives is always the next part of the stream. */
    method Read(nbyte: nat) returns (data: Bytes)
      requires nbyte > 0 && !closed && TagsOk(config)
      modifies this`incoming, this`closed, this`iv, this`decrypted, this`drawn, this`totalRead
      ensures |data| <= nbyte && data <= Unframe(config, old(Here()), old(incoming))
      ensures !closed ==> data != [] && Take(config, old(Here()), old(incoming), |data|) == (Here(), incoming)
    {
      ghost var e, w := Here(), incoming;
      if config.tagInterval == 0 {
        data := ReadAndDecrypt(nbyte);
        RunIsUnframed(config, e, w, |data|);
        return;
      }
      data := [];
      while |data| < nbyte
        invariant |data| <= nbyte && data <= Unframe(config, e, w) && !closed
        invariant Take(config, e, w, |data|) == (Here(), incoming)
        decreases nbyte - |data|
      {
        ghost var e1, w1 := Here(), incoming;
        var toRead := Least(nbyte - |data|, config.tagInterval);
        var next := ReadAndDecryptWithTag(toRead);
        ReadMore(config, e, w, data, e1, w1, next);
        data := data + next;
        if closed || |next| < toRead {
          return;
        }
      }
    }

    /**
     Any run of arrivals and reads: what was delivered so far is the start of what all that came in stands for.
     Together with the law of the framing, that is a prefix of what was written.
     */
    method ReadAll(pieces: seq<Bytes>, sizes: seq<nat>) returns (delivered: Bytes)
      requires !closed && incoming == [] && TagsOk(config)
      requires |pieces| == |sizes| && forall i :: 0 <= i < |sizes| ==> sizes[i] > 0
      modifies this
      ensures delivered <= Unframe(config, old(Here()), Joined(pieces))
    {
      ghost var e, w: Bytes := Here(), [];
      delivered := [];
      for i := 0 to |pieces|
        invariant w == Joined(pieces[..i]) && delivered <= Unframe(config, e, w)
        invariant !closed ==> Take(config, e, w, |delivered|) == (Here(), incoming)
      {
        assert pieces[..i + 1][..i] == pieces[..i];
        if closed {
          TakeGrows(config, e, w, 0, pieces[i]);
        } else {
          ghost var e1, w1 := Here(), incoming;
          Arrive(pieces[i]);
          var data := Read(sizes[i]);
          ReadGoesOn(config, e, w, delivered, e1, w1, pieces[i], data);
          delivered := delivered + data;
        }
        w := w + pieces[i];
      }
      assert pieces[..|pieces|] == pieces;
    }
  }

  lemma DecryptNext(cfg: Config, e: End, here: End, data: Bytes, raw: Bytes, i: nat, all: Bytes)
    requires i < |raw| && here == Ran(e, data) && all == data + DecryptRun(cfg, here, raw[i..])
    ensures var b := cfg.cipher.decrypt(here.iv, |here.since|, raw[i]);
            && Advance(here, b) == Ran(e, data + [b])
            && all == (data + [b]) + DecryptRun(cfg, Advance(here, b), raw[i + 1..])
  {
    assert raw[i..][0] == raw[i] && raw[i..][1..] == raw[i + 1..];
    var b := cfg.cipher.decrypt(here.iv, |here.since|, raw[i]);
    assert e.since + data + [b] == e.since + (data + [b]);
    assert data + ([b] + DecryptRun(cfg, Advance(here, b), raw[i + 1..]))
        == (data + [b]) + DecryptRun(cfg, Advance(here, b), raw[i + 1..]);
  }

  // ---- both ends

  /**
   Any writes, any part of the stream coming through in any pieces, and any reads: what is delivered is a prefix of
   what was written.
   */
  method Transfer(config: Config, iv: Bytes, writes: seq<Bytes>, network: Bytes -> seq<Bytes>, sizes: seq<nat>)
    returns (delivered: Bytes)
    requires CipherOk(config.cipher) && TagsOk(config)
    requires forall s :: Joined(network(s)) <= s && |network(s)| == |sizes|
    requires forall i :: 0 <= i < |sizes| ==> sizes[i] > 0
    ensures delivered <= Joined(writes)
  {
    var writer := new WritingEnd(config, iv);
    ghost var e := Start(iv);
    for i := 0 to |writes|
      invariant writer.config == config && writer.sent == Frame(config, e, Joined(writes[..i]))
      invariant writer.Here() == After(config, e, Joined(writes[..i]))
    {
      FrameConcat(config, e, Joined(writes[..i]), writes[i]);
      assert writes[..i + 1][..i] == writes[..i];
      writer.Write(writes[i]);
    }
    assert writes[..|writes|] == writes;
    var pieces := network(writer.sent);
    ghost var k := |Joined(pieces)|;
    assert Joined(pieces) == writer.sent[..k];
    PrefixArrives(config, e, Joined(writes), k);
    var reader := new ReadingEnd(config, iv);
    delivered := reader.ReadAll(pieces, sizes);
  }
}
