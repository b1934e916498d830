/**
 The framing of an encrypted connection: every tag interval a tag is put in front of the next byte, and behind the
 tag, when the current initialization vector (IV) has been used for long enough, a new IV.  Ciphers are
 abstract functions; all that is known of them is that decryption undoes encryption.
 */
module EncryptedStream {
  import opened Options
  import opened Wire

  const AES_BLOCK_SIZE := 16

  /**
   One byte is encrypted under an IV at a position; a tag depends on all that was encrypted under the IV;
   `newIv` gives the IVs the writer draws, one after the other.
   */
  datatype Cipher = Cipher(encrypt: (Bytes, nat, Byte) -> Byte, decrypt: (Bytes, nat, Byte) -> Byte,
                           tag: (Bytes, Bytes) -> Bytes, newIv: nat -> Bytes, tagLen: nat)

  ghost predicate CipherOk(c: Cipher) {
    && (forall iv, pos, b :: c.decrypt(iv, pos, c.encrypt(iv, pos, b)) == b)
    && (forall iv, s :: |c.tag(iv, s)| == c.tagLen)
    && (forall k :: |c.newIv(k)| == AES_BLOCK_SIZE)
  }

  /** Both ends are configured alike; an interval of 0 turns tags or IV changes off. */
  datatype Config = Config(cipher: Cipher, tagInterval: nat, ivChangeInterval: nat)

  /** One end of a direction: bytes so far, the current IV and what went through it, and how many IVs were drawn. */
  datatype End = End(total: nat, iv: Bytes, since: Bytes, drawn: nat)

  function Start(iv: Bytes): End {
    End(0, iv, [], 0)
  }

  predicate TagDue(cfg: Config, total: nat) {
    cfg.tagInterval > 0 && total > 0 && total % cfg.tagInterval == 0
  }

  /** At a tag: the bytes until the next one would not fit under this IV. */
  predicate IvDue(cfg: Config, e: End) {
    cfg.ivChangeInterval != 0 && |e.since| + cfg.tagInterval > cfg.ivChangeInterval
  }

  function WithIv(e: End, iv: Bytes): End {
    End(e.total, iv, [], e.drawn + 1)
  }

  function Advance(e: End, b: Byte): End {
    e.(total := e.total + 1, since := e.since + [b])
  }

  // ---- the writer

  /** What goes out in front of the next byte. */
  function Lead(cfg: Config, e: End): Bytes {
    if !TagDue(cfg, e.total) then []
    else cfg.cipher.tag(e.iv, e.since) + if IvDue(cfg, e) then cfg.cipher.newIv(e.drawn) else []
  }

  function AfterLead(cfg: Config, e: End): End {
    if TagDue(cfg, e.total) && IvDue(cfg, e) then WithIv(e, cfg.cipher.newIv(e.drawn)) else e
  }

  function EncryptByte(cfg: Config, e: End, b: Byte): Byte {
    cfg.cipher.encrypt(e.iv, |e.since|, b)
  }

  /** Everything that goes out for these bytes. */
  function Frame(cfg: Config, e: End, p: Bytes): Bytes
    decreases |p|
  {
    if p == [] then []
    else
      var e' := AfterLead(cfg, e);
      Lead(cfg, e) + [EncryptByte(cfg, e', p[0])] + Frame(cfg, Advance(e', p[0]), p[1..])
  }

  function After(cfg: Config, e: End, p: Bytes): End
    decreases |p|
  {
    if p == [] then e else After(cfg, Advance(AfterLead(cfg, e), p[0]), p[1..])
  }

  lemma {:induction false} FrameConcat(cfg: Config, e: End, p: Bytes, q: Bytes)
    ensures Frame(cfg, e, p + q) == Frame(cfg, e, p) + Frame(cfg, After(cfg, e, p), q)
    ensures After(cfg, e, p + q) == After(cfg, After(cfg, e, p), q)
    decreases |p|
  {
    if p == [] {
      assert p + q == q;
    } else {
      var e1 := Advance(AfterLead(cfg, e), p[0]);
      assert (p + q)[1..] == p[1..] + q && (p + q)[0] == p[0];
      FrameConcat(cfg, e1, p[1..], q);
      var head := Lead(cfg, e) + [EncryptByte(cfg, AfterLead(cfg, e), p[0])];
      assert Frame(cfg, e, p + q) == head + (Frame(cfg, e1, p[1..]) + Frame(cfg, After(cfg, e1, p[1..]), q));
    }
  }

  // ---- the reader

  /** The end behind a tag and an IV that may follow it, and the bytes behind them; none if they are not all there. */
  function ReadLead(cfg: Config, e: End, w: Bytes): Option<(End, Bytes)> {
    var c := cfg.cipher;
    if !TagDue(cfg, e.total) then Some((e, w))
    else if |w| < c.tagLen || w[..c.tagLen] != c.tag(e.iv, e.since) then None
    else
      var w' := w[c.tagLen..];
      if !IvDue(cfg, e) then Some((e, w'))
      else if |w'| < AES_BLOCK_SIZE then None
      else Some((WithIv(e, w'[..AES_BLOCK_SIZE]), w'[AES_BLOCK_SIZE..]))
  }

  /** Everything the reader can get out of what came in. */
  function Unframe(cfg: Config, e: End, w: Bytes): Bytes
    decreases |w|
  {
    var lead := ReadLead(cfg, e, w);
    if lead.None? || lead.value.1 == [] then []
    else
      var (e', w') := lead.value;
      var b := cfg.cipher.decrypt(e'.iv, |e'.since|, w'[0]);
      [b] + Unframe(cfg, Advance(e', b), w'[1..])
  }

  lemma LeadRoundTrip(cfg: Config, e: End, rest: Bytes)
    requires CipherOk(cfg.cipher)
    ensures ReadLead(cfg, e, Lead(cfg, e) + rest) == Some((AfterLead(cfg, e), rest))
  {
    var c := cfg.cipher;
    if TagDue(cfg, e.total) {
      var tag := c.tag(e.iv, e.since);
      if IvDue(cfg, e) {
        var iv := c.newIv(e.drawn);
        assert Lead(cfg, e) + rest == tag + (iv + rest);
        assert (tag + (iv + rest))[..c.tagLen] == tag && (tag + (iv + rest))[c.tagLen..] == iv + rest;
        assert (iv + rest)[..AES_BLOCK_SIZE] == iv && (iv + rest)[AES_BLOCK_SIZE..] == rest;
      } else {
        assert Lead(cfg, e) + rest == tag + rest;
        assert (tag + rest)[..c.tagLen] == tag && (tag + rest)[c.tagLen..] == rest;
      }
    } else {
      assert Lead(cfg, e) + rest == rest;
    }
  }

  /** A lead that is cut short, or has nothing behind it, gives no byte. */
  lemma LeadCut(cfg: Config, e: End, k: nat)
    requires CipherOk(cfg.cipher) && k <= |Lead(cfg, e)|
    ensures Unframe(cfg, e, Lead(cfg, e)[..k]) == []
  {
    var c := cfg.cipher;
    var w := Lead(cfg, e)[..k];
    if TagDue(cfg, e.total) && k >= c.tagLen {
      assert w[..c.tagLen] == c.tag(e.iv, e.since);
    }
  }

  /** Where the first byte arrives, the reader gets it and both ends go on alike. */
  lemma FirstByte(cfg: Config, e: End, p: Bytes, k: nat)
    requires CipherOk(cfg.cipher) && p != [] && |Lead(cfg, e)| < k <= |Frame(cfg, e, p)|
    ensures var e' := AfterLead(cfg, e);
            var x, rest := EncryptByte(cfg, e', p[0]), Frame(cfg, Advance(e', p[0]), p[1..]);
            var k' := k - |Lead(cfg, e)| - 1;
            && k' <= |rest| && cfg.cipher.decrypt(e'.iv, |e'.since|, x) == p[0]
            && ReadLead(cfg, e, Frame(cfg, e, p)[..k]) == Some((e', [x] + rest[..k']))
  {
    var lead, e' := Lead(cfg, e), AfterLead(cfg, e);
    var x, rest := EncryptByte(cfg, e', p[0]), Frame(cfg, Advance(e', p[0]), p[1..]);
    var k' := k - |lead| - 1;
    CutBehind(lead, x, rest, k);
    LeadRoundTrip(cfg, e, [x] + rest[..k']);
  }

  lemma CutBehind(lead: Bytes, x: Byte, rest: Bytes, k: nat)
    requires |lead| < k <= |lead| + 1 + |rest|
    ensures (lead + [x] + rest)[..k] == lead + ([x] + rest[..k - |lead| - 1])
  {
  }

  lemma NoByte(cfg: Config, e: End, p: Bytes, k: nat)
    requires CipherOk(cfg.cipher) && k <= |Frame(cfg, e, p)| && (p == [] || k <= |Lead(cfg, e)|)
    ensures Unframe(cfg, e, Frame(cfg, e, p)[..k]) == []
  {
    var lead := Lead(cfg, e);
    LeadCut(cfg, e, k);
    assert Frame(cfg, e, p)[..k] == lead[..k];
  }

  /** Whatever part of the stream arrives, what it yields is a prefix of what was written, and all of it yields all. */
  lemma {:induction false} PrefixArrives(cfg: Config, e: End, p: Bytes, k: nat)
    requires CipherOk(cfg.cipher) && k <= |Frame(cfg, e, p)|
    ensures Unframe(cfg, e, Frame(cfg, e, p)[..k]) <= p
    ensures k == |Frame(cfg, e, p)| ==> Unframe(cfg, e, Frame(cfg, e, p)[..k]) == p
    decreases |p|
  {
    if p == [] || k <= |Lead(cfg, e)| {
      NoByte(cfg, e, p, k);
    } else {
      FirstByte(cfg, e, p, k);
      var e' := Advance(AfterLead(cfg, e), p[0]);
      PrefixArrives(cfg, e', p[1..], k - |Lead(cfg, e)| - 1);
      assert p == [p[0]] + p[1..];
    }
  }

  /** The end and the bytes left after `n` delivered bytes. */
  function Take(cfg: Config, e: End, w: Bytes, n: nat): (End, Bytes)
    requires n <= |Unframe(cfg, e, w)|
    decreases n
  {
    if n == 0 then (e, w)
    else
      var (e', w') := ReadLead(cfg, e, w).value;
      Take(cfg, Advance(e', cfg.cipher.decrypt(e'.iv, |e'.since|, w'[0])), w'[1..], n - 1)
  }

  /** Where a byte can be read, it is the next one delivered. */
  lemma TakeFirst(cfg: Config, e: End, w: Bytes, n: nat, e': End, x: Byte, w': Bytes)
    requires ReadLead(cfg, e, w) == Some((e', [x] + w')) && n <= |Unframe(cfg, e, w)|
    ensures var e1 := Advance(e', cfg.cipher.decrypt(e'.iv, |e'.since|, x));
            && Unframe(cfg, e, w) == [cfg.cipher.decrypt(e'.iv, |e'.since|, x)] + Unframe(cfg, e1, w')
            && (n > 0 ==> Take(cfg, e, w, n) == Take(cfg, e1, w', n - 1))
  {
    assert ([x] + w')[1..] == w';
  }

  /** Reading goes on where the last read stopped. */
  lemma {:induction false} TakeSplits(cfg: Config, e: End, w: Bytes, n: nat)
    requires n <= |Unframe(cfg, e, w)|
    ensures var (e', w') := Take(cfg, e, w, n); Unframe(cfg, e, w) == Unframe(cfg, e, w)[..n] + Unframe(cfg, e', w')
    decreases n
  {
    if n > 0 {
      var (e', w') := ReadLead(cfg, e, w).value;
      var b := cfg.cipher.decrypt(e'.iv, |e'.since|, w'[0]);
      TakeSplits(cfg, Advance(e', b), w'[1..], n - 1);
      assert Unframe(cfg, e, w) == [b] + Unframe(cfg, Advance(e', b), w'[1..]);
    }
  }

  lemma {:induction false} TakeTwice(cfg: Config, e: End, w: Bytes, n: nat, m: nat)
    requires n + m <= |Unframe(cfg, e, w)|
    ensures var (e', w') := Take(cfg, e, w, n);
            m <= |Unframe(cfg, e', w')| && Take(cfg, e, w, n + m) == Take(cfg, e', w', m)
    decreases n
  {
    TakeSplits(cfg, e, w, n);
    if n > 0 {
      var (e', w') := ReadLead(cfg, e, w).value;
      var b := cfg.cipher.decrypt(e'.iv, |e'.since|, w'[0]);
      assert Unframe(cfg, e, w) == [b] + Unframe(cfg, Advance(e', b), w'[1..]);
      TakeTwice(cfg, Advance(e', b), w'[1..], n - 1, m);
    }
  }

  lemma LeadGrows(cfg: Config, e: End, w: Bytes, x: Bytes)
    requires ReadLead(cfg, e, w).Some?
    ensures var (e', w') := ReadLead(cfg, e, w).value; ReadLead(cfg, e, w + x) == Some((e', w' + x))
  {
    var n := cfg.cipher.tagLen;
    if TagDue(cfg, e.total) {
      assert (w + x)[..n] == w[..n] && (w + x)[n..] == w[n..] + x;
      if IvDue(cfg, e) {
        var w' := w[n..];
        assert (w' + x)[..AES_BLOCK_SIZE] == w'[..AES_BLOCK_SIZE];
        assert (w' + x)[AES_BLOCK_SIZE..] == w'[AES_BLOCK_SIZE..] + x;
      }
    }
  }

  /** What comes in later does not change what was read before. */
  lemma {:induction false} TakeGrows(cfg: Config, e: End, w: Bytes, n: nat, x: Bytes)
    requires n <= |Unframe(cfg, e, w)|
    ensures Unframe(cfg, e, w) <= Unframe(cfg, e, w + x)
    ensures var (e', w') := Take(cfg, e, w, n); Take(cfg, e, w + x, n) == (e', w' + x)
    decreases |w|
  {
    if Unframe(cfg, e, w) != [] {
      LeadGrows(cfg, e, w, x);
      var (e', w') := ReadLead(cfg, e, w).value;
      var b := cfg.cipher.decrypt(e'.iv, |e'.since|, w'[0]);
      assert (w' + x)[1..] == w'[1..] + x;
      TakeGrows(cfg, Advance(e', b), w'[1..], if n == 0 then 0 else n - 1, x);
    }
  }

  lemma ReadMore(cfg: Config, e: End, w: Bytes, got: Bytes, e1: End, w1: Bytes, more: Bytes)
    requires got <= Unframe(cfg, e, w) && Take(cfg, e, w, |got|) == (e1, w1) && more <= Unframe(cfg, e1, w1)
    ensures got + more <= Unframe(cfg, e, w) && Take(cfg, e, w, |got + more|) == Take(cfg, e1, w1, |more|)
  {
    TakeSplits(cfg, e, w, |got|);
    assert Unframe(cfg, e, w) == got + Unframe(cfg, e1, w1);
    TakeTwice(cfg, e, w, |got|, |more|);
  }

  /** A read after more came in goes on where the reads before it stopped. */
  lemma ReadGoesOn(cfg: Config, e: End, w: Bytes, got: Bytes, e1: End, w1: Bytes, x: Bytes, more: Bytes)
    requires got <= Unframe(cfg, e, w) && Take(cfg, e, w, |got|) == (e1, w1) && more <= Unframe(cfg, e1, w1 + x)
    ensures got + more <= Unframe(cfg, e, w + x)
    ensures Take(cfg, e, w + x, |got + more|) == Take(cfg, e1, w1 + x, |more|)
  {
    TakeGrows(cfg, e, w, |got|, x);
    ReadMore(cfg, e, w + x, got, e1, w1 + x, more);
  }

  /** A reader that has taken `n` bytes is where the writer of `p` was after them. */
  ghost predicate InStep(cfg: Config, e: End, p: Bytes, n: nat, e': End, w': Bytes) {
    n <= |p| && e' == After(cfg, e, p[..n]) && w' <= Frame(cfg, e', p[n..])
  }

  lemma InStepLater(cfg: Config, e: End, p: Bytes, n: nat, e': End, w': Bytes)
    requires p != [] && n > 0 && InStep(cfg, Advance(AfterLead(cfg, e), p[0]), p[1..], n - 1, e', w')
    ensures InStep(cfg, e, p, n, e', w')
  {
    Tails(p, n);
  }

  /** After any number of delivered bytes the reader is where the writer was: same totals, same IV, same place. */
  lemma {:induction false} EndsAgree(cfg: Config, e: End, p: Bytes, w: Bytes, n: nat, e': End, w': Bytes)
    requires CipherOk(cfg.cipher) && w <= Frame(cfg, e, p)
    requires n <= |Unframe(cfg, e, w)| && Take(cfg, e, w, n) == (e', w')
    ensures InStep(cfg, e, p, n, e', w')
    decreases n
  {
    if n == 0 {
      assert p[..0] == [] && p[0..] == p;
    } else {
      var rest := TakesFirst(cfg, e, p, w, n);
      EndsAgree(cfg, Advance(AfterLead(cfg, e), p[0]), p[1..], rest, n - 1, e', w');
      InStepLater(cfg, e, p, n, e', w');
    }
  }

  /** Taking bytes out of part of the stream begins with the first byte written. */
  lemma TakesFirst(cfg: Config, e: End, p: Bytes, w: Bytes, n: nat) returns (rest: Bytes)
    requires CipherOk(cfg.cipher) && w <= Frame(cfg, e, p) && 0 < n <= |Unframe(cfg, e, w)|
    ensures p != []
    ensures var e1 := Advance(AfterLead(cfg, e), p[0]);
            && rest <= Frame(cfg, e1, p[1..]) && n - 1 <= |Unframe(cfg, e1, rest)|
            && Take(cfg, e, w, n) == Take(cfg, e1, rest, n - 1)
  {
    var k := |w|;
    assert w == Frame(cfg, e, p)[..k];
    if p == [] || k <= |Lead(cfg, e)| {
      NoByte(cfg, e, p, k);
    }
    FirstByte(cfg, e, p, k);
    var e1 := AfterLead(cfg, e);
    rest := Frame(cfg, Advance(e1, p[0]), p[1..])[..k - |Lead(cfg, e)| - 1];
    TakeFirst(cfg, e, w, n, e1, EncryptByte(cfg, e1, p[0]), rest);
  }

  lemma Tails(p: Bytes, n: nat)
    requires 0 < n <= |p|
    ensures p[..n] != [] && p[..n][0] == p[0] && p[..n][1..] == p[1..][..n - 1] && p[1..][n - 1..] == p[n..]
  {
  }

  // ---- how long an IV is used

  /** Bytes since the last tag boundary; a boundary counts as the end of its interval. */
  function SinceTag(cfg: Config, total: nat): nat
    requires cfg.tagInterval > 0
  {
    if TagDue(cfg, total) then cfg.tagInterval else total % cfg.tagInterval
  }

  /** At the last tag the IV was new, or had room for another interval. */
  predicate IvInv(cfg: Config, e: End)
    requires cfg.tagInterval > 0
  {
    var atTag := |e.since| - SinceTag(cfg, e.total);
    atTag >= 0 && (atTag == 0 || atTag + cfg.tagInterval <= cfg.ivChangeInterval)
  }

  lemma ModuloStep(total: nat, n: nat)
    requires n > 0
    ensures (total + 1) % n == if total % n + 1 == n then 0 else total % n + 1
  {
    var q, r := total / n, total % n;
    assert total == q * n + r;
    if r + 1 == n {
      assert total + 1 == (q + 1) * n;
      ModuloIs(q + 1, n, 0);
    } else {
      ModuloIs(q, n, r + 1);
    }
  }

  lemma {:induction false} ModuloIs(q: nat, n: nat, r: nat)
    requires r < n
    ensures (q * n + r) % n == r
  {
    if q > 0 {
      ModuloIs(q - 1, n, r);
      assert q * n + r == ((q - 1) * n + r) + n;
      AddModulo((q - 1) * n + r, n);
    } else {
      SmallModulo(r, n);
    }
  }

  lemma SmallModulo(r: nat, n: nat)
    requires r < n
    ensures r % n == r
  {
  }

  lemma AddModulo(a: nat, n: nat)
    requires n > 0
    ensures (a + n) % n == a % n
  {
    var q, r := a / n, a % n;
    var q', r' := (a + n) / n, (a + n) % n;
    assert a == q * n + r && a + n == q' * n + r';
    assert (q' - q - 1) * n == r - r' by {
      assert (q' - q - 1) * n == q' * n - q * n - n;
    }
    MultipleIsZero(q' - q - 1, n, r - r');
  }

  lemma MultipleIsZero(k: int, n: int, d: int)
    requires k * n == d && -n < d < n
    ensures d == 0
  {
    assert k >= 1 ==> k * n >= n;
    assert k <= -1 ==> k * n <= -n;
  }

  lemma {:induction false} IvInvKept(cfg: Config, e: End, p: Bytes)
    requires cfg.tagInterval > 0 && cfg.ivChangeInterval > 0 && IvInv(cfg, e)
    ensures IvInv(cfg, After(cfg, e, p))
    decreases |p|
  {
    if p != [] {
      ModuloStep(e.total, cfg.tagInterval);
      IvInvKept(cfg, Advance(AfterLead(cfg, e), p[0]), p[1..]);
    }
  }

  /** However long the stream, no more goes through one IV than the larger of the two intervals. */
  lemma IvUseBounded(cfg: Config, iv: Bytes, p: Bytes)
    requires cfg.tagInterval > 0 && cfg.ivChangeInterval > 0
    ensures var bound := if cfg.tagInterval > cfg.ivChangeInterval then cfg.tagInterval else cfg.ivChangeInterval;
            |After(cfg, Start(iv), p).since| <= bound
  {
    SmallModulo(0, cfg.tagInterval);
    IvInvKept(cfg, Start(iv), p);
    var e := After(cfg, Start(iv), p);
    assert SinceTag(cfg, e.total) <= cfg.tagInterval;
  }

  const DEFAULT_TAG_INTERVAL := 4 * 1024 * 1024
  const DEFAULT_IV_CHANGE_INTERVAL := 32 * 1024 * (1024 * 1024)

  /** The most plaintext one invocation may have, section 5.2.1.1 of NIST SP 800-38D: 2^39 - 256 bits. */
  const MAX_PLAINTEXT_BYTES := 0x80_0000_0000 / 8 - 32

  lemma DefaultsRespectLimit(cfg: Config, iv: Bytes, p: Bytes)
    requires cfg.tagInterval == DEFAULT_TAG_INTERVAL && cfg.ivChangeInterval == DEFAULT_IV_CHANGE_INTERVAL
    ensures |After(cfg, Start(iv), p).since| <= MAX_PLAINTEXT_BYTES
  {
    IvUseBounded(cfg, iv, p);
  }

  /** With IV changes turned off, everything goes through the first IV. */
  lemma {:induction false} WithoutChangesOneIv(cfg: Config, e: End, p: Bytes)
    requires cfg.ivChangeInterval == 0 || cfg.tagInterval == 0
    ensures After(cfg, e, p).iv == e.iv && After(cfg, e, p).since == e.since + p
    decreases |p|
  {
    if p != [] {
      WithoutChangesOneIv(cfg, Advance(e, p[0]), p[1..]);
      assert e.since + [p[0]] + p[1..] == e.since + p;
    }
  }
}
