/**
 The building blocks of every encoding: the nine-byte varint, zigzag, strings and fixed-length integers, both as
 functions on byte sequences and as the loops that move a position through a buffer.
 */
module Wire {
  import opened Options

  type Byte = b: int | 0 <= b < 256

  type Bytes = seq<Byte>

  const U64_LIMIT := 0x1_0000_0000_0000_0000
  const I64_LIMIT := 0x8000_0000_0000_0000
  const I32_LIMIT := 0x8000_0000

  /** The signed integers that may be encoded: encoding a negative one is a programming error. */
  type Int64 = v: int | 0 <= v < I64_LIMIT

  type Int32 = v: int | 0 <= v < I32_LIMIT

  type Text = s: Bytes | |s| < I64_LIMIT

  /** A decoded value and the bytes behind it. */
  datatype Decoded<+T> = Decoded(value: T, rest: Bytes)

  type Parse<+T> = Option<Decoded<T>>

  // ---- varints

  /** What `k` varint bytes can hold: seven bits each, eight in the last. */
  function Capacity(k: nat): nat
    requires k >= 1
  {
    if k == 1 then 256 else 128 * Capacity(k - 1)
  }

  /** At most `k` bytes; all but the last carry a continuation bit, and the k-th has no room for one. */
  function Var(v: nat, k: nat): (r: Bytes)
    requires k >= 1 && v < Capacity(k)
    ensures 1 <= |r| <= k
    decreases v
  {
    if k > 1 && v >= 128 then [128 + v % 128] + Var(v / 128, k - 1) else [v]
  }

  function Unvar(s: Bytes, k: nat): Parse<nat>
    requires k >= 1
    decreases |s|
  {
    if s == [] then None
    else if k > 1 && s[0] >= 128 then
      var r := Unvar(s[1..], k - 1);
      if r.None? then None else Some(Decoded(s[0] - 128 + 128 * r.value.value, r.value.rest))
    else Some(Decoded(s[0], s[1..]))
  }

  lemma Capacity9()
    ensures Capacity(9) == U64_LIMIT
  {
    assert Capacity(2) == 32768 && Capacity(3) == 128 * Capacity(2);
    assert Capacity(5) == 128 * 128 * Capacity(3);
    assert Capacity(7) == 128 * 128 * Capacity(5);
    assert Capacity(9) == 128 * 128 * Capacity(7);
  }

  lemma {:induction false} CapacityGrows(k: nat)
    requires k >= 1
    ensures Capacity(k) >= 256
  {
    if k > 1 {
      CapacityGrows(k - 1);
    }
  }

  function VarU64(v: nat): (r: Bytes)
    requires v < U64_LIMIT
    ensures 1 <= |r| <= 9
  {
    Capacity9();
    Var(v, 9)
  }

  function DecodeU64(s: Bytes): Parse<nat> {
    Unvar(s, 9)
  }

  lemma {:induction false} UnvarVar(v: nat, k: nat, rest: Bytes)
    requires k >= 1 && v < Capacity(k)
    ensures Unvar(Var(v, k) + rest, k) == Some(Decoded(v, rest))
    decreases k
  {
    var s := Var(v, k) + rest;
    if k > 1 && v >= 128 {
      assert s[1..] == Var(v / 128, k - 1) + rest;
      UnvarVar(v / 128, k - 1, rest);
    } else {
      assert s[1..] == rest;
    }
  }

  /** Whatever decodes consumed between one and `k` bytes and stays below the capacity. */
  lemma {:induction false} UnvarBounds(s: Bytes, k: nat)
    requires k >= 1 && Unvar(s, k).Some?
    ensures var d := Unvar(s, k).value;
            d.value < Capacity(k) && |s| - k <= |d.rest| < |s| && d.rest == s[|s| - |d.rest|..]
    decreases k
  {
    CapacityGrows(k);
    if k > 1 && s[0] >= 128 {
      UnvarBounds(s[1..], k - 1);
    }
  }

  /** Every 64-bit value comes back, and decoding stops exactly behind it. */
  lemma U64RoundTrip(v: nat, rest: Bytes)
    requires v < U64_LIMIT
    ensures DecodeU64(VarU64(v) + rest) == Some(Decoded(v, rest))
  {
    Capacity9();
    UnvarVar(v, 9, rest);
  }

  /** A cut varint is never mistaken for a whole one. */
  lemma {:induction false} CutVarFails(v: nat, k: nat, n: nat)
    requires k >= 1 && v < Capacity(k) && n < |Var(v, k)|
    ensures Unvar(Var(v, k)[..n], k).None?
    decreases k
  {
    if n > 0 {
      assert Var(v, k)[..n][1..] == Var(v / 128, k - 1)[..n - 1];
      CutVarFails(v / 128, k - 1, n - 1);
    }
  }

  /** The buffer with `bytes` stored at `off`. */
  function Splice(buf: Bytes, off: nat, bytes: Bytes): (r: Bytes)
    requires off + |bytes| <= |buf|
    ensures |r| == |buf|
  {
    buf[..off] + bytes + buf[off + |bytes|..]
  }

  lemma SpliceMore(buf: Bytes, off: nat, x: Bytes, y: Bytes)
    requires off + |x| + |y| <= |buf|
    ensures Splice(Splice(buf, off, x), off + |x|, y) == Splice(buf, off, x + y)
  {
  }

  lemma SpliceByte(buf: Bytes, off: nat, x: Bytes, b: Byte)
    requires off + |x| < |buf|
    ensures Splice(buf, off, x)[off + |x| := b] == Splice(buf, off, x + [b])
  {
  }

  /** `bytes` went into the buffer at `off`, below `max`; or they did not fit and nothing outside was touched. */
  predicate Put(before: Bytes, after: Bytes, off: nat, max: nat, off': int, ok: bool, bytes: Bytes) {
    && |after| == |before| && off <= off' <= max <= |before|
    && (ok <==> off + |bytes| <= max)
    && (if ok then off' == off + |bytes| && after == Splice(before, off, bytes)
        else after[..off] == before[..off] && after[max..] == before[max..])
  }

  /** Stopping short: what is there so far does not reach beyond `max`. */
  lemma SpliceFails(a: Bytes, off: nat, x: Bytes, max: nat, bytes: Bytes)
    requires off + |x| <= max <= |a| && off + |bytes| > max
    ensures Put(a, Splice(a, off, x), off, max, off, false, bytes)
    ensures Put(a, Splice(a, off, x), off, max, off + |x|, false, bytes)
  {
  }

  lemma PutThenPut(a: Bytes, b: Bytes, c: Bytes, o1: nat, o2: nat, o3: nat, max: nat, ok: bool, x: Bytes, y: Bytes)
    requires Put(a, b, o1, max, o2, true, x) && Put(b, c, o2, max, o3, ok, y)
    ensures Put(a, c, o1, max, o3, ok, x + y)
  {
    if ok {
      SpliceMore(a, o1, x, y);
    } else {
      assert c[..o1] == c[..o2][..o1] == b[..o2][..o1] == a[..o1];
      assert b[max..] == a[max..];
    }
  }

  lemma PutFails(a: Bytes, b: Bytes, o1: nat, max: nat, o2: int, x: Bytes, y: Bytes)
    requires Put(a, b, o1, max, o2, false, x)
    ensures Put(a, b, o1, max, o2, false, x + y)
  {
  }

  method Store(data: array<Byte>, p: nat, b: Byte)
    requires p < data.Length
    modifies data
    ensures data[..] == old(data[..])[p := b]
  {
    data[p] := b;
  }

  method EncodeVarU64(data: array<Byte>, max: nat, pos: int, v: nat) returns (ok: bool, pos': int)
    requires max <= data.Length && v < U64_LIMIT
    modifies data
    ensures if 0 <= pos <= max then Put(old(data[..]), data[..], pos, max, pos', ok, VarU64(v))
            else !ok && pos' == pos && data[..] == old(data[..])
  {
    if pos < 0 || pos > max {
      return false, pos;
    }
    ok, pos' := StoreVarU64(data, max, pos, v);
  }

  method StoreVarU64(data: array<Byte>, max: nat, pos: nat, v: nat) returns (ok: bool, pos': nat)
    requires pos <= max <= data.Length && v < U64_LIMIT
    modifies data
    ensures Put(old(data[..]), data[..], pos, max, pos', ok, VarU64(v))
  {
    Capacity9();
    ghost var buf, done: Bytes, all := data[..], [], VarU64(v);
    var p, left, u := pos, 9, v;
    while left > 1 && u >= 128
      invariant 1 <= left <= 9 && 0 <= u < Capacity(left)
      invariant all == done + Var(u, left)
      invariant p == pos + |done| <= max && data[..] == Splice(buf, pos, done)
      decreases left
    {
      var b := 128 + u % 128;
      if p >= max {
        SpliceFails(buf, pos, done, max, all);
        return false, pos;
      }
      SpliceByte(buf, pos, done, b);
      Store(data, p, b);
      VarStep(done, u, left);
      done := done + [b];
      p, u, left := p + 1, u / 128, left - 1;
    }
    assert Var(u, left) == [u];
    if p >= max {
      SpliceFails(buf, pos, done, max, all);
      return false, pos;
    }
    SpliceByte(buf, pos, done, u);
    Store(data, p, u);
    return true, p + 1;
  }

  lemma VarStep(done: Bytes, u: nat, left: nat)
    requires left > 1 && 128 <= u < Capacity(left)
    ensures done + Var(u, left) == (done + [128 + u % 128]) + Var(u / 128, left - 1)
  {
  }

  /** The value shifted by `k` times seven bits. */
  function Shifted(x: nat, k: nat): nat {
    if k == 0 then x else 128 * Shifted(x, k - 1)
  }

  lemma {:induction false} ShiftedSum(low: nat, high: nat, k: nat)
    ensures Shifted(low + 128 * high, k) == Shifted(low, k) + Shifted(high, k + 1)
  {
    if k > 0 {
      ShiftedSum(low, high, k - 1);
    }
  }

  /** What is decoded in all, when `val` came from the first `k` bytes and `part` is decoded from the rest. */
  predicate Completes(whole: Parse<nat>, val: nat, k: nat, part: Parse<nat>) {
    whole == if part.None? then None else Some(Decoded(val + Shifted(part.value.value, k), part.value.rest))
  }

  lemma CompletesStep(whole: Parse<nat>, val: nat, k: nat, s: Bytes, left: nat)
    requires left > 1 && s != [] && s[0] >= 128 && Completes(whole, val, k, Unvar(s, left))
    ensures Completes(whole, val + Shifted(s[0] - 128, k), k + 1, Unvar(s[1..], left - 1))
  {
    var inner := Unvar(s[1..], left - 1);
    if inner.Some? {
      ShiftedSum(s[0] - 128, inner.value.value, k);
    }
  }

  lemma CompletesLast(whole: Parse<nat>, val: nat, k: nat, s: Bytes, left: nat)
    requires left >= 1 && s != [] && (left == 1 || s[0] < 128) && Completes(whole, val, k, Unvar(s, left))
    ensures whole == Some(Decoded(val + Shifted(s[0], k), s[1..]))
  {
  }

  /** The decoding loop: shifts the low seven bits of each byte into place. */
  method DecodeVarU64(data: Bytes, pos: nat) returns (ok: bool, pos': nat, res: nat)
    requires pos <= |data|
    ensures ok <==> DecodeU64(data[pos..]).Some?
    ensures ok ==> pos < pos' <= |data| && DecodeU64(data[pos..]) == Some(Decoded(res, data[pos'..]))
    ensures !ok ==> pos' == pos
  {
    if pos >= |data| {
      return false, pos, 0;
    }
    var p: nat, k: nat, val: nat := pos, 0, 0;
    ghost var whole := DecodeU64(data[pos..]);
    while k < 8 && data[p] >= 128
      invariant pos <= p < |data| && k <= 8
      invariant Completes(whole, val, k, Unvar(data[p..], 9 - k))
      decreases 9 - k
    {
      assert data[p..][1..] == data[p + 1..];
      CompletesStep(whole, val, k, data[p..], 9 - k);
      val := val + Shifted(data[p] - 128, k);
      p, k := p + 1, k + 1;
      if p >= |data| {
        return false, pos, 0;
      }
    }
    assert data[p..][1..] == data[p + 1..];
    CompletesLast(whole, val, k, data[p..], 9 - k);
    return true, p + 1, val + Shifted(data[p], k);
  }

  // ---- signed values

  function EncodeI64C(v: Int64): (r: Bytes)
    ensures 1 <= |r| <= 9
  {
    VarU64(v)
  }

  function DecodeI64C(s: Bytes): Parse<Int64> {
    var r := DecodeU64(s);
    if r.None? || r.value.value >= I64_LIMIT then None else Some(Decoded(r.value.value, r.value.rest))
  }

  function DecodeI32C(s: Bytes): Parse<Int32> {
    var r := DecodeI64C(s);
    if r.None? || r.value.value >= I32_LIMIT then None else Some(Decoded(r.value.value, r.value.rest))
  }

  lemma I64Shrinks(s: Bytes)
    ensures DecodeI64C(s).Some? ==> |DecodeI64C(s).value.rest| < |s|
  {
    if DecodeU64(s).Some? {
      UnvarBounds(s, 9);
    }
  }

  function ZigZag(v: int): (r: nat)
    requires -I64_LIMIT <= v < I64_LIMIT
    ensures r < U64_LIMIT
  {
    if v >= 0 then 2 * v else -2 * v - 1
  }

  function UnZigZag(u: nat): (v: int)
    requires u < U64_LIMIT
    ensures -I64_LIMIT <= v < I64_LIMIT && ZigZag(v) == u
  {
    if u % 2 == 0 then u / 2 else -(u / 2) - 1
  }

  /** Signed and unsigned values of 64 bits stand for each other, one to one. */
  lemma ZigZagRoundTrip(v: int, u: nat)
    requires -I64_LIMIT <= v < I64_LIMIT && u < U64_LIMIT
    ensures UnZigZag(ZigZag(v)) == v && ZigZag(UnZigZag(u)) == u
  {
    assert (2 * v) / 2 == v && (-2 * v - 1) / 2 == -v - 1;
  }

  function DecodeI32(s: Bytes): Parse<int> {
    var r := DecodeU64(s);
    if r.None? then None
    else
      assert r.value.value < U64_LIMIT by { Capacity9(); UnvarBounds(s, 9); }
      var v := UnZigZag(r.value.value);
      if -I32_LIMIT <= v < I32_LIMIT then Some(Decoded(v, r.value.rest)) else None
  }

  // ---- strings and fixed-length integers

  function EncodeString(str: Text): Bytes {
    VarU64(|str|) + str
  }

  function DecodeString(s: Bytes): Parse<Bytes> {
    var r := DecodeU64(s);
    if r.None? || r.value.value > |r.value.rest| then None
    else Some(Decoded(r.value.rest[..r.value.value], r.value.rest[r.value.value..]))
  }

  lemma StringRoundTrip(str: Text, rest: Bytes)
    ensures DecodeString(EncodeString(str) + rest) == Some(Decoded(str, rest))
  {
    assert EncodeString(str) + rest == VarU64(|str|) + (str + rest);
    U64RoundTrip(|str|, str + rest);
  }

  method PutString(data: array<Byte>, max: nat, off: nat, str: Text) returns (ok: bool, off': nat)
    requires off <= max <= data.Length
    modifies data
    ensures Put(old(data[..]), data[..], off, max, off', ok, EncodeString(str))
  {
    ok, off' := EncodeVarU64(data, max, off, |str|);
    if !ok {
      PutFails(old(data[..]), data[..], off, max, off', VarU64(|str|), str);
      return;
    }
    if off' + |str| > max {
      SpliceFails(old(data[..]), off, VarU64(|str|), max, EncodeString(str));
      return false, off';
    }
    var start := off';
    ghost var mid := data[..];
    for i := 0 to |str|
      invariant data[..] == Splice(mid, start, str[..i])
    {
      SpliceByte(mid, start, str[..i], str[i]);
      assert str[..i] + [str[i]] == str[..i + 1];
      Store(data, start + i, str[i]);
    }
    assert str[..|str|] == str;
    off' := start + |str|;
    PutThenPut(old(data[..]), mid, data[..], off, start, off', max, true, VarU64(|str|), str);
  }

  /** `n` little-endian bytes. */
  function Fixed(v: nat, n: nat): (r: Bytes)
    ensures |r| == n
  {
    if n == 0 then [] else [v % 256] + Fixed(v / 256, n - 1)
  }

  function Unfixed(s: Bytes): nat {
    if s == [] then 0 else s[0] + 256 * Unfixed(s[1..])
  }

  function Power256(n: nat): nat {
    if n == 0 then 1 else 256 * Power256(n - 1)
  }

  lemma {:induction false} UnfixedFixed(v: nat, n: nat)
    requires v < Power256(n)
    ensures Unfixed(Fixed(v, n)) == v
  {
    if n > 0 {
      assert Fixed(v, n)[1..] == Fixed(v / 256, n - 1);
      UnfixedFixed(v / 256, n - 1);
    }
  }

  /** A fixed-length signed integer; one that decodes as negative is refused. */
  function DecodeFixed(s: Bytes, n: nat): Parse<nat> {
    if |s| < n || 2 * Unfixed(s[..n]) >= Power256(n) then None else Some(Decoded(Unfixed(s[..n]), s[n..]))
  }

  lemma FixedRoundTrip(v: nat, n: nat, rest: Bytes)
    requires 2 * v < Power256(n)
    ensures DecodeFixed(Fixed(v, n) + rest, n) == Some(Decoded(v, rest))
  {
    UnfixedFixed(v, n);
    assert (Fixed(v, n) + rest)[..n] == Fixed(v, n);
  }

  // ---- parts put together

  function Joined(parts: seq<Bytes>): Bytes {
    if parts == [] then [] else Joined(parts[..|parts| - 1]) + parts[|parts| - 1]
  }

  lemma {:induction false} JoinedCons(part: Bytes, parts: seq<Bytes>)
    ensures Joined([part] + parts) == part + Joined(parts)
  {
    if parts == [] {
      assert [part] + parts == [part] && [part][..0] == [];
      assert Joined([part]) == [] + part;
    } else {
      var n := |parts| - 1;
      JoinedCons(part, parts[..n]);
      assert ([part] + parts)[..n + 1] == [part] + parts[..n];
    }
  }
}
