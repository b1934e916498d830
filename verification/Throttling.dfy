/**
 The rate limits that all threads of a transfer share.  Time is a real number, in seconds; each request adds to the
 progress and then sleeps as long as it is told to.  Where the program adds to an integer, the sum is truncated.
 */
module Throttling {

  /** The time that so many bytes take. */
  function TimeFor(bytes: real, rate: real): real
    requires rate > 0.0
  {
    bytes / rate
  }

  /** How long to sleep; negative for not at all. */
  function AverageSleep(progress: real, rate: real, elapsed: real): real {
    if rate <= 0.0 then -1.0
    else if progress > rate * elapsed then TimeFor(progress, rate) - elapsed
    else -1.0
  }

  /** A request: its size, the progress it saw after adding itself, when it may return, and whether it has. */
  datatype Request = Request(size: real, progress: real, wakeUp: real, done: bool)

  datatype State = State(rate: real, now: real, progress: real, requests: seq<Request>)

  datatype Step = Pass(seconds: real) | Ask(size: real) | Return(i: nat)

  predicate Init(st: State) {
    st.rate > 0.0 && st.now == 0.0 && st.progress == 0.0 && st.requests == []
  }

  predicate Enabled(st: State, step: Step) {
    match step
    case Pass(seconds) => seconds >= 0.0
    case Ask(size) => size >= 0.0
    case Return(i) => i < |st.requests| && !st.requests[i].done && st.requests[i].wakeUp <= st.now
  }

  function Apply(st: State, step: Step): State
    requires Enabled(st, step)
  {
    match step
    case Pass(seconds) => st.(now := st.now + seconds)
    case Ask(size) =>
      var progress := st.progress + size;
      var sleep := AverageSleep(progress, st.rate, st.now);
      var wakeUp := if sleep > 0.0 then st.now + sleep else st.now;
      st.(progress := progress, requests := st.requests + [Request(size, progress, wakeUp, false)])
    case Return(i) => st.(requests := st.requests[i := st.requests[i].(done := true)])
  }

  ghost predicate Next(st: State, st': State) {
    exists step :: Enabled(st, step) && st' == Apply(st, step)
  }

  ghost predicate IsRun(run: seq<State>) {
    && run != [] && Init(run[0])
    && forall i :: 0 <= i < |run| - 1 ==> Next(run[i], run[i + 1])
  }

  function Asked(rs: seq<Request>): real {
    if rs == [] then 0.0 else Asked(rs[..|rs| - 1]) + rs[|rs| - 1].size
  }

  /** The bytes of the requests that have returned. */
  function Returned(rs: seq<Request>): real {
    if rs == [] then 0.0 else Returned(rs[..|rs| - 1]) + if rs[|rs| - 1].done then rs[|rs| - 1].size else 0.0
  }

  /** Each request saw the sizes of all before it, and nobody wakes before the rate allows what they saw. */
  predicate RequestsOk(rate: real, rs: seq<Request>) {
    rs != [] ==>
      var r := rs[|rs| - 1];
      && r.size >= 0.0 && r.progress == Asked(rs) && r.progress <= rate * r.wakeUp
      && RequestsOk(rate, rs[..|rs| - 1])
  }

  predicate Inv(st: State) {
    && st.rate > 0.0 && st.now >= 0.0 && st.progress == Asked(st.requests) && RequestsOk(st.rate, st.requests)
    && forall i :: 0 <= i < |st.requests| && st.requests[i].done ==> st.requests[i].wakeUp <= st.now
  }

  lemma SleepIsLongEnough(progress: real, rate: real, now: real)
    requires rate > 0.0
    ensures var sleep := AverageSleep(progress, rate, now);
            progress <= rate * (if sleep > 0.0 then now + sleep else now)
  {
    if progress > rate * now {
      assert rate * (progress / rate) == progress;
      if progress / rate <= now {
        assert rate * (progress / rate) <= rate * now;
      }
    }
  }

  lemma {:induction false} DoneKept(rate: real, rs: seq<Request>, i: nat)
    requires i < |rs| && RequestsOk(rate, rs)
    ensures var rs' := rs[i := rs[i].(done := true)]; Asked(rs') == Asked(rs) && RequestsOk(rate, rs')
  {
    var n := |rs| - 1;
    var rs' := rs[i := rs[i].(done := true)];
    if i == n {
      assert rs'[..n] == rs[..n];
    } else {
      assert rs'[..n] == rs[..n][i := rs[i].(done := true)];
      DoneKept(rate, rs[..n], i);
    }
  }

  lemma StepKeepsInv(st: State, step: Step)
    requires Inv(st) && Enabled(st, step)
    ensures Inv(Apply(st, step))
  {
    var st' := Apply(st, step);
    if step.Ask? {
      SleepIsLongEnough(st'.progress, st.rate, st.now);
      assert st'.requests[..|st.requests|] == st.requests;
    } else if step.Return? {
      DoneKept(st.rate, st.requests, step.i);
    }
  }

  lemma {:induction false} RunKeepsInv(run: seq<State>, k: nat)
    requires IsRun(run) && k < |run|
    ensures Inv(run[k])
  {
    if k > 0 {
      RunKeepsInv(run, k - 1);
      assert Next(run[k - 1], run[k - 1 + 1]);
      var step :| Enabled(run[k - 1], step) && run[k] == Apply(run[k - 1], step);
      StepKeepsInv(run[k - 1], step);
    }
  }

  lemma {:induction false} ReturnedAtMostAsked(rate: real, rs: seq<Request>)
    requires RequestsOk(rate, rs)
    ensures 0.0 <= Returned(rs) <= Asked(rs)
  {
    if rs != [] {
      ReturnedAtMostAsked(rate, rs[..|rs| - 1]);
    }
  }

  lemma {:induction false} ReturnedBounded(rate: real, now: real, rs: seq<Request>)
    requires rate > 0.0 && now >= 0.0 && RequestsOk(rate, rs)
    requires forall i :: 0 <= i < |rs| && rs[i].done ==> rs[i].wakeUp <= now
    ensures Returned(rs) <= rate * now
  {
    if rs != [] {
      var r := rs[|rs| - 1];
      if r.done {
        ReturnedAtMostAsked(rate, rs);
        assert rate * r.wakeUp <= rate * now;
      } else {
        ReturnedBounded(rate, now, rs[..|rs| - 1]);
      }
    }
  }

  /** In every run, at any time, the bytes of all requests that have returned do not exceed rate times elapsed time. */
  lemma AverageRateHolds(run: seq<State>, k: nat)
    requires IsRun(run) && k < |run|
    ensures Returned(run[k].requests) <= run[k].rate * run[k].now
  {
    RunKeepsInv(run, k);
    ReturnedBounded(run[k].rate, run[k].now, run[k].requests);
  }

  // ---- the token bucket

  datatype Bucket = Bucket(tokens: int, filled: real)

  function Truncated(x: real): int {
    if x >= 0.0 then x.Floor else -((-x).Floor)
  }

  lemma TruncatedNear(x: real)
    ensures x - 1.0 < Truncated(x) as real < x + 1.0 && (x >= 0.0 ==> Truncated(x) as real <= x)
  {
  }

  /** The bucket gets what was earned, to its limit, and gives what is asked for. */
  function TokensAfter(limit: real, tokens: int, earned: real, size: real): int {
    var filled := Truncated(tokens as real + earned);
    var capped := if filled as real > limit then Truncated(limit) else filled;
    Truncated(capped as real - size)
  }

  function Earned(rate: real, from: real, to: real): real {
    (to - from) * rate
  }

  /** A request fills the bucket up for the time that has passed and takes its size out. */
  function Charge(rate: real, limit: real, b: Bucket, size: real, now: real): Bucket {
    Bucket(TokensAfter(limit, b.tokens, Earned(rate, b.filled, now), size), now)
  }

  /** How long to sleep until the bucket is not in debt; negative for not at all. */
  function PeakSleep(rate: real, b: Bucket): real
    requires rate > 0.0
  {
    if b.tokens < 0 then TimeFor(-(b.tokens as real), rate) else -1.0
  }

  datatype Charged = Charged(size: real, at: real)

  function BucketAfter(rate: real, limit: real, start: real, cs: seq<Charged>): Bucket {
    if cs == [] then Bucket(0, start)
    else
      var c := cs[|cs| - 1];
      Charge(rate, limit, BucketAfter(rate, limit, start, cs[..|cs| - 1]), c.size, c.at)
  }

  function SizesOf(cs: seq<Charged>): real {
    if cs == [] then 0.0 else SizesOf(cs[..|cs| - 1]) + cs[|cs| - 1].size
  }

  /** Truncation may forgive a request two bytes, no more. */
  lemma TokensBound(limit: real, tokens: int, earned: real, size: real)
    requires limit > 0.0
    ensures TokensAfter(limit, tokens, earned, size) as real <= tokens as real + earned - size + 2.0
  {
    var sum := tokens as real + earned;
    TruncatedNear(sum);
    TruncatedNear(limit);
    var filled := Truncated(sum);
    var capped := if filled as real > limit then Truncated(limit) else filled;
    assert capped as real < sum + 1.0;
    TruncatedNear(capped as real - size);
  }

  /** What was charged is what the bucket has earned and owes, but for a few bytes. */
  predicate Within(rate: real, b: Bucket, sizes: real, slack: real) {
    sizes + b.tokens as real <= rate * b.filled + slack
  }

  lemma Distribute(rate: real, from: real, to: real)
    ensures rate * from + Earned(rate, from, to) == rate * to
  {
  }

  lemma ChargeKeepsWithin(rate: real, limit: real, b: Bucket, sizes: real, slack: real, size: real, now: real)
    requires limit > 0.0 && Within(rate, b, sizes, slack)
    ensures Within(rate, Charge(rate, limit, b, size, now), sizes + size, slack + 2.0)
  {
    Distribute(rate, b.filled, now);
    TokensBound(limit, b.tokens, Earned(rate, b.filled, now), size);
  }

  lemma {:induction false} BucketWithin(rate: real, limit: real, start: real, cs: seq<Charged>, paid: real)
    requires limit > 0.0 && paid == rate * start
    ensures Within(rate, BucketAfter(rate, limit, start, cs), paid + SizesOf(cs), (2 * |cs|) as real)
  {
    if cs != [] {
      var n := |cs| - 1;
      var b, c := BucketAfter(rate, limit, start, cs[..n]), cs[n];
      BucketWithin(rate, limit, start, cs[..n], paid);
      ChargeKeepsWithin(rate, limit, b, paid + SizesOf(cs[..n]), (2 * n) as real, c.size, c.at);
    }
  }

  /** When the request that was charged last goes on. */
  function GoesOn(rate: real, b: Bucket): real
    requires rate > 0.0
  {
    var sleep := PeakSleep(rate, b);
    if sleep > 0.0 then b.filled + sleep else b.filled
  }

  lemma SleepPays(rate: real, filled: real, debt: real)
    requires rate > 0.0
    ensures rate * (filled + debt / rate) == rate * filled + debt
  {
    assert rate * (debt / rate) == debt;
  }

  lemma DebtIsPaid(rate: real, b: Bucket, sizes: real, slack: real, end: real)
    requires rate > 0.0 && Within(rate, b, sizes, slack) && end == GoesOn(rate, b)
    ensures sizes <= rate * end + slack
  {
    if b.tokens < 0 {
      SleepPays(rate, b.filled, -(b.tokens as real));
    }
  }

  /**
   * When the last request charged to the bucket goes on, all that was charged is within the peak rate, but for two
   * bytes that truncation may forgive each request.
   */
  lemma PeakRateHolds(rate: real, limit: real, start: real, cs: seq<Charged>, end: real)
    requires rate > 0.0 && limit > 0.0 && end == GoesOn(rate, BucketAfter(rate, limit, start, cs))
    ensures SizesOf(cs) <= rate * end - rate * start + (2 * |cs|) as real
  {
    var paid := rate * start;
    BucketWithin(rate, limit, start, cs, paid);
    DebtIsPaid(rate, BucketAfter(rate, limit, start, cs), paid + SizesOf(cs), (2 * |cs|) as real, end);
  }

  // ---- the throttler object

  function Total(pieces: seq<nat>): nat {
    if pieces == [] then 0 else Total(pieces[..|pieces| - 1]) + pieces[|pieces| - 1]
  }

  /** Each piece sleeps as long as the average rate demands of all that was asked for up to then. */
  predicate SleepsOk(progress: real, rate: real, start: real, clock: nat -> real, pieces: seq<nat>, sleeps: seq<real>)
    decreases |pieces|
  {
    && |sleeps| == |pieces|
    && (pieces != [] ==>
          var n := |pieces| - 1;
          var wanted := AverageSleep(progress + Total(pieces) as real, rate, clock(n) - start);
          && (wanted > 0.0 ==> sleeps[n] == wanted)
          && SleepsOk(progress, rate, start, clock, pieces[..n], sleeps[..n]))
  }

  class Throttler {
    const rate: real
    const peakRate: real
    const bucketLimit: real
    const singleRequestLimit: nat
    var refCount: int
    var startTime: real
    var progress: real
    var bucket: Bucket

    constructor (rate: real, peakRate: real, bucketLimit: real, singleRequestLimit: nat)
      requires singleRequestLimit > 0
      ensures this.rate == rate && this.peakRate == peakRate && this.bucketLimit == bucketLimit
      ensures this.singleRequestLimit == singleRequestLimit && refCount == 0 && progress == 0.0
    {
      this.rate, this.peakRate, this.bucketLimit := rate, peakRate, bucketLimit;
      this.singleRequestLimit, refCount, startTime, progress, bucket := singleRequestLimit, 0, 0.0, 0.0, Bucket(0, 0.0);
    }

    /** The first transfer starts the clock. */
    method StartTransfer(now: real)
      modifies this
      ensures refCount == old(refCount) + 1
      ensures old(refCount) == 0 ==> startTime == now && progress == 0.0 && bucket == Bucket(0, now)
      ensures old(refCount) != 0 ==> startTime == old(startTime) && progress == old(progress) && bucket == old(bucket)
    {
      if refCount == 0 {
        startTime, progress, bucket := now, 0.0, Bucket(0, now);
      }
      refCount := refCount + 1;
    }

    /** Under the lock: the request counts from now on, and learns how long to sleep; the average rate comes first. */
    method CalculateSleep(size: real, now: real) returns (sleep: real)
      modifies this`progress, this`bucket
      ensures refCount <= 0 ==> sleep == -1.0 && progress == old(progress) && bucket == old(bucket)
      ensures refCount > 0 ==> progress == old(progress) + size
      ensures refCount > 0 && AverageSleep(progress, rate, now - startTime) > 0.0 ==>
                sleep == AverageSleep(progress, rate, now - startTime) && bucket == old(bucket)
      ensures refCount > 0 && AverageSleep(progress, rate, now - startTime) <= 0.0 ==>
                if peakRate > 0.0 && bucketLimit > 0.0 then
                  bucket == Charge(peakRate, bucketLimit, old(bucket), size, now)
                    && sleep == PeakSleep(peakRate, bucket)
                else bucket == old(bucket) && sleep == -1.0
    {
      if refCount <= 0 {
        return -1.0;
      }
      progress := progress + size;
      sleep := AverageThrottler(now);
      if sleep > 0.0 {
        return;
      }
      if peakRate > 0.0 && bucketLimit > 0.0 {
        sleep := TakeTokens(size, now);
        return;
      }
      return -1.0;
    }

    /** Fills the bucket and takes the request's tokens out of it. */
    method TakeTokens(size: real, now: real) returns (sleep: real)
      requires peakRate > 0.0
      modifies this`bucket
      ensures bucket == Charge(peakRate, bucketLimit, old(bucket), size, now) && sleep == PeakSleep(peakRate, bucket)
    {
      var earned := Earned(peakRate, bucket.filled, now);
      var tokens := Truncated(bucket.tokens as real + earned);
      if tokens as real > bucketLimit {
        tokens := Truncated(bucketLimit);
      }
      tokens := Truncated(tokens as real - size);
      assert tokens == TokensAfter(bucketLimit, bucket.tokens, earned, size);
      bucket := Bucket(tokens, now);
      if tokens < 0 {
        return TimeFor(-(tokens as real), peakRate);
      }
      return -1.0;
    }

    method AverageThrottler(now: real) returns (sleep: real)
      ensures sleep == AverageSleep(progress, rate, now - startTime)
    {
      var elapsed := now - startTime;
      if rate <= 0.0 {
        return -1.0;
      }
      var allowed := rate * elapsed;
      if progress > allowed {
        var idealTime := TimeFor(progress, rate);
        return idealTime - elapsed;
      }
      return -1.0;
    }

    /** A large request is made in pieces that each respect the limit of a single request, and sleep on their own. */
    method Limit(size: nat, clock: nat -> real) returns (pieces: seq<nat>, sleeps: seq<real>)
      requires singleRequestLimit > 0
      modifies this`progress, this`bucket
      ensures Total(pieces) == size && forall i :: 0 <= i < |pieces| ==> 0 < pieces[i] <= singleRequestLimit
      ensures progress == if refCount > 0 then old(progress) + size as real else old(progress)
      ensures refCount > 0 ==> SleepsOk(old(progress), rate, startTime, clock, pieces, sleeps)
    {
      var throttled := 0;
      pieces, sleeps := [], [];
      while throttled < size
        invariant 0 <= throttled <= size && Total(pieces) == throttled
        invariant progress == if refCount > 0 then old(progress) + throttled as real else old(progress)
        invariant forall i :: 0 <= i < |pieces| ==> 0 < pieces[i] <= singleRequestLimit
        invariant refCount > 0 ==> SleepsOk(old(progress), rate, startTime, clock, pieces, sleeps)
      {
        var piece := if singleRequestLimit < size - throttled then singleRequestLimit else size - throttled;
        var sleep := CalculateSleep(piece as real, clock(|pieces|));
        assert (pieces + [piece])[..|pieces|] == pieces && (sleeps + [sleep])[..|sleeps|] == sleeps;
        throttled := throttled + piece;
        pieces, sleeps := pieces + [piece], sleeps + [sleep];
      }
    }
  }
}
