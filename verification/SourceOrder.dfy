/** The order in which queued sources are handed out: the comparison of the priority queue, and what comes first. */
module SourceOrder {
  import opened Options
  import opened Wire
  import opened Sources

  /** The order of byte strings. */
  predicate Less(a: Bytes, b: Bytes) {
    if b == [] then false
    else if a == [] then true
    else if a[0] != b[0] then a[0] < b[0]
    else Less(a[1..], b[1..])
  }

  /**
   Whether `a` is handed out before `b`: deletions first, then the source that failed less often, then the larger one,
   then the smaller offset, then the smaller name.
   */
  predicate Before(a: Source, b: Source) {
    if (a.meta.allocation == ToBeDeleted) != (b.meta.allocation == ToBeDeleted) then a.meta.allocation == ToBeDeleted
    else if a.stats.failed != b.stats.failed then a.stats.failed < b.stats.failed
    else if a.size != b.size then a.size > b.size
    else if a.offset != b.offset then a.offset < b.offset
    else Less(a.meta.relPath, b.meta.relPath)
  }

  lemma {:induction false} NotLessTransitive(a: Bytes, b: Bytes, c: Bytes)
    requires !Less(b, a) && !Less(c, b)
    ensures !Less(c, a)
  {
    if a != [] && b != [] && c != [] && a[0] == b[0] == c[0] {
      NotLessTransitive(a[1..], b[1..], c[1..]);
    }
  }

  lemma {:induction false} LessIsAsymmetric(a: Bytes, b: Bytes)
    ensures !(Less(a, b) && Less(b, a)) && (!Less(a, b) && !Less(b, a) ==> a == b)
  {
    if a != [] && b != [] && a[0] == b[0] {
      LessIsAsymmetric(a[1..], b[1..]);
      assert a == [a[0]] + a[1..] && b == [b[0]] + b[1..];
    }
  }

  lemma NotBeforeTransitive(a: Source, b: Source, c: Source)
    requires !Before(b, a) && !Before(c, b)
    ensures !Before(c, a)
  {
    if !Less(b.meta.relPath, a.meta.relPath) && !Less(c.meta.relPath, b.meta.relPath) {
      NotLessTransitive(a.meta.relPath, b.meta.relPath, c.meta.relPath);
    }
  }

  /** The order is strict, and two sources that it does not tell apart have the same name, offset and size. */
  lemma BeforeIsStrict(a: Source, b: Source)
    ensures !(Before(a, b) && Before(b, a))
    ensures !Before(a, b) && !Before(b, a) ==>
            a.meta.relPath == b.meta.relPath && a.offset == b.offset && a.size == b.size
  {
    LessIsAsymmetric(a.meta.relPath, b.meta.relPath);
  }

  /** The top of the priority queue. */
  function Top(q: seq<Source>): (k: nat)
    requires q != []
    ensures k < |q|
  {
    if |q| == 1 then 0
    else
      var k := Top(q[1..]) + 1;
      if Before(q[k], q[0]) then k else 0
  }

  lemma {:induction false} NothingBeforeTop(q: seq<Source>, i: nat)
    requires i < |q|
    ensures !Before(q[i], q[Top(q)])
  {
    if |q| == 1 {
      BeforeIsStrict(q[0], q[0]);
    } else {
      var k := Top(q[1..]) + 1;
      assert q[1..][k - 1] == q[k];
      BeforeIsStrict(q[0], q[k]);
      BeforeIsStrict(q[0], q[0]);
      if i > 0 {
        NothingBeforeTop(q[1..], i - 1);
        assert q[1..][i - 1] == q[i];
        if !Before(q[k], q[0]) {
          NotBeforeTransitive(q[0], q[k], q[i]);
        }
      }
    }
  }

  function Without(q: seq<Source>, k: nat): (rest: seq<Source>)
    requires k < |q|
    ensures |rest| == |q| - 1
  {
    q[..k] + q[k + 1..]
  }

  /** Deletions have nothing to open. */
  predicate Opens(s: Source, readable: set<Bytes>) {
    s.meta.allocation == ToBeDeleted || s.meta.relPath in readable
  }

  /** What is tried in vain, what is handed out, and what stays. */
  datatype Served = Served(failed: seq<Source>, found: Option<Source>, rest: seq<Source>)

  function Serve(q: seq<Source>, readable: set<Bytes>): Served
    decreases |q|
  {
    if q == [] then Served([], None, [])
    else
      var top, rest := q[Top(q)], Without(q, Top(q));
      if Opens(top, readable) then Served([], Some(top), rest)
      else
        var s := Serve(rest, readable);
        s.(failed := [top] + s.failed)
  }

  function Taken(s: Served): multiset<Source> {
    multiset(s.failed) + (if s.found.Some? then multiset{s.found.value} else multiset{})
  }

  lemma WithoutOne(q: seq<Source>, k: nat)
    requires k < |q|
    ensures multiset(q) == multiset{q[k]} + multiset(Without(q, k))
  {
    assert q == q[..k] + [q[k]] + q[k + 1..];
  }

  /** Nothing is lost or made up. */
  lemma {:induction false} ServeConserves(q: seq<Source>, readable: set<Bytes>)
    ensures var s := Serve(q, readable); multiset(q) == Taken(s) + multiset(s.rest)
    decreases |q|
  {
    if q != [] {
      WithoutOne(q, Top(q));
      if !Opens(q[Top(q)], readable) {
        ServeConserves(Without(q, Top(q)), readable);
      }
    }
  }

  /** Nothing that stays comes before what was tried. */
  predicate ComesFirst(x: Source, q: seq<Source>) {
    forall i :: 0 <= i < |q| ==> !Before(q[i], x)
  }

  lemma TopComesFirst(q: seq<Source>)
    requires q != []
    ensures ComesFirst(q[Top(q)], q) && ComesFirst(q[Top(q)], Without(q, Top(q)))
  {
    forall i | 0 <= i < |q| ensures !Before(q[i], q[Top(q)]) {
      NothingBeforeTop(q, i);
    }
  }

  /** What comes before a whole queue comes before all that is served from it. */
  lemma {:induction false} FirstOfServed(x: Source, q: seq<Source>, readable: set<Bytes>)
    requires ComesFirst(x, q)
    ensures var s := Serve(q, readable);
            ComesFirst(x, s.failed) && ComesFirst(x, s.rest) && (s.found.Some? ==> !Before(s.found.value, x))
    decreases |q|
  {
    if q != [] && !Opens(q[Top(q)], readable) {
      FirstOfServed(x, Without(q, Top(q)), readable);
    }
  }

  /**
   Sources are tried strictly in order, until the first that opens: everything before it failed to open, and nothing
   that stays in the queue comes before anything tried.
   */
  lemma {:induction false} ServedInOrder(q: seq<Source>, readable: set<Bytes>)
    ensures var s := Serve(q, readable);
            && (s.found.None? ==> s.rest == [])
            && (s.found.Some? ==> Opens(s.found.value, readable) && ComesFirst(s.found.value, s.rest))
            && (forall i :: 0 <= i < |s.failed| ==>
                              && !Opens(s.failed[i], readable) && ComesFirst(s.failed[i], s.rest)
                              && ComesFirst(s.failed[i], s.failed[i + 1..])
                              && (s.found.Some? ==> !Before(s.found.value, s.failed[i])))
    decreases |q|
  {
    if q != [] {
      var top, rest, s := q[Top(q)], Without(q, Top(q)), Serve(q, readable);
      TopComesFirst(q);
      if !Opens(top, readable) {
        ServedInOrder(rest, readable);
        FirstOfServed(top, rest, readable);
        var s' := Serve(rest, readable);
        assert s.failed[1..] == s'.failed;
        assert forall i :: 0 < i < |s.failed| ==>
               s.failed[i + 1..] == s'.failed[i..] && s.failed[i] == s'.failed[i - 1];
      }
    }
  }
}
