/** Received parts of a file: sorting and merging them, and what is left to send. */
module Intervals {
  import opened Wire

  datatype Interval = Interval(start: nat, end: nat)

  /** The chunks of one file that the receiver already has. */
  datatype FileChunks = FileChunks(seqId: nat, name: Bytes, fileSize: nat, chunks: seq<Interval>)

  predicate Proper(cs: seq<Interval>) {
    forall i :: 0 <= i < |cs| ==> cs[i].start <= cs[i].end
  }

  predicate Within(cs: seq<Interval>, limit: nat) {
    forall i :: 0 <= i < |cs| ==> cs[i].end <= limit
  }

  predicate SortedByStart(cs: seq<Interval>) {
    forall i, j :: 0 <= i < j < |cs| ==> cs[i].start <= cs[j].start
  }

  /** Merged form: in order, with a gap between any two. */
  predicate Merged(cs: seq<Interval>) {
    Proper(cs) && forall i, j :: 0 <= i < j < |cs| ==> cs[i].end < cs[j].start
  }

  predicate HasByte(cs: seq<Interval>, x: int) {
    exists i :: 0 <= i < |cs| && cs[i].start <= x < cs[i].end
  }

  /**
   Membership in the closed intervals, on the half-integer grid: 2x is the border in front of byte x and 2x + 1 is
   the byte itself.  Unlike byte membership it sees empty chunks and tells touching chunks from separated ones.
   */
  predicate Touches(cs: seq<Interval>, y: int) {
    exists i :: 0 <= i < |cs| && 2 * cs[i].start <= y <= 2 * cs[i].end
  }

  lemma ByteIsTouched(cs: seq<Interval>, x: int)
    ensures HasByte(cs, x) <==> Touches(cs, 2 * x + 1)
  {
    if HasByte(cs, x) {
      var i :| 0 <= i < |cs| && cs[i].start <= x < cs[i].end;
      assert 2 * cs[i].start <= 2 * x + 1 <= 2 * cs[i].end;
    }
    if Touches(cs, 2 * x + 1) {
      var i :| 0 <= i < |cs| && 2 * cs[i].start <= 2 * x + 1 <= 2 * cs[i].end;
      assert cs[i].start <= x < cs[i].end;
    }
  }

  // ---- sorting

  function Insert(c: Interval, cs: seq<Interval>): seq<Interval> {
    if cs == [] then [c]
    else if c.start <= cs[0].start then [c] + cs
    else [cs[0]] + Insert(c, cs[1..])
  }

  /** The standard library's sort; which of the possible orders it picks does not matter, see MergeUnique. */
  function Sort(cs: seq<Interval>): seq<Interval> {
    if cs == [] then [] else Insert(cs[0], Sort(cs[1..]))
  }

  lemma {:induction false} InsertKeeps(c: Interval, cs: seq<Interval>)
    ensures multiset(Insert(c, cs)) == multiset(cs) + multiset{c}
  {
    if cs != [] {
      assert cs == [cs[0]] + cs[1..];
      InsertKeeps(c, cs[1..]);
    }
  }

  lemma SortedCons(c: Interval, cs: seq<Interval>)
    requires SortedByStart(cs) && forall x :: x in cs ==> c.start <= x.start
    ensures SortedByStart([c] + cs)
  {
  }

  lemma {:induction false} InsertSorts(c: Interval, cs: seq<Interval>)
    requires SortedByStart(cs)
    ensures SortedByStart(Insert(c, cs))
  {
    if cs != [] {
      var head, tail := cs[0], cs[1..];
      if c.start <= head.start {
        SortedCons(c, cs);
      } else {
        InsertSorts(c, tail);
        InsertKeeps(c, tail);
        forall x | x in Insert(c, tail) ensures head.start <= x.start {
          assert x in multiset(Insert(c, tail));
          assert x == c || x in tail;
        }
        SortedCons(head, Insert(c, tail));
      }
    }
  }

  lemma {:induction false} SortSorts(cs: seq<Interval>)
    ensures SortedByStart(Sort(cs)) && multiset(Sort(cs)) == multiset(cs)
  {
    if cs != [] {
      SortSorts(cs[1..]);
      InsertSorts(cs[0], Sort(cs[1..]));
      InsertKeeps(cs[0], Sort(cs[1..]));
      assert cs == [cs[0]] + cs[1..];
    }
  }

  /** Membership does not depend on the order. */
  lemma SameElements(a: seq<Interval>, b: seq<Interval>)
    requires multiset(a) == multiset(b)
    ensures Proper(a) ==> Proper(b)
    ensures forall limit :: Within(a, limit) ==> Within(b, limit)
    ensures forall y :: Touches(a, y) ==> Touches(b, y)
  {
    forall i | 0 <= i < |b| ensures b[i] in a {
      assert b[i] in multiset(b);
    }
    forall y | Touches(a, y) ensures Touches(b, y) {
      var i :| 0 <= i < |a| && 2 * a[i].start <= y <= 2 * a[i].end;
      assert a[i] in multiset(a);
      assert a[i] in b;
      var j :| 0 <= j < |b| && b[j] == a[i];
    }
  }

  // ---- merging

  function Max(a: nat, b: nat): nat {
    if a > b then a else b
  }

  function MergeFrom(cur: Interval, rest: seq<Interval>): seq<Interval>
    decreases |rest|
  {
    if rest == [] then [cur]
    else if rest[0].start > cur.end then [cur] + MergeFrom(rest[0], rest[1..])
    else MergeFrom(Interval(cur.start, Max(cur.end, rest[0].end)), rest[1..])
  }

  function MergeSorted(cs: seq<Interval>): seq<Interval> {
    if cs == [] then [] else MergeFrom(cs[0], cs[1..])
  }

  function Merge(cs: seq<Interval>): seq<Interval> {
    MergeSorted(Sort(cs))
  }

  /** The merging loop over the sorted chunks. */
  lemma Regroup(merged: seq<Interval>, cur: Interval, later: seq<Interval>)
    ensures merged + ([cur] + later) == (merged + [cur]) + later
  {
  }

  method MergeChunks(chunks: seq<Interval>) returns (merged: seq<Interval>)
    ensures merged == Merge(chunks)
  {
    if chunks == [] {
      return chunks;
    }
    SortSorts(chunks);
    var sorted := Sort(chunks);
    assert |multiset(sorted)| == |multiset(chunks)|;
    merged := [];
    var cur := sorted[0];
    for i := 1 to |sorted|
      invariant MergeSorted(sorted) == merged + MergeFrom(cur, sorted[i..])
    {
      assert sorted[i..][1..] == sorted[i + 1..];
      if sorted[i].start > cur.end {
        Regroup(merged, cur, MergeFrom(sorted[i], sorted[i + 1..]));
        merged := merged + [cur];
        cur := sorted[i];
      } else {
        cur := Interval(cur.start, Max(cur.end, sorted[i].end));
      }
    }
    merged := merged + [cur];
  }

  predicate HeadTouches(c: Interval, y: int) {
    2 * c.start <= y <= 2 * c.end
  }

  lemma TouchesCons(c: Interval, cs: seq<Interval>, y: int)
    ensures Touches([c] + cs, y) <==> HeadTouches(c, y) || Touches(cs, y)
  {
    var all := [c] + cs;
    if HeadTouches(c, y) {
      assert 2 * all[0].start <= y <= 2 * all[0].end;
    }
    if Touches(cs, y) {
      var i :| 0 <= i < |cs| && 2 * cs[i].start <= y <= 2 * cs[i].end;
      assert all[i + 1] == cs[i];
    }
    if Touches(all, y) {
      var i :| 0 <= i < |all| && 2 * all[i].start <= y <= 2 * all[i].end;
      if i > 0 {
        assert cs[i - 1] == all[i];
      }
    }
  }

  lemma MergedCons(c: Interval, cs: seq<Interval>)
    requires c.start <= c.end && Merged(cs) && (cs != [] ==> c.end < cs[0].start)
    ensures Merged([c] + cs)
  {
    forall j | 0 <= j < |cs| ensures c.end < cs[j].start {
      assert j == 0 || cs[0].end < cs[j].start;
    }
  }

  predicate Before(c: Interval, cs: seq<Interval>) {
    c.start <= c.end && forall j :: 0 <= j < |cs| ==> c.start <= cs[j].start
  }

  lemma {:induction false} MergeFromOk(cur: Interval, rest: seq<Interval>, y: int)
    requires Before(cur, rest) && Proper(rest) && SortedByStart(rest)
    ensures var m := MergeFrom(cur, rest);
            && Merged(m) && m != [] && m[0].start == cur.start
            && (Touches(m, y) <==> HeadTouches(cur, y) || Touches(rest, y))
    decreases |rest|
  {
    if rest == [] {
      TouchesCons(cur, [], y);
      assert [cur] + [] == [cur];
    } else {
      assert rest == [rest[0]] + rest[1..];
      TouchesCons(rest[0], rest[1..], y);
      if rest[0].start > cur.end {
        MergeFromOk(rest[0], rest[1..], y);
        var tail := MergeFrom(rest[0], rest[1..]);
        TouchesCons(cur, tail, y);
        MergedCons(cur, tail);
      } else {
        MergeFromOk(Interval(cur.start, Max(cur.end, rest[0].end)), rest[1..], y);
      }
    }
  }

  /** Merging gives the merged form and neither adds nor loses a byte, a border or an empty chunk. */
  lemma MergeOk(cs: seq<Interval>)
    requires Proper(cs)
    ensures Merged(Merge(cs)) && forall y :: Touches(Merge(cs), y) <==> Touches(cs, y)
  {
    MergeTouches(cs, 0);
    forall y ensures Touches(Merge(cs), y) <==> Touches(cs, y) {
      MergeTouches(cs, y);
    }
  }

  lemma MergeTouches(cs: seq<Interval>, y: int)
    requires Proper(cs)
    ensures Merged(Merge(cs)) && (Touches(Merge(cs), y) <==> Touches(cs, y))
  {
    SortSorts(cs);
    var s := Sort(cs);
    SameElements(cs, s);
    SameElements(s, cs);
    if s != [] {
      assert s == [s[0]] + s[1..];
      MergeFromOk(s[0], s[1..], y);
      TouchesCons(s[0], s[1..], y);
    }
  }

  /** Merging keeps every byte and adds none. */
  lemma MergeKeepsBytes(cs: seq<Interval>, x: int)
    requires Proper(cs)
    ensures HasByte(Merge(cs), x) <==> HasByte(cs, x)
  {
    MergeOk(cs);
    ByteIsTouched(cs, x);
    ByteIsTouched(Merge(cs), x);
  }

  /** The merged form is determined by what it covers, so the order among equal starts does not matter. */
  lemma {:induction false} MergeUnique(a: seq<Interval>, b: seq<Interval>)
    requires Merged(a) && Merged(b) && forall y :: Touches(a, y) <==> Touches(b, y)
    ensures a == b
    decreases |a|
  {
    if a == [] || b == [] {
      assert a != [] ==> Touches(a, 2 * a[0].start);
      assert b != [] ==> Touches(b, 2 * b[0].start);
    } else {
      FirstSame(a, b);
      FirstSame(b, a);
      FirstEnds(a, b);
      FirstEnds(b, a);
      assert a == [a[0]] + a[1..] && b == [b[0]] + b[1..];
      forall y ensures Touches(a[1..], y) <==> Touches(b[1..], y) {
        TouchesCons(a[0], a[1..], y);
        TouchesCons(b[0], b[1..], y);
        BeyondFirst(a, y);
        BeyondFirst(b, y);
      }
      MergeUnique(a[1..], b[1..]);
    }
  }

  lemma FirstSame(a: seq<Interval>, b: seq<Interval>)
    requires Merged(a) && Merged(b) && a != [] && b != [] && forall y :: Touches(a, y) ==> Touches(b, y)
    ensures b[0].start <= a[0].start
  {
    assert Touches(a, 2 * a[0].start);
    var i :| 0 <= i < |b| && 2 * b[i].start <= 2 * a[0].start <= 2 * b[i].end;
    assert b[0].end < b[i].start || i == 0;
  }

  lemma FirstEnds(a: seq<Interval>, b: seq<Interval>)
    requires Merged(a) && Merged(b) && a != [] && b != [] && forall y :: Touches(a, y) <==> Touches(b, y)
    requires a[0].start == b[0].start
    ensures a[0].end <= b[0].end
  {
    var y := 2 * b[0].end + 1;
    assert a[0].end > b[0].end ==> HeadTouches(a[0], y) && Touches(a, y);
    assert !Touches(b, y);
  }

  lemma BeyondFirst(a: seq<Interval>, y: int)
    requires Merged(a) && a != []
    ensures Touches(a[1..], y) ==> !HeadTouches(a[0], y)
  {
    if Touches(a[1..], y) {
      var i :| 0 <= i < |a[1..]| && 2 * a[1..][i].start <= y <= 2 * a[1..][i].end;
      assert a[1..][i] == a[i + 1];
    }
  }

  /** Sorting in any other way and merging gives the same list. */
  lemma AnySortMergesAlike(cs: seq<Interval>, other: seq<Interval>)
    requires Proper(cs) && multiset(other) == multiset(cs) && SortedByStart(other)
    ensures MergeSorted(other) == Merge(cs)
  {
    SameElements(cs, other);
    SameElements(other, cs);
    MergeOk(cs);
    if other == [] {
      assert |multiset(cs)| == 0;
      assert cs == [];
    } else {
      assert other == [other[0]] + other[1..];
      forall y ensures Touches(MergeSorted(other), y) <==> Touches(Merge(cs), y) {
        MergeFromOk(other[0], other[1..], y);
        TouchesCons(other[0], other[1..], y);
      }
      MergeFromOk(other[0], other[1..], 0);
      MergeUnique(MergeSorted(other), Merge(cs));
    }
  }

  lemma {:induction false} MergeWithin(cs: seq<Interval>, limit: nat)
    requires Proper(cs) && Within(cs, limit)
    ensures Within(Merge(cs), limit)
  {
    MergeOk(cs);
    var m := Merge(cs);
    forall i | 0 <= i < |m| ensures m[i].end <= limit {
      assert Touches(m, 2 * m[i].end);
      assert Touches(cs, 2 * m[i].end);
    }
  }

  // ---- what is left

  function Remaining(cs: seq<Interval>, cur: nat, size: nat): seq<Interval> {
    if cs == [] then if cur < size then [Interval(cur, size)] else []
    else (if cs[0].start > cur then [Interval(cur, cs[0].start)] else []) + Remaining(cs[1..], cs[0].end, size)
  }

  method GetRemainingChunks(chunks: seq<Interval>, fileSize: nat) returns (remaining: seq<Interval>)
    ensures remaining == Remaining(chunks, 0, fileSize)
  {
    remaining := [];
    var curStart: nat := 0;
    for i := 0 to |chunks|
      invariant Remaining(chunks, 0, fileSize) == remaining + Remaining(chunks[i..], curStart, fileSize)
    {
      assert chunks[i..][1..] == chunks[i + 1..];
      if chunks[i].start > curStart {
        remaining := remaining + [Interval(curStart, chunks[i].start)];
      }
      curStart := chunks[i].end;
    }
    if curStart < fileSize {
      remaining := remaining + [Interval(curStart, fileSize)];
    }
  }

  /** In how many of the chunks a byte lies. */
  function Count(cs: seq<Interval>, x: int): nat {
    if cs == [] then 0 else (if cs[0].start <= x < cs[0].end then 1 else 0) + Count(cs[1..], x)
  }

  lemma {:induction false} CountConcat(a: seq<Interval>, b: seq<Interval>, x: int)
    ensures Count(a + b, x) == Count(a, x) + Count(b, x)
  {
    if a == [] {
      assert a + b == b;
    } else {
      assert (a + b)[1..] == a[1..] + b;
      CountConcat(a[1..], b, x);
    }
  }

  lemma {:induction false} RemainingTiles(cs: seq<Interval>, cur: nat, size: nat, x: int)
    requires Merged(cs) && Within(cs, size) && cur <= size && (cs != [] ==> cur <= cs[0].start)
    ensures var r := Remaining(cs, cur, size);
            && Count(cs, x) + Count(r, x) == (if cur <= x < size then 1 else 0)
            && forall i :: 0 <= i < |r| ==> r[i].start < r[i].end <= size
  {
    if cs == [] {
      assert [Interval(cur, size)][1..] == [];
    } else {
      assert forall j :: 0 <= j < |cs[1..]| ==> cs[1..][j] == cs[j + 1];
      RemainingTiles(cs[1..], cs[0].end, size, x);
      var gap := if cs[0].start > cur then [Interval(cur, cs[0].start)] else [];
      CountConcat(gap, Remaining(cs[1..], cs[0].end, size), x);
      if gap != [] {
        assert gap[1..] == [];
      }
    }
  }
}
