/** Maps from ids that are walked in increasing order of the id. */
module OrderedMaps {
  import opened Options
  import opened Wire

  datatype Pair<+V> = Pair(key: Int64, value: V)

  type OrderedMap<+V> = seq<Pair<V>>

  predicate Sorted<V>(m: OrderedMap<V>) {
    forall i, j :: 0 <= i < j < |m| ==> m[i].key < m[j].key
  }

  function Get<V>(m: OrderedMap<V>, k: Int64): Option<V> {
    if m == [] then None else if m[0].key == k then Some(m[0].value) else Get(m[1..], k)
  }

  function Set<V>(m: OrderedMap<V>, k: Int64, v: V): OrderedMap<V> {
    if m == [] || k < m[0].key then [Pair(k, v)] + m
    else if k == m[0].key then [Pair(k, v)] + m[1..]
    else [m[0]] + Set(m[1..], k, v)
  }

  function Remove<V>(m: OrderedMap<V>, k: Int64): OrderedMap<V> {
    if m == [] then [] else if m[0].key == k then m[1..] else [m[0]] + Remove(m[1..], k)
  }

  predicate Below<V>(k: int, m: OrderedMap<V>) {
    forall i :: 0 <= i < |m| ==> k < m[i].key
  }

  lemma SortedTail<V>(m: OrderedMap<V>)
    requires Sorted(m) && m != []
    ensures Sorted(m[1..]) && Below(m[0].key, m[1..])
  {
    assert forall i :: 0 <= i < |m[1..]| ==> m[1..][i] == m[i + 1];
  }

  lemma SortedCons<V>(p: Pair<V>, m: OrderedMap<V>)
    requires Sorted(m) && Below(p.key, m)
    ensures Sorted([p] + m)
  {
    var m' := [p] + m;
    assert forall i :: 0 < i < |m'| ==> m'[i] == m[i - 1];
  }

  lemma BelowCons<V>(k: int, p: Pair<V>, m: OrderedMap<V>)
    requires k < p.key && Below(k, m)
    ensures Below(k, [p] + m)
  {
    var m' := [p] + m;
    assert forall i :: 0 < i < |m'| ==> m'[i] == m[i - 1];
  }

  lemma {:induction false} BelowHasNone<V>(m: OrderedMap<V>, k: Int64)
    requires Below(k, m)
    ensures Get(m, k) == None
  {
    if m != [] {
      assert forall i :: 0 <= i < |m[1..]| ==> m[1..][i] == m[i + 1];
      BelowHasNone(m[1..], k);
    }
  }

  lemma {:induction false} SetOk<V>(m: OrderedMap<V>, k: Int64, v: V)
    requires Sorted(m)
    ensures Sorted(Set(m, k, v))
    ensures forall l: int :: l < k && Below(l, m) ==> Below(l, Set(m, k, v))
  {
    if m != [] {
      SortedTail(m);
      if k < m[0].key {
        forall i | 0 <= i < |m| ensures k < m[i].key {
        }
        SortedCons(Pair(k, v), m);
      } else if k == m[0].key {
        SortedCons(Pair(k, v), m[1..]);
      } else {
        SetOk(m[1..], k, v);
        SortedCons(m[0], Set(m[1..], k, v));
        forall l: int | l < k && Below(l, m) ensures Below(l, Set(m, k, v)) {
          assert Below(l, m[1..]) by { assert forall i :: 0 <= i < |m[1..]| ==> m[1..][i] == m[i + 1]; }
          BelowCons(l, m[0], Set(m[1..], k, v));
        }
      }
    }
  }

  lemma {:induction false} GetSet<V>(m: OrderedMap<V>, k: Int64, v: V, j: Int64)
    requires Sorted(m)
    ensures Get(Set(m, k, v), j) == if j == k then Some(v) else Get(m, j)
  {
    if m != [] {
      SortedTail(m);
      assert ([Pair(k, v)] + m)[1..] == m && ([Pair(k, v)] + m[1..])[1..] == m[1..];
      if k > m[0].key {
        GetSet(m[1..], k, v, j);
        assert ([m[0]] + Set(m[1..], k, v))[1..] == Set(m[1..], k, v);
      }
    }
  }

  lemma {:induction false} RemoveOk<V>(m: OrderedMap<V>, k: Int64)
    requires Sorted(m)
    ensures Sorted(Remove(m, k))
    ensures forall l: int :: Below(l, m) ==> Below(l, Remove(m, k))
  {
    if m != [] {
      SortedTail(m);
      if m[0].key != k {
        RemoveOk(m[1..], k);
        SortedCons(m[0], Remove(m[1..], k));
        forall l: int | Below(l, m) ensures Below(l, Remove(m, k)) {
          assert Below(l, m[1..]) by { assert forall i :: 0 <= i < |m[1..]| ==> m[1..][i] == m[i + 1]; }
          BelowCons(l, m[0], Remove(m[1..], k));
        }
      } else {
        assert forall i :: 0 <= i < |m[1..]| ==> m[1..][i] == m[i + 1];
      }
    }
  }

  lemma {:induction false} GetRemove<V>(m: OrderedMap<V>, k: Int64, j: Int64)
    requires Sorted(m)
    ensures Get(Remove(m, k), j) == if j == k then None else Get(m, j)
  {
    if m != [] {
      SortedTail(m);
      if m[0].key == k {
        BelowHasNone(m[1..], k);
      } else {
        GetRemove(m[1..], k, j);
        assert ([m[0]] + Remove(m[1..], k))[1..] == Remove(m[1..], k);
      }
    }
  }

  /** Removing an absent id changes nothing. */
  lemma {:induction false} RemoveAbsent<V>(m: OrderedMap<V>, k: Int64)
    requires Get(m, k) == None
    ensures Remove(m, k) == m
  {
    if m != [] {
      RemoveAbsent(m[1..], k);
    }
  }

  /** An id above all others goes to the end. */
  lemma {:induction false} SetLast<V>(m: OrderedMap<V>, k: Int64, v: V)
    requires forall i :: 0 <= i < |m| ==> m[i].key < k
    ensures Set(m, k, v) == m + [Pair(k, v)] && Get(m, k) == None
    ensures forall w :: Set(m + [Pair(k, w)], k, v) == m + [Pair(k, v)] && Get(m + [Pair(k, w)], k) == Some(w)
  {
    if m != [] {
      assert forall i :: 0 <= i < |m[1..]| ==> m[1..][i] == m[i + 1];
      SetLast(m[1..], k, v);
      forall w ensures Set(m + [Pair(k, w)], k, v) == m + [Pair(k, v)] && Get(m + [Pair(k, w)], k) == Some(w) {
        assert (m + [Pair(k, w)])[1..] == m[1..] + [Pair(k, w)];
      }
    } else {
      forall w ensures Set(m + [Pair(k, w)], k, v) == m + [Pair(k, v)] && Get(m + [Pair(k, w)], k) == Some(w) {
        assert m + [Pair(k, w)] == [Pair(k, w)] && [Pair(k, w)][1..] == [];
      }
    }
  }

  /** A walk visits the ids that are present, with their values. */
  lemma {:induction false} GetIs<V>(m: OrderedMap<V>, i: nat)
    requires Sorted(m) && i < |m|
    ensures Get(m, m[i].key) == Some(m[i].value)
  {
    if i > 0 {
      SortedTail(m);
      assert m[1..][i - 1] == m[i];
      GetIs(m[1..], i - 1);
    }
  }
}
