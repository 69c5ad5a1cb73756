/**
 * Python list and dict operations the source relies on: `list.remove`,
 * index lookup, mapping, and dicts as ordered lists of (key, value) entries.
 */
module Lists {
  import opened Wrappers

  /** Index of the first occurrence of `x`. */
  function IndexOf<T(==)>(s: seq<T>, x: T): (i: nat)
    requires x in s
    ensures i < |s| && s[i] == x
    ensures forall j :: 0 <= j < i ==> s[j] != x
  {
    if s[0] == x then 0 else 1 + IndexOf(s[1..], x)
  }

  /** `list.remove(x)`: drops the first occurrence of `x`, keeping the order of the rest. */
  function RemoveFirst<T(==)>(s: seq<T>, x: T): (r: seq<T>)
    requires x in s
    ensures |r| == |s| - 1
    ensures r == s[..IndexOf(s, x)] + s[IndexOf(s, x) + 1..]
    ensures multiset(r) == multiset(s) - multiset{x}
  {
    var i := IndexOf(s, x);
    assert s == s[..i] + [x] + s[i + 1..];
    s[..i] + s[i + 1..]
  }

  /** Applies `f` to every element, in order. */
  function Map<A, B>(f: A -> B, s: seq<A>): (r: seq<B>)
    ensures |r| == |s|
  {
    if s == [] then [] else [f(s[0])] + Map(f, s[1..])
  }

  lemma {:induction false} MultisetWithout<A>(b: seq<A>, j: nat)
    requires j < |b|
    ensures multiset(b[..j] + b[j + 1..]) == multiset(b) - multiset{b[j]}
  {
    assert b == b[..j] + [b[j]] + b[j + 1..];
  }

  /** Mapping distributes over concatenation. */
  lemma {:induction false} MapAppend<A, B>(f: A -> B, a: seq<A>, b: seq<A>)
    ensures Map(f, a + b) == Map(f, a) + Map(f, b)
    decreases |a|
  {
    if a == [] {
      assert a + b == b;
    } else {
      assert (a + b)[1..] == a[1..] + b;
      MapAppend(f, a[1..], b);
    }
  }

  lemma {:induction false} MapSplit<A, B>(f: A -> B, b: seq<A>, j: nat)
    requires j < |b|
    ensures Map(f, b) == Map(f, b[..j]) + [f(b[j])] + Map(f, b[j + 1..])
  {
    var left, right := b[..j], b[j..];
    assert left + right == b;
    MapAppend(f, left, right);
    assert right[0] == b[j] && right[1..] == b[j + 1..];
    assert Map(f, right) == [f(b[j])] + Map(f, b[j + 1..]);
  }

  lemma {:induction false} MultisetInsert<B>(x: seq<B>, e: B, y: seq<B>)
    ensures multiset(x + [e] + y) == multiset(x + y) + multiset{e}
  {
  }

  lemma {:induction false} MapWithout<A, B>(f: A -> B, b: seq<A>, j: nat)
    requires j < |b|
    ensures multiset(Map(f, b)) == multiset(Map(f, b[..j] + b[j + 1..])) + multiset{f(b[j])}
  {
    MapSplit(f, b, j);
    MapAppend(f, b[..j], b[j + 1..]);
    MultisetInsert(Map(f, b[..j]), f(b[j]), Map(f, b[j + 1..]));
  }

  /** Mapping two lists with the same elements gives lists with the same elements. */
  lemma {:induction false} MapPermutation<A, B>(f: A -> B, a: seq<A>, b: seq<A>)
    requires multiset(a) == multiset(b)
    ensures multiset(Map(f, a)) == multiset(Map(f, b))
    decreases |a|
  {
    if a == [] {
      assert |b| == |multiset(b)| == 0;
    } else {
      var j := ConsIndex(a, b);
      var rest, b' := a[1..], b[..j] + b[j + 1..];
      assert multiset(rest) == multiset(b') by {
        MultisetWithout(b, j);
        assert a == [a[0]] + rest;
      }
      MapPermutation(f, rest, b');
      MapWithout(f, b, j);
      assert Map(f, a) == [f(a[0])] + Map(f, rest);
      MultisetCons(f(a[0]), Map(f, rest));
      SameAdded(multiset(Map(f, a)), multiset(Map(f, b)), multiset(Map(f, rest)), multiset(Map(f, b')), f(a[0]));
    }
  }

  /** A non-empty sequence is its head before its tail. */
  lemma HeadTail<T>(s: seq<T>)
    requires s != []
    ensures s == [s[0]] + s[1..]
  {
  }

  /** Concatenation is associative. */
  lemma ConcatAssoc<T>(a: seq<T>, b: seq<T>, c: seq<T>)
    ensures a + (b + c) == (a + b) + c
  {
  }

  lemma MultisetCons<B>(e: B, s: seq<B>)
    ensures multiset([e] + s) == multiset(s) + multiset{e}
  {
  }

  lemma SameAdded<B>(x: multiset<B>, y: multiset<B>, u: multiset<B>, v: multiset<B>, e: B)
    requires x == u + multiset{e} && y == v + multiset{e} && u == v
    ensures x == y
  {
  }

  /** Where the first element of `a` sits in a list with the same elements. */
  lemma {:induction false} ConsIndex<A>(a: seq<A>, b: seq<A>) returns (j: nat)
    requires a != [] && multiset(a) == multiset(b)
    ensures j < |b| && b[j] == a[0]
  {
    assert a[0] in multiset(a);
    assert a[0] in multiset(b);
    j :| 0 <= j < |b| && b[j] == a[0];
  }

  predicate HasKey<K(==), V>(a: seq<(K, V)>, k: K)
  {
    exists i :: 0 <= i < |a| && a[i].0 == k
  }

  predicate UniqueKeys<K(==), V>(a: seq<(K, V)>)
  {
    forall i, j :: 0 <= i < j < |a| ==> a[i].0 != a[j].0
  }

  /** `d[k]` on a dict held as its entries: the value under `k`, if any. */
  function Lookup<K(==), V>(a: seq<(K, V)>, k: K): Option<V>
  {
    if a == [] then None
    else if a[0].0 == k then Some(a[0].1)
    else Lookup(a[1..], k)
  }

  /** A key is present exactly when the lookup finds it, and then the entry is there. */
  lemma {:induction false} LookupFinds<K, V>(a: seq<(K, V)>, k: K)
    ensures Lookup(a, k).Some? <==> HasKey(a, k)
    ensures Lookup(a, k).Some? ==> exists i :: 0 <= i < |a| && a[i] == (k, Lookup(a, k).value)
    decreases |a|
  {
    if a != [] && a[0].0 != k {
      LookupFinds(a[1..], k);
      if HasKey(a, k) {
        var i :| 0 <= i < |a| && a[i].0 == k;
        assert a[1..][i - 1].0 == k;
      }
      if Lookup(a, k).Some? {
        var i :| 0 <= i < |a[1..]| && a[1..][i] == (k, Lookup(a, k).value);
        assert a[i + 1] == (k, Lookup(a, k).value);
      }
    }
  }

  /** The lookup finds the first entry under the key. */
  lemma {:induction false} LookupFirst<K, V>(a: seq<(K, V)>, i: nat, k: K)
    requires i < |a| && a[i].0 == k
    requires forall j :: 0 <= j < i ==> a[j].0 != k
    ensures Lookup(a, k) == Some(a[i].1)
    decreases i
  {
    if i > 0 {
      assert a[1..][i - 1] == a[i];
      assert forall j :: 0 <= j < i - 1 ==> a[1..][j] == a[j + 1];
      LookupFirst(a[1..], i - 1, k);
    }
  }

  /** The value of the last entry under `k` in a list of pairs, if any. */
  function LastValue<K(==), V>(ps: seq<(K, V)>, k: K): Option<V>
  {
    if ps == [] then None
    else if ps[|ps| - 1].0 == k then Some(ps[|ps| - 1].1)
    else LastValue(ps[..|ps| - 1], k)
  }

  /** `d[k] = v`: replaces the value in place when `k` is present, else appends. */
  function Assign<K(==), V>(d: seq<(K, V)>, k: K, v: V): (r: seq<(K, V)>)
    ensures !HasKey(d, k) ==> r == d + [(k, v)]
  {
    if d == [] then [(k, v)]
    else if d[0].0 == k then [(k, v)] + d[1..]
    else
      assert !HasKey(d, k) ==> !HasKey(d[1..], k) by {
        if HasKey(d[1..], k) {
          var i :| 0 <= i < |d[1..]| && d[1..][i].0 == k;
          assert d[i + 1].0 == k;
        }
      }
      [d[0]] + Assign(d[1..], k, v)
  }

  /** After `d[k] = v`, `d[k]` is `v` and every other key reads as before. */
  lemma {:induction false} AssignLookup<K, V>(d: seq<(K, V)>, k: K, v: V, j: K)
    ensures Lookup(Assign(d, k, v), j) == if j == k then Some(v) else Lookup(d, j)
    decreases |d|
  {
    if d != [] && d[0].0 != k {
      AssignLookup(d[1..], k, v, j);
    }
  }

  lemma {:induction false} HasKeyTail<K, V>(d: seq<(K, V)>, k: K)
    requires d != [] && d[0].0 != k
    ensures HasKey(d, k) <==> HasKey(d[1..], k)
  {
    if HasKey(d, k) {
      var i :| 0 <= i < |d| && d[i].0 == k;
      assert d[1..][i - 1].0 == k;
    }
    if HasKey(d[1..], k) {
      var i :| 0 <= i < |d[1..]| && d[1..][i].0 == k;
      assert d[i + 1].0 == k;
    }
  }

  /** `d[k] = v` keeps the keys in place, adding `k` at the end only when it was absent. */
  lemma {:induction false} AssignShape<K, V>(d: seq<(K, V)>, k: K, v: V)
    ensures |Assign(d, k, v)| == if HasKey(d, k) then |d| else |d| + 1
    ensures forall i :: 0 <= i < |d| ==> Assign(d, k, v)[i].0 == d[i].0
    decreases |d|
  {
    if d != [] && d[0].0 != k {
      var r, t := Assign(d, k, v), Assign(d[1..], k, v);
      AssignShape(d[1..], k, v);
      assert r == [d[0]] + t;
      HasKeyTail(d, k);
      forall i | 0 < i < |d| ensures r[i].0 == d[i].0 {
        assert r[i] == t[i - 1] && d[1..][i - 1] == d[i];
      }
    } else if d != [] {
      assert HasKey(d, k) by {
        assert d[0].0 == k;
      }
    }
  }

  /** `d[k] = v` keeps the keys distinct and in place. */
  lemma {:induction false} AssignKeys<K, V>(d: seq<(K, V)>, k: K, v: V)
    ensures |Assign(d, k, v)| >= |d|
    ensures forall i :: 0 <= i < |d| ==> Assign(d, k, v)[i].0 == d[i].0
    ensures forall i :: |d| <= i < |Assign(d, k, v)| ==> Assign(d, k, v)[i].0 == k
    ensures UniqueKeys(d) ==> UniqueKeys(Assign(d, k, v))
  {
    var r := Assign(d, k, v);
    AssignShape(d, k, v);
    if !HasKey(d, k) {
      assert r == d + [(k, v)];
      if UniqueKeys(d) {
        forall a, b | 0 <= a < b < |r| ensures r[a].0 != r[b].0 {
          if b == |d| {
            assert r[a] == d[a];
          }
        }
      }
    }
  }

  /** `dict(pairs)`: entries in order of first appearance, each holding its key's last value. */
  function DictFromPairs<K(==,!new), V>(ps: seq<(K, V)>): (d: seq<(K, V)>)
    ensures UniqueKeys(d)
    ensures forall k :: Lookup(d, k) == LastValue(ps, k)
  {
    if ps == [] then []
    else
      var last := ps[|ps| - 1];
      var d := DictFromPairs(ps[..|ps| - 1]);
      AssignKeys(d, last.0, last.1);
      forall k ensures Lookup(Assign(d, last.0, last.1), k) == LastValue(ps, k) {
        AssignLookup(d, last.0, last.1, k);
      }
      Assign(d, last.0, last.1)
  }

  /** The position of the first pair under `k`. */
  function FirstKeyIndex<K(==), V>(ps: seq<(K, V)>, k: K): (i: nat)
    requires HasKey(ps, k)
    ensures i < |ps| && ps[i].0 == k
    ensures forall j :: 0 <= j < i ==> ps[j].0 != k
    decreases |ps|
  {
    if ps[0].0 == k then 0
    else
      HasKeyTail(ps, k);
      var i := 1 + FirstKeyIndex(ps[1..], k);
      assert forall j :: 1 <= j < i ==> ps[j] == ps[1..][j - 1];
      i
  }

  /** The first pair under `k` is the only one with no pair under `k` before it. */
  lemma FirstKeyIndexIs<K, V>(ps: seq<(K, V)>, k: K, i: nat)
    requires i < |ps| && ps[i].0 == k
    requires forall j :: 0 <= j < i ==> ps[j].0 != k
    ensures HasKey(ps, k) && FirstKeyIndex(ps, k) == i
  {
  }

  /** A pair added at the end moves no first position, and a new key comes first at the end. */
  lemma FirstKeyIndexSnoc<K, V>(ps: seq<(K, V)>, last: (K, V), k: K)
    requires HasKey(ps + [last], k)
    ensures HasKey(ps, k) ==> FirstKeyIndex(ps + [last], k) == FirstKeyIndex(ps, k)
    ensures !HasKey(ps, k) ==> k == last.0 && FirstKeyIndex(ps + [last], k) == |ps|
  {
    var s := ps + [last];
    if HasKey(ps, k) {
      var i := FirstKeyIndex(ps, k);
      assert forall j :: 0 <= j <= i ==> s[j] == ps[j];
      FirstKeyIndexIs(s, k, i);
    } else {
      assert forall j :: 0 <= j < |ps| ==> s[j] == ps[j] && ps[j].0 != k;
      var i := FirstKeyIndex(s, k);
      assert i == |ps|;
      FirstKeyIndexIs(s, k, |ps|);
    }
  }

  /**
   * `dict(pairs)` holds exactly the keys of the pairs, in the order in which
   * each key first appears.
   */
  lemma {:induction false} DictFromPairsOrder<K(!new), V>(ps: seq<(K, V)>)
    ensures forall k :: HasKey(DictFromPairs(ps), k) <==> HasKey(ps, k)
    ensures forall i, j :: 0 <= i < j < |DictFromPairs(ps)| ==>
              && HasKey(ps, DictFromPairs(ps)[i].0) && HasKey(ps, DictFromPairs(ps)[j].0)
              && FirstKeyIndex(ps, DictFromPairs(ps)[i].0) < FirstKeyIndex(ps, DictFromPairs(ps)[j].0)
    decreases |ps|
  {
    if ps != [] {
      var init, last := ps[..|ps| - 1], ps[|ps| - 1];
      assert ps == init + [last];
      DictFromPairsOrder(init);
      var d0 := DictFromPairs(init);
      var d := DictFromPairs(ps);
      assert d == Assign(d0, last.0, last.1);
      AssignKeys(d0, last.0, last.1);
      AssignShape(d0, last.0, last.1);
      forall k ensures HasKey(d, k) <==> HasKey(ps, k) {
        HasKeySnoc(init, last, k);
        AssignHasKey(d0, last.0, last.1, k);
      }
      forall i, j | 0 <= i < j < |d|
        ensures HasKey(ps, d[i].0) && HasKey(ps, d[j].0) && FirstKeyIndex(ps, d[i].0) < FirstKeyIndex(ps, d[j].0)
      {
        HasKeyAt(d, i);
        HasKeyAt(d, j);
        HasKeyAt(d0, i);
        FirstKeyIndexSnoc(init, last, d[i].0);
        FirstKeyIndexSnoc(init, last, d[j].0);
        if j < |d0| {
          HasKeyAt(d0, j);
        }
      }
      assert forall i, j :: 0 <= i < j < |d| ==>
        && HasKey(ps, d[i].0) && HasKey(ps, d[j].0) && FirstKeyIndex(ps, d[i].0) < FirstKeyIndex(ps, d[j].0);
    } else {
      assert DictFromPairs(ps) == [];
    }
  }

  lemma HasKeyAt<K, V>(a: seq<(K, V)>, i: nat)
    requires i < |a|
    ensures HasKey(a, a[i].0)
  {
  }

  /** The keys of `ps + [last]` are those of `ps` and the last key. */
  lemma HasKeySnoc<K, V>(ps: seq<(K, V)>, last: (K, V), k: K)
    ensures HasKey(ps + [last], k) <==> HasKey(ps, k) || k == last.0
  {
    var s := ps + [last];
    if HasKey(ps, k) {
      var i :| 0 <= i < |ps| && ps[i].0 == k;
      assert s[i] == ps[i];
    }
    if HasKey(s, k) && k != last.0 {
      var i :| 0 <= i < |s| && s[i].0 == k;
      assert s[i] == ps[i];
    }
    if k == last.0 {
      assert s[|ps|] == last;
    }
  }

  /** `d[k] = v` adds the key `k` and keeps every other. */
  lemma AssignHasKey<K, V>(d: seq<(K, V)>, k: K, v: V, j: K)
    ensures HasKey(Assign(d, k, v), j) <==> HasKey(d, j) || j == k
  {
    AssignLookup(d, k, v, j);
    LookupFinds(Assign(d, k, v), j);
    LookupFinds(d, j);
  }

  /** Building a dict from pairs whose keys are all distinct keeps the pairs as they are. */
  lemma {:induction false} DictFromDistinctPairs<K(!new), V>(ps: seq<(K, V)>)
    requires UniqueKeys(ps)
    ensures DictFromPairs(ps) == ps
    decreases |ps|
  {
    if ps != [] {
      var init, last := ps[..|ps| - 1], ps[|ps| - 1];
      DictFromDistinctPairs(init);
      assert !HasKey(init, last.0);
      assert init + [last] == ps;
    }
  }
}
