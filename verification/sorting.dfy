/**
 * Stable sorting in descending order of an integer key, as Python's
 * `sorted(xs, key=k, reverse=True)` / `list.sort(key=k, reverse=True)` and
 * JavaScript's (stable) `Array.prototype.sort` with a `b - a` comparator do it:
 * elements with equal keys keep their original relative order.
 */
module Sorting {
  import Seqs

  /** Keys never increase from left to right. */
  ghost predicate SortedDesc<T>(s: seq<T>, key: T -> int) {
    forall i, j :: 0 <= i < j < |s| ==> key(s[i]) >= key(s[j])
  }

  /** The elements of `s` whose key is `k`, in their order in `s`. */
  function WithKey<T>(s: seq<T>, key: T -> int, k: int): (r: seq<T>)
    ensures |r| <= |s|
  {
    if |s| == 0 then []
    else (if key(s[0]) == k then [s[0]] else []) + WithKey(s[1..], key, k)
  }

  lemma {:induction false} WithKeyAppend<T>(a: seq<T>, b: seq<T>, key: T -> int, k: int)
    ensures WithKey(a + b, key, k) == WithKey(a, key, k) + WithKey(b, key, k)
  {
    if |a| == 0 {
      assert a + b == b;
    } else {
      var head := if key(a[0]) == k then [a[0]] else [];
      assert (a + b)[0] == a[0];
      assert (a + b)[1..] == a[1..] + b;
      WithKeyAppend(a[1..], b, key, k);
      assert WithKey(a + b, key, k) == head + WithKey(a[1..] + b, key, k);
      assert WithKey(a, key, k) == head + WithKey(a[1..], key, k);
      Seqs.AppendAssoc(head, WithKey(a[1..], key, k), WithKey(b, key, k));
    }
  }

  /** Puts `x` in front of the first element whose key is not larger than its own. */
  function Insert<T>(x: T, s: seq<T>, key: T -> int): (r: seq<T>)
    ensures |r| == |s| + 1
    ensures multiset(r) == multiset(s) + multiset{x}
  {
    if |s| == 0 || key(s[0]) <= key(x) then
      [x] + s
    else
      var t := Insert(x, s[1..], key);
      assert s == [s[0]] + s[1..];
      [s[0]] + t
  }

  /** A head no weaker than every other element keeps a sorted sequence sorted. */
  lemma SortedCons<T>(x: T, s: seq<T>, key: T -> int)
    requires SortedDesc(s, key)
    requires forall j :: 0 <= j < |s| ==> key(s[j]) <= key(x)
    ensures SortedDesc([x] + s, key)
  {
    var r := [x] + s;
    forall i, j | 0 <= i < j < |r|
      ensures key(r[i]) >= key(r[j])
    {
      assert r[j] == s[j - 1];
      if i > 0 {
        assert r[i] == s[i - 1];
      }
    }
  }

  lemma {:induction false} InsertSorted<T>(x: T, s: seq<T>, key: T -> int)
    requires SortedDesc(s, key)
    ensures SortedDesc(Insert(x, s, key), key)
  {
    if |s| == 0 || key(s[0]) <= key(x) {
      forall j | 0 <= j < |s|
        ensures key(s[j]) <= key(x)
      {
        if j > 0 {
          assert key(s[0]) >= key(s[j]);
        }
      }
      SortedCons(x, s, key);
    } else {
      var t := Insert(x, s[1..], key);
      assert SortedDesc(s[1..], key);
      InsertSorted(x, s[1..], key);
      forall j | 0 <= j < |t|
        ensures key(t[j]) <= key(s[0])
      {
        assert t[j] in multiset(t);
        assert t[j] in multiset(s[1..]) || t[j] == x;
        if t[j] != x {
          var m :| 0 <= m < |s[1..]| && s[1..][m] == t[j];
          assert s[m + 1] == t[j];
        }
      }
      SortedCons(s[0], t, key);
    }
  }

  /** Inserting `x` puts it first among the elements with its key. */
  lemma {:induction false} InsertWithKey<T>(x: T, s: seq<T>, key: T -> int, k: int)
    ensures WithKey(Insert(x, s, key), key, k) == (if key(x) == k then [x] else []) + WithKey(s, key, k)
  {
    var r := Insert(x, s, key);
    var hx: seq<T> := if key(x) == k then [x] else [];
    if |s| == 0 || key(s[0]) <= key(x) {
      assert r[0] == x && r[1..] == s;
      assert WithKey(r, key, k) == hx + WithKey(r[1..], key, k);
    } else {
      var t := Insert(x, s[1..], key);
      var h0: seq<T> := if key(s[0]) == k then [s[0]] else [];
      assert r[0] == s[0] && r[1..] == t;
      assert WithKey(r, key, k) == h0 + WithKey(t, key, k);
      InsertWithKey(x, s[1..], key, k);
      assert WithKey(s, key, k) == h0 + WithKey(s[1..], key, k);
      assert h0 == [] || hx == [];
      assert h0 + (hx + WithKey(s[1..], key, k)) == hx + (h0 + WithKey(s[1..], key, k));
    }
  }

  /** A stable insertion sort, descending by `key`. */
  function StableSortDesc<T>(s: seq<T>, key: T -> int): (r: seq<T>)
    ensures |r| == |s|
    ensures SortedDesc(r, key)
    ensures multiset(r) == multiset(s)
    ensures forall k :: WithKey(r, key, k) == WithKey(s, key, k)
  {
    if |s| == 0 then []
    else
      var t := StableSortDesc(s[1..], key);
      assert s == [s[0]] + s[1..];
      InsertSorted(s[0], t, key);
      assert forall k :: WithKey(Insert(s[0], t, key), key, k) == WithKey(s, key, k) by {
        forall k
          ensures WithKey(Insert(s[0], t, key), key, k) == WithKey(s, key, k)
        {
          InsertWithKey(s[0], t, key, k);
        }
      }
      Insert(s[0], t, key)
  }

  /** Sorting neither loses nor invents an element. */
  lemma SortMembers<T>(s: seq<T>, key: T -> int)
    ensures forall k :: 0 <= k < |s| ==> StableSortDesc(s, key)[k] in s
    ensures forall m :: 0 <= m < |s| ==> s[m] in StableSortDesc(s, key)
  {
    var r := StableSortDesc(s, key);
    forall k | 0 <= k < |s|
      ensures r[k] in s
    {
      assert r[k] in multiset(r);
    }
    forall m | 0 <= m < |s|
      ensures s[m] in r
    {
      assert s[m] in multiset(s);
    }
  }

  lemma WithKeyNonEmpty<T>(s: seq<T>, key: T -> int)
    ensures |s| > 0 ==> WithKey(s, key, key(s[0])) != []
  {
  }

  /** No element of a sorted sequence has a key above that of its head. */
  lemma {:induction false} WithKeyAboveHead<T>(s: seq<T>, key: T -> int, k: int)
    requires SortedDesc(s, key) && |s| > 0
    ensures k > key(s[0]) ==> WithKey(s, key, k) == []
  {
    if |s| > 1 {
      assert SortedDesc(s[1..], key);
      WithKeyAboveHead(s[1..], key, k);
    }
  }

  /**
   * A sequence sorted descending by `key` is determined by the subsequences of
   * equal keys: two sorted sequences that agree on every one of them are equal.
   */
  lemma {:induction false} SortedUnique<T>(a: seq<T>, b: seq<T>, key: T -> int)
    requires SortedDesc(a, key) && SortedDesc(b, key)
    requires forall k :: WithKey(a, key, k) == WithKey(b, key, k)
    ensures a == b
    decreases |a| + |b|
  {
    WithKeyNonEmpty(a, key);
    WithKeyNonEmpty(b, key);
    if |a| > 0 && |b| > 0 {
      var ka, kb := key(a[0]), key(b[0]);
      WithKeyAboveHead(b, key, ka);
      WithKeyAboveHead(a, key, kb);
      assert WithKey(a, key, ka) == WithKey(b, key, ka);
      assert WithKey(a, key, kb) == WithKey(b, key, kb);
      assert ka == kb;
      assert WithKey(a, key, ka)[0] == a[0];
      assert WithKey(b, key, ka)[0] == b[0];
      assert a[0] == b[0];
      assert SortedDesc(a[1..], key) && SortedDesc(b[1..], key);
      forall k
        ensures WithKey(a[1..], key, k) == WithKey(b[1..], key, k)
      {
        assert WithKey(a, key, k) == WithKey(b, key, k);
        if k == ka {
          var wa, wb := WithKey(a[1..], key, k), WithKey(b[1..], key, k);
          assert WithKey(a, key, k) == [a[0]] + wa;
          assert WithKey(b, key, k) == [b[0]] + wb;
          assert ([a[0]] + wa)[1..] == wa;
          assert ([b[0]] + wb)[1..] == wb;
        } else {
          assert WithKey(a, key, k) == WithKey(a[1..], key, k);
          assert WithKey(b, key, k) == WithKey(b[1..], key, k);
        }
      }
      SortedUnique(a[1..], b[1..], key);
      assert a == [a[0]] + a[1..];
      assert b == [b[0]] + b[1..];
    }
  }

  /** Any sorted sequence that keeps the order of equal keys is the stable sort. */
  lemma StableSortUnique<T>(s: seq<T>, r: seq<T>, key: T -> int)
    requires SortedDesc(r, key)
    requires forall k :: WithKey(r, key, k) == WithKey(s, key, k)
    ensures r == StableSortDesc(s, key)
  {
    var t := StableSortDesc(s, key);
    SortedUnique(r, t, key);
  }

  /** Sorting what is already sorted changes nothing. */
  lemma StableSortOfSorted<T>(s: seq<T>, key: T -> int)
    requires SortedDesc(s, key)
    ensures StableSortDesc(s, key) == s
  {
    StableSortUnique(s, s, key);
  }

  /** No two elements share a projected value. */
  ghost predicate DistinctBy<T>(s: seq<T>, proj: T -> int) {
    forall i, j :: 0 <= i < j < |s| ==> proj(s[i]) != proj(s[j])
  }

  /** A head whose projection differs from all others keeps the projections distinct. */
  lemma DistinctByCons<T>(x: T, s: seq<T>, proj: T -> int)
    requires DistinctBy(s, proj)
    requires forall i :: 0 <= i < |s| ==> proj(s[i]) != proj(x)
    ensures DistinctBy([x] + s, proj)
  {
    var r := [x] + s;
    forall a, b | 0 <= a < b < |r|
      ensures proj(r[a]) != proj(r[b])
    {
      assert r[b] == s[b - 1];
      if a > 0 {
        assert r[a] == s[a - 1];
      }
    }
  }

  lemma {:induction false} InsertDistinctBy<T>(x: T, s: seq<T>, key: T -> int, proj: T -> int)
    requires DistinctBy(s, proj)
    requires forall i :: 0 <= i < |s| ==> proj(s[i]) != proj(x)
    ensures DistinctBy(Insert(x, s, key), proj)
  {
    if |s| > 0 && key(s[0]) > key(x) {
      assert DistinctBy(s[1..], proj);
      InsertDistinctBy(x, s[1..], key, proj);
      var t := Insert(x, s[1..], key);
      forall i | 0 <= i < |t|
        ensures proj(t[i]) != proj(s[0])
      {
        assert t[i] in multiset(t);
        assert t[i] in multiset(s[1..]) || t[i] == x;
        if t[i] != x {
          var j :| 0 <= j < |s[1..]| && s[1..][j] == t[i];
          assert s[j + 1] == t[i];
        }
      }
      assert Insert(x, s, key) == [s[0]] + t;
    }
  }

  /** Sorting keeps a projection duplicate-free. */
  lemma {:induction false} SortDistinctBy<T>(s: seq<T>, key: T -> int, proj: T -> int)
    requires DistinctBy(s, proj)
    ensures DistinctBy(StableSortDesc(s, key), proj)
  {
    if |s| > 0 {
      assert DistinctBy(s[1..], proj);
      SortDistinctBy(s[1..], key, proj);
      var t := StableSortDesc(s[1..], key);
      forall i | 0 <= i < |t|
        ensures proj(t[i]) != proj(s[0])
      {
        assert t[i] in multiset(s[1..]);
        var j :| 0 <= j < |s[1..]| && s[1..][j] == t[i];
        assert s[j + 1] == t[i];
      }
      InsertDistinctBy(s[0], t, key, proj);
    }
  }

  /** An element left out of a prefix of a sorted sequence is no stronger than any element kept. */
  lemma PrefixStrongest<T>(s: seq<T>, t: seq<T>, m: nat, key: T -> int)
    requires SortedDesc(t, key) && multiset(t) == multiset(s) && m <= |t|
    ensures forall j, i :: 0 <= j < |s| && 0 <= i < m && multiset(t[..m])[s[j]] < multiset(s)[s[j]] ==> key(s[j]) <= key(t[i])
  {
    var r := t[..m];
    assert t == r + t[m..];
    assert multiset(t) == multiset(r) + multiset(t[m..]);
    forall j, i | 0 <= j < |s| && 0 <= i < m && multiset(r)[s[j]] < multiset(s)[s[j]]
      ensures key(s[j]) <= key(t[i])
    {
      assert s[j] in multiset(t[m..]);
      var p :| 0 <= p < |t[m..]| && t[m..][p] == s[j];
      assert t[m + p] == s[j];
    }
  }

  /** A prefix of a sorted sequence is sorted and a sub-multiset. */
  lemma PrefixFacts<T>(t: seq<T>, m: nat, key: T -> int)
    requires m <= |t| && SortedDesc(t, key)
    ensures SortedDesc(t[..m], key) && multiset(t[..m]) <= multiset(t)
  {
    assert t == t[..m] + t[m..];
    assert multiset(t) == multiset(t[..m]) + multiset(t[m..]);
  }

  /** A prefix keeps, for every key, a prefix of the elements with that key. */
  lemma PrefixWithKey<T>(t: seq<T>, m: nat, key: T -> int)
    requires m <= |t|
    ensures forall k :: WithKey(t[..m], key, k) <= WithKey(t, key, k)
  {
    assert t == t[..m] + t[m..];
    forall k
      ensures WithKey(t[..m], key, k) <= WithKey(t, key, k)
    {
      WithKeyAppend(t[..m], t[m..], key, k);
    }
  }

  /**
   * The first `n` elements of the stable descending sort (Python's
   * `sorted(...)[:n]`): the strongest elements, sorted, with ties in their
   * original order.
   */
  function TopK<T>(s: seq<T>, key: T -> int, n: nat): (r: seq<T>)
    ensures |r| == if |s| < n then |s| else n
    ensures SortedDesc(r, key)
    ensures multiset(r) <= multiset(s)
    ensures forall j, i :: 0 <= j < |s| && 0 <= i < |r| && multiset(r)[s[j]] < multiset(s)[s[j]] ==> key(s[j]) <= key(r[i])
    ensures forall k :: WithKey(r, key, k) <= WithKey(s, key, k)
  {
    var t := StableSortDesc(s, key);
    var m := if |s| < n then |s| else n;
    PrefixFacts(t, m, key);
    PrefixStrongest(s, t, m, key);
    PrefixWithKey(t, m, key);
    t[..m]
  }
}
