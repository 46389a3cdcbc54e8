/** Small shared vocabulary: optional values and sequence predicates. */
module Options {

  /** A value that may be missing: Python's None, JavaScript's null/undefined. */
  datatype Option<+T> = None | Some(value: T)
}

module Seqs {

  /** No element occurs twice. */
  predicate Distinct<T(==)>(s: seq<T>) {
    forall i, j :: 0 <= i < j < |s| ==> s[i] != s[j]
  }

  lemma DistinctCons<T>(x: T, s: seq<T>)
    ensures Distinct([x] + s) <==> x !in s && Distinct(s)
  {
    var t := [x] + s;
    if x !in s && Distinct(s) {
      forall i, j | 0 <= i < j < |t|
        ensures t[i] != t[j]
      {
        if i == 0 {
          assert t[j] == s[j - 1];
        } else {
          assert t[i] == s[i - 1] && t[j] == s[j - 1];
        }
      }
    }
    if Distinct(t) {
      forall k | 0 <= k < |s|
        ensures s[k] != x
      {
        assert t[0] == x && t[k + 1] == s[k];
      }
      forall i, j | 0 <= i < j < |s|
        ensures s[i] != s[j]
      {
        assert t[i + 1] == s[i] && t[j + 1] == s[j];
      }
    }
  }

  /** The head of a duplicate-free sequence is not in its tail, which is duplicate-free too. */
  lemma DistinctTail<T>(s: seq<T>)
    requires |s| > 0 && Distinct(s)
    ensures s[0] !in s[1..] && Distinct(s[1..])
  {
    assert s == [s[0]] + s[1..];
    DistinctCons(s[0], s[1..]);
  }

  lemma DistinctSnoc<T>(s: seq<T>, x: T)
    ensures Distinct(s + [x]) <==> x !in s && Distinct(s)
  {
    var t := s + [x];
    assert forall k :: 0 <= k < |s| ==> t[k] == s[k];
    if Distinct(t) {
      forall k | 0 <= k < |s|
        ensures s[k] != x
      {
        assert t[|s|] == x;
      }
    }
  }

  lemma AppendAssoc<T>(a: seq<T>, b: seq<T>, c: seq<T>)
    ensures (a + b) + c == a + (b + c)
  {
  }

  /** Moving the head of `b` to the end of `a` keeps the concatenation. */
  lemma HeadTail<T>(s: seq<T>)
    requires |s| > 0
    ensures [s[0]] + s[1..] == s
  {
  }

  lemma ShiftHead<T>(a: seq<T>, b: seq<T>)
    requires |b| > 0
    ensures (a + [b[0]]) + b[1..] == a + b
  {
    assert b == [b[0]] + b[1..];
  }

  /** `s` with every occurrence of `x` removed, order kept. */
  function Without<T(==)>(s: seq<T>, x: T): (r: seq<T>)
    ensures forall i :: 0 <= i < |r| ==> r[i] in s && r[i] != x
    ensures forall i :: 0 <= i < |s| && s[i] != x ==> s[i] in r
    ensures |r| <= |s|
    ensures x !in s ==> r == s
    ensures Distinct(s) ==> Distinct(r)
  {
    if |s| == 0 then []
    else
      var rest := Without(s[1..], x);
      DistinctCons(s[0], s[1..]);
      assert s == [s[0]] + s[1..];
      if s[0] == x then rest
      else
        DistinctCons(s[0], rest);
        [s[0]] + rest
  }

  /** The number of distinct elements of a duplicate-free sequence is its length. */
  lemma {:induction false} DistinctCardinality<T>(s: seq<T>)
    requires Distinct(s)
    ensures |set x | x in s| == |s|
  {
    if |s| > 0 {
      DistinctCons(s[0], s[1..]);
      assert s == [s[0]] + s[1..];
      DistinctCardinality(s[1..]);
      assert (set x | x in s) == (set x | x in s[1..]) + {s[0]};
    }
  }
}
