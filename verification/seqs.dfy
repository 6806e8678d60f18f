/** Small facts about sequences used as enumerations of sets. */
module Seqs {

  /** No element occurs twice. */
  predicate Distinct<T(==)>(s: seq<T>) {
    forall i, j | 0 <= i < j < |s| :: s[i] != s[j]
  }

  /** The set of elements of a sequence. */
  function Elems<T>(s: seq<T>): set<T> {
    set x | x in s
  }

  /** `s` lists every element of `a` exactly once, in some order. */
  predicate Enumerates<T(==)>(s: seq<T>, a: set<T>) {
    Distinct(s) && Elems(s) == a
  }

  lemma {:induction false} DistinctCard<T>(s: seq<T>)
    requires Distinct(s)
    ensures |Elems(s)| == |s|
  {
    if s != [] {
      var t := s[..|s| - 1];
      var x := s[|s| - 1];
      assert s == t + [x];
      assert Distinct(t);
      assert forall k | 0 <= k < |t| :: t[k] != x by {
        forall k | 0 <= k < |t|
          ensures t[k] != x
        {
          assert t[k] == s[k];
        }
      }
      assert Elems(s) == Elems(t) + {x};
      DistinctCard(t);
    }
  }

  /** Two slices of a distinct sequence at disjoint positions share no element. */
  lemma DisjointSlices<T>(s: seq<T>, a: int, b: int, c: int, d: int)
    requires Distinct(s)
    requires 0 <= a <= b <= c <= d <= |s|
    ensures Elems(s[a..b]) !! Elems(s[c..d])
  {
    forall x | x in Elems(s[a..b])
      ensures x !in Elems(s[c..d])
    {
      var i :| a <= i < b && s[i] == x;
      forall j | c <= j < d
        ensures s[j] != x
      {
        assert i < j;
      }
    }
  }

  /** The elements of a slice are elements of the whole sequence. */
  lemma SliceElems<T>(s: seq<T>, a: int, b: int)
    requires 0 <= a <= b <= |s|
    ensures Elems(s[a..b]) <= Elems(s)
  {
    forall x | x in Elems(s[a..b])
      ensures x in Elems(s)
    {
      var j :| 0 <= j < b - a && s[a..b][j] == x;
      assert s[a + j] == x;
    }
  }

  /** A slice of a distinct sequence is distinct. */
  lemma SliceDistinct<T>(s: seq<T>, a: int, b: int)
    requires Distinct(s)
    requires 0 <= a <= b <= |s|
    ensures Distinct(s[a..b])
  {
    forall i, j | 0 <= i < j < b - a
      ensures s[a..b][i] != s[a..b][j]
    {
      assert s[a..b][i] == s[a + i] && s[a..b][j] == s[a + j];
    }
  }

  /** A slice of a distinct sequence has as many elements as positions. */
  lemma SliceCard<T>(s: seq<T>, a: int, b: int)
    requires Distinct(s)
    requires 0 <= a <= b <= |s|
    ensures |Elems(s[a..b])| == b - a
  {
    SliceDistinct(s, a, b);
    DistinctCard(s[a..b]);
  }

  /** A non-empty sequence is distinct iff its tail is and its head is not in the tail. */
  lemma DistinctCons<T>(s: seq<T>)
    requires s != []
    ensures Elems(s) == {s[0]} + Elems(s[1..])
    ensures Distinct(s) <==> Distinct(s[1..]) && s[0] !in Elems(s[1..])
  {
    assert s == [s[0]] + s[1..];
    if Distinct(s) {
      SliceDistinct(s, 1, |s|);
      forall j | 0 <= j < |s[1..]|
        ensures s[1..][j] != s[0]
      {
        assert s[1..][j] == s[j + 1];
      }
    }
    if Distinct(s[1..]) && s[0] !in Elems(s[1..]) {
      forall i, j | 0 <= i < j < |s|
        ensures s[i] != s[j]
      {
        assert s[j] == s[1..][j - 1];
        if i > 0 {
          assert s[i] == s[1..][i - 1];
        }
      }
    }
  }

  /** The first k + 1 elements are the head and the first k elements of the tail. */
  lemma PrefixCons<T>(s: seq<T>, k: int)
    requires 0 <= k < |s|
    ensures Elems(s[..k + 1]) == {s[0]} + Elems(s[1..][..k])
  {
    assert s[..k + 1] == [s[0]] + s[1..][..k];
  }
}
