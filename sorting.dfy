/** Ordered result lists. The document store answers `find(...).sort(...)`
    with the matching documents in the order of a sort key; ties have no
    promised order. Results are built here by sorted insertion under a
    total preorder. */
module Sorting {

  ghost predicate TotalPreorder<T(!new)>(leq: (T, T) -> bool)
  {
    && (forall a, b :: leq(a, b) || leq(b, a))
    && (forall a, b, c :: leq(a, b) && leq(b, c) ==> leq(a, c))
  }

  predicate SortedBy<T>(s: seq<T>, leq: (T, T) -> bool)
  {
    forall i, j :: 0 <= i < j < |s| ==> leq(s[i], s[j])
  }

  predicate NoDuplicates<T(==)>(s: seq<T>)
  {
    forall i, j :: 0 <= i < j < |s| ==> s[i] != s[j]
  }

  /** Inserts `x` after every element that sorts no later than it. The
      result is the input with `x` spliced in at position `j`, and is
      still sorted. */
  method InsertSorted<T(!new)>(s: seq<T>, x: T, leq: (T, T) -> bool) returns (r: seq<T>, j: nat)
    requires TotalPreorder(leq)
    requires SortedBy(s, leq)
    ensures j <= |s| && r == s[..j] + [x] + s[j..]
    ensures SortedBy(r, leq)
    ensures multiset(r) == multiset(s) + multiset{x}
  {
    j := 0;
    while j < |s| && leq(s[j], x)
      invariant j <= |s|
      invariant forall k :: 0 <= k < j ==> leq(s[k], x)
    {
      j := j + 1;
    }
    r := s[..j] + [x] + s[j..];
    forall k | j <= k < |s|
      ensures leq(x, s[k])
    {
      assert leq(x, s[j]);
    }
    assert s == s[..j] + s[j..];
  }

  /** Splicing a fresh element into a duplicate-free sequence keeps it
      duplicate-free and adds exactly that element. */
  lemma SpliceNoDuplicates<T>(s: seq<T>, x: T, j: nat)
    requires j <= |s| && NoDuplicates(s) && x !in s
    ensures NoDuplicates(s[..j] + [x] + s[j..])
    ensures forall y :: y in s[..j] + [x] + s[j..] <==> y in s || y == x
  {
    var r := s[..j] + [x] + s[j..];
    assert s == s[..j] + s[j..];
    forall a, b | 0 <= a < b < |r| ensures r[a] != r[b] {
      if a < j && b > j {
        assert r[b] == s[b - 1];
      } else if a > j {
        assert r[a] == s[a - 1] && r[b] == s[b - 1];
      }
    }
  }
}
