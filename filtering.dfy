/** Array.prototype.filter, which the frontend uses for its task and
    folder lists: the kept elements, in their original order. */
module Filtering {

  function Filter<T>(s: seq<T>, keep: T -> bool): (r: seq<T>)
    ensures |r| <= |s|
  {
    if s == [] then []
    else Filter(s[..|s| - 1], keep) + (if keep(s[|s| - 1]) then [s[|s| - 1]] else [])
  }

  /** The filter holds the elements of `s` that pass the test. */
  lemma {:induction false} FilterMembers<T(!new)>(s: seq<T>, keep: T -> bool)
    ensures forall x :: x in Filter(s, keep) <==> x in s && keep(x)
  {
    if s != [] {
      var last := s[|s| - 1];
      FilterMembers(s[..|s| - 1], keep);
      assert forall x :: x in s <==> x in s[..|s| - 1] || x == last;
    }
  }

  /** The positions of the kept elements, in increasing order. */
  function KeptPositions<T>(s: seq<T>, keep: T -> bool): seq<nat>
  {
    if s == [] then []
    else KeptPositions(s[..|s| - 1], keep) + (if keep(s[|s| - 1]) then [|s| - 1] else [])
  }

  /** The filter is the subsequence of `s` at the kept positions: it
      leaves out exactly the rejected elements and keeps the order. */
  lemma {:induction false} FilterIsSubsequence<T(!new)>(s: seq<T>, keep: T -> bool)
    ensures var r, pos := Filter(s, keep), KeptPositions(s, keep);
            && |pos| == |r|
            && (forall k :: 0 <= k < |pos| ==> pos[k] < |s| && r[k] == s[pos[k]])
            && (forall k, l :: 0 <= k < l < |pos| ==> pos[k] < pos[l])
            && (forall i :: 0 <= i < |s| ==> (keep(s[i]) <==> i in pos))
  {
    if s != [] {
      var pre := s[..|s| - 1];
      FilterIsSubsequence(pre, keep);
      var pos := KeptPositions(s, keep);
      forall i | 0 <= i < |s| ensures keep(s[i]) <==> i in pos {
        if i < |s| - 1 {
          assert s[i] == pre[i];
        }
      }
    }
  }

  /** Filtering by a test and by its negation splits the list in two. */
  lemma {:induction false} FilterSplits<T(!new)>(s: seq<T>, keep: T -> bool, drop: T -> bool)
    requires forall x :: drop(x) == !keep(x)
    ensures |Filter(s, keep)| + |Filter(s, drop)| == |s|
  {
    if s != [] {
      FilterSplits(s[..|s| - 1], keep, drop);
    }
  }

  /** Filtering by a test and by its negation puts every element in
      exactly one of the two lists. */
  lemma {:induction false} FilterPartition<T(!new)>(s: seq<T>, keep: T -> bool, drop: T -> bool)
    requires forall x :: drop(x) == !keep(x)
    ensures multiset(Filter(s, keep)) + multiset(Filter(s, drop)) == multiset(s)
  {
    if s != [] {
      var pre := s[..|s| - 1];
      var last := s[|s| - 1];
      FilterPartition(pre, keep, drop);
      var k0, d0 := Filter(pre, keep), Filter(pre, drop);
      assert s == pre + [last];
      assert multiset(s) == multiset(pre) + multiset([last]);
      if keep(last) {
        assert Filter(s, keep) == k0 + [last] && Filter(s, drop) == d0;
        assert multiset(k0 + [last]) == multiset(k0) + multiset([last]);
      } else {
        assert Filter(s, keep) == k0 && Filter(s, drop) == d0 + [last];
        assert multiset(d0 + [last]) == multiset(d0) + multiset([last]);
      }
    }
  }

  /** Filtering twice keeps what passes both tests. */
  lemma {:induction false} FilterFilter<T(!new)>(s: seq<T>, first: T -> bool, second: T -> bool, both: T -> bool)
    requires forall x :: both(x) == (first(x) && second(x))
    ensures Filter(Filter(s, first), second) == Filter(s, both)
  {
    if s != [] {
      var pre := s[..|s| - 1];
      var last := s[|s| - 1];
      FilterFilter(pre, first, second, both);
      var f := Filter(s, first);
      if first(last) {
        assert f[..|f| - 1] == Filter(pre, first);
      } else {
        assert f == Filter(pre, first);
      }
    }
  }

  /** Two tests that agree on every element keep the same elements. */
  lemma {:induction false} FilterSameTest<T(!new)>(s: seq<T>, keep: T -> bool, keep': T -> bool)
    requires forall x :: keep(x) == keep'(x)
    ensures Filter(s, keep) == Filter(s, keep')
  {
    if s != [] {
      FilterSameTest(s[..|s| - 1], keep, keep');
    }
  }

  /** A test every element passes keeps the whole list. */
  lemma {:induction false} FilterAll<T(!new)>(s: seq<T>, keep: T -> bool)
    requires forall i :: 0 <= i < |s| ==> keep(s[i])
    ensures Filter(s, keep) == s
  {
    if s != [] {
      FilterAll(s[..|s| - 1], keep);
    }
  }
}
