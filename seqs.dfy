/** Sequence helpers shared by the model: JavaScript's `Array.prototype.filter`
    and the `filter(...).length` counts the dashboard and the reports compute. */
module Seqs {

  /** The elements of `s` that satisfy `p`, kept in their original order. */
  function Filter<T>(s: seq<T>, p: T -> bool): (r: seq<T>)
    ensures |r| <= |s|
    ensures forall i :: 0 <= i < |r| ==> r[i] in s && p(r[i])
    ensures forall i :: 0 <= i < |s| && p(s[i]) ==> s[i] in r
    decreases |s|
  {
    if s == [] then []
    else (if p(s[0]) then [s[0]] else []) + Filter(s[1..], p)
  }

  /** `r` can be obtained from `s` by deleting elements (relative order is kept). */
  ghost predicate IsSubsequence<T>(r: seq<T>, s: seq<T>)
    decreases |s|
  {
    if r == [] then true
    else if s == [] then false
    else (r[0] == s[0] && IsSubsequence(r[1..], s[1..])) || IsSubsequence(r, s[1..])
  }

  /** Filtering keeps the order of what it keeps. */
  lemma {:induction false} FilterIsSubsequence<T>(s: seq<T>, p: T -> bool)
    ensures IsSubsequence(Filter(s, p), s)
    decreases |s|
  {
    if s != [] {
      FilterIsSubsequence(s[1..], p);
      if !p(s[0]) {
        assert Filter(s, p) == Filter(s[1..], p);
        if Filter(s, p) != [] {
          assert IsSubsequence(Filter(s, p), s[1..]);
        }
      } else {
        assert Filter(s, p) == [s[0]] + Filter(s[1..], p);
        assert Filter(s, p)[1..] == Filter(s[1..], p);
      }
    }
  }

  /** Filtering distributes over concatenation: the elements kept from the first
      part come before those kept from the second part. */
  lemma {:induction false} FilterAppend<T>(a: seq<T>, b: seq<T>, p: T -> bool)
    ensures Filter(a + b, p) == Filter(a, p) + Filter(b, p)
    decreases |a|
  {
    if a == [] {
      assert a + b == b;
    } else {
      assert (a + b)[0] == a[0];
      assert (a + b)[1..] == a[1..] + b;
      FilterAppend(a[1..], b, p);
    }
  }

  /** A filter that every element passes keeps the whole sequence. */
  lemma {:induction false} FilterKeepsAll<T>(s: seq<T>, p: T -> bool)
    requires forall i :: 0 <= i < |s| ==> p(s[i])
    ensures Filter(s, p) == s
    decreases |s|
  {
    if s != [] {
      FilterKeepsAll(s[1..], p);
    }
  }

  /** A filter that no element passes keeps nothing. */
  lemma {:induction false} FilterDropsAll<T>(s: seq<T>, p: T -> bool)
    requires forall i :: 0 <= i < |s| ==> !p(s[i])
    ensures Filter(s, p) == []
    decreases |s|
  {
    if s != [] {
      FilterDropsAll(s[1..], p);
    }
  }

  /** Two predicates that agree on every element of `s` filter it alike. */
  lemma {:induction false} FilterCongruent<T>(s: seq<T>, p: T -> bool, q: T -> bool)
    requires forall i :: 0 <= i < |s| ==> p(s[i]) == q(s[i])
    ensures Filter(s, p) == Filter(s, q)
    decreases |s|
  {
    if s != [] {
      FilterCongruent(s[1..], p, q);
    }
  }

  /** Splitting a sequence by a predicate: what passes plus what fails is everything. */
  lemma {:induction false} FilterSplitCount<T>(s: seq<T>, p: T -> bool, q: T -> bool)
    requires forall i :: 0 <= i < |s| ==> q(s[i]) == !p(s[i])
    ensures |Filter(s, p)| + |Filter(s, q)| == |s|
    decreases |s|
  {
    if s != [] {
      FilterSplitCount(s[1..], p, q);
    }
  }

  /** The number of elements that satisfy `p` or `q`, when no element satisfies both. */
  lemma {:induction false} FilterDisjointUnionCount<T>(s: seq<T>, p: T -> bool, q: T -> bool, pq: T -> bool)
    requires forall i :: 0 <= i < |s| ==> !(p(s[i]) && q(s[i]))
    requires forall i :: 0 <= i < |s| ==> pq(s[i]) == (p(s[i]) || q(s[i]))
    ensures |Filter(s, pq)| == |Filter(s, p)| + |Filter(s, q)|
    decreases |s|
  {
    if s != [] {
      FilterDisjointUnionCount(s[1..], p, q, pq);
    }
  }

  /** Composing two filters is filtering by the conjunction. */
  lemma {:induction false} FilterFilter<T>(s: seq<T>, p: T -> bool, q: T -> bool, pq: T -> bool)
    requires forall i :: 0 <= i < |s| ==> pq(s[i]) == (p(s[i]) && q(s[i]))
    ensures Filter(Filter(s, p), q) == Filter(s, pq)
    decreases |s|
  {
    if s != [] {
      FilterFilter(s[1..], p, q, pq);
      if p(s[0]) {
        assert Filter(s, p) == [s[0]] + Filter(s[1..], p);
        FilterAppend([s[0]], Filter(s[1..], p), q);
        assert [s[0]][1..] == [];
        assert Filter([s[0]], q) == (if q(s[0]) then [s[0]] else []) + Filter([s[0]][1..], q);
      } else {
        assert Filter(s, p) == Filter(s[1..], p);
      }
    }
  }

  /** Filtering keeps every copy of an element that passes and no copy of
      one that fails. */
  lemma {:induction false} FilterMultiplicity<T>(s: seq<T>, p: T -> bool, x: T)
    ensures multiset(Filter(s, p))[x] == if p(x) then multiset(s)[x] else 0
    decreases |s|
  {
    if s != [] {
      FilterMultiplicity(s[1..], p, x);
      assert s == [s[0]] + s[1..];
      assert multiset(s) == multiset([s[0]]) + multiset(s[1..]);
      var head := if p(s[0]) then [s[0]] else [];
      assert multiset(Filter(s, p)) == multiset(head) + multiset(Filter(s[1..], p));
    }
  }

  /** A filter that drops some element is shorter than what it filters. */
  lemma {:induction false} FilterDropShortens<T>(s: seq<T>, p: T -> bool, k: nat)
    requires k < |s| && !p(s[k])
    ensures |Filter(s, p)| < |s|
    decreases |s|
  {
    if k == 0 {
      assert Filter(s, p) == Filter(s[1..], p);
    } else {
      FilterDropShortens(s[1..], p, k - 1);
    }
  }

  /** Every sequence is a subsequence of itself. */
  lemma {:induction false} IsSubsequenceReflexive<T>(s: seq<T>)
    ensures IsSubsequence(s, s)
    decreases |s|
  {
    if s != [] {
      IsSubsequenceReflexive(s[1..]);
    }
  }

  /** Being a subsequence is transitive. */
  lemma {:induction false} IsSubsequenceTransitive<T>(a: seq<T>, b: seq<T>, c: seq<T>)
    requires IsSubsequence(a, b) && IsSubsequence(b, c)
    ensures IsSubsequence(a, c)
    decreases |c|
  {
    if a != [] {
      assert b != [] && c != [];
      if b[0] == c[0] && IsSubsequence(b[1..], c[1..]) {
        if a[0] == b[0] && IsSubsequence(a[1..], b[1..]) {
          IsSubsequenceTransitive(a[1..], b[1..], c[1..]);
        } else {
          IsSubsequenceTransitive(a, b[1..], c[1..]);
        }
      } else {
        IsSubsequenceTransitive(a, b, c[1..]);
      }
    }
  }

  /** Filtering a sequence whose middle part fails and whose two ends pass
      keeps exactly the two ends. */
  lemma FilterAroundDropped<T>(kept: seq<T>, dropped: seq<T>, last: seq<T>, p: T -> bool)
    requires forall i :: 0 <= i < |kept| ==> p(kept[i])
    requires forall i :: 0 <= i < |dropped| ==> !p(dropped[i])
    requires forall i :: 0 <= i < |last| ==> p(last[i])
    ensures Filter(kept + dropped + last, p) == kept + last
  {
    var front := kept + dropped;
    FilterKeepsAll(kept, p);
    FilterDropsAll(dropped, p);
    FilterAppend(kept, dropped, p);
    assert Filter(front, p) == kept + [];
    assert kept + [] == kept;
    FilterKeepsAll(last, p);
    FilterAppend(front, last, p);
  }
}
