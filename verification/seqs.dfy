/** Sequence helpers shared by the store and the pages: JavaScript `filter` and `slice(0, n)`. */
module Seqs {

  /** No element occurs twice. */
  predicate NoDuplicates<T(==)>(xs: seq<T>)
  {
    forall i, j :: 0 <= i < j < |xs| ==> xs[i] != xs[j]
  }

  /** `a` can be obtained from `b` by deleting elements, keeping the order of the rest. */
  predicate IsSubsequence<T(==)>(a: seq<T>, b: seq<T>)
    decreases |b|
  {
    if |a| == 0 then true
    else if |b| == 0 then false
    else if a[0] == b[0] then IsSubsequence(a[1..], b[1..])
    else IsSubsequence(a, b[1..])
  }

  /**
   * JavaScript `xs.filter(keep)`: the elements `keep` accepts, each as many
   * times as it occurs, in their original order.
   */
  function Filter<T(==,!new)>(xs: seq<T>, keep: T -> bool): (r: seq<T>)
    ensures |r| <= |xs|
    ensures forall i :: 0 <= i < |r| ==> keep(r[i])
    ensures forall x :: x in r <==> x in xs && keep(x)
    ensures forall x :: multiset(r)[x] == if keep(x) then multiset(xs)[x] else 0
    decreases |xs|
  {
    if |xs| == 0 then []
    else
      var rest := Filter(xs[1..], keep);
      assert xs == [xs[0]] + xs[1..];
      if keep(xs[0]) then [xs[0]] + rest else rest
  }

  /** Filtering keeps the relative order of the surviving elements. */
  lemma {:induction false} FilterIsSubsequence<T(!new)>(xs: seq<T>, keep: T -> bool)
    ensures IsSubsequence(Filter(xs, keep), xs)
    decreases |xs|
  {
    if |xs| > 0 {
      FilterIsSubsequence(xs[1..], keep);
      var rest := Filter(xs[1..], keep);
      if !keep(xs[0]) {
        SubsequenceOfTail(rest, xs);
      } else {
        assert Filter(xs, keep) == [xs[0]] + rest;
        assert Filter(xs, keep)[1..] == rest;
      }
    }
  }

  /** A subsequence of the tail is a subsequence of the whole. */
  lemma {:induction false} SubsequenceOfTail<T>(a: seq<T>, b: seq<T>)
    requires |b| > 0 && IsSubsequence(a, b[1..])
    ensures IsSubsequence(a, b)
    decreases |b|, |a|
  {
    if |a| > 0 && a[0] == b[0] {
      if |b| > 1 {
        assert IsSubsequence(a[1..], b[1..]) by {
          SubsequenceDropHead(a, b[1..]);
        }
      } else {
        assert false;
      }
    }
  }

  /** Dropping the head of a non-empty subsequence keeps it a subsequence. */
  lemma {:induction false} SubsequenceDropHead<T>(a: seq<T>, b: seq<T>)
    requires |a| > 0 && IsSubsequence(a, b)
    ensures IsSubsequence(a[1..], b)
    decreases |b|, |a|
  {
    assert |b| > 0;
    if a[0] == b[0] {
      SubsequenceOfTail(a[1..], b);
    } else {
      SubsequenceDropHead(a, b[1..]);
      SubsequenceOfTail(a[1..], b);
    }
  }

  /** Filtering a duplicate-free sequence leaves it duplicate-free. */
  lemma {:induction false} FilterNoDuplicates<T(!new)>(xs: seq<T>, keep: T -> bool)
    requires NoDuplicates(xs)
    ensures NoDuplicates(Filter(xs, keep))
    decreases |xs|
  {
    if |xs| > 0 {
      FilterNoDuplicates(xs[1..], keep);
      var rest := Filter(xs[1..], keep);
      if keep(xs[0]) {
        assert xs[0] !in xs[1..];
        assert xs[0] !in rest;
        assert Filter(xs, keep) == [xs[0]] + rest;
      }
    }
  }

  /** When every element is kept, filtering changes nothing. */
  lemma {:induction false} FilterKeepsAll<T(!new)>(xs: seq<T>, keep: T -> bool)
    requires forall i :: 0 <= i < |xs| ==> keep(xs[i])
    ensures Filter(xs, keep) == xs
    decreases |xs|
  {
    if |xs| > 0 {
      FilterKeepsAll(xs[1..], keep);
      assert xs == [xs[0]] + xs[1..];
    }
  }

  /** Filtering `xs + [x]` where `x` is rejected is filtering `xs`. */
  lemma {:induction false} FilterAppendRejected<T(!new)>(xs: seq<T>, x: T, keep: T -> bool)
    requires !keep(x)
    ensures Filter(xs + [x], keep) == Filter(xs, keep)
    decreases |xs|
  {
    if |xs| == 0 {
      assert xs + [x] == [x];
      assert [x][1..] == [];
    } else {
      assert (xs + [x])[0] == xs[0];
      assert (xs + [x])[1..] == xs[1..] + [x];
      FilterAppendRejected(xs[1..], x, keep);
    }
  }

  /** In a duplicate-free sequence every member occurs exactly once. */
  lemma {:induction false} NoDuplicatesCount<T>(xs: seq<T>, x: T)
    requires NoDuplicates(xs) && x in xs
    ensures multiset(xs)[x] == 1
    decreases |xs|
  {
    assert xs == [xs[0]] + xs[1..];
    if xs[0] == x {
      assert x !in xs[1..];
    } else {
      NoDuplicatesCount(xs[1..], x);
    }
  }

  /** `xs.filter(y => y !== x)`: every occurrence of `x` removed, the rest in order. */
  function Without<T(==,!new)>(xs: seq<T>, x: T): (r: seq<T>)
    ensures x !in r
    ensures forall y :: y != x ==> multiset(r)[y] == multiset(xs)[y]
    ensures IsSubsequence(r, xs)
    ensures NoDuplicates(xs) ==> NoDuplicates(r)
    ensures x !in xs ==> r == xs
  {
    var keep := (y: T) => y != x;
    FilterIsSubsequence(xs, keep);
    if x !in xs then
      FilterKeepsAll(xs, keep);
      Filter(xs, keep)
    else if NoDuplicates(xs) then
      FilterNoDuplicates(xs, keep);
      Filter(xs, keep)
    else
      Filter(xs, keep)
  }

  /** Appending `x` and removing it again gives the list without `x`. */
  lemma WithoutAppended<T(!new)>(xs: seq<T>, x: T)
    ensures Without(xs + [x], x) == Without(xs, x)
  {
    FilterAppendRejected(xs, x, (y: T) => y != x);
  }

  /** Dropping the only occurrence of `x` and appending it again keeps the multiset. */
  lemma MoveToEndKeepsMultiset<T(!new)>(xs: seq<T>, x: T)
    requires NoDuplicates(xs) && x in xs
    ensures multiset(Without(xs, x) + [x]) == multiset(xs)
  {
    var twice := Without(xs, x) + [x];
    NoDuplicatesCount(xs, x);
    assert multiset(twice) == multiset(Without(xs, x)) + multiset{x};
    forall y
      ensures multiset(twice)[y] == multiset(xs)[y]
    {
    }
  }

  /** A prefix of a subsequence is a subsequence. */
  lemma {:induction false} PrefixOfSubsequence<T>(a: seq<T>, b: seq<T>, c: seq<T>)
    requires a <= b && IsSubsequence(b, c)
    ensures IsSubsequence(a, c)
    decreases |c|
  {
    if |a| > 0 {
      if b[0] == c[0] {
        PrefixOfSubsequence(a[1..], b[1..], c[1..]);
      } else {
        PrefixOfSubsequence(a, b, c[1..]);
      }
    }
  }

  /** JavaScript `xs.slice(0, n)`: the first `n` elements, or all of them when there are fewer. */
  function Take<T>(xs: seq<T>, n: nat): (r: seq<T>)
    ensures |r| == if |xs| < n then |xs| else n
    ensures r <= xs
  {
    if |xs| < n then xs else xs[..n]
  }
}
