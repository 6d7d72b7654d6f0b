/** Order-preserving selection from a sequence: JavaScript's
    `Array.prototype.filter` and Python's `[x for x in xs if p(x)]`, and the
    first-n slice `xs[:n]`. */
module Seqs {

  /** The elements of `xs` that `keep` accepts, in their order. */
  function Filter<T(!new)>(xs: seq<T>, keep: T -> bool): (r: seq<T>)
    ensures |r| <= |xs|
    ensures forall x :: x in r <==> x in xs && keep(x)
    ensures forall x {:trigger multiset(r)[x]} :: multiset(r)[x] == if keep(x) then multiset(xs)[x] else 0
  {
    if xs == [] then []
    else
      assert xs == [xs[0]] + xs[1..];
      (if keep(xs[0]) then [xs[0]] else []) + Filter(xs[1..], keep)
  }

  /** `xs` is `ys` with some elements left out and the rest in the same order. */
  ghost predicate IsSubsequence<T>(xs: seq<T>, ys: seq<T>)
    decreases |ys|
  {
    if xs == [] then true
    else if ys == [] then false
    else (xs[0] == ys[0] && IsSubsequence(xs[1..], ys[1..])) || IsSubsequence(xs, ys[1..])
  }

  /** A filter that keeps everything returns its input unchanged. */
  lemma {:induction false} FilterKeepAll<T(!new)>(xs: seq<T>, keep: T -> bool)
    requires forall x :: keep(x)
    ensures Filter(xs, keep) == xs
  {
    if xs != [] {
      FilterKeepAll(xs[1..], keep);
    }
  }

  /** Two passes equal one pass with the conjunction. */
  lemma {:induction false} FilterFuse<T(!new)>(xs: seq<T>, p: T -> bool, q: T -> bool, both: T -> bool)
    requires forall x :: both(x) == (p(x) && q(x))
    ensures Filter(Filter(xs, p), q) == Filter(xs, both)
  {
    if xs != [] {
      FilterFuse(xs[1..], p, q, both);
      var head := if p(xs[0]) then [xs[0]] else [];
      assert Filter(xs, p) == head + Filter(xs[1..], p);
      FilterAppend(head, Filter(xs[1..], p), q);
    }
  }

  lemma {:induction false} FilterAppend<T(!new)>(xs: seq<T>, ys: seq<T>, keep: T -> bool)
    ensures Filter(xs + ys, keep) == Filter(xs, keep) + Filter(ys, keep)
  {
    if xs == [] {
      assert xs + ys == ys;
    } else {
      assert (xs + ys)[1..] == xs[1..] + ys;
      FilterAppend(xs[1..], ys, keep);
    }
  }

  /** A filter's result keeps the input order. */
  lemma {:induction false} FilterIsSubsequence<T(!new)>(xs: seq<T>, keep: T -> bool)
    ensures IsSubsequence(Filter(xs, keep), xs)
  {
    if xs != [] {
      FilterIsSubsequence(xs[1..], keep);
      if keep(xs[0]) {
        assert Filter(xs, keep) == [xs[0]] + Filter(xs[1..], keep);
      } else {
        assert Filter(xs, keep) == Filter(xs[1..], keep);
        SubsequenceOfTail(Filter(xs[1..], keep), xs);
      }
    }
  }

  lemma SubsequenceOfTail<T>(xs: seq<T>, ys: seq<T>)
    requires ys != [] && IsSubsequence(xs, ys[1..])
    ensures IsSubsequence(xs, ys)
  {
  }

  /** `r` is the first `n` elements of `xs`, or all of them when there are fewer. */
  ghost predicate FirstOf<T>(r: seq<T>, xs: seq<T>, n: nat) {
    |r| <= n && |r| <= |xs| && r == xs[..|r|] && (|r| == n || |r| == |xs|)
  }

  /** Python's `xs[:n]` for `n >= 0`. */
  function Take<T>(xs: seq<T>, n: nat): (r: seq<T>)
    ensures FirstOf(r, xs, n)
  {
    if |xs| <= n then xs else xs[..n]
  }

  /** A prefix of a subsequence is a subsequence. */
  lemma {:induction false} PrefixOfSubsequence<T>(xs: seq<T>, ys: seq<T>, n: nat)
    requires n <= |xs| && IsSubsequence(xs, ys)
    ensures IsSubsequence(xs[..n], ys)
    decreases |ys|
  {
    if n == 0 || xs == [] {
    } else if ys == [] {
    } else if xs[0] == ys[0] && IsSubsequence(xs[1..], ys[1..]) {
      PrefixOfSubsequence(xs[1..], ys[1..], n - 1);
      assert xs[..n][1..] == xs[1..][..n - 1];
    } else {
      PrefixOfSubsequence(xs, ys[1..], n);
    }
  }

  /** Every element of a prefix is an element of the whole. */
  lemma FirstOfMembers<T>(r: seq<T>, xs: seq<T>, n: nat)
    requires FirstOf(r, xs, n)
    ensures forall x :: x in r ==> x in xs
  {
    forall x | x in r ensures x in xs {
      var i :| 0 <= i < |r| && r[i] == x;
      assert xs[i] == x;
    }
  }
}
