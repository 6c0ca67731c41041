/** Sequence helpers: order-preserving selection and interleaving. */
module Seqs {

  /** The elements of `xs` whose verdict `keep(x)` equals `want`, in their original order
      (a `forEach` that pushes the elements passing a test onto a list). */
  function Select<T>(xs: seq<T>, keep: T -> bool, want: bool): (r: seq<T>)
    ensures |r| <= |xs|
  {
    if xs == [] then []
    else Select(xs[..|xs| - 1], keep, want) + (if keep(xs[|xs| - 1]) == want then [xs[|xs| - 1]] else [])
  }

  /** Selection keeps exactly the elements with the wanted verdict. */
  lemma {:induction false} SelectMembers<T>(xs: seq<T>, keep: T -> bool, want: bool)
    ensures forall x :: x in Select(xs, keep, want) <==> x in xs && keep(x) == want
  {
    if xs != [] {
      var init := xs[..|xs| - 1];
      assert xs == init + [xs[|xs| - 1]];
      SelectMembers(init, keep, want);
    }
  }

  /** `xs` is a merge of `a` and `b`: every element of `xs` goes to exactly one of them,
      and each of them keeps the order it had in `xs`. */
  ghost predicate Interleaves<T>(xs: seq<T>, a: seq<T>, b: seq<T>)
    decreases |xs|
  {
    if xs == [] then a == [] && b == []
    else
      var x := xs[|xs| - 1];
      (a != [] && a[|a| - 1] == x && Interleaves(xs[..|xs| - 1], a[..|a| - 1], b)) ||
      (b != [] && b[|b| - 1] == x && Interleaves(xs[..|xs| - 1], a, b[..|b| - 1]))
  }

  /** Selecting with `want` true and with `want` false splits `xs` into two interleaved parts. */
  lemma {:induction false} SelectSplits<T>(xs: seq<T>, keep: T -> bool)
    ensures Interleaves(xs, Select(xs, keep, true), Select(xs, keep, false))
  {
    if xs != [] {
      var init, x := xs[..|xs| - 1], xs[|xs| - 1];
      SelectSplits(init, keep);
      var a, b := Select(xs, keep, true), Select(xs, keep, false);
      if keep(x) {
        assert a == Select(init, keep, true) + [x];
        assert a[..|a| - 1] == Select(init, keep, true);
        assert b == Select(init, keep, false);
      } else {
        assert b == Select(init, keep, false) + [x];
        assert b[..|b| - 1] == Select(init, keep, false);
        assert a == Select(init, keep, true);
      }
    }
  }

  /** An interleaving loses and duplicates nothing. */
  lemma {:induction false} InterleavesCounts<T>(xs: seq<T>, a: seq<T>, b: seq<T>)
    requires Interleaves(xs, a, b)
    ensures multiset(xs) == multiset(a) + multiset(b)
    ensures |xs| == |a| + |b|
    decreases |xs|
  {
    if xs != [] {
      var init, x := xs[..|xs| - 1], xs[|xs| - 1];
      assert xs == init + [x];
      if a != [] && a[|a| - 1] == x && Interleaves(init, a[..|a| - 1], b) {
        InterleavesCounts(init, a[..|a| - 1], b);
        assert a == a[..|a| - 1] + [x];
      } else {
        InterleavesCounts(init, a, b[..|b| - 1]);
        assert b == b[..|b| - 1] + [x];
      }
    }
  }
}
