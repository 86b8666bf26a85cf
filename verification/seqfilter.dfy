/** Order-preserving filtering of sequences: the list comprehension
    `[x for x in xs if p(x)]` that every screen of the work-management
    application is built from. */
module SeqFilter {

  /** The elements of `xs` that satisfy `p`, in their original order. */
  function Filter<T(==)>(xs: seq<T>, p: T -> bool): (r: seq<T>)
    ensures |r| <= |xs|
  {
    if xs == [] then []
    else
      var rest := Filter(xs[1..], p);
      if p(xs[0]) then [xs[0]] + rest else rest
  }

  /** The filter keeps exactly the qualifying elements, each as often as it
      occurs in the input, and nothing else. */
  lemma {:induction false} FilterExact<T(!new)>(xs: seq<T>, p: T -> bool)
    ensures forall i :: 0 <= i < |Filter(xs, p)| ==> p(Filter(xs, p)[i])
    ensures forall x :: x in Filter(xs, p) <==> x in xs && p(x)
    ensures forall x :: multiset(Filter(xs, p))[x] == if p(x) then multiset(xs)[x] else 0
  {
    if xs != [] {
      assert xs == [xs[0]] + xs[1..];
      FilterExact(xs[1..], p);
    }
  }

  /** Filtering distributes over concatenation. */
  lemma {:induction false} FilterAppend<T(!new)>(xs: seq<T>, ys: seq<T>, p: T -> bool)
    ensures Filter(xs + ys, p) == Filter(xs, p) + Filter(ys, p)
  {
    if xs == [] {
      assert xs + ys == ys;
    } else {
      assert (xs + ys)[0] == xs[0];
      assert (xs + ys)[1..] == xs[1..] + ys;
      FilterAppend(xs[1..], ys, p);
    }
  }

  /** Appending one element adds one to the count exactly when it qualifies. */
  lemma FilterAppendOne<T(!new)>(xs: seq<T>, y: T, p: T -> bool)
    ensures |Filter(xs + [y], p)| == |Filter(xs, p)| + (if p(y) then 1 else 0)
  {
    FilterAppend(xs, [y], p);
    assert [y][1..] == [];
  }

  /** Replacing one element changes the count by what the old element
      contributed and what the new one contributes. */
  lemma {:induction false} FilterUpdateCount<T(!new)>(xs: seq<T>, i: int, y: T, p: T -> bool)
    requires 0 <= i < |xs|
    ensures |Filter(xs[i := y], p)|
            == |Filter(xs, p)| - (if p(xs[i]) then 1 else 0) + (if p(y) then 1 else 0)
  {
    var ys := xs[i := y];
    assert ys != [];
    if i == 0 {
      assert ys[1..] == xs[1..];
    } else {
      assert ys[0] == xs[0];
      assert ys[1..] == xs[1..][i - 1 := y];
      FilterUpdateCount(xs[1..], i - 1, y, p);
      assert |Filter(ys, p)| == (if p(xs[0]) then 1 else 0) + |Filter(ys[1..], p)|;
      assert |Filter(xs, p)| == (if p(xs[0]) then 1 else 0) + |Filter(xs[1..], p)|;
    }
  }

  /** Two filters with disjoint predicates together select at most every element once. */
  lemma {:induction false} FilterDisjointCount<T(!new)>(xs: seq<T>, p: T -> bool, q: T -> bool)
    requires forall x :: !(p(x) && q(x))
    ensures |Filter(xs, p)| + |Filter(xs, q)| <= |xs|
  {
    if xs != [] {
      FilterDisjointCount(xs[1..], p, q);
    }
  }

  /** Filtering by `p` and then by `q` is filtering once by `pq`, the
      conjunction of the two. */
  lemma {:induction false} FilterFilter<T(!new)>(xs: seq<T>, p: T -> bool, q: T -> bool, pq: T -> bool)
    requires forall x :: pq(x) == (p(x) && q(x))
    ensures Filter(Filter(xs, p), q) == Filter(xs, pq)
  {
    if xs != [] {
      FilterFilter(xs[1..], p, q, pq);
      if p(xs[0]) {
        assert Filter(xs, p)[1..] == Filter(xs[1..], p);
      }
    }
  }

  /** When every element satisfies exactly one of three predicates, the
      three filters together count every element once. */
  lemma {:induction false} FilterThreeWayCount<T(!new)>(xs: seq<T>, p: T -> bool, q: T -> bool, r: T -> bool)
    requires forall i :: 0 <= i < |xs| ==>
      (if p(xs[i]) then 1 else 0) + (if q(xs[i]) then 1 else 0) + (if r(xs[i]) then 1 else 0) == 1
    ensures |Filter(xs, p)| + |Filter(xs, q)| + |Filter(xs, r)| == |xs|
  {
    if xs != [] {
      assert forall i :: 0 <= i < |xs[1..]| ==> xs[1..][i] == xs[i + 1];
      FilterThreeWayCount(xs[1..], p, q, r);
    }
  }

  /** A filter that every element passes returns the sequence unchanged. */
  lemma {:induction false} FilterKeepsAll<T(!new)>(xs: seq<T>, p: T -> bool)
    requires forall i :: 0 <= i < |xs| ==> p(xs[i])
    ensures Filter(xs, p) == xs
  {
    if xs != [] {
      FilterKeepsAll(xs[1..], p);
      assert xs == [xs[0]] + xs[1..];
    }
  }

  /** A filter that no element passes returns the empty sequence. */
  lemma {:induction false} FilterDropsAll<T(!new)>(xs: seq<T>, p: T -> bool)
    requires forall i :: 0 <= i < |xs| ==> !p(xs[i])
    ensures Filter(xs, p) == []
  {
    if xs != [] {
      FilterDropsAll(xs[1..], p);
    }
  }

  /** Two predicates that agree on every element filter alike. */
  lemma {:induction false} FilterSamePredicate<T>(xs: seq<T>, p: T -> bool, q: T -> bool)
    requires forall i :: 0 <= i < |xs| ==> p(xs[i]) == q(xs[i])
    ensures Filter(xs, p) == Filter(xs, q)
  {
    if xs != [] {
      FilterSamePredicate(xs[1..], p, q);
    }
  }
}
