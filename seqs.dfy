/**
 * Sequence filtering, stated once for any element type: the catalog's two
 * filters are both "keep the elements that pass, in their original order".
 */
module Seqs {

  /**
   * The elements of `xs` that satisfy `p`, in their original order. It is
   * defined on the last element so that it follows a loop that appends each
   * passing element to the end of its result.
   */
  function Filter<T>(p: T -> bool, xs: seq<T>): seq<T>
  {
    if xs == [] then []
    else Filter(p, xs[..|xs| - 1]) + (if p(xs[|xs| - 1]) then [xs[|xs| - 1]] else [])
  }

  /** Filtering a sequence extended by one element extends the filtered sequence by that element if it passes. */
  lemma FilterSnoc<T>(p: T -> bool, xs: seq<T>, x: T)
    ensures Filter(p, xs + [x]) == Filter(p, xs) + (if p(x) then [x] else [])
  {
  }

  /** The positions of `xs` whose element satisfies `p`, in increasing order. */
  function FilterIndices<T>(p: T -> bool, xs: seq<T>): seq<nat>
  {
    if xs == [] then []
    else FilterIndices(p, xs[..|xs| - 1]) + (if p(xs[|xs| - 1]) then [|xs| - 1] else [])
  }

  /** `idx` picks the elements of `a`, one by one, out of `b` at strictly increasing positions. */
  ghost predicate Embeds<T>(idx: seq<nat>, a: seq<T>, b: seq<T>)
  {
    |idx| == |a| &&
    (forall k :: 0 <= k < |idx| ==> idx[k] < |b| && a[k] == b[idx[k]]) &&
    (forall k, l :: 0 <= k < l < |idx| ==> idx[k] < idx[l])
  }

  /** `a` is `b` with some elements left out and the rest kept in order. */
  ghost predicate SubsequenceOf<T>(a: seq<T>, b: seq<T>)
  {
    exists idx :: Embeds(idx, a, b)
  }

  /** `r` is made of exactly the elements of `xs` at the positions where `p` holds, in order. */
  ghost predicate SelectsExactly<T>(p: T -> bool, r: seq<T>, xs: seq<T>)
  {
    exists idx :: Embeds(idx, r, xs) && forall i :: 0 <= i < |xs| ==> (i in idx <==> p(xs[i]))
  }

  lemma {:induction false} FilterIndicesSelect<T>(p: T -> bool, xs: seq<T>)
    ensures Embeds(FilterIndices(p, xs), Filter(p, xs), xs)
    ensures forall i :: 0 <= i < |xs| ==> (i in FilterIndices(p, xs) <==> p(xs[i]))
  {
    if xs != [] {
      var n := |xs| - 1;
      var front := xs[..n];
      FilterIndicesSelect(p, front);
      var idx, a := FilterIndices(p, front), Filter(p, front);
      assert forall k :: 0 <= k < |idx| ==> idx[k] < n && a[k] == xs[idx[k]];
      assert forall i :: 0 <= i < n ==> xs[i] == front[i];
    }
  }

  /** The filter keeps exactly the positions where `p` holds, in order. */
  lemma FilterSelectsExactly<T>(p: T -> bool, xs: seq<T>)
    ensures SelectsExactly(p, Filter(p, xs), xs)
    ensures SubsequenceOf(Filter(p, xs), xs)
  {
    FilterIndicesSelect(p, xs);
  }

  /** An element is in the filtered sequence if and only if it is in the input and passes. */
  lemma {:induction false} FilterMembership<T>(p: T -> bool, xs: seq<T>)
    ensures forall x :: x in Filter(p, xs) <==> x in xs && p(x)
  {
    if xs != [] {
      var n := |xs| - 1;
      FilterMembership(p, xs[..n]);
      assert xs == xs[..n] + [xs[n]];
    }
  }

  /** When every element passes, the filter returns its input unchanged. */
  lemma {:induction false} FilterKeepsAll<T>(p: T -> bool, xs: seq<T>)
    requires forall i :: 0 <= i < |xs| ==> p(xs[i])
    ensures Filter(p, xs) == xs
  {
    if xs != [] {
      var n := |xs| - 1;
      FilterKeepsAll(p, xs[..n]);
      assert xs == xs[..n] + [xs[n]];
    }
  }

  /** Every element of the filtered sequence passes the predicate. */
  lemma {:induction false} FilterAllPass<T>(p: T -> bool, xs: seq<T>)
    ensures forall k :: 0 <= k < |Filter(p, xs)| ==> p(Filter(p, xs)[k])
  {
    if xs != [] {
      FilterAllPass(p, xs[..|xs| - 1]);
    }
  }

  /** Filtering the output of a filter again with the same predicate changes nothing. */
  lemma FilterIdempotent<T>(p: T -> bool, xs: seq<T>)
    ensures Filter(p, Filter(p, xs)) == Filter(p, xs)
  {
    FilterAllPass(p, xs);
    FilterKeepsAll(p, Filter(p, xs));
  }

  /** Filtering distributes over concatenation. */
  lemma {:induction false} FilterAppend<T>(p: T -> bool, a: seq<T>, b: seq<T>)
    ensures Filter(p, a + b) == Filter(p, a) + Filter(p, b)
  {
    if b == [] {
      assert a + b == a;
    } else {
      var n := |b| - 1;
      assert (a + b)[..|a + b| - 1] == a + b[..n];
      FilterAppend(p, a, b[..n]);
    }
  }

  /** When no element passes, the filter returns nothing. */
  lemma {:induction false} FilterNonePass<T>(p: T -> bool, xs: seq<T>)
    requires forall i :: 0 <= i < |xs| ==> !p(xs[i])
    ensures Filter(p, xs) == []
  {
    if xs != [] {
      FilterNonePass(p, xs[..|xs| - 1]);
    }
  }
}
