/** `Array.prototype.filter` and the positions it keeps. Both recurse on the
    last element, so a loop that walks a list from the front keeps
    `out == Filter(xs[..i], p)` as its invariant. */
module Seqs {

  /** The elements of `xs` that satisfy `p`, in their original order. */
  function Filter<T>(xs: seq<T>, p: T -> bool): (r: seq<T>)
    ensures |r| <= |xs|
    ensures forall k :: 0 <= k < |r| ==> r[k] in xs && p(r[k])
    ensures forall i :: 0 <= i < |xs| && p(xs[i]) ==> xs[i] in r
  {
    if xs == [] then []
    else
      var init, last := xs[..|xs| - 1], xs[|xs| - 1];
      assert xs == init + [last];
      Filter(init, p) + (if p(last) then [last] else [])
  }

  /** The positions in `xs` of the elements that `Filter` keeps. */
  function KeptIndices<T>(xs: seq<T>, p: T -> bool): (r: seq<nat>)
    ensures |r| == |Filter(xs, p)|
    ensures forall k :: 0 <= k < |r| ==> r[k] < |xs|
  {
    if xs == [] then []
    else
      var n := |xs| - 1;
      KeptIndices(xs[..n], p) + (if p(xs[n]) then [n] else [])
  }

  /** Strictly increasing positions: the order of the kept elements is the
      order they had in the input. */
  ghost predicate StrictlyIncreasing(s: seq<nat>)
  {
    forall j, k :: 0 <= j < k < |s| ==> s[j] < s[k]
  }

  /** `Filter(xs, p)` is the subsequence of `xs` at `KeptIndices(xs, p)`:
      each kept element sits at its own position, the positions ascend, and
      every position whose element satisfies `p` is among them. */
  lemma {:induction false} FilterIsSubsequence<T>(xs: seq<T>, p: T -> bool)
    ensures var r, idx := Filter(xs, p), KeptIndices(xs, p);
      && |idx| == |r|
      && StrictlyIncreasing(idx)
      && (forall k :: 0 <= k < |idx| ==> idx[k] < |xs| && r[k] == xs[idx[k]])
      && (forall i :: 0 <= i < |xs| ==> (i in idx <==> p(xs[i])))
  {
    if xs != [] {
      var n := |xs| - 1;
      var init := xs[..n];
      FilterIsSubsequence(init, p);
      var r0, idx0 := Filter(init, p), KeptIndices(init, p);
      var r, idx := Filter(xs, p), KeptIndices(xs, p);
      assert xs == init + [xs[n]];
      assert r == r0 + (if p(xs[n]) then [xs[n]] else []);
      assert idx == idx0 + (if p(xs[n]) then [n] else []);
      forall i | 0 <= i < |xs|
        ensures i in idx <==> p(xs[i])
      {
        if i < n {
          assert xs[i] == init[i];
          assert i in idx <==> i in idx0;
        } else {
          assert forall k :: 0 <= k < |idx0| ==> idx0[k] < n;
        }
      }
    }
  }

  /** A predicate that holds of every element keeps the whole list. */
  lemma {:induction false} FilterKeepsAll<T>(xs: seq<T>, p: T -> bool)
    requires forall i :: 0 <= i < |xs| ==> p(xs[i])
    ensures Filter(xs, p) == xs
  {
    if xs != [] {
      var n := |xs| - 1;
      FilterKeepsAll(xs[..n], p);
      assert xs == xs[..n] + [xs[n]];
    }
  }
}
