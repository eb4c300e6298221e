/** Facts about concatenation that the proofs by induction over lists share. */
module Sequences {

  lemma ConcatTail<T>(a: seq<T>, b: seq<T>)
    requires a != []
    ensures (a + b)[0] == a[0] && (a + b)[1..] == a[1..] + b
  {
  }

  lemma ConcatAssoc<T>(a: seq<T>, b: seq<T>, c: seq<T>)
    ensures (a + b) + c == a + (b + c)
  {
  }

  /** The first position at or after `from` whose element satisfies `p`, or the length. */
  function FirstFrom<T>(xs: seq<T>, from: nat, p: T -> bool): (i: nat)
    requires from <= |xs|
    ensures from <= i <= |xs|
    ensures forall j :: from <= j < i ==> !p(xs[j])
    ensures i < |xs| ==> p(xs[i])
    decreases |xs| - from
  {
    if from == |xs| || p(xs[from]) then from else FirstFrom(xs, from + 1, p)
  }

  method FindFrom<T>(xs: seq<T>, from: nat, p: T -> bool) returns (i: nat)
    requires from <= |xs|
    ensures i == FirstFrom(xs, from, p)
  {
    i := from;
    while i < |xs| && !p(xs[i])
      invariant from <= i <= FirstFrom(xs, from, p)
    {
      i := i + 1;
    }
  }

  lemma Halves<T>(xs: seq<T>, at: nat)
    requires at <= |xs|
    ensures xs == xs[..at] + xs[at..]
  {
  }

  lemma AroundOne<T>(xs: seq<T>, p: nat, at: nat)
    requires p < at <= |xs|
    ensures xs[..at] == xs[..p] + [xs[p]] + xs[p + 1..at]
  {
  }

  lemma ConcatEmpty<T>(a: seq<T>)
    ensures a + [] == a && [] + a == a
  {
  }
}
