/** Shared vocabulary: optional values, and the order-preserving filter that
    JavaScript's `Array.prototype.filter` performs throughout the application. */
module Common {

  datatype Option<T> = None | Some(value: T)

  /** `xs.filter(keep)`: the elements of `xs` that satisfy `keep`, in their original order. */
  function Filter<T>(xs: seq<T>, keep: T -> bool): (r: seq<T>)
    ensures |r| <= |xs|
    ensures forall i :: 0 <= i < |r| ==> r[i] in xs && keep(r[i])
    ensures forall i :: 0 <= i < |xs| && keep(xs[i]) ==> xs[i] in r
    ensures IsSubsequence(r, xs)
    decreases |xs|
  {
    if xs == [] then []
    else if keep(xs[0]) then [xs[0]] + Filter(xs[1..], keep)
    else Filter(xs[1..], keep)
  }

  /** `r` can be obtained from `xs` by deleting elements, without reordering the rest. */
  ghost predicate IsSubsequence<T>(r: seq<T>, xs: seq<T>)
    decreases |xs|
  {
    r == [] ||
    (xs != [] && ((r[0] == xs[0] && IsSubsequence(r[1..], xs[1..])) || IsSubsequence(r, xs[1..])))
  }

  /** Filtering a list whose every element is kept returns the list itself. */
  lemma {:induction false} FilterKeepsAll<T>(xs: seq<T>, keep: T -> bool)
    requires forall i :: 0 <= i < |xs| ==> keep(xs[i])
    ensures Filter(xs, keep) == xs
    decreases |xs|
  {
    if xs != [] {
      FilterKeepsAll(xs[1..], keep);
    }
  }

  /** Filtering twice with the same predicate is filtering once. */
  lemma {:induction false} FilterIdempotent<T>(xs: seq<T>, keep: T -> bool)
    ensures Filter(Filter(xs, keep), keep) == Filter(xs, keep)
    decreases |xs|
  {
    if xs != [] {
      FilterIdempotent(xs[1..], keep);
      if keep(xs[0]) {
        var r := Filter(xs[1..], keep);
        assert ([xs[0]] + r)[1..] == r;
      }
    }
  }

  /** When `narrow` implies `wide`, a first pass with `wide` removes nothing that a
      pass with `narrow` would keep. */
  lemma {:induction false} FilterAbsorbs<T>(xs: seq<T>, wide: T -> bool, narrow: T -> bool)
    requires forall x :: narrow(x) ==> wide(x)
    ensures Filter(Filter(xs, wide), narrow) == Filter(xs, narrow)
    decreases |xs|
  {
    if xs != [] {
      FilterAbsorbs(xs[1..], wide, narrow);
      if wide(xs[0]) {
        var r := Filter(xs[1..], wide);
        assert ([xs[0]] + r)[1..] == r;
      }
    }
  }

  /** Two predicates that agree on every element of `xs` filter it alike. */
  lemma {:induction false} FilterCongruent<T>(xs: seq<T>, f: T -> bool, g: T -> bool)
    requires forall i :: 0 <= i < |xs| ==> f(xs[i]) == g(xs[i])
    ensures Filter(xs, f) == Filter(xs, g)
    decreases |xs|
  {
    if xs != [] {
      FilterCongruent(xs[1..], f, g);
    }
  }

  /** `xs.filter(x => key(x) !== k)`: delete by key. Exactly the elements with
      another key remain, in their order. */
  function RemoveKey<T>(xs: seq<T>, key: T -> int, k: int): (r: seq<T>)
    ensures forall i :: 0 <= i < |r| ==> key(r[i]) != k && r[i] in xs
    ensures forall i :: 0 <= i < |xs| && key(xs[i]) != k ==> xs[i] in r
    ensures IsSubsequence(r, xs)
  {
    Filter(xs, (x: T) => key(x) != k)
  }

  /** The position of the first element whose key is `k`, as `findIndex` gives it;
      `None` exactly when no element has that key. */
  function FirstIndex<T, K(==)>(xs: seq<T>, key: T -> K, k: K): (r: Option<nat>)
    ensures r.Some? ==> r.value < |xs| && key(xs[r.value]) == k
    ensures r.Some? ==> forall j :: 0 <= j < r.value ==> key(xs[j]) != k
    ensures r.None? <==> forall i :: 0 <= i < |xs| ==> key(xs[i]) != k
    decreases |xs|
  {
    if xs == [] then None
    else if key(xs[0]) == k then Some(0)
    else match FirstIndex(xs[1..], key, k)
      case None => None
      case Some(i) => Some(i + 1)
  }

  /** `xs.find(x => key(x) === k)`: the first element with key `k`, if any. */
  function FindBy<T, K(==)>(xs: seq<T>, key: T -> K, k: K): (r: Option<T>)
    ensures r.None? <==> forall i :: 0 <= i < |xs| ==> key(xs[i]) != k
    ensures r.Some? ==> r.value in xs && key(r.value) == k
    ensures r.Some? ==>
      exists i :: 0 <= i < |xs| && xs[i] == r.value && forall j :: 0 <= j < i ==> key(xs[j]) != k
  {
    match FirstIndex(xs, key, k)
    case None => None
    case Some(i) => Some(xs[i])
  }

  /** Deleting a key no element has changes nothing. */
  lemma RemoveAbsentKey<T>(xs: seq<T>, key: T -> int, k: int)
    requires forall i :: 0 <= i < |xs| ==> key(xs[i]) != k
    ensures RemoveKey(xs, key, k) == xs
  {
    FilterKeepsAll(xs, (x: T) => key(x) != k);
  }
  /** The elements of `xs` from last to first. */
  function Reversed<T>(xs: seq<T>): (r: seq<T>)
    ensures |r| == |xs|
    ensures forall i :: 0 <= i < |xs| ==> r[i] == xs[|xs| - 1 - i]
    decreases |xs|
  {
    if xs == [] then [] else Reversed(xs[1..]) + [xs[0]]
  }

  /** Reversing keeps every element, as often as it occurs. */
  lemma {:induction false} ReversedPermutes<T>(xs: seq<T>)
    ensures multiset(Reversed(xs)) == multiset(xs)
    decreases |xs|
  {
    if xs != [] {
      ReversedPermutes(xs[1..]);
      assert xs == [xs[0]] + xs[1..];
    }
  }
}
