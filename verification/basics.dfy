/** Small shared vocabulary: an optional value standing for JavaScript's
    `undefined`, and the first-occurrence search of `Array.prototype.indexOf`. */
module Basics {

  /** `None` is what a JavaScript lookup returns as `undefined`. */
  datatype Option<+T> = None | Some(value: T)

  /** First position of `x` in `xs`, or -1 when `x` does not occur. */
  function IndexOf<T(==)>(xs: seq<T>, x: T): (r: int)
    ensures -1 <= r < |xs|
    ensures r == -1 <==> x !in xs
    ensures r >= 0 ==> xs[r] == x && x !in xs[..r]
  {
    if |xs| == 0 then -1
    else if xs[0] == x then 0
    else
      var k := IndexOf(xs[1..], x);
      assert xs[1..][..if k >= 0 then k else 0] == xs[1..if k >= 0 then k + 1 else 1];
      if k == -1 then -1 else k + 1
  }

  /** Every defined entry of `xs`, in order (`Array.prototype.filter(Boolean)`
      over values that are either `undefined` or non-empty strings). */
  function Defined<T>(xs: seq<Option<T>>): (r: seq<T>)
    ensures |r| <= |xs|
    ensures (forall k | 0 <= k < |xs| :: xs[k].Some?) ==> |r| == |xs| && forall k | 0 <= k < |xs| :: r[k] == xs[k].value
  {
    if |xs| == 0 then []
    else (if xs[0].Some? then [xs[0].value] else []) + Defined(xs[1..])
  }

  /** Filtering a concatenation filters each part. */
  lemma {:induction false} DefinedAppend<T>(xs: seq<Option<T>>, ys: seq<Option<T>>)
    ensures Defined(xs + ys) == Defined(xs) + Defined(ys)
  {
    if |xs| == 0 {
      assert xs + ys == ys;
    } else {
      var head := if xs[0].Some? then [xs[0].value] else [];
      assert (xs + ys)[0] == xs[0];
      assert (xs + ys)[1..] == xs[1..] + ys;
      DefinedAppend(xs[1..], ys);
      assert Defined(xs + ys) == head + (Defined(xs[1..]) + Defined(ys));
    }
  }

  /** Nothing survives the filter when nothing is defined. */
  lemma {:induction false} DefinedNone<T>(xs: seq<Option<T>>)
    requires forall k | 0 <= k < |xs| :: xs[k].None?
    ensures Defined(xs) == []
  {
    if |xs| > 0 {
      DefinedNone(xs[1..]);
    }
  }

  /** Entries past `p` that are all undefined leave the filter unchanged. */
  lemma DefinedUpTo<T>(xs: seq<Option<T>>, p: nat)
    requires p <= |xs|
    requires forall k | p <= k < |xs| :: xs[k].None?
    ensures Defined(xs) == Defined(xs[..p])
  {
    assert xs == xs[..p] + xs[p..];
    DefinedAppend(xs[..p], xs[p..]);
    DefinedNone(xs[p..]);
  }

  /** Entries from `a` on that are all defined all survive the filter. */
  lemma DefinedFrom<T>(xs: seq<Option<T>>, a: nat)
    requires a <= |xs|
    requires forall k | a <= k < |xs| :: xs[k].Some?
    ensures |Defined(xs)| >= |xs| - a
  {
    assert xs == xs[..a] + xs[a..];
    DefinedAppend(xs[..a], xs[a..]);
  }

  /** No value occurs twice in `xs`. */
  predicate NoRepeats<T(==)>(xs: seq<T>) {
    forall a, b | 0 <= a < b < |xs| :: xs[a] != xs[b]
  }

  /** In a sequence without repeats, `IndexOf` finds each element at its own position. */
  lemma IndexOfDistinct<T>(xs: seq<T>, i: nat)
    requires NoRepeats(xs)
    requires i < |xs|
    ensures IndexOf(xs, xs[i]) == i
  {
  }
}
