/** The arithmetic of `compute_average_by_country`: Python's `sum`, the inner
    `compute_average`, and the truthiness filter `[x for x in xs if x]` on numbers.
    Averages are exact reals: the source's floating point is not modelled. */
module Averages {

  /** `sum(xs)`. */
  function Sum(xs: seq<real>): real
  {
    if |xs| == 0 then 0.0 else xs[0] + Sum(xs[1..])
  }

  /** `compute_average(x)`: 0 for an empty list, `sum(x) / len(x)` otherwise. */
  function Average(xs: seq<real>): (r: real)
    ensures |xs| == 0 ==> r == 0.0
    ensures |xs| > 0 ==> r * (|xs| as real) == Sum(xs)
  {
    if |xs| == 0 then 0.0 else Sum(xs) / (|xs| as real)
  }

  /** `[x for x in xs if x]`: the non-zero numbers of `xs`, in order. */
  function NonZero(xs: seq<real>): (r: seq<real>)
    ensures |r| <= |xs|
  {
    if |xs| == 0 then []
    else (if xs[0] != 0.0 then [xs[0]] else []) + NonZero(xs[1..])
  }

  /** The filter keeps exactly the non-zero elements. */
  lemma {:induction false} NonZeroMembers(xs: seq<real>)
    ensures forall x :: x in NonZero(xs) <==> x in xs && x != 0.0
  {
    if |xs| > 0 {
      NonZeroMembers(xs[1..]);
      assert xs == [xs[0]] + xs[1..];
    }
  }

  /** The filter keeps every non-zero element as often as it occurs, and no zero: so the
      average divides by the number of non-zero elements, repeats included. */
  lemma {:induction false} NonZeroCounts(xs: seq<real>)
    ensures multiset(NonZero(xs)) == multiset(xs)[0.0 := 0]
    ensures |NonZero(xs)| == |xs| - multiset(xs)[0.0]
  {
    if |xs| > 0 {
      NonZeroCounts(xs[1..]);
      assert xs == [xs[0]] + xs[1..];
      assert multiset(xs) == multiset([xs[0]]) + multiset(xs[1..]);
    }
  }

  lemma {:induction false} SumAppend(a: seq<real>, b: seq<real>)
    ensures Sum(a + b) == Sum(a) + Sum(b)
  {
    if |a| > 0 {
      assert (a + b)[1..] == a[1..] + b;
      SumAppend(a[1..], b);
    } else {
      assert a + b == b;
    }
  }

  /** Dropping the zeros does not change the sum. */
  lemma {:induction false} SumNonZero(xs: seq<real>)
    ensures Sum(NonZero(xs)) == Sum(xs)
  {
    if |xs| > 0 {
      SumNonZero(xs[1..]);
      SumAppend(if xs[0] != 0.0 then [xs[0]] else [], NonZero(xs[1..]));
    }
  }

  /** A sum of `|xs|` terms, each within `[lo, hi]`, lies within `[lo * |xs|, hi * |xs|]`. */
  lemma {:induction false} SumBounds(xs: seq<real>, lo: real, hi: real)
    requires forall i :: 0 <= i < |xs| ==> lo <= xs[i] <= hi
    ensures lo * (|xs| as real) <= Sum(xs) <= hi * (|xs| as real)
  {
    if |xs| > 0 {
      SumBounds(xs[1..], lo, hi);
      assert lo * (|xs| as real) == lo + lo * ((|xs| - 1) as real);
      assert hi * (|xs| as real) == hi + hi * ((|xs| - 1) as real);
    }
  }

  /** The average of a non-empty list lies between any lower and upper bound of its
      elements; in particular it lies between their minimum and maximum. */
  lemma AverageWithin(xs: seq<real>, lo: real, hi: real)
    requires |xs| > 0
    requires forall i :: 0 <= i < |xs| ==> lo <= xs[i] <= hi
    ensures lo <= Average(xs) <= hi
  {
    SumBounds(xs, lo, hi);
  }

  /** The average of a list whose elements are all `c` is `c`. */
  lemma AverageOfConstant(xs: seq<real>, c: real)
    requires |xs| > 0
    requires forall i :: 0 <= i < |xs| ==> xs[i] == c
    ensures Average(xs) == c
  {
    AverageWithin(xs, c, c);
  }
}
