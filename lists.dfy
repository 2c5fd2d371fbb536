/** The two Python list operations the core relies on, with Python's own semantics:
    `list.index` (first occurrence, or `ValueError`) and slicing `xs[lo:hi]`
    (negative bounds count from the end, bounds are clamped, never an error). */
module Lists {
  import opened Wrappers

  /** `xs.index(x)`: the position of the first occurrence of `x`;
      `None` where Python raises `ValueError`. */
  function IndexOf<T(==)>(xs: seq<T>, x: T): (r: Option<nat>)
    ensures r.None? <==> x !in xs
    ensures r.Some? ==> r.value < |xs| && xs[r.value] == x
    ensures r.Some? ==> forall k :: 0 <= k < r.value ==> xs[k] != x
  {
    if |xs| == 0 then None
    else if xs[0] == x then Some(0)
    else match IndexOf(xs[1..], x)
      case None => None
      case Some(k) => Some(k + 1)
  }

  /** A slice bound as Python resolves it against a list of length `n`. */
  function Bound(i: int, n: nat): (b: nat)
    ensures b <= n
    ensures 0 <= i <= n ==> b == i
    ensures i < 0 && 0 <= i + n ==> b == i + n
  {
    if i < 0 then (if i + n < 0 then 0 else i + n)
    else if i > n then n
    else i
  }

  /** `xs[lo:hi]`. */
  function Slice<T>(xs: seq<T>, lo: int, hi: int): (r: seq<T>)
    ensures var b, e := Bound(lo, |xs|), Bound(hi, |xs|);
            |r| == (if b < e then e - b else 0) &&
            forall k :: 0 <= k < |r| ==> r[k] == xs[b + k]
    ensures 0 <= lo <= hi <= |xs| ==> r == xs[lo..hi]
  {
    var b, e := Bound(lo, |xs|), Bound(hi, |xs|);
    if b < e then xs[b..e] else []
  }

  /** `xs[lo:]`. */
  function SliceFrom<T>(xs: seq<T>, lo: int): (r: seq<T>)
    ensures 0 <= lo <= |xs| ==> r == xs[lo..]
    ensures lo >= |xs| ==> r == []
  {
    Slice(xs, lo, |xs|)
  }
}
