/** Numeric helpers shared by the two peak reports: samples, sums, means, maxima. */
module Series {

  /** One history sample: `clock` in seconds (local time), `value` as a real number. */
  datatype Sample = Sample(clock: int, value: real)

  function Min(a: int, b: int): int { if a <= b then a else b }
  function Max(a: int, b: int): int { if a <= b then b else a }
  function Abs(x: real): real { if x < 0.0 then -x else x }

  function Values(xs: seq<Sample>): (vs: seq<real>)
    ensures |vs| == |xs| && forall k | 0 <= k < |xs| :: vs[k] == xs[k].value
  {
    if xs == [] then [] else [xs[0].value] + Values(xs[1..])
  }

  /** `Series.sum()`. */
  function Sum(xs: seq<real>): real {
    if xs == [] then 0.0 else Sum(xs[..|xs| - 1]) + xs[|xs| - 1]
  }

  lemma {:induction false} SumConcat(a: seq<real>, b: seq<real>)
    ensures Sum(a + b) == Sum(a) + Sum(b)
  {
    if b != [] {
      assert (a + b)[..|a + b| - 1] == a + b[..|b| - 1];
      SumConcat(a, b[..|b| - 1]);
    } else {
      assert a + b == a;
    }
  }

  /** `Series.mean()` of a non-empty series. */
  function Mean(xs: seq<real>): real
    requires |xs| > 0
  {
    Sum(xs) / (|xs| as real)
  }

  /** `max(xs)`: the largest element, which occurs in `xs`. */
  function MaxOf(xs: seq<real>): (m: real)
    requires |xs| > 0
    ensures m in xs
    ensures forall k | 0 <= k < |xs| :: xs[k] <= m
  {
    if |xs| == 1 then xs[0]
    else
      var m := MaxOf(xs[1..]);
      assert forall k | 1 <= k < |xs| :: xs[k] == xs[1..][k - 1];
      if xs[0] < m then m else xs[0]
  }

  /** The first index at which `v` occurs (`index[0]` of a boolean selection in pandas). */
  function FirstIndexOf(xs: seq<real>, v: real): (i: nat)
    requires v in xs
    ensures i < |xs| && xs[i] == v
    ensures forall k | 0 <= k < i :: xs[k] != v
  {
    if xs[0] == v then 0
    else
      assert v in xs[1..];
      var i := FirstIndexOf(xs[1..], v);
      assert forall k | 1 <= k < i + 1 :: xs[k] == xs[1..][k - 1];
      i + 1
  }

  /** `idxmax()`: the earliest position of the largest element. */
  function ArgMaxFirst(xs: seq<real>): (i: nat)
    requires |xs| > 0
    ensures i < |xs|
    ensures forall k | 0 <= k < |xs| :: xs[k] <= xs[i]
    ensures forall k | 0 <= k < i :: xs[k] < xs[i]
  {
    FirstIndexOf(xs, MaxOf(xs))
  }
}
