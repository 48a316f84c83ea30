/**
 * `smooth_spikes` of get_mem_usagerate.py: one left-to-right pass over a copy
 * of the series. A point is an isolated spike when it differs by strictly more
 * than `threshold` from the mean of the (already smoothed) points before it and
 * from the mean of the points after it; such a point is replaced by the mean
 * of its two immediate neighbours.
 */
module Smoothing {
  import opened Series

  /** `smoothed.iloc[max(0, i - w):i]`: up to `w` points before `i`, as they are at step `i`. */
  function PrevWindow(t: seq<real>, i: nat, w: nat): seq<real>
    requires i < |t|
  {
    t[Max(0, i - w)..i]
  }

  /** `smoothed.iloc[i + 1:min(n, i + w + 1)]`: up to `w` points after `i`. */
  function NextWindow(t: seq<real>, i: nat, w: nat): seq<real>
    requires i < |t|
  {
    t[i + 1..Min(|t|, i + w + 1)]
  }

  /** The test at step `i`: both windows non-empty and both means farther than `threshold`. */
  predicate IsSpike(t: seq<real>, i: nat, w: nat, threshold: real)
    requires i < |t|
    ensures IsSpike(t, i, w, threshold) ==> 0 < i < |t| - 1
  {
    var prev := PrevWindow(t, i, w);
    var next := NextWindow(t, i, w);
    && |prev| > 0 && |next| > 0
    && Abs(t[i] - Mean(prev)) > threshold
    && Abs(t[i] - Mean(next)) > threshold
  }

  /** Step `i` of the pass: replace a spike by the mean of its two neighbours. */
  function Step(t: seq<real>, i: nat, w: nat, threshold: real): (r: seq<real>)
    requires i < |t|
    ensures |r| == |t|
    ensures forall j | 0 <= j < |t| && j != i :: r[j] == t[j]
  {
    if IsSpike(t, i, w, threshold) then t[i := (t[i - 1] + t[i + 1]) / 2.0] else t
  }

  /** The working copy after steps `0 .. k - 1`. */
  function SmoothUpTo(s: seq<real>, k: nat, w: nat, threshold: real): (r: seq<real>)
    requires k <= |s|
    ensures |r| == |s|
  {
    if k == 0 then s else Step(SmoothUpTo(s, k - 1, w, threshold), k - 1, w, threshold)
  }

  /** What `smooth_spikes(series, w, threshold)` returns. */
  function Smoothed(s: seq<real>, w: nat, threshold: real): (r: seq<real>)
    ensures |r| == |s|
  {
    SmoothUpTo(s, |s|, w, threshold)
  }

  /** Step `i` touches only index `i`: the points from `k` on are still the input's after `k` steps. */
  lemma {:induction false} NotYetVisited(s: seq<real>, k: nat, w: nat, threshold: real, j: nat)
    requires k <= j < |s|
    ensures SmoothUpTo(s, k, w, threshold)[j] == s[j]
  {
    if k > 0 {
      NotYetVisited(s, k - 1, w, threshold, j);
    }
  }

  /** Once step `j` is done, later steps never change index `j` again. */
  lemma {:induction false} Settled(s: seq<real>, k: nat, w: nat, threshold: real, j: nat)
    requires j < k <= |s|
    ensures SmoothUpTo(s, k, w, threshold)[j] == SmoothUpTo(s, j + 1, w, threshold)[j]
  {
    if k > j + 1 {
      Settled(s, k - 1, w, threshold, j);
    }
  }

  /** After `k` steps the working copy is the result's first `k` points followed by the untouched input. */
  lemma {:induction false} WorkingCopy(s: seq<real>, k: nat, w: nat, threshold: real)
    requires k <= |s|
    ensures SmoothUpTo(s, k, w, threshold) == Smoothed(s, w, threshold)[..k] + s[k..]
  {
    var t := SmoothUpTo(s, k, w, threshold);
    var r := Smoothed(s, w, threshold);
    forall j | 0 <= j < |s| ensures t[j] == (r[..k] + s[k..])[j] {
      if j < k {
        Settled(s, k, w, threshold, j);
        Settled(s, |s|, w, threshold, j);
      } else {
        NotYetVisited(s, k, w, threshold, j);
      }
    }
  }

  /**
   * The replacement rule, stated on the result `r` alone: point `i` of `r` is
   * the input point unless the spike test, run on the smoothed points before
   * `i` and the input points from `i` on, fires; then it is the mean of the
   * already smoothed left neighbour and the untouched right neighbour.
   */
  lemma SmoothedAt(s: seq<real>, w: nat, threshold: real, i: nat)
    requires i < |s|
    ensures var r := Smoothed(s, w, threshold);
      |r| == |s| &&
      var t := r[..i] + s[i..];
      r[i] == if IsSpike(t, i, w, threshold) then (r[i - 1] + s[i + 1]) / 2.0 else s[i]
  {
    var r := Smoothed(s, w, threshold);
    WorkingCopy(s, i, w, threshold);
    Settled(s, |s|, w, threshold, i);
    var t := r[..i] + s[i..];
    assert SmoothUpTo(s, i + 1, w, threshold) == Step(t, i, w, threshold);
    if IsSpike(t, i, w, threshold) {
      assert t[i - 1] == r[i - 1] && t[i + 1] == s[i + 1];
    } else {
      assert t[i] == s[i];
    }
  }

  /** The first and last points are never changed: one of their windows is always empty. */
  lemma SmoothedKeepsEnds(s: seq<real>, w: nat, threshold: real)
    requires |s| > 0
    ensures var r := Smoothed(s, w, threshold);
      |r| == |s| && r[0] == s[0] && r[|s| - 1] == s[|s| - 1]
  {
    SmoothedAt(s, w, threshold, 0);
    SmoothedAt(s, w, threshold, |s| - 1);
  }

  /** A series of at most two points comes back unchanged. */
  lemma SmoothedShortUnchanged(s: seq<real>, w: nat, threshold: real)
    requires |s| <= 2
    ensures Smoothed(s, w, threshold) == s
  {
    if |s| > 0 {
      SmoothedKeepsEnds(s, w, threshold);
    }
  }

  /** A changed point was a spike and now lies between its two neighbours. */
  lemma ChangedOnlyBetweenNeighbours(s: seq<real>, w: nat, threshold: real, i: nat)
    requires i < |s|
    requires Smoothed(s, w, threshold)[i] != s[i]
    ensures 0 < i < |s| - 1
    ensures var r := Smoothed(s, w, threshold);
      IsSpike(r[..i] + s[i..], i, w, threshold) &&
      (r[i - 1] <= r[i] <= s[i + 1] || s[i + 1] <= r[i] <= r[i - 1])
  {
    SmoothedAt(s, w, threshold, i);
  }

  /**
   * The loop of `smooth_spikes`, run on an array copy of the series.
   */
  method SmoothSpikes(series: seq<real>, windowSize: nat, threshold: real) returns (smoothed: seq<real>)
    ensures smoothed == Smoothed(series, windowSize, threshold)
    ensures |smoothed| == |series|
  {
    var n := |series|;
    var a := new real[n](k requires 0 <= k < n => series[k]);
    assert a[..] == series;
    for i := 0 to n
      invariant a[..] == SmoothUpTo(series, i, windowSize, threshold)
    {
      SmoothPoint(a, i, windowSize, threshold);
    }
    smoothed := a[..];
  }

  /**
   * One iteration of that loop. The two edge branches of the replacement
   * (`i == 0`, `i == n - 1`) cannot be reached, because the window test
   * already skips both ends.
   */
  method SmoothPoint(a: array<real>, i: nat, windowSize: nat, threshold: real)
    requires i < a.Length
    modifies a
    ensures a[..] == Step(old(a[..]), i, windowSize, threshold)
  {
    ghost var t := a[..];
    var n := a.Length;
    var current := a[i];
    var startPrev := Max(0, i - windowSize);
    var prevPoints := a[startPrev..i];
    var endNext := Min(n, i + windowSize + 1);
    var nextPoints := a[i + 1..endNext];
    assert prevPoints == PrevWindow(t, i, windowSize) && nextPoints == NextWindow(t, i, windowSize);
    if |prevPoints| == 0 || |nextPoints| == 0 {
      return;
    }
    var prevAvg := Mean(prevPoints);
    var nextAvg := Mean(nextPoints);
    if Abs(current - prevAvg) > threshold && Abs(current - nextAvg) > threshold {
      if 0 < i < n - 1 {
        a[i] := (a[i - 1] + a[i + 1]) / 2.0;
      } else {
        assert false;
      }
    }
  }
}
