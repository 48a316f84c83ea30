/**
 * The middle of the memory peak pipeline (get_mem_usagerate.py): sorting the
 * day's samples by time, `resample('1T').mean().ffill()` onto one value per
 * minute, and the trailing `rolling('<w>T', min_periods=1).sum()` window.
 * Minutes are absolute minute numbers `clock / 60` (floor division, as a
 * minute bin of pandas starts on a whole minute).
 */
module Resampling {
  import opened Series

  // ---------------------------------------------------------------- sorting

  predicate SortedByClock(xs: seq<Sample>) {
    forall i, j | 0 <= i < j < |xs| :: xs[i].clock <= xs[j].clock
  }

  /** Put `x` after every sample of `sorted` whose clock is not later than its own. */
  function InsertByClock(sorted: seq<Sample>, x: Sample): (r: seq<Sample>)
    requires SortedByClock(sorted)
    ensures SortedByClock(r)
    ensures multiset(r) == multiset(sorted) + multiset{x}
  {
    if sorted == [] || sorted[|sorted| - 1].clock <= x.clock then
      assert forall k | 0 <= k < |sorted| :: sorted[k].clock <= sorted[|sorted| - 1].clock;
      SortedAppend(sorted, x);
      sorted + [x]
    else
      var last := sorted[|sorted| - 1];
      var init := sorted[..|sorted| - 1];
      assert sorted == init + [last];
      var rec := InsertByClock(init, x);
      NotLaterThan(init, x, rec, last);
      SortedAppend(rec, last);
      rec + [last]
  }

  /** Appending a sample not earlier than every sample keeps the order. */
  lemma SortedAppend(s: seq<Sample>, x: Sample)
    requires SortedByClock(s)
    requires forall k | 0 <= k < |s| :: s[k].clock <= x.clock
    ensures SortedByClock(s + [x])
  {
    var r := s + [x];
    forall i, j | 0 <= i < j < |r| ensures r[i].clock <= r[j].clock {
      assert r[i] == s[i];
      if j < |s| {
        assert r[j] == s[j];
      }
    }
  }

  lemma NotLaterThan(init: seq<Sample>, x: Sample, rec: seq<Sample>, last: Sample)
    requires forall k | 0 <= k < |init| :: init[k].clock <= last.clock
    requires x.clock <= last.clock
    requires multiset(rec) == multiset(init) + multiset{x}
    ensures forall i | 0 <= i < |rec| :: rec[i].clock <= last.clock
  {
    forall i | 0 <= i < |rec| ensures rec[i].clock <= last.clock {
      assert rec[i] in multiset(rec);
      if rec[i] != x {
        assert rec[i] in init;
      }
    }
  }

  /** `df.sort_values('timestamp')`, modelled as a stable sort. */
  function SortByClock(xs: seq<Sample>): (r: seq<Sample>)
    ensures SortedByClock(r)
    ensures multiset(r) == multiset(xs)
  {
    if xs == [] then []
    else
      assert xs == xs[..|xs| - 1] + [xs[|xs| - 1]];
      InsertByClock(SortByClock(xs[..|xs| - 1]), xs[|xs| - 1])
  }

  // ------------------------------------------------------------- resampling

  function MinuteOf(clock: int): int { clock / 60 }

  /** The minute of the earliest sample. */
  function FirstMinute(xs: seq<Sample>): int
    requires |xs| > 0
  {
    if |xs| == 1 then MinuteOf(xs[0].clock) else Series.Min(MinuteOf(xs[0].clock), FirstMinute(xs[1..]))
  }

  /** The minute of the latest sample. */
  function LastMinute(xs: seq<Sample>): int
    requires |xs| > 0
  {
    if |xs| == 1 then MinuteOf(xs[0].clock) else Series.Max(MinuteOf(xs[0].clock), LastMinute(xs[1..]))
  }

  /** Every sample's minute lies between the first and the last minute, and both are the minutes of samples. */
  lemma {:induction false} MinuteBounds(xs: seq<Sample>)
    requires |xs| > 0
    ensures forall k | 0 <= k < |xs| :: FirstMinute(xs) <= MinuteOf(xs[k].clock) <= LastMinute(xs)
    ensures exists k | 0 <= k < |xs| :: MinuteOf(xs[k].clock) == FirstMinute(xs)
    ensures exists k | 0 <= k < |xs| :: MinuteOf(xs[k].clock) == LastMinute(xs)
  {
    if |xs| > 1 {
      MinuteBounds(xs[1..]);
      assert forall k | 1 <= k < |xs| :: xs[k] == xs[1..][k - 1];
      var i :| 0 <= i < |xs[1..]| && MinuteOf(xs[1..][i].clock) == FirstMinute(xs[1..]);
      var j :| 0 <= j < |xs[1..]| && MinuteOf(xs[1..][j].clock) == LastMinute(xs[1..]);
      assert MinuteOf(xs[i + 1].clock) == FirstMinute(xs[1..]);
      assert MinuteOf(xs[j + 1].clock) == LastMinute(xs[1..]);
    }
  }

  /** The values of the samples that fall in minute `m`, in series order. */
  function Bin(xs: seq<Sample>, m: int): (b: seq<real>) {
    if xs == [] then []
    else
      var rest := Bin(xs[1..], m);
      if MinuteOf(xs[0].clock) == m then [xs[0].value] + rest else rest
  }

  /** A minute's bin is non-empty exactly when some sample falls in that minute. */
  lemma {:induction false} BinNonEmpty(xs: seq<Sample>, m: int)
    ensures |Bin(xs, m)| > 0 <==> exists k | 0 <= k < |xs| :: MinuteOf(xs[k].clock) == m
  {
    if xs != [] {
      BinNonEmpty(xs[1..], m);
      assert forall k | 1 <= k < |xs| :: xs[k] == xs[1..][k - 1];
    }
  }

  /** Minute `first + j` holds at least one sample. */
  predicate Observed(xs: seq<Sample>, first: int, j: int) {
    |Bin(xs, first + j)| > 0
  }

  /** The first `count` resampled minutes from `first` on: a bin's mean, or the previous minute's value. */
  function ResampleFrom(xs: seq<Sample>, first: int, count: nat): (r: seq<real>)
    requires count > 0 ==> Observed(xs, first, 0)
    ensures |r| == count
  {
    if count == 0 then []
    else
      var prev := ResampleFrom(xs, first, count - 1);
      var bin := Bin(xs, first + count - 1);
      prev + [if |bin| > 0 then Mean(bin) else prev[count - 2]]
  }

  /** `df.resample('1T').mean().ffill()`: one value per minute from the first sample's minute to the last's. */
  function Resample(xs: seq<Sample>): (r: seq<real>)
    ensures |r| == if xs == [] then 0 else LastMinute(xs) - FirstMinute(xs) + 1
  {
    if xs == [] then []
    else
      MinuteBounds(xs);
      BinNonEmpty(xs, FirstMinute(xs));
      assert Observed(xs, FirstMinute(xs), 0);
      ResampleFrom(xs, FirstMinute(xs), LastMinute(xs) - FirstMinute(xs) + 1)
  }

  lemma {:induction false} ResampleFromPrefix(xs: seq<Sample>, first: int, count: nat, k: nat)
    requires count > 0 ==> Observed(xs, first, 0)
    requires k < count
    ensures ResampleFrom(xs, first, count)[k] == ResampleFrom(xs, first, k + 1)[k]
  {
    if k + 1 < count {
      ResampleFromPrefix(xs, first, count - 1, k);
    }
  }

  /** The latest minute `j <= k` (counted from `first`) that holds samples. */
  function LastObserved(xs: seq<Sample>, first: int, k: nat): (j: nat)
    requires Observed(xs, first, 0)
    ensures j <= k && Observed(xs, first, j)
    ensures forall m | j < m <= k :: !Observed(xs, first, m)
  {
    if k == 0 || Observed(xs, first, k) then k else LastObserved(xs, first, k - 1)
  }

  /**
   * Forward fill: every resampled minute `k` carries the mean of the samples
   * of the most recent minute, at or before `k`, that holds any.
   */
  lemma {:induction false} ResampleIsLastObservedMean(xs: seq<Sample>, k: nat)
    requires xs != [] && k < |Resample(xs)|
    ensures Observed(xs, FirstMinute(xs), 0)
    ensures Resample(xs)[k] == Mean(Bin(xs, FirstMinute(xs) + LastObserved(xs, FirstMinute(xs), k)))
  {
    var first := FirstMinute(xs);
    MinuteBounds(xs);
    BinNonEmpty(xs, first);
    assert Observed(xs, first, 0);
    ResampleFromAt(xs, first, LastMinute(xs) - first + 1, k);
  }

  lemma {:induction false} ResampleFromAt(xs: seq<Sample>, first: int, count: nat, k: nat)
    requires Observed(xs, first, 0) && k < count
    ensures ResampleFrom(xs, first, count)[k] == Mean(Bin(xs, first + LastObserved(xs, first, k)))
  {
    ResampleFromPrefix(xs, first, count, k);
    var p := ResampleFrom(xs, first, k + 1);
    var bin := Bin(xs, first + k);
    assert p == ResampleFrom(xs, first, k) + [if |bin| > 0 then Mean(bin) else ResampleFrom(xs, first, k)[k - 1]];
    if !Observed(xs, first, k) {
      ResampleFromAt(xs, first, k, k - 1);
    }
  }

  /** The first and last resampled minutes are the minutes of actual samples; every sample falls in the span. */
  lemma ResampleSpan(xs: seq<Sample>)
    requires xs != []
    ensures |Resample(xs)| > 0
    ensures Observed(xs, FirstMinute(xs), 0)
    ensures Observed(xs, FirstMinute(xs), |Resample(xs)| - 1)
    ensures forall k | 0 <= k < |xs| :: 0 <= MinuteOf(xs[k].clock) - FirstMinute(xs) < |Resample(xs)|
  {
    var first := FirstMinute(xs);
    var last := LastMinute(xs);
    var n := |Resample(xs)|;
    MinuteBounds(xs);
    assert n == last - first + 1;
    BinNonEmpty(xs, first);
    BinNonEmpty(xs, last);
    assert Bin(xs, first + (n - 1)) == Bin(xs, last);
    assert Bin(xs, first + 0) == Bin(xs, first);
  }

  // ---------------------------------------------------------- window sums

  /** The trailing sum at point `i`: the last `min(w, i + 1)` values up to and including `r[i]`. */
  function WindowSum(r: seq<real>, w: nat, i: nat): real
    requires w > 0 && i < |r|
  {
    Sum(r[Series.Max(0, i - w + 1)..i + 1])
  }

  /** `rolling('<w>T', min_periods=1).sum()` over a one-minute series: one trailing sum per point. */
  function WindowSums(r: seq<real>, w: nat): (ws: seq<real>)
    requires w > 0
    ensures |ws| == |r|
  {
    WindowSumsUpTo(r, w, |r|)
  }

  /** The trailing sums of the first `n` points. */
  function WindowSumsUpTo(r: seq<real>, w: nat, n: nat): (ws: seq<real>)
    requires w > 0 && n <= |r|
    ensures |ws| == n
  {
    if n == 0 then [] else WindowSumsUpTo(r, w, n - 1) + [WindowSum(r, w, n - 1)]
  }

  lemma {:induction false} WindowSumsUpToAt(r: seq<real>, w: nat, n: nat, i: nat)
    requires w > 0 && i < n <= |r|
    ensures WindowSumsUpTo(r, w, n)[i] == WindowSum(r, w, i)
  {
    if i < n - 1 {
      WindowSumsUpToAt(r, w, n - 1, i);
    }
  }

  lemma WindowSumsAt(r: seq<real>, w: nat, i: nat)
    requires w > 0 && i < |r|
    ensures WindowSums(r, w)[i] == WindowSum(r, w, i)
  {
    WindowSumsUpToAt(r, w, |r|, i);
  }

  /** The sum of the values of a series starting at minute `first` whose minute lies in `(lo, hi]`. */
  function SumOfMinutesIn(r: seq<real>, first: int, lo: int, hi: int): real {
    if r == [] then 0.0
    else
      var t := first + |r| - 1;
      SumOfMinutesIn(r[..|r| - 1], first, lo, hi) + (if lo < t <= hi then r[|r| - 1] else 0.0)
  }

  lemma {:induction false} SumOfMinutesInPrefix(r: seq<real>, first: int, lo: int, hi: int, n: nat)
    requires n <= |r| && first + n - 1 >= hi
    ensures SumOfMinutesIn(r, first, lo, hi) == SumOfMinutesIn(r[..n], first, lo, hi)
  {
    if |r| > n {
      assert r[..|r| - 1][..n] == r[..n];
      SumOfMinutesInPrefix(r[..|r| - 1], first, lo, hi, n);
    } else {
      assert r[..n] == r;
    }
  }

  lemma {:induction false} SumOfMinutesInTail(r: seq<real>, first: int, lo: int, hi: int)
    requires lo <= first + |r| - 1 <= hi && first + |r| - 1 - lo <= |r|
    ensures SumOfMinutesIn(r, first, lo, hi) == Sum(r[|r| - (first + |r| - 1 - lo)..])
  {
    var k := first + |r| - 1 - lo;
    if k > 0 {
      var init := r[..|r| - 1];
      if k - 1 > 0 {
        SumOfMinutesInTail(init, first, lo, hi);
        assert init[|init| - (k - 1)..] + [r[|r| - 1]] == r[|r| - k..];
      } else {
        SumOfMinutesInNone(init, first, lo, hi);
        assert r[|r| - k..] == [r[|r| - 1]];
        assert Sum([r[|r| - 1]]) == Sum([]) + r[|r| - 1];
      }
    } else {
      SumOfMinutesInNone(r, first, lo, hi);
      assert r[|r|..] == [];
    }
  }

  lemma {:induction false} SumOfMinutesInNone(r: seq<real>, first: int, lo: int, hi: int)
    requires first + |r| - 1 <= lo
    ensures SumOfMinutesIn(r, first, lo, hi) == 0.0
  {
    if r != [] {
      SumOfMinutesInNone(r[..|r| - 1], first, lo, hi);
    }
  }

  /**
   * Each window sum is the sum over the pandas offset window `(t - w, t]` in
   * time, `t` being that point's minute (`first + i`).
   */
  lemma WindowSumIsTrailingTimeWindow(r: seq<real>, first: int, w: nat, i: nat)
    requires w > 0 && i < |r|
    ensures WindowSums(r, w)[i] == SumOfMinutesIn(r, first, first + i - w, first + i)
  {
    var t := first + i;
    WindowSumsAt(r, w, i);
    SumOfMinutesInPrefix(r, first, t - w, t, i + 1);
    var p := r[..i + 1];
    if i + 1 >= w {
      SumOfMinutesInTail(p, first, t - w, t);
      assert p[|p| - w..] == r[i - w + 1..i + 1];
    } else {
      SumOfMinutesInTail(p, first, first - 1, t);
      SumOfMinutesWidened(p, first, t - w, first - 1, t);
      assert p[|p| - (i + 1)..] == r[0..i + 1];
    }
  }

  /** Lowering the open lower bound below the series start adds nothing. */
  lemma {:induction false} SumOfMinutesWidened(r: seq<real>, first: int, lo: int, lo': int, hi: int)
    requires lo <= lo' && lo' < first
    ensures SumOfMinutesIn(r, first, lo, hi) == SumOfMinutesIn(r, first, lo', hi)
  {
    if r != [] {
      SumOfMinutesWidened(r[..|r| - 1], first, lo, lo', hi);
    }
  }
}
