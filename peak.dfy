/**
 * The peak report of one host and one day (get_mem_usagerate.py, the body of
 * the `if history:` branch of `process_host`): sort, smooth, resample to one
 * value per minute, sum over a trailing window, then locate the peak; and the
 * data-quality label of the final report.
 *
 * Times are absolute minute numbers (`clock / 60`); a resampled series `r`
 * starts at minute `first`, so `r[j]` is the value of minute `first + j`.
 */
module Peak {
  import opened Series
  import opened Wrappers
  import opened Smoothing
  import opened Resampling

  /** The numeric part of one report row. */
  datatype PeakRecord = PeakRecord(
    peakTime: int,       // minute of the earliest resampled point equal to the peak value
    peakValue: real,     // largest resampled value inside the report window
    windowTotal: real,   // largest trailing-window sum
    windowStart: int,    // minute of that window sum, minus the window size
    windowEnd: int,      // minute of that window sum, plus the window size
    dataPoints: nat)     // number of resampled minutes

  /** `window_sum.idxmax()`, as a position in the resampled series. */
  function PeakIndex(r: seq<real>, w: nat): (idx: nat)
    requires |r| > 0 && w > 0
    ensures idx < |r|
    ensures forall i | 0 <= i < |r| :: WindowSums(r, w)[i] <= WindowSums(r, w)[idx]
    ensures forall i | 0 <= i < idx :: WindowSums(r, w)[i] < WindowSums(r, w)[idx]
  {
    ArgMaxFirst(WindowSums(r, w))
  }

  /** `df_resampled.loc[start:end]`: label slicing keeps both ends, cut to the series. */
  function InWindow(r: seq<real>, first: int, lo: int, hi: int): (v: seq<real>)
    ensures |v| <= |r|
  {
    var a := Max(0, lo - first);
    var b := Min(|r|, hi - first + 1);
    if a < b then r[a..b] else []
  }

  /** `x` is the value of some minute `first + j` of the series that lies in `[lo, hi]`. */
  predicate AtMinuteIn(r: seq<real>, first: int, lo: int, hi: int, x: real) {
    exists j | 0 <= j < |r| && lo <= first + j <= hi :: r[j] == x
  }

  /** A value is in the labelled window exactly when it is `r[j]` for a minute `first + j` in `[lo, hi]`. */
  lemma InWindowIndex(r: seq<real>, first: int, lo: int, hi: int)
    ensures forall j | 0 <= j < |r| && lo <= first + j <= hi :: r[j] in InWindow(r, first, lo, hi)
    ensures forall k | 0 <= k < |InWindow(r, first, lo, hi)| :: AtMinuteIn(r, first, lo, hi, InWindow(r, first, lo, hi)[k])
  {
    var v := InWindow(r, first, lo, hi);
    var a := Max(0, lo - first);
    var b := Min(|r|, hi - first + 1);
    if a < b {
      assert v == r[a..b];
      forall j | 0 <= j < |r| && lo <= first + j <= hi ensures r[j] in v {
        assert a <= j < b;
        assert v[j - a] == r[j];
      }
      forall k | 0 <= k < |v| ensures AtMinuteIn(r, first, lo, hi, v[k]) {
        assert v[k] == r[a + k];
      }
    } else {
      assert v == [];
      assert a >= 0 && a >= lo - first && b <= |r| && b <= hi - first + 1;
    }
  }

  /**
   * Peak derivation from a resampled series: the earliest largest window sum,
   * a report window of `w` minutes on either side of it, the largest value
   * inside that window, and the earliest minute of the WHOLE series holding
   * that value.
   */
  function DerivePeak(r: seq<real>, first: int, w: nat): (p: PeakRecord)
    requires |r| > 0 && w > 0
    ensures p.dataPoints == |r|
    ensures p.windowEnd - p.windowStart == 2 * w
    ensures var idx := p.windowStart + w - first;
      && 0 <= idx < |r|
      && p.windowTotal == WindowSums(r, w)[idx]
      && (forall i | 0 <= i < |r| :: WindowSums(r, w)[i] <= p.windowTotal)
      && (forall i | 0 <= i < idx :: WindowSums(r, w)[i] < p.windowTotal)
    ensures var t := p.peakTime - first;
      0 <= t < |r| && r[t] == p.peakValue && forall j | 0 <= j < t :: r[j] != p.peakValue
  {
    var ws := WindowSums(r, w);
    var idx := PeakIndex(r, w);
    var start := first + idx - w;
    var end := first + idx + w;
    var peakValue := WindowMax(r, first, start, end, idx);
    var t := FirstIndexOf(r, peakValue);
    PeakRecord(first + t, peakValue, ws[idx], start, end, |r|)
  }

  /** The peak value is the largest value of the report window, and it occurs there. */
  lemma PeakValueIsWindowMax(r: seq<real>, first: int, w: nat)
    requires |r| > 0 && w > 0
    ensures var p := DerivePeak(r, first, w);
      && (forall j | 0 <= j < |r| && p.windowStart <= first + j <= p.windowEnd :: r[j] <= p.peakValue)
      && (exists j | 0 <= j < |r| && p.windowStart <= first + j <= p.windowEnd :: r[j] == p.peakValue)
  {
    var p := DerivePeak(r, first, w);
    var idx := PeakIndex(r, w);
    assert p.windowStart == first + idx - w && p.windowEnd == first + idx + w;
    assert p.peakValue == WindowMax(r, first, p.windowStart, p.windowEnd, idx);
  }

  /** `.max()` of the labelled window `[lo, hi]`, which holds position `j0`. */
  function WindowMax(r: seq<real>, first: int, lo: int, hi: int, j0: nat): (m: real)
    requires j0 < |r| && lo <= first + j0 <= hi
    ensures m in r
    ensures forall j | 0 <= j < |r| && lo <= first + j <= hi :: r[j] <= m
    ensures exists j | 0 <= j < |r| && lo <= first + j <= hi :: r[j] == m
  {
    var v := InWindow(r, first, lo, hi);
    InWindowIndex(r, first, lo, hi);
    assert r[j0] in v;
    var m := MaxOf(v);
    assert forall j | 0 <= j < |r| && lo <= first + j <= hi :: r[j] <= m by {
      forall j | 0 <= j < |r| && lo <= first + j <= hi ensures r[j] <= m {
        assert r[j] in v;
      }
    }
    var k :| 0 <= k < |v| && v[k] == m;
    assert AtMinuteIn(r, first, lo, hi, v[k]);
    m
  }

  /** The peak value is at least the value at the peak window's own minute. */
  lemma PeakValueAtLeastAtIndex(r: seq<real>, first: int, w: nat)
    requires |r| > 0 && w > 0
    ensures var p := DerivePeak(r, first, w);
      p.peakValue >= r[p.windowStart + w - first]
  {
    PeakValueIsWindowMax(r, first, w);
  }

  /** The peak time is never later than the first minute inside the window that holds the peak value. */
  lemma PeakTimeNotAfterWindowOccurrence(r: seq<real>, first: int, w: nat, j: nat)
    requires |r| > 0 && w > 0 && j < |r|
    requires var p := DerivePeak(r, first, w);
      p.windowStart <= first + j <= p.windowEnd && r[j] == p.peakValue
    ensures DerivePeak(r, first, w).peakTime <= first + j
  {
  }

  /**
   * The peak time can fall before the report window: the peak value is searched
   * for in the whole series, not in the window. Here the largest window sum of
   * width 2 ends at minute 6, the window is minutes 4..8, and value 3.0 first
   * occurs at minute 0.
   */
  lemma PeakTimeMayPrecedeWindow()
    ensures var p := DerivePeak([3.0, 0.0, 0.0, 0.0, 0.0, 3.0, 3.0], 0, 2);
      p.peakTime < p.windowStart
  {
    var r := [3.0, 0.0, 0.0, 0.0, 0.0, 3.0, 3.0];
    ExampleWindow(r);
    ExamplePeakValue(r);
    var p := DerivePeak(r, 0, 2);
    assert r[0] == p.peakValue;
  }

  lemma ExampleWindow(r: seq<real>)
    requires r == [3.0, 0.0, 0.0, 0.0, 0.0, 3.0, 3.0]
    ensures DerivePeak(r, 0, 2).windowStart == 4 && DerivePeak(r, 0, 2).windowEnd == 8
  {
    ExampleWindowSums(r);
    var p := DerivePeak(r, 0, 2);
    assert p.windowStart + 2 == PeakIndex(r, 2);
    assert PeakIndex(r, 2) == 6;
  }

  lemma ExamplePeakValue(r: seq<real>)
    requires r == [3.0, 0.0, 0.0, 0.0, 0.0, 3.0, 3.0]
    ensures DerivePeak(r, 0, 2).peakValue == 3.0
  {
    ExampleWindow(r);
    PeakValueIsWindowMax(r, 0, 2);
    var p := DerivePeak(r, 0, 2);
    assert r[4] == 0.0 && r[5] == 3.0 && r[6] == 3.0;
    var j :| 0 <= j < |r| && 4 <= j <= 8 && r[j] == p.peakValue;
    assert r[5] <= p.peakValue;
    assert j == 5 || j == 6 || (j == 4 && p.peakValue == 0.0);
  }

  lemma ExampleWindowSums(r: seq<real>)
    requires r == [3.0, 0.0, 0.0, 0.0, 0.0, 3.0, 3.0]
    ensures WindowSums(r, 2)[6] == 6.0
    ensures forall i | 0 <= i < 6 :: WindowSums(r, 2)[i] <= 3.0
  {
    WindowSumsAt(r, 2, 6);
    assert r[5..7] == [3.0, 3.0];
    SumPair(3.0, 3.0);
    forall i | 0 <= i < 6 ensures WindowSums(r, 2)[i] <= 3.0 {
      ExampleWindowSumAt(r, i);
    }
  }

  lemma ExampleWindowSumAt(r: seq<real>, i: nat)
    requires r == [3.0, 0.0, 0.0, 0.0, 0.0, 3.0, 3.0] && i < 6
    ensures WindowSums(r, 2)[i] <= 3.0
  {
    WindowSumsAt(r, 2, i);
    if i == 0 {
      assert r[0..1] == [3.0];
      assert [3.0][..0] == [];
    } else if i < 5 {
      assert r[i - 1..i + 1] == [r[i - 1], r[i]];
      SumPair(r[i - 1], r[i]);
    } else {
      assert r[4..6] == [0.0, 3.0];
      SumPair(0.0, 3.0);
    }
  }

  lemma SumPair(a: real, b: real)
    ensures Sum([a, b]) == a + b
  {
    var xs := [a, b];
    assert xs[..|xs| - 1] == [a];
    assert [a][..0] == [];
    assert Sum([a]) == Sum([]) + a;
    assert Sum(xs) == Sum([a]) + b;
  }

  /** The report window is not cut to the series: a one-minute series still gets a window of 2w minutes. */
  lemma WindowNotClipped(first: int, v: real, w: nat)
    requires w > 0
    ensures var p := DerivePeak([v], first, w);
      p.windowStart == first - w && p.windowEnd == first + w && p.peakTime == first && p.peakValue == v
  {
    var p := DerivePeak([v], first, w);
    assert p.windowStart + w - first == 0;
  }

  // ------------------------------------------------------- one day's report

  /** The samples with their values replaced, clock by clock. */
  function WithValues(xs: seq<Sample>, vs: seq<real>): (ys: seq<Sample>)
    requires |vs| == |xs|
    ensures |ys| == |xs|
    ensures forall k | 0 <= k < |xs| :: ys[k] == Sample(xs[k].clock, vs[k])
  {
    seq(|xs|, k requires 0 <= k < |xs| => Sample(xs[k].clock, vs[k]))
  }

  /** The smoothing window (`window_size=5`) is fixed in the script. */
  const SmoothingWindow: nat := 5

  /** The day's samples, sorted by time and with spikes smoothed. */
  function Prepared(history: seq<Sample>, threshold: real): (ys: seq<Sample>)
    ensures |ys| == |history|
  {
    var sorted := SortByClock(history);
    assert |sorted| == |multiset(sorted)| == |multiset(history)| == |history|;
    var smoothed := Smoothed(Values(sorted), SmoothingWindow, threshold);
    WithValues(sorted, smoothed)
  }

  /**
   * What the `if history:` branch makes of one day's samples: nothing when the
   * query returned no sample, otherwise the peak record of the resampled day.
   */
  function DayPeak(history: seq<Sample>, w: nat, threshold: real): (p: Option<PeakRecord>)
    requires w > 0
    ensures p.None? <==> history == []
  {
    if history == [] then None
    else
      var ys := Prepared(history, threshold);
      Some(DerivePeak(Resample(ys), FirstMinute(ys), w))
  }

  /** Two series with the same samples, in any order, span the same minutes. */
  lemma SameMinuteSpan(a: seq<Sample>, b: seq<Sample>)
    requires |a| > 0 && multiset(a) == multiset(b)
    ensures |b| > 0
    ensures FirstMinute(a) == FirstMinute(b) && LastMinute(a) == LastMinute(b)
  {
    assert |b| == |multiset(b)| == |multiset(a)| == |a|;
    MinuteBounds(a);
    MinuteBounds(b);
    forall k | 0 <= k < |a| ensures a[k] in b {
      assert a[k] in multiset(a);
    }
    forall k | 0 <= k < |b| ensures b[k] in a {
      assert b[k] in multiset(b);
    }
    var i :| 0 <= i < |a| && MinuteOf(a[i].clock) == FirstMinute(a);
    var j :| 0 <= j < |b| && MinuteOf(b[j].clock) == FirstMinute(b);
    var i' :| 0 <= i' < |a| && MinuteOf(a[i'].clock) == LastMinute(a);
    var j' :| 0 <= j' < |b| && MinuteOf(b[j'].clock) == LastMinute(b);
    assert a[i] in b && b[j] in a && a[i'] in b && b[j'] in a;
  }

  /** Replacing values leaves the minute span alone. */
  lemma WithValuesSameSpan(xs: seq<Sample>, vs: seq<real>)
    requires |xs| > 0 && |vs| == |xs|
    ensures FirstMinute(WithValues(xs, vs)) == FirstMinute(xs)
    ensures LastMinute(WithValues(xs, vs)) == LastMinute(xs)
  {
    WithValuesSameFirst(xs, vs);
    WithValuesSameLast(xs, vs);
  }

  lemma WithValuesSameFirst(xs: seq<Sample>, vs: seq<real>)
    requires |xs| > 0 && |vs| == |xs|
    ensures FirstMinute(WithValues(xs, vs)) == FirstMinute(xs)
  {
    var ys := WithValues(xs, vs);
    MinuteBounds(xs);
    MinuteBounds(ys);
    var i :| 0 <= i < |xs| && MinuteOf(xs[i].clock) == FirstMinute(xs);
    var j :| 0 <= j < |ys| && MinuteOf(ys[j].clock) == FirstMinute(ys);
    assert ys[i].clock == xs[i].clock && ys[j].clock == xs[j].clock;
  }

  lemma WithValuesSameLast(xs: seq<Sample>, vs: seq<real>)
    requires |xs| > 0 && |vs| == |xs|
    ensures LastMinute(WithValues(xs, vs)) == LastMinute(xs)
  {
    var ys := WithValues(xs, vs);
    MinuteBounds(xs);
    MinuteBounds(ys);
    var i :| 0 <= i < |xs| && MinuteOf(xs[i].clock) == LastMinute(xs);
    var j :| 0 <= j < |ys| && MinuteOf(ys[j].clock) == LastMinute(ys);
    assert ys[i].clock == xs[i].clock && ys[j].clock == xs[j].clock;
  }

  /**
   * The reported data-point count is the number of minutes from the earliest
   * sample's minute to the latest's, inclusive; smoothing and sorting do not
   * change it.
   */
  lemma DataPointsSpanTheDay(history: seq<Sample>, w: nat, threshold: real)
    requires w > 0 && history != []
    ensures DayPeak(history, w, threshold).Some?
    ensures DayPeak(history, w, threshold).value.dataPoints == LastMinute(history) - FirstMinute(history) + 1
  {
    var sorted := SortByClock(history);
    SameMinuteSpan(history, sorted);
    var smoothed := Smoothed(Values(sorted), SmoothingWindow, threshold);
    SmoothedAt(Values(sorted), SmoothingWindow, threshold, 0);
    WithValuesSameSpan(sorted, smoothed);
  }

  // ----------------------------------------------------------- data quality

  datatype Quality = Low | Medium | High

  /**
   * `pd.cut(count, bins=[0, 100, 200, inf], labels=['低', '中', '高'])`: bins
   * are closed on the right, so a count of 0 falls in no bin.
   */
  function QualityOf(count: nat): (q: Option<Quality>)
    ensures q == None <==> count == 0
    ensures q == Some(Low) <==> 0 < count <= 100
    ensures q == Some(Medium) <==> 100 < count <= 200
    ensures q == Some(High) <==> 200 < count
  {
    if count == 0 then None
    else if count <= 100 then Some(Low)
    else if count <= 200 then Some(Medium)
    else Some(High)
  }

  function Rank(q: Quality): nat {
    match q
    case Low => 0
    case Medium => 1
    case High => 2
  }

  /** More resampled minutes never give a lower quality label. */
  lemma QualityMonotone(a: nat, b: nat)
    requires 0 < a <= b
    ensures QualityOf(a).Some? && QualityOf(b).Some?
    ensures Rank(QualityOf(a).value) <= Rank(QualityOf(b).value)
  {
  }

  /** Every report row gets a label: a day's report always has at least one minute. */
  lemma DayPeakHasQuality(history: seq<Sample>, w: nat, threshold: real)
    requires w > 0 && history != []
    ensures DayPeak(history, w, threshold).Some?
    ensures QualityOf(DayPeak(history, w, threshold).value.dataPoints).Some?
  {
  }
}
