/**
 * The driver of the memory peak report (get_mem_usagerate.py): host
 * classification by template, the item lookup, the bounded retry of the
 * history query and the per-day loop of `process_host`.
 *
 * Remote answers are parameters: `lookup(key)` is what the item query gives
 * for one key variant, and `calls(itemId, day, attempt)` is what the two
 * history queries of one attempt give for one day. A calendar day is a day
 * index `d`; its local midnight is second `d * 86400`.
 */
module MemUsage {
  import opened Wrappers
  import opened Series
  import opened Text
  import opened Smoothing
  import opened Resampling
  import opened Peak

  // ---------------------------------------------------- host classification

  datatype SystemType = Linux | Windows

  const LinuxTemplate: String := "Envision_Temp_ZBX_Linux_Baseline"
  const WindowsTemplate: String := "Envision_Temp_ZBX_Windows_Baseline"

  /** A monitored host: its id, its name (an IP address) and the names of its parent templates. */
  datatype Host = Host(hostid: String, host: String, templates: seq<String>)

  /** The system type a host's templates select; the Linux template is looked for first. */
  function SystemTypeOf(templates: seq<String>): (t: Option<SystemType>)
    ensures t == Some(Linux) <==> LinuxTemplate in templates
    ensures t == Some(Windows) <==> LinuxTemplate !in templates && WindowsTemplate in templates
    ensures t == None <==> LinuxTemplate !in templates && WindowsTemplate !in templates
  {
    if LinuxTemplate in templates then Some(Linux)
    else if WindowsTemplate in templates then Some(Windows)
    else None
  }

  /** The hosts that carry a baseline template, each with its system type, in host order. */
  function ValidHosts(hosts: seq<Host>): seq<(Host, SystemType)> {
    if hosts == [] then []
    else
      var last := hosts[|hosts| - 1];
      var t := SystemTypeOf(last.templates);
      ValidHosts(hosts[..|hosts| - 1]) + (if t.Some? then [(last, t.value)] else [])
  }

  /** A host is kept, with type `t`, exactly when its templates select `t`. */
  lemma {:induction false} ValidHostsMembers(hosts: seq<Host>, h: Host, t: SystemType)
    ensures (h, t) in ValidHosts(hosts) <==> h in hosts && SystemTypeOf(h.templates) == Some(t)
  {
    if hosts != [] {
      var init := hosts[..|hosts| - 1];
      ValidHostsMembers(init, h, t);
      assert hosts == init + [hosts[|hosts| - 1]];
    }
  }

  /** Hosts are kept in their original order: the kept list is no longer than the input. */
  lemma {:induction false} ValidHostsLength(hosts: seq<Host>)
    ensures |ValidHosts(hosts)| <= |hosts|
  {
    if hosts != [] {
      ValidHostsLength(hosts[..|hosts| - 1]);
    }
  }

  /** The classification loop of `get_cpu_peak_data`. */
  method ClassifyHosts(hosts: seq<Host>) returns (valid: seq<(Host, SystemType)>)
    ensures valid == ValidHosts(hosts)
  {
    valid := [];
    for i := 0 to |hosts|
      invariant valid == ValidHosts(hosts[..i])
    {
      var templates := hosts[i].templates;
      var systemType: Option<SystemType> := None;
      if LinuxTemplate in templates {
        systemType := Some(Linux);
      } else if WindowsTemplate in templates {
        systemType := Some(Windows);
      }
      if systemType.Some? {
        valid := valid + [(hosts[i], systemType.value)];
      }
      assert hosts[..i + 1][..i] == hosts[..i];
    }
    assert hosts[..|hosts|] == hosts;
  }

  // ------------------------------------------------------------ item lookup

  /** The item key tried for each system type. */
  function KeyVariants(t: SystemType): (keys: seq<String>)
    ensures |keys| == 1
  {
    match t
    case Linux => ["vm.memory.utilization"]
    case Windows => ["vm.memory.size[pused]"]
  }

  /** One item query: it raises, or returns the ids of the matching items in order. */
  datatype ItemAnswer = LookupRaises | ItemsFound(itemIds: seq<String>)

  predicate Hit(a: ItemAnswer) {
    a.ItemsFound? && a.itemIds != []
  }

  /** The id of the first item of the first key whose query returns any item. */
  function FirstHit(keys: seq<String>, lookup: String -> ItemAnswer): (r: Option<String>)
    ensures r.None? <==> forall k | 0 <= k < |keys| :: !Hit(lookup(keys[k]))
    ensures r.Some? ==> exists k | 0 <= k < |keys| ::
      && Hit(lookup(keys[k])) && lookup(keys[k]).itemIds[0] == r.value
      && forall k' | 0 <= k' < k :: !Hit(lookup(keys[k']))
  {
    if keys == [] then None
    else if Hit(lookup(keys[0])) then
      Some(lookup(keys[0]).itemIds[0])
    else
      var r := FirstHit(keys[1..], lookup);
      assert forall k | 1 <= k < |keys| :: keys[k] == keys[1..][k - 1];
      if r.Some? then
        var k :| 0 <= k < |keys[1..]| && Hit(lookup(keys[1..][k])) && lookup(keys[1..][k]).itemIds[0] == r.value
          && forall k' | 0 <= k' < k :: !Hit(lookup(keys[1..][k']));
        assert Hit(lookup(keys[k + 1])) && forall k' | 0 <= k' < k + 1 :: !Hit(lookup(keys[k']));
        r
      else r
  }

  /** The key loop of `process_host`: a raising query is skipped, the first hit ends the loop. */
  method FindItem(keys: seq<String>, lookup: String -> ItemAnswer) returns (itemId: Option<String>)
    ensures itemId == FirstHit(keys, lookup)
  {
    itemId := None;
    var i := 0;
    while i < |keys|
      invariant 0 <= i <= |keys|
      invariant FirstHit(keys, lookup) == FirstHit(keys[i..], lookup)
    {
      var answer := lookup(keys[i]);
      if answer.ItemsFound? && answer.itemIds != [] {
        itemId := Some(answer.itemIds[0]);
        return;
      }
      assert keys[i..][1..] == keys[i + 1..];
      i := i + 1;
    }
  }

  // ------------------------------------------------------- bounded retries

  /** One history query: it raises, or returns samples. */
  datatype CallResult = Raises | Returns(history: seq<Sample>)

  /**
   * One attempt: the `history=0` (numeric float) query, then the `history=3`
   * (numeric unsigned) query when the first returned nothing.
   */
  datatype Attempt = Attempt(floatQuery: CallResult, unsignedQuery: CallResult)

  const MaxRetries: nat := 3

  /** The history an attempt yields, `None` when one of its queries raises (lines 119-134). */
  function AttemptOutcome(a: Attempt): (h: Option<seq<Sample>>)
    ensures a.floatQuery.Raises? ==> h.None?
    ensures a.floatQuery.Returns? && a.floatQuery.history != [] ==> h == Some(a.floatQuery.history)
    ensures a.floatQuery == Returns([]) ==>
      h == (if a.unsignedQuery.Returns? then Some(a.unsignedQuery.history) else None)
  {
    match a.floatQuery
    case Raises => None
    case Returns(history) =>
      if history != [] then Some(history)
      else
        match a.unsignedQuery
        case Raises => None
        case Returns(unsigned) => Some(unsigned)
  }

  /** Attempts `start`, `start + 1`, … for one item and one day; the failure of the last one propagates. */
  function Fetch(calls: (String, int, nat) -> Attempt, itemId: String, day: int, start: nat): Result<seq<Sample>, ()>
    decreases MaxRetries - start
  {
    if start >= MaxRetries then Err(())
    else
      match AttemptOutcome(calls(itemId, day, start))
      case Some(h) => Ok(h)
      case None => Fetch(calls, itemId, day, start + 1)
  }

  /** The fetch fails exactly when all three attempts fail. */
  lemma {:induction false} FetchFailsIff(calls: (String, int, nat) -> Attempt, itemId: String, day: int, start: nat)
    requires start <= MaxRetries
    ensures Fetch(calls, itemId, day, start).Err? <==>
      forall a | start <= a < MaxRetries :: AttemptOutcome(calls(itemId, day, a)).None?
    decreases MaxRetries - start
  {
    if start < MaxRetries {
      FetchFailsIff(calls, itemId, day, start + 1);
    }
  }

  /** A successful fetch returns what the first successful attempt returned. */
  lemma {:induction false} FetchFirstSuccess(calls: (String, int, nat) -> Attempt, itemId: String, day: int, a: nat)
    requires a < MaxRetries
    requires AttemptOutcome(calls(itemId, day, a)).Some?
    requires forall b | 0 <= b < a :: AttemptOutcome(calls(itemId, day, b)).None?
    ensures Fetch(calls, itemId, day, 0) == Ok(AttemptOutcome(calls(itemId, day, a)).value)
  {
    FetchFrom(calls, itemId, day, 0, a);
  }

  lemma {:induction false} FetchFrom(calls: (String, int, nat) -> Attempt, itemId: String, day: int, start: nat, a: nat)
    requires start <= a < MaxRetries
    requires AttemptOutcome(calls(itemId, day, a)).Some?
    requires forall b | start <= b < a :: AttemptOutcome(calls(itemId, day, b)).None?
    ensures Fetch(calls, itemId, day, start) == Ok(AttemptOutcome(calls(itemId, day, a)).value)
    decreases a - start
  {
    if start < a {
      FetchFrom(calls, itemId, day, start + 1, a);
    }
  }

  /** The retry loop: at most three attempts, the third failure propagates. */
  method FetchWithRetry(calls: (String, int, nat) -> Attempt, itemId: String, day: int)
    returns (r: Result<seq<Sample>, ()>, tries: nat)
    ensures r == Fetch(calls, itemId, day, 0)
    ensures 1 <= tries <= MaxRetries
    ensures r.Err? ==> tries == MaxRetries
    ensures r.Ok? ==> forall a | 0 <= a < tries - 1 :: AttemptOutcome(calls(itemId, day, a)).None?
  {
    var attempt: nat := 0;
    while true
      invariant attempt < MaxRetries
      invariant Fetch(calls, itemId, day, 0) == Fetch(calls, itemId, day, attempt)
      invariant forall a | 0 <= a < attempt :: AttemptOutcome(calls(itemId, day, a)).None?
      decreases MaxRetries - attempt
    {
      var answer := calls(itemId, day, attempt);
      if answer.floatQuery.Returns? {
        var history := answer.floatQuery.history;
        var failed := false;
        if history == [] {
          if answer.unsignedQuery.Returns? {
            history := answer.unsignedQuery.history;
          } else {
            failed := true;
          }
        }
        if !failed {
          return Ok(history), attempt + 1;
        }
      }
      if attempt == MaxRetries - 1 {
        return Err(()), MaxRetries;
      }
      attempt := attempt + 1;
    }
  }

  // ----------------------------------------------------------- the day loop

  /** One report row before the quality label. */
  datatype DayRow = DayRow(ip: String, systemType: SystemType, day: int, peak: PeakRecord, windowSize: nat)

  /** A window size of at least one minute. */
  type Width = w: nat | w > 0 witness 1

  /** What one day contributes: nothing when the fetch failed or returned no sample. */
  function DayRecord(calls: (String, int, nat) -> Attempt, itemId: String, day: int, w: Width, threshold: real): Option<PeakRecord> {
    match Fetch(calls, itemId, day, 0)
    case Err(_) => None
    case Ok(history) => DayPeak(history, w, threshold)
  }

  /** The per-day records of one item, as a function of the day. */
  function RecordsOf(calls: (String, int, nat) -> Attempt, itemId: String, w: Width, threshold: real): int -> Option<PeakRecord> {
    day => DayRecord(calls, itemId, day, w, threshold)
  }

  /** The row of one day, if its record exists. */
  function DayRows(ip: String, t: SystemType, records: int -> Option<PeakRecord>, day: int, w: Width): (rows: seq<DayRow>)
    ensures |rows| <= 1
    ensures rows == [] <==> records(day).None?
    ensures forall k | 0 <= k < |rows| :: rows[k] == DayRow(ip, t, day, rows[k].peak, w) && records(day) == Some(rows[k].peak)
  {
    match records(day)
    case None => []
    case Some(p) => [DayRow(ip, t, day, p, w)]
  }

  /** The rows of days `fromDay .. toDay`, in day order (built from the last day back). */
  function DaysRecords(ip: String, t: SystemType, records: int -> Option<PeakRecord>,
                       fromDay: int, toDay: int, w: Width): seq<DayRow>
    decreases toDay - fromDay
  {
    if fromDay > toDay then []
    else DaysRecords(ip, t, records, fromDay, toDay - 1, w) + DayRows(ip, t, records, toDay, w)
  }

  /** Each row belongs to one day of `fromDay .. toDay` and carries that day's record. */
  predicate RowsOfDays(rows: seq<DayRow>, ip: String, t: SystemType, records: int -> Option<PeakRecord>,
                       fromDay: int, toDay: int, w: Width) {
    forall k | 0 <= k < |rows| ::
      && fromDay <= rows[k].day <= toDay
      && rows[k] == DayRow(ip, t, rows[k].day, rows[k].peak, w)
      && records(rows[k].day) == Some(rows[k].peak)
  }

  predicate IncreasingDays(rows: seq<DayRow>) {
    forall k, l | 0 <= k < l < |rows| :: rows[k].day < rows[l].day
  }

  predicate ReportsDay(rows: seq<DayRow>, d: int) {
    exists k | 0 <= k < |rows| :: rows[k].day == d
  }

  lemma {:induction false} DaysRecordsRows(ip: String, t: SystemType, records: int -> Option<PeakRecord>,
                                           fromDay: int, toDay: int, w: Width)
    ensures RowsOfDays(DaysRecords(ip, t, records, fromDay, toDay, w), ip, t, records, fromDay, toDay, w)
    decreases toDay - fromDay
  {
    if fromDay <= toDay {
      DaysRecordsRows(ip, t, records, fromDay, toDay - 1, w);
      var before := DaysRecords(ip, t, records, fromDay, toDay - 1, w);
      var today := DayRows(ip, t, records, toDay, w);
      var rows := DaysRecords(ip, t, records, fromDay, toDay, w);
      assert rows == before + today;
      assert forall k | 0 <= k < |before| :: rows[k] == before[k];
      assert forall k | |before| <= k < |rows| :: rows[k] == today[k - |before|];
    }
  }

  /** Days strictly increase along the rows, so no day is reported twice. */
  lemma {:induction false} DaysRecordsIncreasing(ip: String, t: SystemType, records: int -> Option<PeakRecord>,
                                                 fromDay: int, toDay: int, w: Width)
    ensures IncreasingDays(DaysRecords(ip, t, records, fromDay, toDay, w))
    decreases toDay - fromDay
  {
    if fromDay <= toDay {
      DaysRecordsIncreasing(ip, t, records, fromDay, toDay - 1, w);
      DaysRecordsRows(ip, t, records, fromDay, toDay - 1, w);
      var before := DaysRecords(ip, t, records, fromDay, toDay - 1, w);
      var today := DayRows(ip, t, records, toDay, w);
      var rows := DaysRecords(ip, t, records, fromDay, toDay, w);
      assert rows == before + today;
      assert forall k | 0 <= k < |before| :: rows[k] == before[k];
      assert forall k | |before| <= k < |rows| :: rows[k] == today[k - |before|];
    }
  }

  /**
   * Failure isolation: every day of the range whose record exists is reported,
   * whatever happened on the other days.
   */
  lemma {:induction false} DaysRecordsComplete(ip: String, t: SystemType, records: int -> Option<PeakRecord>,
                                               fromDay: int, toDay: int, w: Width, d: int)
    requires fromDay <= d <= toDay && records(d).Some?
    ensures ReportsDay(DaysRecords(ip, t, records, fromDay, toDay, w), d)
    decreases toDay - fromDay
  {
    var before := DaysRecords(ip, t, records, fromDay, toDay - 1, w);
    var today := DayRows(ip, t, records, toDay, w);
    var rows := DaysRecords(ip, t, records, fromDay, toDay, w);
    assert rows == before + today;
    if d == toDay {
      assert rows[|before|] == today[0];
    } else {
      DaysRecordsComplete(ip, t, records, fromDay, toDay - 1, w, d);
      var k :| 0 <= k < |before| && before[k].day == d;
      assert rows[k] == before[k];
    }
  }

  /** No day is visited when the start day is after the end day. */
  lemma EmptyRange(ip: String, t: SystemType, records: int -> Option<PeakRecord>, fromDay: int, toDay: int, w: Width)
    requires fromDay > toDay
    ensures DaysRecords(ip, t, records, fromDay, toDay, w) == []
  {
  }

  /** What `process_host` returns for one classified host. */
  function HostRows(host: Host, t: SystemType, startDay: int, endDay: int, w: Width, threshold: real,
                    lookup: String -> ItemAnswer, calls: (String, int, nat) -> Attempt): seq<DayRow>
  {
    var itemId := FirstHit(KeyVariants(t), lookup);
    if itemId.None? || itemId.value == "" then []
    else DaysRecords(host.host, t, RecordsOf(calls, itemId.value, w, threshold), startDay, endDay, w)
  }

  const SecondsPerDay: int := 86400

  /** The first second of day `d` (local midnight). */
  function Midnight(d: int): int { d * 86400 }

  /** The analysis of one day's samples, with the smoothing done by the array pass. */
  method AnalyzeDay(history: seq<Sample>, w: nat, threshold: real) returns (p: Option<PeakRecord>)
    requires w > 0
    ensures p == DayPeak(history, w, threshold)
  {
    if history == [] {
      return None;
    }
    var sorted := SortByClock(history);
    var values := SmoothSpikes(Values(sorted), SmoothingWindow, threshold);
    var samples := WithValues(sorted, values);
    var resampled := Resample(samples);
    p := Some(DerivePeak(resampled, FirstMinute(samples), w));
  }

  /**
   * `process_host`: the item lookup, then one pass over the days from the start
   * day's midnight to 23:59:59 of the end day. A day whose fetch fails is
   * skipped and the date still advances.
   */
  method ProcessHost(host: Host, t: SystemType, startDay: int, endDay: int, w: Width, threshold: real,
                     lookup: String -> ItemAnswer, calls: (String, int, nat) -> Attempt)
    returns (rows: seq<DayRow>)
    ensures rows == HostRows(host, t, startDay, endDay, w, threshold, lookup, calls)
  {
    var keys := KeyVariants(t);
    var found := FindItem(keys, lookup);
    if found.None? || found.value == "" {
      return [];
    }
    rows := DayLoop(host.host, t, calls, found.value, startDay, endDay, w, threshold,
                    RecordsOf(calls, found.value, w, threshold));
  }

  /** `records` gives, for every day, what the fetch and the analysis of that day yield. */
  ghost predicate Computes(records: int -> Option<PeakRecord>, calls: (String, int, nat) -> Attempt,
                           itemId: String, w: Width, threshold: real) {
    forall d {:trigger DayRecord(calls, itemId, d, w, threshold)} :: records(d) == DayRecord(calls, itemId, d, w, threshold)
  }

  /** The `while current_date <= end_date_dt` loop of `process_host`. */
  method DayLoop(ip: String, t: SystemType, calls: (String, int, nat) -> Attempt, itemId: String,
                 startDay: int, endDay: int, w: Width, threshold: real,
                 ghost records: int -> Option<PeakRecord>) returns (rows: seq<DayRow>)
    requires Computes(records, calls, itemId, w, threshold)
    ensures rows == DaysRecords(ip, t, records, startDay, endDay, w)
  {
    rows := [];
    var current := Midnight(startDay);
    var end := Midnight(endDay) + SecondsPerDay - 1;
    var day := startDay;
    while current <= end
      invariant current == Midnight(day)
      invariant startDay <= day && (day == startDay || day <= endDay + 1)
      invariant rows == DaysRecords(ip, t, records, startDay, day - 1, w)
      decreases end - current
    {
      var dayRows := ProcessDay(ip, t, calls, itemId, day, w, threshold, records);
      rows := rows + dayRows;
      current := current + SecondsPerDay;
      day := day + 1;
    }
    assert day > endDay;
    if startDay > endDay {
      EmptyRange(ip, t, records, startDay, endDay, w);
    } else {
      assert day - 1 == endDay;
    }
  }

  /** The body of the day loop: the fetch with retries, then the analysis; a failed fetch gives no row. */
  method ProcessDay(ip: String, t: SystemType, calls: (String, int, nat) -> Attempt, itemId: String,
                    day: int, w: Width, threshold: real,
                    ghost records: int -> Option<PeakRecord>) returns (rows: seq<DayRow>)
    requires Computes(records, calls, itemId, w, threshold)
    ensures rows == DayRows(ip, t, records, day, w)
  {
    assert records(day) == DayRecord(calls, itemId, day, w, threshold);
    rows := [];
    var fetched, _ := FetchWithRetry(calls, itemId, day);
    if fetched.Ok? {
      var p := AnalyzeDay(fetched.value, w, threshold);
      if p.Some? {
        rows := [DayRow(ip, t, day, p.value, w)];
      }
    }
  }

  // ---------------------------------------------------------- final report

  /** The report table: every row with its data-quality label. */
  function Report(rows: seq<DayRow>): (table: seq<(DayRow, Option<Quality>)>)
    ensures |table| == |rows|
    ensures forall k | 0 <= k < |rows| :: table[k].0 == rows[k] && table[k].1 == QualityOf(rows[k].peak.dataPoints)
  {
    seq(|rows|, k requires 0 <= k < |rows| => (rows[k], QualityOf(rows[k].peak.dataPoints)))
  }

  /** Every row produced by the day loop of a host gets a quality label. */
  lemma ReportHasNoMissingLabel(host: Host, t: SystemType, startDay: int, endDay: int, w: Width, threshold: real,
                                lookup: String -> ItemAnswer, calls: (String, int, nat) -> Attempt)
    ensures var rows := HostRows(host, t, startDay, endDay, w, threshold, lookup, calls);
      forall k | 0 <= k < |rows| :: Report(rows)[k].1.Some?
  {
    var itemId := FirstHit(KeyVariants(t), lookup);
    if itemId.Some? && itemId.value != "" {
      var rows := HostRows(host, t, startDay, endDay, w, threshold, lookup, calls);
      var records := RecordsOf(calls, itemId.value, w, threshold);
      DaysRecordsRows(host.host, t, records, startDay, endDay, w);
      forall k | 0 <= k < |rows| ensures Report(rows)[k].1.Some? {
        var d := rows[k].day;
        assert records(d) == DayRecord(calls, itemId.value, d, w, threshold) == Some(rows[k].peak);
        var f := Fetch(calls, itemId.value, d, 0);
        DataPointsSpanTheDay(f.value, w, threshold);
      }
    }
  }
}
