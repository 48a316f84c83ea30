/**
 * `get_daily_disk_peak` of get_hosts_disk_day.py: collect the hosts of three
 * templates (first occurrence of a host id wins), find each host's disk items
 * by key, take the daily maximum of every mount's usage history, and sort and
 * de-duplicate the report rows.
 *
 * Remote answers are inputs: `search` answers a template search, `itemsOf` a
 * host's item query, `usageOf` and `sizeOf` the two history queries of an item
 * (over the report's fixed time range). `None` stands for a call that raised.
 */
module DiskPeak {
  import opened Wrappers
  import opened Text
  import opened Dict
  import opened Series
  import opened DiskKey

  const DiskTemplates: seq<String> := [
    "Envision_Temp_ZBX_Windows_Baseline",
    "Envision_Temp_ZBX_Linux_Baseline",
    "Envision_Temp_ZBX_Windows_Baseline_active"]

  const SecondsPerDay: int := 86400
  const BytesPerGB: real := 1073741824.0

  /** One row of a template search: host id and IP address. */
  datatype TemplateHost = TemplateHost(hostId: String, ip: String)

  /** One item of a host: item id and key. */
  datatype Item = Item(itemId: String, key: String)

  /** An entry of `host_map`: the IP and the two mount-to-item dictionaries. */
  datatype HostEntry = HostEntry(ip: String, items: Dict<String, String>, total: Dict<String, String>)

  /** One report row; `size == None` is the "N/A" cell. */
  datatype DiskRow = DiskRow(ip: String, day: int, mount: String, peak: real, size: Option<real>)

  // -------------------------------------------------------------- host map

  /** The hosts a template search returned; a search that raised contributes none. */
  function HostsOf(answer: Option<seq<TemplateHost>>): seq<TemplateHost> {
    match answer
    case None => []
    case Some(hosts) => hosts
  }

  /** All hosts returned by the searches of `templates`, in search order. */
  function AnsweredHosts(search: String -> Option<seq<TemplateHost>>, templates: seq<String>): seq<TemplateHost> {
    if templates == [] then []
    else AnsweredHosts(search, templates[..|templates| - 1]) + HostsOf(search(templates[|templates| - 1]))
  }

  /** `if host_id not in host_map: host_map[host_id] = ...`. */
  function AddHost(m: Dict<String, String>, h: TemplateHost): Dict<String, String> {
    if h.hostId in Keys(m) then m else m + [(h.hostId, h.ip)]
  }

  function AddHosts(m: Dict<String, String>, hosts: seq<TemplateHost>): Dict<String, String>
    decreases |hosts|
  {
    if hosts == [] then m else AddHosts(AddHost(m, hosts[0]), hosts[1..])
  }

  /** The IP of the first host with id `id`. */
  function FirstIp(hosts: seq<TemplateHost>, id: String): (r: Option<String>)
    ensures r.None? <==> forall k | 0 <= k < |hosts| :: hosts[k].hostId != id
    ensures r.Some? ==> exists k | 0 <= k < |hosts| :: hosts[k] == TemplateHost(id, r.value)
                          && forall j | 0 <= j < k :: hosts[j].hostId != id
  {
    if hosts == [] then None
    else if hosts[0].hostId == id then Some(hosts[0].ip)
    else
      var r := FirstIp(hosts[1..], id);
      assert forall k | 1 <= k < |hosts| :: hosts[k] == hosts[1..][k - 1];
      assert r.Some? ==> exists k | 0 <= k < |hosts| :: hosts[k] == TemplateHost(id, r.value)
                           && forall j | 0 <= j < k :: hosts[j].hostId != id by {
        if r.Some? {
          var k :| 0 <= k < |hosts[1..]| && hosts[1..][k] == TemplateHost(id, r.value)
                   && forall j | 0 <= j < k :: hosts[1..][j].hostId != id;
          assert hosts[k + 1] == TemplateHost(id, r.value);
          assert forall j | 1 <= j < k + 1 :: hosts[j].hostId != id;
        }
      }
      r
  }

  lemma GetAppend(m: Dict<String, String>, k: String, v: String, k': String)
    requires k !in Keys(m)
    ensures Get(m + [(k, v)], k') == if Get(m, k').Some? then Get(m, k') else if k' == k then Some(v) else None
  {
    PutGet(m, k, v, k');
    PutAppends(m, k, v);
  }

  /** First wins: the host map gives each id the IP of its first occurrence, and nothing else. */
  lemma {:induction false} AddHostsGet(m: Dict<String, String>, hosts: seq<TemplateHost>, id: String)
    ensures Get(AddHosts(m, hosts), id) == if Get(m, id).Some? then Get(m, id) else FirstIp(hosts, id)
    decreases |hosts|
  {
    if hosts != [] {
      var h := hosts[0];
      var m' := AddHost(m, h);
      if h.hostId !in Keys(m) {
        GetAppend(m, h.hostId, h.ip, id);
      }
      AddHostsGet(m', hosts[1..], id);
    }
  }

  lemma {:induction false} AddHostsDistinct(m: Dict<String, String>, hosts: seq<TemplateHost>)
    requires DistinctKeys(m)
    ensures DistinctKeys(AddHosts(m, hosts))
    decreases |hosts|
  {
    if hosts != [] {
      var h := hosts[0];
      if h.hostId !in Keys(m) {
        PutAppends(m, h.hostId, h.ip);
        PutDistinct(m, h.hostId, h.ip);
      }
      AddHostsDistinct(AddHost(m, h), hosts[1..]);
    }
  }

  lemma {:induction false} AddHostsConcat(m: Dict<String, String>, a: seq<TemplateHost>, b: seq<TemplateHost>)
    ensures AddHosts(m, a + b) == AddHosts(AddHosts(m, a), b)
    decreases |a|
  {
    if a != [] {
      assert (a + b)[1..] == a[1..] + b;
      AddHostsConcat(AddHost(m, a[0]), a[1..], b);
    } else {
      assert a + b == b;
    }
  }

  function HostMapOf(search: String -> Option<seq<TemplateHost>>): Dict<String, String> {
    AddHosts([], AnsweredHosts(search, DiskTemplates))
  }

  /** The host map: distinct ids, each with the IP of its first occurrence over the three searches. */
  lemma HostMapFirstWins(search: String -> Option<seq<TemplateHost>>, id: String)
    ensures DistinctKeys(HostMapOf(search))
    ensures Get(HostMapOf(search), id) == FirstIp(AnsweredHosts(search, DiskTemplates), id)
  {
    AddHostsDistinct([], AnsweredHosts(search, DiskTemplates));
    AddHostsGet([], AnsweredHosts(search, DiskTemplates), id);
  }

  /** The loop over the templates (lines 26-36). */
  method BuildHostMap(search: String -> Option<seq<TemplateHost>>) returns (hostMap: Dict<String, String>)
    ensures hostMap == HostMapOf(search)
  {
    hostMap := [];
    for t := 0 to |DiskTemplates|
      invariant hostMap == AddHosts([], AnsweredHosts(search, DiskTemplates[..t]))
    {
      var template := DiskTemplates[t];
      assert DiskTemplates[..t + 1][..t] == DiskTemplates[..t];
      AddHostsConcat([], AnsweredHosts(search, DiskTemplates[..t]), HostsOf(search(template)));
      var answer := search(template);
      if answer.Some? {
        hostMap := AddTemplateHosts(hostMap, answer.value);
      }
    }
    assert DiskTemplates[..|DiskTemplates|] == DiskTemplates;
  }

  /** The loop over one template's hosts (lines 30-34). */
  method AddTemplateHosts(m: Dict<String, String>, hosts: seq<TemplateHost>) returns (hostMap: Dict<String, String>)
    ensures hostMap == AddHosts(m, hosts)
  {
    hostMap := m;
    for i := 0 to |hosts|
      invariant hostMap == AddHosts(m, hosts[..i])
    {
      var host := hosts[i];
      AddHostsConcat(m, hosts[..i], [host]);
      assert hosts[..i + 1] == hosts[..i] + [host];
      if host.hostId !in Keys(hostMap) {
        hostMap := hostMap + [(host.hostId, host.ip)];
      }
    }
    assert hosts[..|hosts|] == hosts;
  }

  // ------------------------------------------------------------------ items

  /** The dictionary of mount to item id for metric `m`: a later item of the same mount overwrites. */
  function MetricItems(items: seq<Item>, m: Metric): Dict<String, String> {
    if items == [] then []
    else
      var d := MetricItems(items[..|items| - 1], m);
      var last := items[|items| - 1];
      match ParseKey(last.key)
      case Some((mount, metric)) => if metric == m then Put(d, mount, last.itemId) else d
      case None => d
  }

  /** The key of `item` parses to `mount` and `m`. */
  predicate KeyFor(item: Item, mount: String, m: Metric) {
    ParseKey(item.key) == Some((mount, m))
  }

  /** The id of the last item whose key parses to `mount` and `m`. */
  function LastItemFor(items: seq<Item>, mount: String, m: Metric): Option<String> {
    if items == [] then None
    else if KeyFor(items[|items| - 1], mount, m) then Some(items[|items| - 1].itemId)
    else LastItemFor(items[..|items| - 1], mount, m)
  }

  /** `LastItemFor` is absent exactly when no item matches, and otherwise names the last match. */
  lemma LastItemForSpec(items: seq<Item>, mount: String, m: Metric)
    ensures LastItemFor(items, mount, m).None? <==> forall k | 0 <= k < |items| :: !KeyFor(items[k], mount, m)
    ensures LastItemFor(items, mount, m).Some? ==>
      exists k | 0 <= k < |items| :: LastMatch(items, mount, m, k) && items[k].itemId == LastItemFor(items, mount, m).value
  {
    LastItemForNone(items, mount, m);
    LastItemForSome(items, mount, m);
  }

  lemma {:induction false} LastItemForNone(items: seq<Item>, mount: String, m: Metric)
    ensures LastItemFor(items, mount, m).None? <==> forall k | 0 <= k < |items| :: !KeyFor(items[k], mount, m)
  {
    if items != [] {
      var n := |items| - 1;
      if !KeyFor(items[n], mount, m) {
        var init := items[..n];
        LastItemForNone(init, mount, m);
        assert forall k | 0 <= k < n :: items[k] == init[k];
      }
    }
  }

  lemma {:induction false} LastItemForSome(items: seq<Item>, mount: String, m: Metric)
    ensures LastItemFor(items, mount, m).Some? ==>
      exists k | 0 <= k < |items| :: LastMatch(items, mount, m, k) && items[k].itemId == LastItemFor(items, mount, m).value
  {
    if items != [] {
      var n := |items| - 1;
      if KeyFor(items[n], mount, m) {
        assert LastMatch(items, mount, m, n);
      } else {
        var init := items[..n];
        LastItemForSome(init, mount, m);
        var r := LastItemFor(init, mount, m);
        if r.Some? {
          var k :| 0 <= k < n && LastMatch(init, mount, m, k) && init[k].itemId == r.value;
          assert forall j | k < j < n :: items[j] == init[j];
          assert items[k] == init[k];
          assert LastMatch(items, mount, m, k);
        }
      }
    }
  }

  /** Item `k` matches and no later item does. */
  predicate LastMatch(items: seq<Item>, mount: String, m: Metric, k: nat) {
    && k < |items|
    && KeyFor(items[k], mount, m)
    && forall j | k < j < |items| :: !KeyFor(items[j], mount, m)
  }

  /** Looking a mount up in the metric dictionary finds the last matching item. */
  lemma {:induction false} MetricItemsGet(items: seq<Item>, m: Metric, mount: String)
    ensures Get(MetricItems(items, m), mount) == LastItemFor(items, mount, m)
  {
    if items != [] {
      var init := items[..|items| - 1];
      var last := items[|items| - 1];
      MetricItemsGet(init, m, mount);
      match ParseKey(last.key)
      case Some((mnt, metric)) =>
        if metric == m {
          PutGet(MetricItems(init, m), mnt, last.itemId, mount);
        }
      case None =>
    }
  }

  lemma {:induction false} MetricItemsDistinct(items: seq<Item>, m: Metric)
    ensures DistinctKeys(MetricItems(items, m))
  {
    if items != [] {
      var init := items[..|items| - 1];
      var last := items[|items| - 1];
      MetricItemsDistinct(init, m);
      match ParseKey(last.key)
      case Some((mnt, metric)) =>
        if metric == m {
          PutDistinct(MetricItems(init, m), mnt, last.itemId);
        }
      case None =>
    }
  }

  /** A mount is a key of the metric dictionary exactly when some item's key parses to it with that metric. */
  lemma MetricItemsKeys(items: seq<Item>, m: Metric, mount: String)
    ensures mount in Keys(MetricItems(items, m)) <==> exists k | 0 <= k < |items| :: KeyFor(items[k], mount, m)
  {
    MetricItemsGet(items, m, mount);
    LastItemForSpec(items, mount, m);
  }

  /** The loop over a host's items (lines 45-49). */
  method CollectItems(items: seq<Item>) returns (pused: Dict<String, String>, total: Dict<String, String>)
    ensures pused == MetricItems(items, Pused) && total == MetricItems(items, Total)
  {
    pused, total := [], [];
    for i := 0 to |items|
      invariant pused == MetricItems(items[..i], Pused) && total == MetricItems(items[..i], Total)
    {
      var item := items[i];
      assert items[..i + 1][..i] == items[..i] && items[..i + 1][i] == item;
      var parsed := ParseKey(item.key);
      if parsed.Some? {
        var (mount, metric) := parsed.value;
        if metric == Pused {
          pused := Put(pused, mount, item.itemId);
        } else if metric == Total {
          total := Put(total, mount, item.itemId);
        }
      }
    }
    assert items[..|items|] == items;
  }

  /** A host's entry once its items are known; an item query that raised leaves both dictionaries empty. */
  function EntryOf(ip: String, answer: Option<seq<Item>>): HostEntry {
    match answer
    case None => HostEntry(ip, [], [])
    case Some(items) => HostEntry(ip, MetricItems(items, Pused), MetricItems(items, Total))
  }

  function EntriesOf(hostMap: Dict<String, String>, itemsOf: String -> Option<seq<Item>>): (es: seq<(String, HostEntry)>)
    ensures |es| == |hostMap|
    ensures forall k | 0 <= k < |es| :: es[k] == (hostMap[k].0, EntryOf(hostMap[k].1, itemsOf(hostMap[k].0)))
  {
    if hostMap == [] then []
    else
      var last := hostMap[|hostMap| - 1];
      EntriesOf(hostMap[..|hostMap| - 1], itemsOf) + [(last.0, EntryOf(last.1, itemsOf(last.0)))]
  }

  /** The loop over `host_map` that fills each entry's dictionaries (lines 39-52). */
  method FillItems(hostMap: Dict<String, String>, itemsOf: String -> Option<seq<Item>>)
    returns (hosts: seq<(String, HostEntry)>)
    ensures hosts == EntriesOf(hostMap, itemsOf)
  {
    hosts := [];
    for i := 0 to |hostMap|
      invariant hosts == EntriesOf(hostMap[..i], itemsOf)
    {
      var (hostId, ip) := hostMap[i];
      assert hostMap[..i + 1][..i] == hostMap[..i];
      var answer := itemsOf(hostId);
      var entry := HostEntry(ip, [], []);
      if answer.Some? {
        var pused, total := CollectItems(answer.value);
        entry := HostEntry(ip, pused, total);
      }
      hosts := hosts + [(hostId, entry)];
    }
    assert hostMap[..|hostMap|] == hostMap;
  }

  // -------------------------------------------------------------- daily max

  /** The UTC day of a timestamp (`%Y%m%d` of the UTC date orders like this day number). */
  function DayOf(clock: int): int { clock / SecondsPerDay }

  /** The values of the samples of day `d`, in sample order. */
  function DayValues(h: seq<Sample>, d: int): (vs: seq<real>)
    ensures |vs| <= |h|
  {
    if h == [] then []
    else DayValues(h[..|h| - 1], d) + (if DayOf(h[|h| - 1].clock) == d then [h[|h| - 1].value] else [])
  }

  lemma {:induction false} DayValuesMembers(h: seq<Sample>, d: int)
    ensures forall k | 0 <= k < |h| && DayOf(h[k].clock) == d :: h[k].value in DayValues(h, d)
    ensures forall v | v in DayValues(h, d) :: exists k | 0 <= k < |h| :: DayOf(h[k].clock) == d && h[k].value == v
  {
    if h != [] {
      var init := h[..|h| - 1];
      DayValuesMembers(init, d);
      assert forall k | 0 <= k < |init| :: h[k] == init[k];
    }
  }

  function MinDay(h: seq<Sample>): int
    requires |h| > 0
  {
    if |h| == 1 then DayOf(h[0].clock) else Series.Min(DayOf(h[0].clock), MinDay(h[1..]))
  }

  function MaxDay(h: seq<Sample>): int
    requires |h| > 0
  {
    if |h| == 1 then DayOf(h[0].clock) else Series.Max(DayOf(h[0].clock), MaxDay(h[1..]))
  }

  lemma {:induction false} DayBounds(h: seq<Sample>)
    requires |h| > 0
    ensures forall k | 0 <= k < |h| :: MinDay(h) <= DayOf(h[k].clock) <= MaxDay(h)
  {
    if |h| > 1 {
      DayBounds(h[1..]);
      assert forall k | 1 <= k < |h| :: h[k] == h[1..][k - 1];
    }
  }

  /** The daily maxima of days `d .. d + n - 1`, skipping days without samples. */
  function DailyMaxFrom(h: seq<Sample>, d: int, n: nat): seq<(int, real)>
    decreases n
  {
    if n == 0 then []
    else
      var vs := DayValues(h, d);
      (if vs != [] then [(d, MaxOf(vs))] else []) + DailyMaxFrom(h, d + 1, n - 1)
  }

  /** `df.groupby('date')['value'].max()`: one (day, maximum) pair per day with samples, in day order. */
  function DailyMax(h: seq<Sample>): seq<(int, real)> {
    if h == [] then [] else DailyMaxFrom(h, MinDay(h), MaxDay(h) - MinDay(h) + 1)
  }

  /** Each pair is a day of `[lo, hi]` with samples and carries the largest value of that day. */
  predicate DailyRows(h: seq<Sample>, rows: seq<(int, real)>, lo: int, hi: int) {
    forall k | 0 <= k < |rows| ::
      && lo <= rows[k].0 <= hi
      && DayValues(h, rows[k].0) != []
      && rows[k].1 == MaxOf(DayValues(h, rows[k].0))
  }

  predicate IncreasingDays(rows: seq<(int, real)>) {
    forall k, l | 0 <= k < l < |rows| :: rows[k].0 < rows[l].0
  }

  lemma {:induction false} DailyMaxFromRows(h: seq<Sample>, d: int, n: nat)
    ensures DailyRows(h, DailyMaxFrom(h, d, n), d, d + n - 1)
    decreases n
  {
    if n > 0 {
      DailyMaxFromRows(h, d + 1, n - 1);
      var vs := DayValues(h, d);
      var head := if vs != [] then [(d, MaxOf(vs))] else [];
      var rest := DailyMaxFrom(h, d + 1, n - 1);
      assert DailyMaxFrom(h, d, n) == head + rest;
      DailyRowsConcat(h, head, rest, d, d + n - 1);
    }
  }

  lemma DailyRowsConcat(h: seq<Sample>, a: seq<(int, real)>, b: seq<(int, real)>, lo: int, hi: int)
    requires DailyRows(h, a, lo, hi) && DailyRows(h, b, lo, hi)
    ensures DailyRows(h, a + b, lo, hi)
  {
    var r := a + b;
    forall k | 0 <= k < |r|
      ensures lo <= r[k].0 <= hi && DayValues(h, r[k].0) != [] && r[k].1 == MaxOf(DayValues(h, r[k].0))
    {
      if k < |a| {
        assert r[k] == a[k];
      } else {
        assert r[k] == b[k - |a|];
      }
    }
  }

  lemma {:induction false} DailyMaxFromIncreasing(h: seq<Sample>, d: int, n: nat)
    ensures IncreasingDays(DailyMaxFrom(h, d, n))
    decreases n
  {
    if n > 0 {
      DailyMaxFromIncreasing(h, d + 1, n - 1);
      DailyMaxFromRows(h, d + 1, n - 1);
      var vs := DayValues(h, d);
      var head := if vs != [] then [(d, MaxOf(vs))] else [];
      var rest := DailyMaxFrom(h, d + 1, n - 1);
      var rows := DailyMaxFrom(h, d, n);
      assert rows == head + rest;
      forall k, l | 0 <= k < l < |rows| ensures rows[k].0 < rows[l].0 {
        assert rows[l] == rest[l - |head|];
        if k < |head| {
          assert rows[k] == head[k];
        } else {
          assert rows[k] == rest[k - |head|];
        }
      }
    }
  }

  /** Some pair is for day `day`. */
  predicate HasDay(rows: seq<(int, real)>, day: int) {
    exists k | 0 <= k < |rows| :: rows[k].0 == day
  }

  /** `v` is at least every sample of day `day` and is one of them. */
  predicate IsDayMax(h: seq<Sample>, day: int, v: real) {
    && (forall j | 0 <= j < |h| && DayOf(h[j].clock) == day :: h[j].value <= v)
    && (exists j | 0 <= j < |h| :: DayOf(h[j].clock) == day && h[j].value == v)
  }

  lemma HasDayConcat(a: seq<(int, real)>, b: seq<(int, real)>, day: int)
    requires HasDay(a, day) || HasDay(b, day)
    ensures HasDay(a + b, day)
  {
    if HasDay(a, day) {
      var k :| 0 <= k < |a| && a[k].0 == day;
      assert (a + b)[k] == a[k];
    } else {
      var k :| 0 <= k < |b| && b[k].0 == day;
      assert (a + b)[k + |a|] == b[k];
    }
  }

  lemma {:induction false} DailyMaxFromComplete(h: seq<Sample>, d: int, n: nat, e: int)
    requires d <= e < d + n && DayValues(h, e) != []
    ensures HasDay(DailyMaxFrom(h, d, n), e)
    decreases n
  {
    var vs := DayValues(h, d);
    var head := if vs != [] then [(d, MaxOf(vs))] else [];
    var rest := DailyMaxFrom(h, d + 1, n - 1);
    assert DailyMaxFrom(h, d, n) == head + rest;
    if e == d {
      assert head[0].0 == e;
    } else {
      DailyMaxFromComplete(h, d + 1, n - 1, e);
    }
    HasDayConcat(head, rest, e);
  }

  /** A pair's value is at least every sample of its day, and it is one of them. */
  lemma DailyMaxValue(h: seq<Sample>, k: nat)
    requires k < |DailyMax(h)|
    ensures IsDayMax(h, DailyMax(h)[k].0, DailyMax(h)[k].1)
  {
    var lo, hi := MinDay(h), MaxDay(h);
    var row := DailyMax(h)[k];
    DailyMaxFromRows(h, lo, hi - lo + 1);
    assert DayValues(h, row.0) != [] && row.1 == MaxOf(DayValues(h, row.0));
    DayMaxOf(h, row.0);
  }

  /** The largest value of a day bounds all its samples and is one of them. */
  lemma DayMaxOf(h: seq<Sample>, d: int)
    requires DayValues(h, d) != []
    ensures IsDayMax(h, d, MaxOf(DayValues(h, d)))
  {
    var vs := DayValues(h, d);
    DayValuesMembers(h, d);
    assert MaxOf(vs) in vs;
  }

  /** Every day holding a sample has a pair. */
  lemma DailyMaxCovers(h: seq<Sample>, j: nat)
    requires j < |h|
    ensures HasDay(DailyMax(h), DayOf(h[j].clock))
  {
    DayInRange(h, j);
    DayHasValues(h, j);
    DailyMaxFromComplete(h, MinDay(h), MaxDay(h) - MinDay(h) + 1, DayOf(h[j].clock));
  }

  lemma DayInRange(h: seq<Sample>, j: nat)
    requires j < |h|
    ensures MinDay(h) <= DayOf(h[j].clock) <= MaxDay(h)
  {
    DayBounds(h);
  }

  lemma DayHasValues(h: seq<Sample>, j: nat)
    requires j < |h|
    ensures DayValues(h, DayOf(h[j].clock)) != []
  {
    DayValuesMembers(h, DayOf(h[j].clock));
  }

  /**
   * The daily maximum: days strictly increase; every pair's value is at least
   * every sample of its day and is one of them; every day holding a sample has a pair.
   */
  lemma DailyMaxCorrect(h: seq<Sample>)
    ensures IncreasingDays(DailyMax(h))
    ensures forall k | 0 <= k < |DailyMax(h)| :: IsDayMax(h, DailyMax(h)[k].0, DailyMax(h)[k].1)
    ensures forall j | 0 <= j < |h| :: HasDay(DailyMax(h), DayOf(h[j].clock))
  {
    if h != [] {
      DailyMaxFromIncreasing(h, MinDay(h), MaxDay(h) - MinDay(h) + 1);
    }
    DailyMaxValues(h);
    DailyMaxCoversAll(h);
  }

  lemma DailyMaxValues(h: seq<Sample>)
    ensures forall k | 0 <= k < |DailyMax(h)| :: IsDayMax(h, DailyMax(h)[k].0, DailyMax(h)[k].1)
  {
    forall k | 0 <= k < |DailyMax(h)| ensures IsDayMax(h, DailyMax(h)[k].0, DailyMax(h)[k].1) {
      DailyMaxValue(h, k);
    }
  }

  lemma DailyMaxCoversAll(h: seq<Sample>)
    ensures forall j | 0 <= j < |h| :: HasDay(DailyMax(h), DayOf(h[j].clock))
  {
    forall j | 0 <= j < |h| ensures HasDay(DailyMax(h), DayOf(h[j].clock)) {
      DailyMaxCovers(h, j);
    }
  }

  // ------------------------------------------------------------ report rows

  /**
   * The size cell of a mount: `Err` when the size query raised (the mount is
   * then skipped), `Ok(None)` for "N/A" (no total item, no sample, or a
   * size of zero), otherwise the latest total in GB.
   */
  function SizeCell(total: Dict<String, String>, mount: String,
                    sizeOf: String -> Option<seq<Sample>>): (r: Result<Option<real>, ()>)
    ensures r.Err? <==> Get(total, mount).Some? && sizeOf(Get(total, mount).value).None?
    ensures r == Ok(None) <==>
      || Get(total, mount).None?
      || (sizeOf(Get(total, mount).value).Some? &&
          (sizeOf(Get(total, mount).value).value == [] || sizeOf(Get(total, mount).value).value[0].value == 0.0))
    ensures r.Ok? && r.value.Some? ==> r.value.value == sizeOf(Get(total, mount).value).value[0].value / BytesPerGB
  {
    match Get(total, mount)
    case None => Ok(None)
    case Some(totalId) =>
      match sizeOf(totalId)
      case None => Err(())
      case Some(latest) =>
        if latest == [] then Ok(None)
        else
          var gb := latest[0].value / BytesPerGB;
          if gb == 0.0 then Ok(None) else Ok(Some(gb))
  }

  function RowsOfDays(ip: String, mount: String, size: Option<real>, days: seq<(int, real)>): (rows: seq<DiskRow>)
    ensures |rows| == |days|
    ensures forall k | 0 <= k < |rows| :: rows[k] == DiskRow(ip, days[k].0, mount, days[k].1, size)
  {
    if days == [] then []
    else RowsOfDays(ip, mount, size, days[..|days| - 1]) + [DiskRow(ip, days[|days| - 1].0, mount, days[|days| - 1].1, size)]
  }

  /** The rows of one mount (lines 58-90): none when a query raised or the history is empty. */
  function MountRows(ip: String, total: Dict<String, String>, mount: String, itemId: String,
                     usageOf: String -> Option<seq<Sample>>, sizeOf: String -> Option<seq<Sample>>): seq<DiskRow> {
    match usageOf(itemId)
    case None => []
    case Some(history) =>
      match SizeCell(total, mount, sizeOf)
      case Err(_) => []
      case Ok(size) => if history == [] then [] else RowsOfDays(ip, mount, size, DailyMax(history))
  }

  /** The rows of the mounts `items` of one host, in dictionary order. */
  function HostRows(e: HostEntry, items: Dict<String, String>,
                    usageOf: String -> Option<seq<Sample>>, sizeOf: String -> Option<seq<Sample>>): seq<DiskRow> {
    if items == [] then []
    else
      var last := items[|items| - 1];
      HostRows(e, items[..|items| - 1], usageOf, sizeOf) + MountRows(e.ip, e.total, last.0, last.1, usageOf, sizeOf)
  }

  function ResultsOf(hosts: seq<(String, HostEntry)>,
                     usageOf: String -> Option<seq<Sample>>, sizeOf: String -> Option<seq<Sample>>): seq<DiskRow> {
    if hosts == [] then []
    else
      var e := hosts[|hosts| - 1].1;
      ResultsOf(hosts[..|hosts| - 1], usageOf, sizeOf) + HostRows(e, e.items, usageOf, sizeOf)
  }

  /**
   * What one mount reports when both queries succeed and the history is not
   * empty: one row per day with samples, in day order, with that day's
   * largest usage and the mount's size cell.
   */
  lemma MountRowsDaily(ip: String, total: Dict<String, String>, mount: String, itemId: String,
                       usageOf: String -> Option<seq<Sample>>, sizeOf: String -> Option<seq<Sample>>)
    requires usageOf(itemId).Some? && usageOf(itemId).value != [] && SizeCell(total, mount, sizeOf).Ok?
    ensures var rows := MountRows(ip, total, mount, itemId, usageOf, sizeOf);
      var days := DailyMax(usageOf(itemId).value);
      && |rows| == |days|
      && forall k | 0 <= k < |rows| ::
           rows[k] == DiskRow(ip, days[k].0, mount, days[k].1, SizeCell(total, mount, sizeOf).value)
  {
  }

  /** Per-mount isolation: a query that raised, or an empty history, gives that mount no row. */
  lemma MountRowsSkipped(ip: String, total: Dict<String, String>, mount: String, itemId: String,
                         usageOf: String -> Option<seq<Sample>>, sizeOf: String -> Option<seq<Sample>>)
    requires usageOf(itemId).None? || SizeCell(total, mount, sizeOf).Err? || usageOf(itemId) == Some([])
    ensures MountRows(ip, total, mount, itemId, usageOf, sizeOf) == []
  {
  }

  /** The loop over a host's usage items (lines 60-90). */
  method CollectHostRows(e: HostEntry, usageOf: String -> Option<seq<Sample>>, sizeOf: String -> Option<seq<Sample>>)
    returns (rows: seq<DiskRow>)
    ensures rows == HostRows(e, e.items, usageOf, sizeOf)
  {
    rows := [];
    for j := 0 to |e.items|
      invariant rows == HostRows(e, e.items[..j], usageOf, sizeOf)
    {
      HostRowsStep(e, e.items, j, usageOf, sizeOf);
      rows := CollectMountRows(rows, e.ip, e.total, e.items[j].0, e.items[j].1, usageOf, sizeOf);
    }
    assert e.items[..|e.items|] == e.items;
  }

  lemma HostRowsStep(e: HostEntry, items: Dict<String, String>, j: nat,
                     usageOf: String -> Option<seq<Sample>>, sizeOf: String -> Option<seq<Sample>>)
    requires j < |items|
    ensures HostRows(e, items[..j + 1], usageOf, sizeOf)
         == HostRows(e, items[..j], usageOf, sizeOf) + MountRows(e.ip, e.total, items[j].0, items[j].1, usageOf, sizeOf)
  {
    assert items[..j + 1][..j] == items[..j];
  }

  /** One pass of that loop: the two queries, the `continue`s, then the daily rows. */
  method CollectMountRows(rows: seq<DiskRow>, ip: String, total: Dict<String, String>, mount: String, itemId: String,
                          usageOf: String -> Option<seq<Sample>>, sizeOf: String -> Option<seq<Sample>>)
    returns (out: seq<DiskRow>)
    ensures out == rows + MountRows(ip, total, mount, itemId, usageOf, sizeOf)
  {
    out := rows;
    var history := usageOf(itemId);
    if history.None? {
      return;
    }
    var size := SizeCell(total, mount, sizeOf);
    if size.Err? {
      return;
    }
    if history.value == [] {
      return;
    }
    out := AppendDays(rows, ip, mount, size.value, DailyMax(history.value));
  }

  /** `for _, row in daily_max.iterrows(): results.append(...)`. */
  method AppendDays(rows: seq<DiskRow>, ip: String, mount: String, size: Option<real>, days: seq<(int, real)>)
    returns (out: seq<DiskRow>)
    ensures out == rows + RowsOfDays(ip, mount, size, days)
  {
    out := rows;
    for k := 0 to |days|
      invariant out == rows + RowsOfDays(ip, mount, size, days[..k])
    {
      assert days[..k + 1][..k] == days[..k];
      out := out + [DiskRow(ip, days[k].0, mount, days[k].1, size)];
    }
    assert days[..|days|] == days;
  }

  /** The loop over `host_map` that fills `results` (lines 57-90). */
  method CollectResults(hosts: seq<(String, HostEntry)>,
                        usageOf: String -> Option<seq<Sample>>, sizeOf: String -> Option<seq<Sample>>)
    returns (results: seq<DiskRow>)
    ensures results == ResultsOf(hosts, usageOf, sizeOf)
  {
    results := [];
    for i := 0 to |hosts|
      invariant results == ResultsOf(hosts[..i], usageOf, sizeOf)
    {
      assert hosts[..i + 1][..i] == hosts[..i];
      var rows := CollectHostRows(hosts[i].1, usageOf, sizeOf);
      results := results + rows;
    }
    assert hosts[..|hosts|] == hosts;
  }

  // ------------------------------------------------------ sort and de-dup

  /** `sort_values(by=['IP地址', '日期', '目录名称'])`: IP, then day, then mount. */
  predicate RowLe(a: DiskRow, b: DiskRow) {
    if a.ip != b.ip then LexLe(a.ip, b.ip)
    else if a.day != b.day then a.day < b.day
    else LexLe(a.mount, b.mount)
  }

  lemma RowLeTotal(a: DiskRow, b: DiskRow)
    ensures RowLe(a, b) || RowLe(b, a)
  {
    LexLeTotal(a.ip, b.ip);
    LexLeTotal(a.mount, b.mount);
  }

  lemma RowLeTransitive(a: DiskRow, b: DiskRow, c: DiskRow)
    requires RowLe(a, b) && RowLe(b, c)
    ensures RowLe(a, c)
  {
    if a.ip != b.ip && b.ip != c.ip {
      LexLeTransitive(a.ip, b.ip, c.ip);
      if a.ip == c.ip {
        LexLeAntisymmetric(a.ip, b.ip);
      }
    } else if a.ip == b.ip && b.ip == c.ip && a.day == b.day && b.day == c.day {
      LexLeTransitive(a.mount, b.mount, c.mount);
    }
  }

  predicate SortedRows(xs: seq<DiskRow>) {
    forall i, j | 0 <= i < j < |xs| :: RowLe(xs[i], xs[j])
  }

  /** Put `x` after every row of `sorted` that is not greater than it (the sort is stable). */
  function InsertRow(sorted: seq<DiskRow>, x: DiskRow): (r: seq<DiskRow>)
    requires SortedRows(sorted)
    ensures SortedRows(r)
    ensures multiset(r) == multiset(sorted) + multiset{x}
  {
    if sorted == [] || RowLe(sorted[|sorted| - 1], x) then
      assert forall k | 0 <= k < |sorted| :: RowLe(sorted[k], x) by {
        forall k | 0 <= k < |sorted| ensures RowLe(sorted[k], x) {
          if k < |sorted| - 1 {
            RowLeTransitive(sorted[k], sorted[|sorted| - 1], x);
          }
        }
      }
      SortedAppendRow(sorted, x);
      sorted + [x]
    else
      var last := sorted[|sorted| - 1];
      var init := sorted[..|sorted| - 1];
      assert sorted == init + [last];
      RowLeTotal(last, x);
      var rec := InsertRow(init, x);
      RowsBelow(init, x, rec, last);
      SortedAppendRow(rec, last);
      rec + [last]
  }

  lemma SortedAppendRow(s: seq<DiskRow>, x: DiskRow)
    requires SortedRows(s)
    requires forall k | 0 <= k < |s| :: RowLe(s[k], x)
    ensures SortedRows(s + [x])
  {
    var r := s + [x];
    forall i, j | 0 <= i < j < |r| ensures RowLe(r[i], r[j]) {
      assert r[i] == s[i];
      if j < |s| {
        assert r[j] == s[j];
      }
    }
  }

  lemma RowsBelow(init: seq<DiskRow>, x: DiskRow, rec: seq<DiskRow>, last: DiskRow)
    requires forall k | 0 <= k < |init| :: RowLe(init[k], last)
    requires RowLe(x, last)
    requires multiset(rec) == multiset(init) + multiset{x}
    ensures forall i | 0 <= i < |rec| :: RowLe(rec[i], last)
  {
    forall i | 0 <= i < |rec| ensures RowLe(rec[i], last) {
      assert rec[i] in multiset(rec);
      if rec[i] != x {
        assert rec[i] in init;
      }
    }
  }

  function SortRows(xs: seq<DiskRow>): (r: seq<DiskRow>)
    ensures SortedRows(r)
    ensures multiset(r) == multiset(xs)
  {
    if xs == [] then []
    else
      assert xs == xs[..|xs| - 1] + [xs[|xs| - 1]];
      InsertRow(SortRows(xs[..|xs| - 1]), xs[|xs| - 1])
  }

  /** Two rows with the same sort key (IP, day, mount). */
  predicate SameKey(a: DiskRow, b: DiskRow) {
    a.ip == b.ip && a.day == b.day && a.mount == b.mount
  }

  /** The rows of `xs` whose sort key is that of `k`, in their order in `xs`. */
  function Tied(xs: seq<DiskRow>, k: DiskRow): seq<DiskRow> {
    if xs == [] then []
    else Tied(xs[..|xs| - 1], k) + (if SameKey(xs[|xs| - 1], k) then [xs[|xs| - 1]] else [])
  }

  lemma TiedAppend(xs: seq<DiskRow>, x: DiskRow, k: DiskRow)
    ensures Tied(xs + [x], k) == Tied(xs, k) + (if SameKey(x, k) then [x] else [])
  {
    assert (xs + [x])[..|xs|] == xs;
  }

  /** Inserting `x` puts it after every row that shares its key. */
  lemma {:induction false} InsertRowTied(sorted: seq<DiskRow>, x: DiskRow, k: DiskRow)
    requires SortedRows(sorted)
    ensures Tied(InsertRow(sorted, x), k) == Tied(sorted, k) + (if SameKey(x, k) then [x] else [])
  {
    if sorted == [] || RowLe(sorted[|sorted| - 1], x) {
      TiedAppend(sorted, x, k);
    } else {
      var last := sorted[|sorted| - 1];
      var init := sorted[..|sorted| - 1];
      assert sorted == init + [last];
      assert SortedRows(init);
      var rec := InsertRow(init, x);
      assert InsertRow(sorted, x) == rec + [last];
      InsertRowTied(init, x, k);
      TiedAppend(rec, last, k);
      TiedAppend(init, last, k);
      LexLeTotal(x.mount, x.mount);
      assert !(SameKey(x, k) && SameKey(last, k));
    }
  }

  /**
   * The sort is stable: rows that share a key keep their order. Any key `k`
   * picks out the same rows in the same order before and after sorting.
   */
  lemma {:induction false} SortRowsStable(xs: seq<DiskRow>, k: DiskRow)
    ensures Tied(SortRows(xs), k) == Tied(xs, k)
  {
    if xs != [] {
      var init := xs[..|xs| - 1];
      var x := xs[|xs| - 1];
      SortRowsStable(init, k);
      InsertRowTied(SortRows(init), x, k);
      TiedAppend(init, x, k);
      assert xs == init + [x];
    }
  }

  /** `drop_duplicates()`: keep the first of identical rows. */
  function Dedup(xs: seq<DiskRow>): (r: seq<DiskRow>)
    ensures forall x :: x in r <==> x in xs
    ensures forall i, j | 0 <= i < j < |r| :: r[i] != r[j]
  {
    if xs == [] then []
    else
      var init := xs[..|xs| - 1];
      var last := xs[|xs| - 1];
      assert xs == init + [last];
      var d := Dedup(init);
      if last in d then d else d + [last]
  }

  /** Dropping duplicates from a sorted table keeps it sorted. */
  lemma {:induction false} DedupSorted(xs: seq<DiskRow>)
    requires SortedRows(xs)
    ensures SortedRows(Dedup(xs))
  {
    if xs != [] {
      var init := xs[..|xs| - 1];
      var last := xs[|xs| - 1];
      assert SortedRows(init);
      DedupSorted(init);
      var d := Dedup(init);
      if last !in d {
        forall k | 0 <= k < |d| ensures RowLe(d[k], last) {
          assert d[k] in init;
          var i :| 0 <= i < |init| && init[i] == d[k];
          assert init[i] == xs[i];
        }
        SortedAppendRow(d, last);
      }
    }
  }

  /** The table written to the report: sorted, then identical rows dropped. */
  function FinalTable(results: seq<DiskRow>): seq<DiskRow> {
    Dedup(SortRows(results))
  }

  /**
   * The written table is sorted by (IP, day, mount), holds no row twice, and
   * holds exactly the rows collected.
   */
  lemma FinalTableCorrect(results: seq<DiskRow>)
    ensures SortedRows(FinalTable(results))
    ensures forall i, j | 0 <= i < j < |FinalTable(results)| :: FinalTable(results)[i] != FinalTable(results)[j]
    ensures forall x :: x in FinalTable(results) <==> x in results
  {
    var s := SortRows(results);
    DedupSorted(s);
    forall x ensures x in s <==> x in results {
      assert x in s <==> x in multiset(s);
      assert x in results <==> x in multiset(results);
    }
  }

  /**
   * `get_daily_disk_peak` once its dates are parsed: returns whether a report
   * was written (`writeOk` is the outcome of writing the file) and the table.
   * No collected row means no report.
   */
  method DailyDiskPeak(search: String -> Option<seq<TemplateHost>>, itemsOf: String -> Option<seq<Item>>,
                       usageOf: String -> Option<seq<Sample>>, sizeOf: String -> Option<seq<Sample>>, writeOk: bool)
    returns (ok: bool, table: seq<DiskRow>)
    ensures var results := ResultsOf(EntriesOf(HostMapOf(search), itemsOf), usageOf, sizeOf);
      && (ok <==> results != [] && writeOk)
      && table == (if results == [] then [] else FinalTable(results))
  {
    var hostMap := BuildHostMap(search);
    var hosts := FillItems(hostMap, itemsOf);
    var results := CollectResults(hosts, usageOf, sizeOf);
    if results == [] {
      return false, [];
    }
    table := FinalTable(results);
    ok := writeOk;
  }
}
