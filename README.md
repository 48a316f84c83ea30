# A verified model of the zabbix_api operations scripts

The repository is a set of Python scripts that drive a Zabbix server through
its JSON-RPC API. This project models in Dafny the scripts that compute
something, and proves properties of the model:

- `get_mem_usagerate.py`, the daily memory-peak report:
  - it picks the hosts that carry a baseline template and finds each host's memory item;
  - it fetches a day of history with three attempts;
  - it smooths spikes and resamples to one value per minute;
  - it takes a trailing window sum, finds the peak window and labels data quality.
- `get_hosts_disk_day.py`: the daily peak of every mounted file system's
  used space, for the hosts of a set of templates.
- `create_maintenance.py`: maintenance periods read from a CSV. Rows are grouped by their padded time window, and each window collects its rows' host ids.
- `search_hosts_api.py`: the host search:
  - the `host.get` parameters built from the search terms;
  - one row per host and trigger with the requested columns.
- `update_trigger_api.py`: trigger records with their tags merged in, and the trigger-status updates that follow.
- `create_host.py`: the `host.create` request built from each spreadsheet row.
- `export_triggers.py`: the keyword filter over template searches, and the export format.

Every remote call becomes a value or a function parameter, for example
`host.get`, `item.get`, `history.get` or `trigger.get`. A call that raises
becomes `None` or an error constructor. The model therefore states what each
script computes from the server's answers, whatever those answers are.

The modules, one per file:

| module | file | models |
|---|---|---|
| `Wrappers` | `wrappers.dfy` | `Option` and `Result` |
| `Text` | `text.dfy` | the `str` methods the scripts use: `strip`, `lower`, `split`, `in`, comparison, zero padding |
| `Dict` | `dict.dfy` | an insertion-ordered Python `dict` as an association list |
| `Series` | `series.dfy` | sums, means, maxima and `idxmax` of value series |
| `Smoothing` | `smoothing.dfy` | `smooth_spikes`, also as an in-place pass over an array |
| `Resampling` | `resampling.dfy` | sorting, per-minute resampling with forward fill, and the trailing time-window sum |
| `Peak` | `peak.dfy` | the peak window, peak value, peak time and data-quality label of one day |
| `MemUsage` | `mem_usage.dfy` | host classification, item lookup, retries, the day loop and the report |
| `DiskKey` | `disk_key.dfy` | the mount point inside an item key such as `vfs.fs.size[/data,pused]` |
| `DiskPeak` | `disk_peak.dfy` | `get_hosts_disk_day.py` |
| `Maintenance` | `maintenance.dfy` | `create_maintenance.py` |
| `HostSearch` | `host_search.dfy` | `search_hosts_api.py` |
| `TriggerUpdate` | `trigger_update.dfy` | `update_trigger_api.py` |
| `HostCreate` | `host_create.dfy` | `create_host.py` |
| `TriggerExport` | `trigger_export.dfy` | `export_triggers.py` |

Loops in the source become methods with loops. Each such method is proved
equal to a recursive function, and the lemmas are stated about those
functions. The smoothing pass runs in place on an `array<real>`, as
`smoothed.iloc[i] = new_value` does.

## Model

| member | source | states |
|---|---|---|
| Text.TrimLeft | search_hosts_api.py:73-75 | the result is a suffix of the input; only white space was removed; the result does not start with white space |
| Text.TrimRight | search_hosts_api.py:73-75 | the result is a prefix of the input; only white space was removed; the result does not end with white space |
| Text.Strip | create_host.py:147 | `strip()`: empty exactly when the input is all white space; otherwise starts and ends with a non-space character |
| Text.StripPadded | create_host.py:147 | `strip()` returns the core of any white-space padded string whose core has no outer white space |
| Text.TrimLeftPadded | search_hosts_api.py:73-75 | leading white space before a non-space start is removed exactly |
| Text.TrimRightPadded | search_hosts_api.py:73-75 | trailing white space after a non-space end is removed exactly |
| Text.Lower | export_triggers.py:19-21 | `lower()` keeps the length |
| Text.LowerIdempotent | export_triggers.py:19-21 | lower-casing an already lower-cased text changes nothing |
| Text.StripLower | create_host.py:147 | `strip()` and `lower()` commute: lower-casing neither makes nor removes white space |
| Text.Contains | export_triggers.py:50 | `needle in hay` holds exactly when the needle occurs at some position of the haystack |
| Text.Split | create_maintenance.py:106-107 | `split(sep)` gives at least one part and no part contains the separator |
| Text.SplitJoin | create_maintenance.py:106-107 | joining the parts with the separator gives back the input |
| Text.SplitNone | create_maintenance.py:106-107 | a string without the separator splits into itself alone |
| Text.SplitTwo | create_maintenance.py:106-107 | `a + sep + b` with no separator in `a` or `b` splits into exactly `[a, b]` |
| Text.SplitCons | create_maintenance.py:106-107 | a first part without the separator is split off exactly |
| Text.SplitLength | create_maintenance.py:106-107 | the number of parts is the number of separators plus one, so unpacking into two names needs exactly one separator |
| Text.LexLeTotal | get_hosts_disk_day.py:94 | string order used by `sort_values` is total |
| Text.LexLeTransitive | get_hosts_disk_day.py:94 | string order is transitive |
| Text.LexLeAntisymmetric | get_hosts_disk_day.py:94 | string order is antisymmetric |
| Text.Pad2 | create_maintenance.py:122 | `%H`/`%M` style two-digit text: two decimal digits whose value is the number |
| Dict.Keys | search_hosts_api.py:111 | the keys of a dict, one per entry, in insertion order |
| Dict.Get | update_trigger_api.py:70 | a lookup misses exactly when the key is absent; a hit is the value of an entry with that key |
| Dict.GetAt | update_trigger_api.py:70 | with distinct keys, looking up an entry's key gives that entry's value |
| Dict.Put | create_maintenance.py:125 | assignment adds one entry only for a new key |
| Dict.PutGet | create_maintenance.py:125 | after assigning `k`, looking up `k` gives the new value and every other key gives what it gave before |
| Dict.PutKeys | get_hosts_disk_day.py:47-49 | assignment keeps the key order; a new key goes last |
| Dict.PutDistinct | get_hosts_disk_day.py:47-49 | assignment keeps keys distinct |
| Dict.PutAppends | get_hosts_disk_day.py:33-34 | assigning a new key appends one entry |
| Dict.FirstSeenMembers | update_trigger_api.py:67-73 | dropping repeats keeps exactly the same members |
| Dict.FirstSeenDistinct | update_trigger_api.py:67-73 | a list without repeats is unchanged by dropping repeats |
| Series.Values | get_mem_usagerate.py:146-149 | the value column of the samples, one per sample, in order |
| Series.SumConcat | get_mem_usagerate.py:61 | a sum over two runs of values is the sum of their sums |
| Series.MaxOf | get_mem_usagerate.py:166 | `max()` of a non-empty series occurs in it and bounds every element |
| Series.FirstIndexOf | get_mem_usagerate.py:172 | `index[0]` of the selection `== v`: an index holding `v`, with no earlier index holding it |
| Series.ArgMaxFirst | get_mem_usagerate.py:167 | `idxmax()`: an index of the largest element, and every earlier element is strictly smaller |
| Smoothing.IsSpike | get_mem_usagerate.py:23-39 | the spike test can only fire strictly inside the series (both windows non-empty) |
| Smoothing.Step | get_mem_usagerate.py:19-48 | one iteration changes at most point `i` |
| Smoothing.SmoothUpTo | get_mem_usagerate.py:17-48 | the working copy keeps the length |
| Smoothing.Smoothed | get_mem_usagerate.py:7-50 | `smooth_spikes` keeps the length |
| Smoothing.NotYetVisited | get_mem_usagerate.py:19-48 | points from `k` on still hold the input after `k` iterations |
| Smoothing.Settled | get_mem_usagerate.py:19-48 | a point, once visited, is never changed again |
| Smoothing.WorkingCopy | get_mem_usagerate.py:19-48 | after `k` iterations the copy is the result's first `k` points followed by the untouched input |
| Smoothing.SmoothedAt | get_mem_usagerate.py:19-48 | each result point is the mean of the already smoothed left neighbour and the input right neighbour when the spike test on the current copy fires, else the input point |
| Smoothing.SmoothedKeepsEnds | get_mem_usagerate.py:31-32 | the first and the last point are never changed |
| Smoothing.SmoothedShortUnchanged | get_mem_usagerate.py:31-32 | series of at most two points are returned unchanged |
| Smoothing.ChangedOnlyBetweenNeighbours | get_mem_usagerate.py:39-48 | a changed point was an inner spike and its new value lies between its two neighbours |
| Smoothing.SmoothSpikes | get_mem_usagerate.py:7-50 | the array loop returns exactly `Smoothed` of the series |
| Smoothing.SmoothPoint | get_mem_usagerate.py:20-48 | one in-place iteration turns the array into `Step` of its old contents |
| Resampling.InsertByClock | get_mem_usagerate.py:155 | inserting keeps the samples sorted by time and is a permutation plus the new sample |
| Resampling.SortedAppend | get_mem_usagerate.py:155 | appending a sample not earlier than all others keeps the order |
| Resampling.NotLaterThan | get_mem_usagerate.py:155 | a permutation of samples bounded by a time stays bounded by it |
| Resampling.SortByClock | get_mem_usagerate.py:155 | `sort_values('timestamp')` gives a time-sorted permutation of the samples |
| Resampling.MinuteBounds | get_mem_usagerate.py:161 | every sample's minute lies between the first and last minute, and both are minutes of samples |
| Resampling.BinNonEmpty | get_mem_usagerate.py:161 | a minute's bin is non-empty exactly when some sample falls in it |
| Resampling.ResampleFrom | get_mem_usagerate.py:161 | the resampling from a minute gives one value per minute asked for |
| Resampling.Resample | get_mem_usagerate.py:161 | `resample('1T')` has one value per minute from the first sample's minute to the last's, inclusive |
| Resampling.ResampleFromPrefix | get_mem_usagerate.py:161 | resampling more minutes does not change earlier ones |
| Resampling.LastObserved | get_mem_usagerate.py:161 | the most recent minute at or before `k` that holds samples; no later one up to `k` holds any |
| Resampling.ResampleIsLastObservedMean | get_mem_usagerate.py:161 | `mean().ffill()`: each minute carries the mean of the most recent non-empty minute at or before it |
| Resampling.ResampleFromAt | get_mem_usagerate.py:161 | the same, for a resampling that starts at any observed minute |
| Resampling.ResampleSpan | get_mem_usagerate.py:161 | the first and last resampled minutes hold samples and every sample falls inside the span |
| Resampling.WindowSums | get_mem_usagerate.py:52-62 | one trailing sum per resampled minute |
| Resampling.WindowSumsUpTo | get_mem_usagerate.py:61 | the first `n` trailing sums |
| Resampling.WindowSumsUpToAt | get_mem_usagerate.py:61 | each of them is the sum of the last `min(w, i + 1)` values up to `i` |
| Resampling.WindowSumsAt | get_mem_usagerate.py:61 | each trailing sum is the sum of the last `min(w, i + 1)` values up to `i` |
| Resampling.SumOfMinutesInPrefix | get_mem_usagerate.py:61 | minutes after the window's end do not contribute to the time-window sum |
| Resampling.SumOfMinutesInTail | get_mem_usagerate.py:61 | a time window ending at the last minute sums a suffix of the series |
| Resampling.SumOfMinutesInNone | get_mem_usagerate.py:61 | a time window that starts at or after the last minute sums to 0 |
| Resampling.WindowSumIsTrailingTimeWindow | get_mem_usagerate.py:61 | `rolling('<w>T', min_periods=1).sum()`: the value at minute `t` is the sum over the time window `(t - w, t]` |
| Resampling.SumOfMinutesWidened | get_mem_usagerate.py:61 | moving the window's open start further before the series adds nothing |
| Peak.PeakIndex | get_mem_usagerate.py:166-167 | the index of the largest window sum, earliest among equals |
| Peak.InWindow | get_mem_usagerate.py:171 | label slicing gives at most the series' values |
| Peak.InWindowIndex | get_mem_usagerate.py:171 | a value is in the `loc[start:end]` window exactly when it is the value of a minute in `[start, end]`, both ends included |
| Peak.DerivePeak | get_mem_usagerate.py:164-172 | the window total is the largest trailing sum, at its earliest minute; the window spans `2w` minutes around it; the peak time holds the peak value and is its first occurrence in the series; the data-point count is the series length |
| Peak.PeakValueIsWindowMax | get_mem_usagerate.py:171 | the peak value is the largest value in the report window and occurs there |
| Peak.WindowMax | get_mem_usagerate.py:171 | the maximum over a non-empty labelled window bounds its values and is one of them |
| Peak.PeakValueAtLeastAtIndex | get_mem_usagerate.py:167-171 | the peak value is at least the value at the peak window's own minute |
| Peak.PeakTimeNotAfterWindowOccurrence | get_mem_usagerate.py:172 | the peak time is no later than any minute in the window holding the peak value |
| Peak.PeakTimeMayPrecedeWindow | get_mem_usagerate.py:172 | the peak time can lie before the report window, because the value is looked for in the whole series |
| Peak.ExampleWindow | get_mem_usagerate.py:168-169 | for that example series the report window is minutes 4 to 8 |
| Peak.ExamplePeakValue | get_mem_usagerate.py:171 | for that example series the peak value is 3.0 |
| Peak.ExampleWindowSums | get_mem_usagerate.py:61 | for that example series the largest trailing sum, 6.0, is at minute 6 alone |
| Peak.ExampleWindowSumAt | get_mem_usagerate.py:61 | for that example series every trailing sum before minute 6 is at most 3.0 |
| Peak.WindowNotClipped | get_mem_usagerate.py:168-169 | the report window is not cut to the series: one minute at `t` gives the window `[t - w, t + w]` |
| Peak.WithValues | get_mem_usagerate.py:159 | `df['value'] = ...` replaces the values and keeps every timestamp |
| Peak.Prepared | get_mem_usagerate.py:155-159 | sorting and smoothing keep the number of samples |
| Peak.DayPeak | get_mem_usagerate.py:144-185 | a day gives a peak record exactly when its history is non-empty |
| Peak.SameMinuteSpan | get_mem_usagerate.py:155-161 | reordering samples does not change the first and last minute |
| Peak.WithValuesSameSpan | get_mem_usagerate.py:159-161 | replacing values does not change the first and last minute |
| Peak.WithValuesSameFirst | get_mem_usagerate.py:159-161 | replacing values does not change the first minute |
| Peak.WithValuesSameLast | get_mem_usagerate.py:159-161 | replacing values does not change the last minute |
| Peak.DataPointsSpanTheDay | get_mem_usagerate.py:183 | the reported data-point count is the number of minutes from the earliest sample to the latest, inclusive |
| Peak.QualityOf | get_mem_usagerate.py:275-277 | `pd.cut` with right-closed bins: no label for 0, low for 1-100, medium for 101-200, high above 200 |
| Peak.QualityMonotone | get_mem_usagerate.py:275-277 | more data points never give a lower label |
| Peak.DayPeakHasQuality | get_mem_usagerate.py:275-277 | every day that yields a row gets a quality label |
| MemUsage.SystemTypeOf | get_mem_usagerate.py:240-245 | Linux exactly when the Linux baseline template is present; Windows exactly when only the Windows one is; none otherwise |
| MemUsage.ValidHostsMembers | get_mem_usagerate.py:238-249 | a host is kept with type `t` exactly when its templates select `t` |
| MemUsage.ValidHostsLength | get_mem_usagerate.py:238-249 | the kept hosts are no more than the queried hosts |
| MemUsage.ClassifyHosts | get_mem_usagerate.py:238-249 | the classification loop returns exactly the kept hosts in host order |
| MemUsage.KeyVariants | get_mem_usagerate.py:81-85 | each system type tries exactly one item key |
| MemUsage.FirstHit | get_mem_usagerate.py:87-104 | no item exactly when no key's query returns an item (raising queries count as misses); otherwise the first item of the first key that hit |
| MemUsage.FindItem | get_mem_usagerate.py:87-101 | the key loop returns exactly `FirstHit` |
| MemUsage.AttemptOutcome | get_mem_usagerate.py:119-134 | an attempt whose `history=0` (numeric float) query raises fails; a non-empty float answer is the history; after an empty one the `history=3` (numeric unsigned) answer is the history, and the attempt fails when that query raises |
| MemUsage.FetchFailsIff | get_mem_usagerate.py:117-140 | the fetch fails exactly when all three attempts raise |
| MemUsage.FetchFirstSuccess | get_mem_usagerate.py:117-140 | a successful fetch returns what the first attempt that did not raise returned |
| MemUsage.FetchFrom | get_mem_usagerate.py:117-140 | the same, for the attempts from any attempt number on |
| MemUsage.FetchWithRetry | get_mem_usagerate.py:117-140 | the retry loop returns the fetch's result after 1 to 3 attempts, 3 when it fails, and every attempt before the last one raised |
| MemUsage.DayRows | get_mem_usagerate.py:144-190 | a day gives at most one row, none exactly when it has no record, and the row carries that day's record |
| MemUsage.DaysRecordsRows | get_mem_usagerate.py:106-197 | every row of the day range belongs to a day of the range and carries that day's record |
| MemUsage.DaysRecordsIncreasing | get_mem_usagerate.py:106-197 | days strictly increase along the rows, so no day is reported twice |
| MemUsage.DaysRecordsComplete | get_mem_usagerate.py:106-197 | failure isolation: every day of the range that has a record is reported, whatever the other days did |
| MemUsage.EmptyRange | get_mem_usagerate.py:108 | a start day after the end day gives no row |
| MemUsage.AnalyzeDay | get_mem_usagerate.py:144-185 | the analysis, with the array smoothing pass, gives exactly `DayPeak` |
| MemUsage.ProcessHost | get_mem_usagerate.py:64-197 | `process_host` returns exactly the rows of the model: none without an item, else one per day with a record |
| MemUsage.DayLoop | get_mem_usagerate.py:106-197 | the day loop returns exactly the rows of the day range |
| MemUsage.ProcessDay | get_mem_usagerate.py:109-195 | one day's body returns exactly that day's rows |
| MemUsage.Report | get_mem_usagerate.py:272-281 | one report row per result row, each with its quality label |
| MemUsage.ReportHasNoMissingLabel | get_mem_usagerate.py:275-277 | every row a host produces gets a quality label |
| DiskKey.ClosingAt | get_hosts_disk_day.py:43 | a closing `,pused]` or `,total]` is found at a position exactly when one starts there, and the metric returned is the one that does |
| DiskKey.ScanMountSound | get_hosts_disk_day.py:43-45 | the lazy group's match is closed by the metric's text, holds no line break, and no shorter mount text is closed |
| DiskKey.ParseKeySound | get_hosts_disk_day.py:43-45 | a parsed key starts with `vfs.fs.size[`, continues with the mount and its closing text, and the mount is the shortest such text |
| DiskKey.ParseKeyNeedsPrefix | get_hosts_disk_day.py:43-44 | a key that does not start with `vfs.fs.size[` does not match |
| DiskKey.ClosingAtClose | get_hosts_disk_day.py:43 | the closing text of a metric is recognised as that metric |
| DiskKey.ClosingAtOther | get_hosts_disk_day.py:43 | no closing text starts at a character other than a comma |
| DiskKey.ScanMountFinds | get_hosts_disk_day.py:43-45 | the lazy group stops at the first closing text reached without a line break, whatever commas the mount holds |
| DiskKey.ScanMountReaches | get_hosts_disk_day.py:43-45 | the lazy group finds a mount whenever some closing text is reached without a line break |
| DiskKey.ParseKeyExact | get_hosts_disk_day.py:43-45 | the groups are `(mount, metric)` exactly when the key is the prefix, that mount without a line break, the metric's closing text and any tail, and no shorter mount is closed |
| DiskKey.ParseKeyNone | get_hosts_disk_day.py:43-45 | no match exactly when the key has no reading as prefix, mount without a line break, closing text and tail |
| DiskKey.ParseFormattedKey | get_hosts_disk_day.py:43-45 | round trip: a key built from a mount without comma or line break and a metric parses back to that mount and metric, whatever follows |
| DiskKey.LazyMountExample | get_hosts_disk_day.py:43-45 | `vfs.fs.size[C:,pused],total]` matches with mount `C:` and metric `pused` |
| DiskPeak.FirstIp | get_hosts_disk_day.py:31-34 | no IP exactly when no host has the id; otherwise the IP of the first host with it |
| DiskPeak.GetAppend | get_hosts_disk_day.py:33-34 | adding a new host id leaves every earlier id's entry alone |
| DiskPeak.AddHostsGet | get_hosts_disk_day.py:31-34 | after a template's hosts, an id maps to its earlier IP, or else to the IP of its first host in that template |
| DiskPeak.AddHostsDistinct | get_hosts_disk_day.py:31-34 | host ids stay distinct |
| DiskPeak.AddHostsConcat | get_hosts_disk_day.py:28-34 | adding two runs of hosts is adding one after the other |
| DiskPeak.HostMapFirstWins | get_hosts_disk_day.py:20-36 | the host map has distinct ids and maps each id to the IP of its first occurrence over the templates that answered, in template order |
| DiskPeak.BuildHostMap | get_hosts_disk_day.py:26-36 | the template loop returns exactly the host map |
| DiskPeak.AddTemplateHosts | get_hosts_disk_day.py:31-34 | the host loop returns exactly the hosts added |
| DiskPeak.LastItemForSpec | get_hosts_disk_day.py:42-49 | a mount has no item for a metric exactly when no key parses to that mount and metric; otherwise it has the last such item |
| DiskPeak.LastItemForNone | get_hosts_disk_day.py:42-49 | no item exactly when no key parses to the mount and metric |
| DiskPeak.LastItemForSome | get_hosts_disk_day.py:42-49 | the item found is the last one whose key parses to the mount and metric |
| DiskPeak.MetricItemsGet | get_hosts_disk_day.py:42-49 | `host_info['items']` and `host_info['total']` map each mount to the last matching item (later items overwrite) |
| DiskPeak.MetricItemsDistinct | get_hosts_disk_day.py:42-49 | the mounts of each dict are distinct |
| DiskPeak.MetricItemsKeys | get_hosts_disk_day.py:42-49 | a mount is a key exactly when some item's key parses to it with that metric |
| DiskPeak.CollectItems | get_hosts_disk_day.py:42-49 | the item loop returns exactly the two dicts |
| DiskPeak.EntriesOf | get_hosts_disk_day.py:39-51 | one entry per host, in host-map order, from that host's item query (a raising query leaves both dicts empty) |
| DiskPeak.FillItems | get_hosts_disk_day.py:39-51 | the host loop returns exactly those entries |
| DiskPeak.DayValues | get_hosts_disk_day.py:80-81 | a day's values are no more than the samples |
| DiskPeak.DayValuesMembers | get_hosts_disk_day.py:80-81 | the values of day `d` are exactly the values of the samples whose date is `d` |
| DiskPeak.DayBounds | get_hosts_disk_day.py:80-81 | every sample's day lies between the first and last day |
| DiskPeak.DailyMaxFromRows | get_hosts_disk_day.py:81 | each grouped row is a day of the range with its maximum |
| DiskPeak.DailyRowsConcat | get_hosts_disk_day.py:81 | such rows stay such rows when joined |
| DiskPeak.DailyMaxFromIncreasing | get_hosts_disk_day.py:81 | grouped days strictly increase |
| DiskPeak.HasDayConcat | get_hosts_disk_day.py:81 | a day present in one part is present in the whole |
| DiskPeak.DailyMaxFromComplete | get_hosts_disk_day.py:81 | every day of the range with a sample has a row |
| DiskPeak.DailyMaxValue | get_hosts_disk_day.py:81 | each row's value is the maximum of its day's values |
| DiskPeak.DayMaxOf | get_hosts_disk_day.py:81 | the maximum of a day's values is that day's maximum |
| DiskPeak.DailyMaxCovers | get_hosts_disk_day.py:80-81 | every sample's day has a row |
| DiskPeak.DayInRange | get_hosts_disk_day.py:80-81 | every sample's day lies in the range of days |
| DiskPeak.DayHasValues | get_hosts_disk_day.py:80-81 | a sample's day has at least one value |
| DiskPeak.DailyMaxCorrect | get_hosts_disk_day.py:80-81 | `groupby('date').max()`: days strictly increase, each row holds its day's maximum, and every sample's day is present |
| DiskPeak.DailyMaxValues | get_hosts_disk_day.py:81 | each row holds its day's maximum |
| DiskPeak.DailyMaxCoversAll | get_hosts_disk_day.py:80-81 | every sample's day is present |
| DiskPeak.SizeCell | get_hosts_disk_day.py:64-89 | the mount is skipped when the size query raises; the size is "N/A" when there is no total item, no size sample, or a size of 0; otherwise it is the latest total value divided by 1024^3 (bytes to GB) |
| DiskPeak.RowsOfDays | get_hosts_disk_day.py:83-90 | one result row per grouped day, with the host's IP, the day, the mount, the day's maximum and the size |
| DiskPeak.MountRowsDaily | get_hosts_disk_day.py:61-90 | a mount with usage samples and a size answer gives exactly one row per day, with that day's maximum |
| DiskPeak.MountRowsSkipped | get_hosts_disk_day.py:71-76 | a mount whose usage query raises, whose size query raises, or whose history is empty gives no row |
| DiskPeak.CollectHostRows | get_hosts_disk_day.py:58-90 | the mount loop returns exactly the rows of all of a host's mounts |
| DiskPeak.HostRowsStep | get_hosts_disk_day.py:58-90 | one more mount adds exactly that mount's rows |
| DiskPeak.CollectMountRows | get_hosts_disk_day.py:59-90 | one mount's body appends exactly that mount's rows |
| DiskPeak.AppendDays | get_hosts_disk_day.py:83-90 | the day loop appends exactly the rows of the grouped days |
| DiskPeak.CollectResults | get_hosts_disk_day.py:56-90 | the host loop returns exactly the results of all hosts |
| DiskPeak.RowLeTotal | get_hosts_disk_day.py:94 | the order by IP, date and mount is total |
| DiskPeak.RowLeTransitive | get_hosts_disk_day.py:94 | that order is transitive |
| DiskPeak.InsertRow | get_hosts_disk_day.py:94 | inserting keeps the rows sorted and adds exactly the new row |
| DiskPeak.SortedAppendRow | get_hosts_disk_day.py:94 | appending a row not below any other keeps the order |
| DiskPeak.RowsBelow | get_hosts_disk_day.py:94 | a permutation of rows at or below a row stays at or below it |
| DiskPeak.SortRows | get_hosts_disk_day.py:94 | `sort_values` gives a sorted permutation of the rows |
| DiskPeak.InsertRowTied | get_hosts_disk_day.py:94 | an inserted row goes after every row with the same IP, date and mount |
| DiskPeak.SortRowsStable | get_hosts_disk_day.py:94 | the multi-column `sort_values` is stable: rows tied on IP, date and mount (two host ids with one IP) keep the order in which they were collected |
| DiskPeak.Dedup | get_hosts_disk_day.py:95 | `drop_duplicates` keeps exactly the same rows, each once |
| DiskPeak.DedupSorted | get_hosts_disk_day.py:94-95 | dropping duplicates keeps sorted rows sorted |
| DiskPeak.FinalTableCorrect | get_hosts_disk_day.py:94-96 | the written table is sorted by IP, date and mount, has no duplicate row, and holds exactly the result rows |
| DiskPeak.DailyDiskPeak | get_hosts_disk_day.py:11-104 | the function returns true exactly when some row was found and the file was written; the table is the sorted, de-duplicated result rows |
| Maintenance.SmallNumber | create_maintenance.py:88 | one or two decimal digits give a number below 100 |
| Maintenance.ClockOf | create_maintenance.py:88 | a parsed `%H:%M` time is a minute of the day, 0 to 1439 |
| Maintenance.ClockRoundTrip | create_maintenance.py:88 | round trip: the `HH:MM` text of any minute of the day parses back to that minute |
| Maintenance.MidnightIsNotAClock | create_maintenance.py:85-88 | `24:00` is not a valid `%H:%M` time, which is why `parse_time` handles it first |
| Maintenance.ParseTimeBounds | create_maintenance.py:78-88 | a parsed time lies within its date's day, both ends included, and is the next midnight exactly for `24:00` |
| Maintenance.ParseTimeLeadingSpace | create_maintenance.py:88 | white space before the time, as in `2024/01/01 \t10:00`, is skipped by the format's space |
| Maintenance.ParseTimeTrailingSpace | create_maintenance.py:85-88 | white space after the date is skipped before a clock time, and makes `24:00` fail because the date alone is not fully converted |
| Maintenance.CorrectedBounds | create_maintenance.py:113-115 | after the overnight correction the end is after the start and at most a day later, and a zero-length result happens only for a start of `24:00` with an end of `00:00` |
| Maintenance.StampClock | create_maintenance.py:122 | each stamp of the name splits into the date text and an `HH:MM` text that parses back to the time |
| Maintenance.WindowPadding | create_maintenance.py:117-119 | the window starts 30 minutes early and lasts its corrected range plus an hour |
| Maintenance.RowWindowWellFormed | create_maintenance.py:103-122 | every window read from a row lasts between one hour and a day plus an hour |
| Maintenance.RowWindowFormatted | create_maintenance.py:103-122 | a row `ip, "date start-end"` reads as that IP with the padded window of the two parsed times |
| Maintenance.ParsedRowsAbort | create_maintenance.py:95-135 | one malformed row makes the whole file fail, whatever rows come before or after it |
| Maintenance.ParsedRowsStep | create_maintenance.py:102-125 | one more well-formed row adds exactly its window |
| Maintenance.ParsedRowsEach | create_maintenance.py:102-125 | a file that parses gives one window per row, in row order, each that row's window |
| Maintenance.Windows | create_maintenance.py:125 | the windows of the rows, in row order |
| Maintenance.GroupsGet | create_maintenance.py:125 | `setdefault(...).append(...)`: a window's group holds the looked-up host ids of exactly its rows, in row order; a window of no row has no group |
| Maintenance.IdsForAbsent | create_maintenance.py:125 | a window of no row collects no host id |
| Maintenance.GroupsKeys | create_maintenance.py:125-128 | groups come in the order of their window's first row, each window once |
| Maintenance.GroupWindows | create_maintenance.py:125-128 | every group belongs to a window of some row |
| Maintenance.Resolved | create_maintenance.py:130 | dropping `None` keeps at most the ids there were |
| Maintenance.ResolvedMembers | create_maintenance.py:130 | the kept ids are exactly the ids that were found |
| Maintenance.ResolvedConcat | create_maintenance.py:130 | the host list keeps the rows' order and repeats: a found id adds itself, a miss adds nothing, and two runs of rows give their ids one after the other |
| Maintenance.RequestFor | create_maintenance.py:42-76 | a request is made exactly when no maintenance of that name exists; it carries the name and hosts, `active_since` and `active_till` as the UTC seconds of the window's local start and end in Asia/Shanghai, time-period type 0, a start date equal to `active_since`, and a period equal to `active_till - active_since` |
| Maintenance.RequestsOfMembers | create_maintenance.py:128-132 | every request belongs to a group with a resolved host and a free name, with that group's window and hosts; every such group has its request |
| Maintenance.OutcomeRequests | create_maintenance.py:90-135 | every maintenance created has at least one host, a period between 3600 s and 90000 s, and a name not already in use |
| Maintenance.ReadAndProcessCsv | create_maintenance.py:90-135 | the reading loop and the creation loop return exactly the requests of the model |
| Maintenance.CreateAll | create_maintenance.py:128-132 | the creation loop returns exactly the requests of the groups |
| HostSearch.StatusText | search_hosts_api.py:76 | "启用" exactly when the status is `"0"`, otherwise "禁用" |
| HostSearch.InterfaceInfoNone | search_hosts_api.py:122-129 | with no interface whose IP is non-blank, the result is "无IP地址" and "无类型" |
| HostSearch.InterfaceInfoFirst | search_hosts_api.py:122-129 | otherwise the IP and type name of the first interface with a non-blank IP |
| HostSearch.GetHostInterfaceInfo | search_hosts_api.py:116-129 | the interface loop with its `break` returns exactly that pair |
| HostSearch.GroupInfo | search_hosts_api.py:131-137 | one entry per group, in order, with the "未知组ID"/"未知组名称" defaults |
| HostSearch.TemplateInfo | search_hosts_api.py:139-145 | one entry per template, in order, with the "未知模板ID"/"未知模板名称" defaults |
| HostSearch.ProxyEntriesGet | search_hosts_api.py:31 | the proxy cache maps an id to the name of the last proxy with that id |
| HostSearch.ProxyOfKnown | search_hosts_api.py:147-155 | a host's proxy entry is its cached proxy, else the "无代理ID"/"无代理名称" entry |
| HostSearch.ProxyOfFailed | search_hosts_api.py:32-34 | when the proxy query raised, every host gets the "无代理ID"/"无代理名称" entry |
| HostSearch.TriggersOf | search_hosts_api.py:157-166 | a host always yields at least one trigger, the placeholder when it has none |
| HostSearch.ColumnDefined | search_hosts_api.py:95-108 | a record has a column exactly for the twelve default field names |
| HostSearch.PlaceholderRow | search_hosts_api.py:163-165 | a host without triggers gets a row with "未知Trigger ID", "未知Trigger Name" and "禁用", because the placeholder's keys differ from the ones looked up |
| HostSearch.ProjectGet | search_hosts_api.py:111 | a projected row has a field exactly when it was asked for and is a column, with the column's value |
| HostSearch.ProjectKeys | search_hosts_api.py:111 | the projected row's keys are the asked-for known fields, in the order asked, each once |
| HostSearch.FieldsOf | search_hosts_api.py:24-25 | a non-empty field list is used as given; otherwise the defaults |
| HostSearch.PresentAll | search_hosts_api.py:111 | asking only for known fields keeps all of them |
| HostSearch.DefaultProjection | search_hosts_api.py:24-25 | with no field list, a row has the twelve default columns in their order |
| HostSearch.DefaultKeys | search_hosts_api.py:111 | projecting onto the default fields gives exactly the default keys |
| HostSearch.DefaultFieldsDistinct | search_hosts_api.py:24 | the default field names are distinct |
| HostSearch.RowsOfHost | search_hosts_api.py:93-112 | one row per trigger of the host |
| HostSearch.RowsOfTriggers | search_hosts_api.py:93-112 | one row per trigger given |
| HostSearch.RowsOfHostAt | search_hosts_api.py:93-112 | row `k` of a host is the record of its trigger `k` (the placeholder for a trigger-less host) with the requested fields |
| HostSearch.RowsOfTriggersAt | search_hosts_api.py:93-112 | row `k` is the record of trigger `k` with the requested fields |
| HostSearch.AllRowsCount | search_hosts_api.py:71-114 | the result has one row per host and trigger, a host without triggers counting once |
| HostSearch.ParamsOfGiven | search_hosts_api.py:37-59 | each filter is present exactly when its argument was given: the host name filters `host`, the IP is the one element of `filter.ip`, the keyword searches `host` and `name`, and the template, group and proxy ids appear for their names |
| HostSearch.GetHostInfo | search_hosts_api.py:8-114 | `get_host_info` returns exactly the rows of the model, and raises when a lookup or the host query raises |
| HostSearch.CollectRows | search_hosts_api.py:71-112 | the host loop returns exactly all rows |
| HostSearch.HostRows | search_hosts_api.py:93-112 | the trigger loop returns exactly the host's rows |
| HostSearch.AppendRow | search_hosts_api.py:95-112 | one trigger's body appends exactly its row |
| TriggerUpdate.StatusName | update_trigger_api.py:64 | "正常" exactly for value `"0"`, "问题" exactly for `"1"`, "未知" for anything else or a missing value |
| TriggerUpdate.EnabledName | update_trigger_api.py:65 | "启用" exactly for status `"0"`, "禁用" exactly for `"1"`, "未知" otherwise |
| TriggerUpdate.BaseValues | update_trigger_api.py:59-66 | the six fixed fields of a trigger record |
| TriggerUpdate.Fixed | update_trigger_api.py:59-66 | the dict literal: one entry per key, in order, each a single value |
| TriggerUpdate.FixedKeysDistinct | update_trigger_api.py:59-66 | the six fixed keys are distinct |
| TriggerUpdate.BaseInfoKeys | update_trigger_api.py:59-66 | the record starts with exactly the six fixed keys, in their order, each once |
| TriggerUpdate.Names | update_trigger_api.py:68 | the tag names, one per tag, in order |
| TriggerUpdate.MergeValuesClosed | update_trigger_api.py:67-77 | merging a key's tag values: a new key gets the single value, or the list when several tags share it; a key holding one value becomes the list of that value followed by the tag values |
| TriggerUpdate.MergeTagsGet | update_trigger_api.py:67-77 | after the tag loop, each key holds its earlier value merged with the values of exactly the tags of that name, in tag order |
| TriggerUpdate.MergeTagsKeys | update_trigger_api.py:67-77 | the keys after the tag loop are the earlier keys followed by the new tag names, in order of first appearance, each once |
| TriggerUpdate.FixedKeysFirst | update_trigger_api.py:59-77 | the six fixed keys stay first, in their order, whatever the tags |
| TriggerUpdate.FirstSeenPrefix | update_trigger_api.py:67-77 | a list without repeats stays the start of the list of first appearances of any extension |
| TriggerUpdate.FixedNameClash | update_trigger_api.py:70-75 | a tag named like a fixed field turns that field into the list of its fixed value followed by the tag values |
| TriggerUpdate.TagNameInRecord | update_trigger_api.py:70-77 | any other tag name holds its one tag value, or the list of its values when it repeats, and is absent when no tag has it |
| TriggerUpdate.NatText | update_trigger_api.py:55 | `str(n)`: a non-empty text of decimal digits that reads as `n`, starting with `0` only for 0 |
| TriggerUpdate.IntText | update_trigger_api.py:55 | `str(n)` of an integer: a minus sign exactly for a negative number, followed by the digits of its magnitude |
| TriggerUpdate.IntTextInjective | update_trigger_api.py:55 | two integers have the same text exactly when they are equal |
| TriggerUpdate.InfosOf | update_trigger_api.py:50-80 | one record per trigger when the filter keeps them, none otherwise |
| TriggerUpdate.InfosOfAt | update_trigger_api.py:51-79 | record `k` is the record of trigger `k` |
| TriggerUpdate.MonitorFilter | update_trigger_api.py:51-56 | with a monitor key and value given, a missing item value drops every trigger; without them every trigger is kept; when kept, the records are exactly the triggers' records in order |
| TriggerUpdate.TextComparison | update_trigger_api.py:55 | the item value is compared as text: `"1"` matches the number 1 and `"01"` does not |
| TriggerUpdate.GetTriggerInfo | update_trigger_api.py:40-83 | the trigger loop returns exactly the records of the model, and none when the trigger query raised |
| TriggerUpdate.MergeTagsLoop | update_trigger_api.py:67-77 | the tag loop returns exactly the merged record |
| TriggerUpdate.HostIdByName | update_trigger_api.py:13-23 | an empty answer or a raising query gives `(None, None, None)` |
| TriggerUpdate.SearchOf | update_trigger_api.py:42 | a description search exactly when a non-empty trigger name is given |
| TriggerUpdate.UnknownHost | update_trigger_api.py:96-99 | a host name that is not found gives no record |
| TriggerUpdate.NonBlankMembers | update_trigger_api.py:92 | `dropna()` keeps exactly the cells that hold a value |
| TriggerUpdate.SheetHostsOnce | update_trigger_api.py:92 | `dropna().unique()` holds exactly the non-empty cells, each once |
| TriggerUpdate.FirstSeenNoRepeats | update_trigger_api.py:92 | keeping first appearances leaves no repeat |
| TriggerUpdate.ProcessHostsFromExcel | update_trigger_api.py:85-104 | the sheet loop returns exactly the records of the model: none without a 'Host Name' column or when reading fails |
| TriggerUpdate.CollectHosts | update_trigger_api.py:95-99 | the host loop returns the records of every listed host that is found, in order |
| TriggerUpdate.Exclusive | update_trigger_api.py:132-138 | giving both a host name and a file, or neither, returns nothing and updates nothing |
| TriggerUpdate.UpdateGating | update_trigger_api.py:140-169 | with `get_triggers_only` the records are returned and nothing is updated; otherwise nothing is returned; with no status nothing is updated; every update sets the requested status |
| TriggerUpdate.UpdatesStatus | update_trigger_api.py:163-167 | every update carries the requested status and the Trigger ID of some listed record that has one; there are no more updates than records |
| TriggerUpdate.UpdatesConcat | update_trigger_api.py:163-167 | updates follow record order: one update for a record with a Trigger ID, none for one without, and two runs of records give their updates one after the other |
| TriggerUpdate.UpdatesAll | update_trigger_api.py:163-167 | every record with a truthy Trigger ID is updated with that id |
| TriggerUpdate.UpdateTriggersMethod | update_trigger_api.py:119-169 | `update_triggers` returns and updates exactly what the model says |
| TriggerUpdate.UpdateAll | update_trigger_api.py:164-167 | the update loop issues exactly the updates of the model |
| HostCreate.MissingOfMembers | create_host.py:43 | a column is reported missing exactly when it is required and absent |
| HostCreate.MissingOfOrder | create_host.py:43 | missing columns are reported in the order of the required list |
| HostCreate.MissingColumnsEmpty | create_host.py:39-45 | nothing is missing exactly when IP, proxy, system type and brand are all present; the model column is never required |
| HostCreate.HostInterface | create_host.py:50-66 | main and useip are 1, the IP is the host's, dns is empty; type 1 and port 10050 exactly for agent, type 2 and port 161 exactly for SNMP; SNMP details (version 2, bulk 1, the community macro) exactly for SNMP |
| HostCreate.BrandOf | create_host.py:80 | the brand is never empty: the cell when it holds text, else "Unknown" |
| HostCreate.ModelOf | create_host.py:81 | the model is the cell when it holds text, else empty |
| HostCreate.VisibleNameParts | create_host.py:82 | round trip: when no part contains `_`, splitting the visible name at `_` gives back the IP, the brand and, only when non-empty, the model |
| HostCreate.SystemTypeOf | create_host.py:146-149 | SNMP exactly when the stripped, lower-cased cell is "snmp"; agent exactly when it is "agent"; an empty or missing cell is invalid |
| HostCreate.SystemTypeIgnoresPadding | create_host.py:146-149 | white space around the cell does not change the system type it selects |
| HostCreate.SystemTypeIgnoresCase | create_host.py:146-149 | the lower-cased cell selects the same system type as the cell |
| HostCreate.RequestOfSpec | create_host.py:68-114 | the row fails for an invalid type, else for an empty IP, else when its proxy cannot be resolved; otherwise the request is JSON-RPC 2.0 `host.create` with id 1 and the session token, the IP as host, the visible name, the type's interface, the group, the type's template and status 0, and a proxy id exactly when the proxy name resolved to a non-empty id |
| HostCreate.RowEntry | create_host.py:143-181 | a data row always gives a row entry (created, rejected or failed), never a run-level error |
| HostCreate.RowEntries | create_host.py:141-181 | one entry per data row, each a row entry |
| HostCreate.RowEntriesAt | create_host.py:142-181 | entry `k` is the entry of row `k` |
| HostCreate.RowFailureLine | create_host.py:176-181 | a row whose request cannot be built fails with its reason and its sheet line, `index + 2` |
| HostCreate.CreateHostsShape | create_host.py:116-182 | a login, configuration or read failure, or a missing required column, gives exactly one error entry; otherwise there is one entry per row |
| HostCreate.CreateHostsMethod | create_host.py:116-182 | `create_hosts` returns exactly the entries of the model |
| HostCreate.CollectEntries | create_host.py:141-181 | the row loop returns exactly the row entries |
| TriggerExport.MatchingMembers | export_triggers.py:50 | a row is kept exactly when its trigger name contains the keyword |
| TriggerExport.MatchingConcat | export_triggers.py:50 | the filter keeps the order of the rows |
| TriggerExport.NamelessRow | export_triggers.py:50 | a row without a trigger name is kept only for the empty keyword |
| TriggerExport.CollectedConcat | export_triggers.py:47-51 | the rows of a list of templates are those of its first part followed by those of the rest (template order) |
| TriggerExport.CollectedStep | export_triggers.py:47-51 | one more template adds exactly its kept rows, and a raising search makes the whole run raise |
| TriggerExport.FormatOf | export_triggers.py:19-24 | CSV exactly when the lower-cased format is "csv", Excel exactly when it is "xlsx" |
| TriggerExport.FormatIgnoresCase | export_triggers.py:19-24 | the format is read without regard to case |
| TriggerExport.ExportSpec | export_triggers.py:10-57 | a file is written exactly when every search answered, some row matched, the format is known and the write succeeds; nothing is written exactly when no row matched; the run raises exactly when a search raised, or rows matched and the format is unknown or the write failed; the file holds exactly the kept rows in the chosen format, and every written row's trigger name contains the keyword |
| TriggerExport.CollectedKeeps | export_triggers.py:47-51 | every collected row passed the keyword filter |
| TriggerExport.SearchAndExportMethod | export_triggers.py:10-57 | the template loop and the export return exactly the outcome of the model |
| TriggerExport.CollectedFails | export_triggers.py:47-51 | once a search raises, the whole run raises |

## Where the code and its description differ

The model follows the code in each place below.

- The repository's description says the peak time lies inside the report window. In the code it does not have to: `get_mem_usagerate.py:172` looks for the peak value in the whole resampled series. `Peak.PeakTimeMayPrecedeWindow` gives a seven-minute series whose peak time comes before the window.
- The description also says the report window lies within the resampled series. In the code it does not have to: `get_mem_usagerate.py:168-169` does not clip the window to the series. `Peak.WindowNotClipped` shows that a one-minute series gets a window of `2w` minutes.
- The description gives the trailing sum at minute `t` as the sum over `[t - w, t]`, both ends included. `rolling('wT')` (`get_mem_usagerate.py:61`) takes a window of `w` minutes that is open at its start, `(t - w, t]`, so `w` minutes count and minute `t - w` does not. `Resampling.WindowSumIsTrailingTimeWindow` states the half-open window.
- A fourth point concerns the padded maintenance window. It is at least an hour long, not 30 minutes: `create_maintenance.py:114-119` adds 30 minutes at each end of a range that is never negative. `Maintenance.RowWindowWellFormed` and `Maintenance.OutcomeRequests` state this bound.

## Left out

- Remote calls are not modelled as behaviour: every `zapi.*` call, `do_request` and `requests.post`. Their answers are parameters of the model: values, or total functions from the query to the answer, with `None` for a call that raised.
- The login (`login_zabbix_api.py`) and the lookups of `get_hostgroup_info.py`, `get_templateid.py` and `get_proxy_info.py` are not part of this model. Their outcomes are the `auth`, `config` and `proxyOf` parameters of `HostCreate.CreateHosts`.
- I/O is left out: reading the Excel and CSV files, and writing the report files. A read file is a value (columns and rows of text cells; a blank cell is `None`). A write is a flag that says whether it succeeded: `writeOk` of `DiskPeak.DailyDiskPeak` and of `TriggerExport.SearchAndExport`, where a failed write raises as lines 26-28 of `export_triggers.py` re-raise it.
- Logging, `print`, `tqdm` progress bars and the `time.sleep(2)` between attempts have no effect on the results and are left out.
- MemUsage: the `ThreadPoolExecutor` fan-out over hosts (`get_mem_usagerate.py:263-270`) is left out, because it is concurrency. The model gives each host's rows on their own (`MemUsage.ProcessHost`). The report table is modelled for any list of rows, not for the completion order of the threads.
- MemUsage: the summary sheet and the early returns of `get_cpu_peak_data` (`get_mem_usagerate.py:209-258`) only log and write, so they are left out.
- MemUsage: date parsing is left out. Dates are day numbers, and a day runs from its midnight for 86400 seconds. `strptime`/`strftime`, `datetime.fromtimestamp` and the time zone are not modelled, nor are samples whose value does not parse as a float.
- `round(..., 2)` is not modelled in `get_mem_usagerate.py:179-180` or `get_hosts_disk_day.py:70,88`. Values are exact reals.
- DiskPeak.SizeCell: the size is the latest total value divided by 1024^3, as an exact real, so "N/A" for a size of 0 means a total of exactly 0, not a size that rounds to 0.00 GB.
- DiskPeak: the day of a sample is `clock / 86400` (UTC days, as `pd.to_datetime(unit='s')` gives them). The date text `%Y%m%d` is that day number.
- Resampling.SortByClock: `sort_values('timestamp')` with pandas' default algorithm does not fix the order of samples with equal timestamps. That order matters: `smooth_spikes` runs on the sorted samples before resampling (`get_mem_usagerate.py:155-159`), so two orders of a tie can give different smoothed values, minute means and peak. The model picks one order, the stable one (ties in the order the server returned them); the other orders are not modelled.
- The trailing-window and peak functions require a window width `w > 0`; a width of 0 is not modelled. The scripts pass 30 or 15.
- Maintenance: date parsing and formatting (`strptime('%Y/%m/%d')`, `strftime('%Y-%m-%d')`) are the parameters `dayOf` and `dateText`. The white space rule of `strptime` is modelled (`Maintenance.DateTimeOf`): white space after the date or before the time is skipped, and trailing white space makes a date alone fail. Asia/Shanghai is the fixed offset of eight hours.
- Maintenance.ClockOf: `%H` and `%M` are read with ASCII digits only; `strptime`'s `\d` also accepts other Unicode decimal digits, which the model rejects.
- Maintenance.DateTimeOf: the date is read from the text before the separating space. `%d` also has the form ` [1-9]`, a space and one digit, so `strptime` can take the day from the far side of that space: the range text `2024/01/ 1\t10:00-1\t12:00` is read as day 1 by the script and rejected by the model.
- Maintenance: the answer of `maintenance.create` is not modelled. The model gives the requests sent, and a create that fails is only logged.
- HostSearch: the `search_hosts_by_*` wrappers (`search_hosts_api.py:168-220`) only call `get_host_info` with one argument set. They are not modelled separately.
- TriggerUpdate.GetTriggerInfo: the monitor item's value is one answer per host and key. The source asks again for every trigger, which gives the same answer for an unchanged server.
- TriggerUpdate: the results of `update_trigger_status` are only logged. The model gives the list of updates issued.
- TriggerUpdate: sheet cells that are not text are not modelled (`dropna().unique()` over numbers or dates).
- Text.Lower: only ASCII letters are lower-cased. Python's `lower()` maps every cased character, so the contract is weaker than `str.lower`. It is enough for the comparisons with "snmp", "agent", "csv" and "xlsx" the scripts make.
- Error messages are datatypes (`HostCreate.Failure`, `HostCreate.Entry`), not the formatted Chinese texts of the source.
- `update_trgger.py` and `export_host.py` are top-level orchestration scripts and are not part of this model.
