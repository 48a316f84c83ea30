/**
 * update_trigger_api.py: collects one record per trigger of a host (or of
 * every host named in a spreadsheet column), merging the trigger's tags into
 * the record, optionally keeps only the triggers of a host whose monitored
 * item has a given value, and then either returns the records or switches
 * every listed trigger to a requested status.
 *
 * Remote calls are parameters; a call that raised answers `None`.
 */
module TriggerUpdate {
  import opened Wrappers
  import opened Text
  import opened Dict

  // ------------------------------------------------------------ status maps

  /** `STATUS_MAP.get(value, "未知")`: the trigger's problem state. */
  function StatusName(value: Option<String>): (r: String)
    ensures r == "正常" <==> value == Some("0")
    ensures r == "问题" <==> value == Some("1")
    ensures r == "未知" <==> value != Some("0") && value != Some("1")
  {
    if value == Some("0") then "正常" else if value == Some("1") then "问题" else "未知"
  }

  /** `VALUE_MAP.get(status, "未知")`: whether the trigger is enabled. */
  function EnabledName(status: Option<String>): (r: String)
    ensures r == "启用" <==> status == Some("0")
    ensures r == "禁用" <==> status == Some("1")
    ensures r == "未知" <==> status != Some("0") && status != Some("1")
  {
    if status == Some("0") then "启用" else if status == Some("1") then "禁用" else "未知"
  }

  // ------------------------------------------------------------ the record

  /** A tag as the API returns it; a missing `tag` or `value` key is `None`. */
  datatype Tag = Tag(tag: Option<String>, value: Option<String>)

  datatype Trigger = Trigger(triggerId: Option<String>, description: Option<String>, value: Option<String>,
                             status: Option<String>, tags: Option<seq<Tag>>)

  /** A record value: a single value, or the list a repeated name collects. */
  datatype Val = One(v: Option<String>) | Many(vs: seq<Option<String>>)

  /** A trigger record, keyed by field or tag name (a tag without a name is keyed `None`). */
  type Info = Dict<Option<String>, Val>

  const FixedKeys: seq<Option<String>> := [Some("Host Name"), Some("Host IP"), Some("Trigger ID"),
                                           Some("Trigger Name"), Some("Trigger Status"), Some("Trigger Enabled")]

  function OrElse(v: Option<String>, default: String): String {
    match v
    case Some(s) => s
    case None => default
  }

  /** Lines 59-66: the values of the six fixed fields, in the order of `FixedKeys`. */
  function BaseValues(hostName: String, hostIp: String, t: Trigger): (vs: seq<String>)
    ensures |vs| == 6
  {
    [hostName, hostIp, OrElse(t.triggerId, "未知Trigger ID"), OrElse(t.description, "未知Trigger Name"),
     StatusName(t.value), EnabledName(t.status)]
  }

  /** The record holding `values[i]` under `keys[i]`. */
  function Fixed(keys: seq<Option<String>>, values: seq<String>): (r: Info)
    requires |keys| == |values|
    ensures |r| == |keys| && forall i | 0 <= i < |keys| :: r[i] == (keys[i], One(Some(values[i])))
  {
    seq(|keys|, i requires 0 <= i < |keys| => (keys[i], One(Some(values[i]))))
  }

  function BaseInfo(hostName: String, hostIp: String, t: Trigger): Info {
    Fixed(FixedKeys, BaseValues(hostName, hostIp, t))
  }

  /** The six names differ in length, so no two are equal. */
  lemma FixedKeysDistinct()
    ensures forall i, j | 0 <= i < j < |FixedKeys| :: FixedKeys[i] != FixedKeys[j]
  {
    var lengths := [9, 7, 10, 12, 14, 15];
    assert forall i | 0 <= i < 6 :: |FixedKeys[i].value| == lengths[i];
  }

  lemma BaseInfoKeys(hostName: String, hostIp: String, t: Trigger)
    ensures Keys(BaseInfo(hostName, hostIp, t)) == FixedKeys
    ensures DistinctKeys(BaseInfo(hostName, hostIp, t))
  {
    FixedKeysDistinct();
  }

  /** The tags of a trigger; a trigger without the key has none. */
  function TagsOf(t: Trigger): seq<Tag> {
    match t.tags
    case None => []
    case Some(ts) => ts
  }

  /** Lines 68-77 for one tag: a new name gets the value; a present name turns into, or extends, a list. */
  function MergeValue(prev: Option<Val>, value: Option<String>): Val {
    match prev
    case None => One(value)
    case Some(One(e)) => Many([e, value])
    case Some(Many(vs)) => Many(vs + [value])
  }

  function MergeTag(info: Info, tag: Tag): Info {
    Put(info, tag.tag, MergeValue(Get(info, tag.tag), tag.value))
  }

  /** Lines 67-77: the tags merged in order. */
  function MergeTags(info: Info, tags: seq<Tag>): Info {
    if tags == [] then info
    else MergeTag(MergeTags(info, tags[..|tags| - 1]), tags[|tags| - 1])
  }

  /** The values of the tags named `name`, in order. */
  function ValuesOf(tags: seq<Tag>, name: Option<String>): seq<Option<String>> {
    if tags == [] then []
    else ValuesOf(tags[..|tags| - 1], name) + (if tags[|tags| - 1].tag == name then [tags[|tags| - 1].value] else [])
  }

  function Names(tags: seq<Tag>): (ns: seq<Option<String>>)
    ensures |ns| == |tags| && forall k | 0 <= k < |tags| :: ns[k] == tags[k].tag
  {
    if tags == [] then [] else Names(tags[..|tags| - 1]) + [tags[|tags| - 1].tag]
  }

  /** Merging `vs` one by one into what a name held before. */
  function MergeValues(prev: Option<Val>, vs: seq<Option<String>>): Option<Val> {
    if vs == [] then prev else Some(MergeValue(MergeValues(prev, vs[..|vs| - 1]), vs[|vs| - 1]))
  }

  /**
   * What a name ends up holding: a name not there before holds its single
   * value, or the list of its values when it occurs twice or more; a name
   * that held a single value holds the list of that value and the tag values.
   */
  lemma {:induction false} MergeValuesClosed(prev: Option<Val>, vs: seq<Option<String>>)
    requires prev.None? || prev.value.One?
    ensures MergeValues(prev, vs) ==
      if vs == [] then prev
      else if prev.None? then (if |vs| == 1 then Some(One(vs[0])) else Some(Many(vs)))
      else Some(Many([prev.value.v] + vs))
  {
    if |vs| > 1 {
      var init := vs[..|vs| - 1];
      MergeValuesClosed(prev, init);
      if prev.None? && |init| == 1 {
        assert vs == [init[0], vs[|vs| - 1]];
      } else if prev.None? {
        assert vs == init + [vs[|vs| - 1]];
      } else {
        assert [prev.value.v] + vs == [prev.value.v] + init + [vs[|vs| - 1]];
      }
    } else if |vs| == 1 {
      assert vs[..0] == [];
      if prev.Some? {
        assert [prev.value.v] + vs == [prev.value.v, vs[0]];
      }
    }
  }

  /** After merging, each name holds its old entry merged with the values of its tags. */
  lemma {:induction false} MergeTagsGet(info: Info, tags: seq<Tag>, name: Option<String>)
    ensures Get(MergeTags(info, tags), name) == MergeValues(Get(info, name), ValuesOf(tags, name))
  {
    if tags != [] {
      var init := tags[..|tags| - 1];
      var t := tags[|tags| - 1];
      MergeTagsGet(info, init, name);
      MergeTagsGet(info, init, t.tag);
      var m := MergeTags(info, init);
      PutGet(m, t.tag, MergeValue(Get(m, t.tag), t.value), name);
      if t.tag != name {
        assert ValuesOf(tags, name) == ValuesOf(init, name) + [] == ValuesOf(init, name);
      }
    }
  }

  /** The record's keys: the old keys, then each new tag name where it first occurs. */
  lemma {:induction false} MergeTagsKeys(info: Info, tags: seq<Tag>)
    requires FirstSeen(Keys(info)) == Keys(info)
    ensures Keys(MergeTags(info, tags)) == FirstSeen(Keys(info) + Names(tags))
  {
    if tags == [] {
      assert Keys(info) + Names(tags) == Keys(info);
    } else {
      var init := tags[..|tags| - 1];
      var t := tags[|tags| - 1];
      MergeTagsKeys(info, init);
      var m := MergeTags(info, init);
      PutKeys(m, t.tag, MergeValue(Get(m, t.tag), t.value));
      var ys := Keys(info) + Names(init);
      assert Names(tags) == Names(init) + [t.tag];
      var xs := Keys(info) + Names(tags);
      assert xs == ys + [t.tag];
      assert xs[..|xs| - 1] == ys && xs[|xs| - 1] == t.tag;
      assert FirstSeen(xs) == if t.tag in FirstSeen(ys) then FirstSeen(ys) else FirstSeen(ys) + [t.tag];
      assert MergeTags(info, tags) == Put(m, t.tag, MergeValue(Get(m, t.tag), t.value));
    }
  }

  /** Whatever the tags, the six fixed fields come first, in their order. */
  lemma FixedKeysFirst(hostName: String, hostIp: String, t: Trigger, tags: seq<Tag>)
    ensures |MergeTags(BaseInfo(hostName, hostIp, t), tags)| >= 6
    ensures Keys(MergeTags(BaseInfo(hostName, hostIp, t), tags))[..6] == FixedKeys
  {
    var base := BaseInfo(hostName, hostIp, t);
    BaseInfoKeys(hostName, hostIp, t);
    FirstSeenDistinct(Keys(base));
    MergeTagsKeys(base, tags);
    FirstSeenPrefix(Keys(base), Names(tags));
  }

  /** First occurrences of `xs + ys` start with `xs` when `xs` has no repeats. */
  lemma {:induction false} FirstSeenPrefix<T>(xs: seq<T>, ys: seq<T>)
    requires FirstSeen(xs) == xs
    ensures |FirstSeen(xs + ys)| >= |xs| && FirstSeen(xs + ys)[..|xs|] == xs
  {
    if ys == [] {
      assert xs + ys == xs;
    } else {
      var zs := xs + ys;
      var init := ys[..|ys| - 1];
      assert zs[..|zs| - 1] == xs + init;
      FirstSeenPrefix(xs, init);
    }
  }

  /** The record of one trigger (lines 58-77). */
  function InfoOf(hostName: String, hostIp: String, t: Trigger): Info {
    MergeTags(BaseInfo(hostName, hostIp, t), TagsOf(t))
  }

  /** A tag named like a fixed field turns that field into the list of the fixed value and the tag values. */
  lemma FixedNameClash(hostName: String, hostIp: String, t: Trigger, k: nat)
    requires k < 6
    requires ValuesOf(TagsOf(t), FixedKeys[k]) != []
    ensures var vs := ValuesOf(TagsOf(t), FixedKeys[k]);
      Get(InfoOf(hostName, hostIp, t), FixedKeys[k]) == Some(Many([Some(BaseValues(hostName, hostIp, t)[k])] + vs))
  {
    var base := BaseInfo(hostName, hostIp, t);
    var tags := TagsOf(t);
    BaseInfoKeys(hostName, hostIp, t);
    GetAt(base, k);
    assert base[k] == (FixedKeys[k], One(Some(BaseValues(hostName, hostIp, t)[k])));
    MergeTagsGet(base, tags, FixedKeys[k]);
    MergeValuesClosed(Get(base, FixedKeys[k]), ValuesOf(tags, FixedKeys[k]));
  }

  /**
   * A tag name that is not a fixed field holds its only value, or the list of
   * its values in tag order when it occurs more than once.
   */
  lemma TagNameInRecord(hostName: String, hostIp: String, t: Trigger, name: Option<String>)
    requires name !in FixedKeys
    ensures var vs := ValuesOf(TagsOf(t), name);
      Get(InfoOf(hostName, hostIp, t), name) ==
        if vs == [] then None else if |vs| == 1 then Some(One(vs[0])) else Some(Many(vs))
  {
    var base := BaseInfo(hostName, hostIp, t);
    BaseInfoKeys(hostName, hostIp, t);
    MergeTagsGet(base, TagsOf(t), name);
    MergeValuesClosed(Get(base, name), ValuesOf(TagsOf(t), name));
  }

  // ------------------------------------------------------- monitor filter

  /** `str(n)` of a natural number: decimal digits with no leading zero. */
  function NatText(n: nat): (s: String)
    ensures |s| >= 1 && AllDigits(s)
    ensures s[0] == '0' <==> n == 0
    ensures DecimalValue(s) == n
  {
    if n < 10 then
      var s := [(n + '0' as int) as char];
      assert s[..0] == [];
      s
    else
      var init := NatText(n / 10);
      var s := init + [((n % 10) + '0' as int) as char];
      assert s[..|s| - 1] == init;
      s
  }

  /** `str(n)` of an integer. */
  function IntText(n: int): (s: String)
    ensures |s| >= 1
    ensures s[0] == '-' <==> n < 0
    ensures n >= 0 ==> s == NatText(n)
    ensures n < 0 ==> s[1..] == NatText(-n)
  {
    if n < 0 then "-" + NatText(-n) else NatText(n)
  }

  /** Different numbers have different texts, so comparing `str` of both compares the numbers. */
  lemma IntTextInjective(a: int, b: int)
    ensures IntText(a) == IntText(b) <==> a == b
  {
    if IntText(a) == IntText(b) {
      if a >= 0 && b >= 0 {
        assert DecimalValue(NatText(a)) == DecimalValue(NatText(b));
      } else if a < 0 && b < 0 {
        assert IntText(a)[1..] == IntText(b)[1..];
        assert DecimalValue(NatText(-a)) == DecimalValue(NatText(-b));
      }
    }
  }

  /**
   * Lines 53-56: with a monitor key and a value given, a trigger is kept only
   * when the item's last value exists and reads as the given value; otherwise
   * every trigger is kept.
   */
  predicate Keep(f: Filters, itemValue: Option<String>) {
    !(Truthy(f.monitorKey) && f.monitorValue.Some?)
    || (itemValue.Some? && itemValue.value == IntText(f.monitorValue.value))
  }

  // ------------------------------------------------------------ get_trigger_info

  /** The records of the kept triggers, in the API's order. */
  function InfosOf(hostName: String, hostIp: String, triggers: seq<Trigger>, keep: bool): (r: seq<Info>)
    ensures |r| == if keep then |triggers| else 0
  {
    if !keep || triggers == [] then []
    else InfosOf(hostName, hostIp, triggers[..|triggers| - 1], keep) + [InfoOf(hostName, hostIp, triggers[|triggers| - 1])]
  }

  /**
   * `get_trigger_info`: `triggerGet` answers the trigger query (`None` when
   * it raised, giving no records); `itemValue` is the monitored item's last
   * value (`None` when there is no item or the query raised).
   */
  function TriggerInfo(hostName: String, hostIp: String, answer: Option<seq<Trigger>>,
                       f: Filters, itemValue: Option<String>): seq<Info> {
    match answer
    case None => []
    case Some(triggers) => InfosOf(hostName, hostIp, triggers, Keep(f, itemValue))
  }

  lemma {:induction false} InfosOfAt(hostName: String, hostIp: String, triggers: seq<Trigger>, k: nat)
    requires k < |triggers|
    ensures InfosOf(hostName, hostIp, triggers, true)[k] == InfoOf(hostName, hostIp, triggers[k])
  {
    if k < |triggers| - 1 {
      InfosOfAt(hostName, hostIp, triggers[..|triggers| - 1], k);
    }
  }

  /**
   * Lines 51-79: an active monitor filter that the item value fails drops
   * every trigger; otherwise each trigger gives its record, in order.
   */
  lemma MonitorFilter(hostName: String, hostIp: String, triggers: seq<Trigger>, f: Filters, itemValue: Option<String>)
    ensures var r := TriggerInfo(hostName, hostIp, Some(triggers), f, itemValue);
      && (Truthy(f.monitorKey) && f.monitorValue.Some? && itemValue.None? ==> r == [])
      && (!Truthy(f.monitorKey) || f.monitorValue.None? ==> |r| == |triggers|)
      && (Keep(f, itemValue) ==> |r| == |triggers| && forall k | 0 <= k < |triggers| :: r[k] == InfoOf(hostName, hostIp, triggers[k]))
      && (!Keep(f, itemValue) ==> r == [])
  {
    if Keep(f, itemValue) {
      forall k | 0 <= k < |triggers| ensures InfosOf(hostName, hostIp, triggers, true)[k] == InfoOf(hostName, hostIp, triggers[k]) {
        InfosOfAt(hostName, hostIp, triggers, k);
      }
    }
  }

  /** The comparison is on text: an expected 1 keeps the value "1" but drops "01". */
  lemma TextComparison(f: Filters)
    requires Truthy(f.monitorKey) && f.monitorValue == Some(1)
    ensures Keep(f, Some("1")) && !Keep(f, Some("01")) && !Keep(f, None)
  {
    assert IntText(1) == "1";
  }

  /** The loop of lines 51-79. */
  method GetTriggerInfo(hostName: String, hostIp: String, answer: Option<seq<Trigger>>,
                        f: Filters, itemValue: Option<String>)
    returns (infos: seq<Info>)
    ensures infos == TriggerInfo(hostName, hostIp, answer, f, itemValue)
  {
    infos := [];
    if answer.None? {
      return;
    }
    var triggers := answer.value;
    var keep := Keep(f, itemValue);
    for i := 0 to |triggers|
      invariant infos == InfosOf(hostName, hostIp, triggers[..i], keep)
    {
      assert triggers[..i + 1][..i] == triggers[..i];
      if !keep {
        continue;
      }
      var t := triggers[i];
      var info := BaseInfo(hostName, hostIp, t);
      var tags := TagsOf(t);
      info := MergeTagsLoop(info, tags);
      infos := infos + [info];
    }
    assert triggers[..|triggers|] == triggers;
  }

  /** The inner loop over the tags (lines 67-77). */
  method MergeTagsLoop(base: Info, tags: seq<Tag>) returns (info: Info)
    ensures info == MergeTags(base, tags)
  {
    info := base;
    for j := 0 to |tags|
      invariant info == MergeTags(base, tags[..j])
    {
      assert tags[..j + 1][..j] == tags[..j];
      var name := tags[j].tag;
      var existing: Option<Val> := Get(info, name);
      if existing.Some? {
        match existing.value
        case Many(vs) => info := Put(info, name, Many(vs + [tags[j].value]));
        case One(e) => info := Put(info, name, Many([e, tags[j].value]));
      } else {
        info := Put(info, name, One(tags[j].value));
      }
    }
    assert tags[..|tags|] == tags;
  }

  // ------------------------------------------------------------- host lookup

  datatype HostRec = HostRec(hostId: Option<String>, name: Option<String>, host: Option<String>)

  /** `get_host_id_by_name`: the first match's id, name and host, or three `None`s. */
  function HostIdByName(answer: Option<seq<HostRec>>): (r: (Option<String>, Option<String>, Option<String>))
    ensures (answer.None? || answer.value == []) ==> r == (None, None, None)
  {
    match answer
    case None => (None, None, None)
    case Some(hosts) =>
      if hosts == [] then (None, None, None)
      else (hosts[0].hostId, Some(OrElse(hosts[0].name, "未知Host Name")), Some(OrElse(hosts[0].host, "未知Host IP")))
  }

  predicate Truthy(v: Option<String>) {
    v.Some? && v.value != []
  }

  /** The calls a host depends on: its lookup, its triggers and its monitored item's value. */
  datatype Remote = Remote(hostGet: String -> Option<seq<HostRec>>,
                           triggerGet: (String, Option<String>) -> Option<seq<Trigger>>,
                           itemValue: (String, Option<String>) -> Option<String>)

  /** The options of a run: the trigger name searched for, and the monitored item's key and expected value. */
  datatype Filters = Filters(triggerName: Option<String>, monitorKey: Option<String>, monitorValue: Option<int>)

  /** Line 42: the description searched for, only when a trigger name is given. */
  function SearchOf(f: Filters): (r: Option<String>)
    ensures r.Some? <==> Truthy(f.triggerName)
  {
    if Truthy(f.triggerName) then f.triggerName else None
  }

  /** Lines 96-99 and 144-154: the records of one host name; none when it is not found or has no id. */
  function HostInfos(name: String, remote: Remote, f: Filters): seq<Info> {
    var (hostId, resolved, ip) := HostIdByName(remote.hostGet(name));
    if Truthy(hostId) then
      TriggerInfo(resolved.value, ip.value, remote.triggerGet(hostId.value, SearchOf(f)), f, remote.itemValue(hostId.value, f.monitorKey))
    else []
  }

  /** An unknown host contributes no record. */
  lemma UnknownHost(name: String, remote: Remote, f: Filters)
    requires remote.hostGet(name).None? || remote.hostGet(name) == Some([])
    ensures HostInfos(name, remote, f) == []
  {
  }

  // --------------------------------------------------------------- the sheet

  /** The host names of the sheet: blank cells (`NaN`) dropped, then duplicates removed, first first. */
  function SheetHosts(cells: seq<Option<String>>): seq<String> {
    FirstSeen(NonBlank(cells))
  }

  function NonBlank(cells: seq<Option<String>>): seq<String> {
    if cells == [] then []
    else NonBlank(cells[..|cells| - 1]) + (match cells[|cells| - 1] case Some(s) => [s] case None => [])
  }

  lemma {:induction false} NonBlankMembers(cells: seq<Option<String>>)
    ensures forall s :: s in NonBlank(cells) <==> Some(s) in cells
  {
    if cells != [] {
      NonBlankMembers(cells[..|cells| - 1]);
      assert cells == cells[..|cells| - 1] + [cells[|cells| - 1]];
    }
  }

  /** Each name of the column is looked up once, and nothing else is. */
  lemma SheetHostsOnce(cells: seq<Option<String>>)
    ensures forall s :: s in SheetHosts(cells) <==> Some(s) in cells
    ensures forall i, j | 0 <= i < j < |SheetHosts(cells)| :: SheetHosts(cells)[i] != SheetHosts(cells)[j]
  {
    NonBlankMembers(cells);
    FirstSeenMembers(NonBlank(cells));
    FirstSeenNoRepeats(NonBlank(cells));
  }

  lemma {:induction false} FirstSeenNoRepeats<T>(xs: seq<T>)
    ensures forall i, j | 0 <= i < j < |FirstSeen(xs)| :: FirstSeen(xs)[i] != FirstSeen(xs)[j]
  {
    if xs != [] {
      FirstSeenNoRepeats(xs[..|xs| - 1]);
    }
  }

  function InfosOfHosts(names: seq<String>, remote: Remote, f: Filters): seq<Info> {
    if names == [] then []
    else InfosOfHosts(names[..|names| - 1], remote, f) + HostInfos(names[|names| - 1], remote, f)
  }

  /**
   * `process_hosts_from_excel`: `sheet` maps column names to cells (`None`
   * when the file cannot be read); no `Host Name` column gives no record.
   */
  function ExcelInfos(sheet: Option<Dict<String, seq<Option<String>>>>, remote: Remote,
                      f: Filters): seq<Info> {
    match sheet
    case None => []
    case Some(columns) =>
      match Get(columns, "Host Name")
      case None => []
      case Some(cells) => InfosOfHosts(SheetHosts(cells), remote, f)
  }

  /** The loop over the sheet's host names (lines 95-99). */
  method ProcessHostsFromExcel(sheet: Option<Dict<String, seq<Option<String>>>>, remote: Remote,
                               f: Filters) returns (all: seq<Info>)
    ensures all == ExcelInfos(sheet, remote, f)
  {
    all := [];
    if sheet.None? {
      return;
    }
    var column := Get(sheet.value, "Host Name");
    if column.None? {
      return;
    }
    all := CollectHosts(SheetHosts(column.value), remote, f);
  }

  method CollectHosts(names: seq<String>, remote: Remote, f: Filters)
    returns (all: seq<Info>)
    ensures all == InfosOfHosts(names, remote, f)
  {
    all := [];
    for i := 0 to |names|
      invariant all == InfosOfHosts(names[..i], remote, f)
    {
      assert names[..i + 1][..i] == names[..i];
      var infos := HostInfos(names[i], remote, f);
      all := all + infos;
    }
    assert names[..|names|] == names;
  }

  // ----------------------------------------------------------- update_triggers

  /** `info.get("Trigger ID")` is truthy: a non-empty text, or a list (a tag of that name made one). */
  predicate HasTriggerId(info: Info) {
    var id: Option<Val> := Get(info, Some("Trigger ID"));
    match id
    case None => false
    case Some(One(v)) => Truthy(v)
    case Some(Many(vs)) => vs != []
  }

  /** The `trigger.update` calls of lines 163-167: each listed record with a trigger id, in order. */
  function UpdatesOf(infos: seq<Info>, status: int): seq<(Val, int)> {
    if infos == [] then []
    else
      var info := infos[|infos| - 1];
      UpdatesOf(infos[..|infos| - 1], status) + (if HasTriggerId(info) then [(Get(info, Some("Trigger ID")).value, status)] else [])
  }

  /** Lines 144-154: the file, when given, takes the place of the host name. */
  function ListedInfos(hostName: Option<String>, sheet: Option<Option<Dict<String, seq<Option<String>>>>>,
                       remote: Remote, f: Filters): seq<Info>
    requires sheet.Some? || hostName.Some?
  {
    if sheet.Some? then ExcelInfos(sheet.value, remote, f)
    else HostInfos(hostName.value, remote, f)
  }

  /** What `update_triggers` does: the records it returns (if any) and the updates it sends. */
  datatype Outcome = Outcome(returned: Option<seq<Info>>, updates: seq<(Val, int)>)

  function UpdateTriggers(hostName: Option<String>, sheet: Option<Option<Dict<String, seq<Option<String>>>>>,
                          remote: Remote, f: Filters,
                          triggerStatus: Option<int>, getTriggersOnly: bool): Outcome {
    if Truthy(hostName) == sheet.Some? then Outcome(None, [])
    else
      var infos := ListedInfos(hostName, sheet, remote, f);
      if getTriggersOnly then Outcome(Some(infos), [])
      else if infos != [] && triggerStatus.Some? then Outcome(None, UpdatesOf(infos, triggerStatus.value))
      else Outcome(None, [])
  }

  /** Lines 132-138: both a host and a file, or neither, do nothing at all. */
  lemma Exclusive(hostName: Option<String>, sheet: Option<Option<Dict<String, seq<Option<String>>>>>,
                  remote: Remote, f: Filters,
                  triggerStatus: Option<int>, getTriggersOnly: bool)
    requires Truthy(hostName) == sheet.Some?
    ensures UpdateTriggers(hostName, sheet, remote, f, triggerStatus, getTriggersOnly) == Outcome(None, [])
  {
  }

  /**
   * Lines 156-167: listing only never updates; otherwise updates are sent
   * exactly when a status is given (0 included), one per record with a trigger id.
   */
  lemma UpdateGating(hostName: Option<String>, sheet: Option<Option<Dict<String, seq<Option<String>>>>>,
                     remote: Remote, f: Filters,
                     triggerStatus: Option<int>, getTriggersOnly: bool)
    requires Truthy(hostName) != sheet.Some?
    ensures var o := UpdateTriggers(hostName, sheet, remote, f, triggerStatus, getTriggersOnly);
      && (getTriggersOnly ==> o.updates == [] && o.returned.Some?)
      && (!getTriggersOnly ==> o.returned.None?)
      && (triggerStatus.None? ==> o.updates == [])
      && (forall u | u in o.updates :: triggerStatus.Some? && u.1 == triggerStatus.value)
  {
    var o := UpdateTriggers(hostName, sheet, remote, f, triggerStatus, getTriggersOnly);
    if !getTriggersOnly && triggerStatus.Some? {
      UpdatesStatus(ListedInfos(hostName, sheet, remote, f), triggerStatus.value);
    }
  }

  /** Every update carries the status and the trigger id of some listed record with one; there are no more updates than records. */
  lemma {:induction false} UpdatesStatus(infos: seq<Info>, status: int)
    ensures forall u | u in UpdatesOf(infos, status) :: u.1 == status
    ensures forall u | u in UpdatesOf(infos, status) ::
      exists k | 0 <= k < |infos| && HasTriggerId(infos[k]) :: u.0 == Get(infos[k], Some("Trigger ID")).value
    ensures |UpdatesOf(infos, status)| <= |infos|
  {
    if infos != [] {
      var init := infos[..|infos| - 1];
      UpdatesStatus(init, status);
      forall u | u in UpdatesOf(infos, status)
        ensures exists k | 0 <= k < |infos| && HasTriggerId(infos[k]) :: u.0 == Get(infos[k], Some("Trigger ID")).value
      {
        if u in UpdatesOf(init, status) {
          var k :| 0 <= k < |init| && HasTriggerId(init[k]) && u.0 == Get(init[k], Some("Trigger ID")).value;
          assert infos[k] == init[k];
        } else {
          assert HasTriggerId(infos[|infos| - 1]);
        }
      }
    }
  }

  /** Every record with a trigger id is updated. */
  lemma {:induction false} UpdatesAll(infos: seq<Info>, status: int)
    ensures forall k | 0 <= k < |infos| && HasTriggerId(infos[k]) :: (Get(infos[k], Some("Trigger ID")).value, status) in UpdatesOf(infos, status)
  {
    if infos != [] {
      var init := infos[..|infos| - 1];
      UpdatesAll(init, status);
      assert forall k | 0 <= k < |init| :: infos[k] == init[k];
    }
  }

  /**
   * The updates follow the records: one update for a record with a trigger
   * id, none for one without, and the updates of two runs of records are
   * those of the first followed by those of the second.
   */
  lemma {:induction false} UpdatesConcat(a: seq<Info>, b: seq<Info>, status: int)
    ensures UpdatesOf(a + b, status) == UpdatesOf(a, status) + UpdatesOf(b, status)
    ensures |a| == 1 ==>
      UpdatesOf(a, status) == if HasTriggerId(a[0]) then [(Get(a[0], Some("Trigger ID")).value, status)] else []
  {
    if b == [] {
      assert a + b == a;
    } else {
      var init, last := b[..|b| - 1], b[|b| - 1];
      assert (a + b)[..|a + b| - 1] == a + init;
      assert (a + b)[|a + b| - 1] == last;
      UpdatesConcat(a, init, status);
      var ua, ui := UpdatesOf(a, status), UpdatesOf(init, status);
      var u := if HasTriggerId(last) then [(Get(last, Some("Trigger ID")).value, status)] else [];
      assert UpdatesOf(a + b, status) == (ua + ui) + u;
      assert UpdatesOf(b, status) == ui + u;
      assert (ua + ui) + u == ua + (ui + u) by {
        assert forall k | 0 <= k < |ua| + |ui| + |u| :: ((ua + ui) + u)[k] == (ua + (ui + u))[k];
      }
    }
    if |a| == 1 {
      assert a[..0] == [];
    }
  }

  /** The body of `update_triggers` once its arguments are checked. */
  method UpdateTriggersMethod(hostName: Option<String>, sheet: Option<Option<Dict<String, seq<Option<String>>>>>,
                              remote: Remote, f: Filters,
                              triggerStatus: Option<int>, getTriggersOnly: bool) returns (o: Outcome)
    ensures o == UpdateTriggers(hostName, sheet, remote, f, triggerStatus, getTriggersOnly)
  {
    if Truthy(hostName) && sheet.Some? {
      return Outcome(None, []);
    }
    if !Truthy(hostName) && sheet.None? {
      return Outcome(None, []);
    }
    var infos: seq<Info> := [];
    if sheet.Some? {
      infos := ProcessHostsFromExcel(sheet.value, remote, f);
    } else {
      infos := HostInfos(hostName.value, remote, f);
    }
    if getTriggersOnly {
      return Outcome(Some(infos), []);
    }
    var updates: seq<(Val, int)> := [];
    if infos != [] && triggerStatus.Some? {
      updates := UpdateAll(infos, triggerStatus.value);
    }
    o := Outcome(None, updates);
  }

  /** The loop of lines 163-167. */
  method UpdateAll(infos: seq<Info>, status: int) returns (updates: seq<(Val, int)>)
    ensures updates == UpdatesOf(infos, status)
  {
    updates := [];
    for i := 0 to |infos|
      invariant updates == UpdatesOf(infos[..i], status)
    {
      assert infos[..i + 1][..i] == infos[..i];
      var id: Option<Val> := Get(infos[i], Some("Trigger ID"));
      if HasTriggerId(infos[i]) {
        updates := updates + [(id.value, status)];
      }
    }
    assert infos[..|infos|] == infos;
  }
}
