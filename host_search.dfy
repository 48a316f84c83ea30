/**
 * search_hosts_api.py: `get_host_info` builds a `host.get` query from the
 * optional filters, then flattens every host into one row per trigger (a
 * host without triggers still gives one row) and keeps only the requested
 * columns, in the order requested.
 *
 * The remote calls are parameters: each answers `None` when it raised.
 */
module HostSearch {
  import opened Wrappers
  import opened Text
  import opened Dict

  // ------------------------------------------------------------ remote data

  /** An entry of `interfaces`; a key the answer lacks is `None`. */
  datatype Interface = Interface(ip: Option<String>, itype: Option<String>)
  datatype Group = Group(groupId: Option<String>, name: Option<String>)
  datatype Template = Template(templateId: Option<String>, name: Option<String>)
  datatype Proxy = Proxy(proxyId: String, host: String)

  /** A trigger is kept as the dictionary the API returned. */
  type Trigger = Dict<String, String>

  datatype Host = Host(hostId: Option<String>, host: Option<String>, name: Option<String>,
                       status: Option<String>, proxyHostId: Option<String>,
                       interfaces: Option<seq<Interface>>, groups: Option<seq<Group>>,
                       parentTemplates: Option<seq<Template>>, triggers: Option<seq<Trigger>>)

  /** `d.get(key, default)` on a key that may be missing. */
  function OrElse(v: Option<String>, default: String): String {
    match v
    case Some(s) => s
    case None => default
  }

  function ItemsOf<T>(v: Option<seq<T>>): seq<T> {
    match v
    case Some(xs) => xs
    case None => []
  }

  // --------------------------------------------------------------- the row

  /** A cell of a row: text, or the nested group, template and proxy records. */
  datatype Cell =
    | Text(s: String)
    | GroupList(groups: seq<(String, String)>)
    | TemplateList(templates: seq<(String, String)>)
    | ProxyInfo(proxyId: String, proxyName: String)

  type Row = Dict<String, Cell>

  const DefaultFields: seq<String> := ["主机ID", "主机名称", "可见名称", "IP地址", "是否启用", "接口类型",
                                        "组信息", "模板信息", "代理信息", "Trigger ID", "Trigger Name", "Trigger 是否启用"]

  const NoIp: String := "无IP地址"
  const NoType: String := "无类型"
  const NoProxy: (String, String) := ("无代理ID", "无代理名称")

  /** Lines 76 and 107: a status of exactly `"0"` is enabled. */
  function StatusText(status: Option<String>): (r: String)
    ensures r == "启用" <==> status == Some("0")
    ensures r == "启用" || r == "禁用"
  {
    if status == Some("0") then "启用" else "禁用"
  }

  // ------------------------------------------------------------- interfaces

  /** Line 125: an interface is usable when its IP is not blank. */
  predicate Usable(i: Interface) {
    Strip(OrElse(i.ip, "")) != []
  }

  /** Line 127: type 1 is the agent; every other type, or none, is reported as SNMP. */
  function TypeName(itype: Option<String>): String {
    if itype == Some("1") then "Zabbix Agent" else "SNMP"
  }

  /** The IP and type name of the first usable interface, or the two defaults. */
  function InterfaceInfo(ifaces: seq<Interface>): (String, String) {
    if ifaces == [] then (NoIp, NoType)
    else if Usable(ifaces[0]) then (ifaces[0].ip.value, TypeName(ifaces[0].itype))
    else InterfaceInfo(ifaces[1..])
  }

  /** Interface `k` is usable and no earlier one is. */
  predicate FirstUsable(ifaces: seq<Interface>, k: nat) {
    k < |ifaces| && Usable(ifaces[k]) && forall j | 0 <= j < k :: !Usable(ifaces[j])
  }

  /** With no interface whose IP is non-blank, the defaults are used. */
  lemma {:induction false} InterfaceInfoNone(ifaces: seq<Interface>)
    requires forall k | 0 <= k < |ifaces| :: !Usable(ifaces[k])
    ensures InterfaceInfo(ifaces) == (NoIp, NoType)
  {
    if ifaces != [] {
      assert !Usable(ifaces[0]);
      assert forall k | 0 <= k < |ifaces[1..]| :: ifaces[1..][k] == ifaces[k + 1];
      InterfaceInfoNone(ifaces[1..]);
    }
  }

  /** The first interface with a non-blank IP gives the IP as written (not stripped) and its type name. */
  lemma {:induction false} InterfaceInfoFirst(ifaces: seq<Interface>, k: nat)
    requires FirstUsable(ifaces, k)
    ensures InterfaceInfo(ifaces) == (ifaces[k].ip.value, TypeName(ifaces[k].itype))
  {
    if k > 0 {
      assert !Usable(ifaces[0]);
      var rest := ifaces[1..];
      assert forall j | 0 <= j < k - 1 :: rest[j] == ifaces[j + 1];
      assert rest[k - 1] == ifaces[k];
      assert FirstUsable(rest, k - 1);
      InterfaceInfoFirst(rest, k - 1);
    }
  }

  /** `get_host_interface_info` (lines 116-129): the loop that stops at the first usable interface. */
  method GetHostInterfaceInfo(host: Host) returns (ip: String, interfaceType: String)
    ensures (ip, interfaceType) == InterfaceInfo(ItemsOf(host.interfaces))
  {
    ip, interfaceType := NoIp, NoType;
    var ifaces := ItemsOf(host.interfaces);
    var i := 0;
    while i < |ifaces|
      invariant 0 <= i <= |ifaces|
      invariant InterfaceInfo(ifaces) == InterfaceInfo(ifaces[i..])
    {
      assert ifaces[i..][1..] == ifaces[i + 1..];
      if Strip(OrElse(ifaces[i].ip, "")) != [] {
        ip := ifaces[i].ip.value;
        interfaceType := if ifaces[i].itype == Some("1") then "Zabbix Agent" else "SNMP";
        return;
      }
      i := i + 1;
    }
  }

  // ------------------------------------------------- groups, templates, proxy

  /** `get_host_group_info`: one pair per group, in order, with defaults for missing keys. */
  function GroupInfo(groups: seq<Group>): (r: seq<(String, String)>)
    ensures |r| == |groups|
    ensures forall k | 0 <= k < |r| :: r[k] == (OrElse(groups[k].groupId, "未知组ID"), OrElse(groups[k].name, "未知组名称"))
  {
    if groups == [] then []
    else [(OrElse(groups[0].groupId, "未知组ID"), OrElse(groups[0].name, "未知组名称"))] + GroupInfo(groups[1..])
  }

  /** `get_host_template_info`: one pair per template, in order, with defaults for missing keys. */
  function TemplateInfo(templates: seq<Template>): (r: seq<(String, String)>)
    ensures |r| == |templates|
    ensures forall k | 0 <= k < |r| :: r[k] == (OrElse(templates[k].templateId, "未知模板ID"), OrElse(templates[k].name, "未知模板名称"))
  {
    if templates == [] then []
    else [(OrElse(templates[0].templateId, "未知模板ID"), OrElse(templates[0].name, "未知模板名称"))] + TemplateInfo(templates[1..])
  }

  /** Lines 29-34: proxy id to (id, name); a failed proxy query leaves the placeholder entry only. */
  function ProxyCache(answer: Option<seq<Proxy>>): Dict<String, (String, String)> {
    match answer
    case None => [(NoProxy.0, NoProxy)]
    case Some(proxies) => ProxyEntries(proxies)
  }

  /** The dictionary comprehension over the proxies: a repeated id keeps its place and takes the later name. */
  function ProxyEntries(proxies: seq<Proxy>): Dict<String, (String, String)> {
    if proxies == [] then []
    else
      var p := proxies[|proxies| - 1];
      Put(ProxyEntries(proxies[..|proxies| - 1]), p.proxyId, (p.proxyId, p.host))
  }

  /** The name of the last proxy with id `id`. */
  function LastProxyName(proxies: seq<Proxy>, id: String): Option<String> {
    if proxies == [] then None
    else if proxies[|proxies| - 1].proxyId == id then Some(proxies[|proxies| - 1].host)
    else LastProxyName(proxies[..|proxies| - 1], id)
  }

  lemma {:induction false} ProxyEntriesGet(proxies: seq<Proxy>, id: String)
    ensures Get(ProxyEntries(proxies), id) == match LastProxyName(proxies, id) case None => None case Some(n) => Some((id, n))
  {
    if proxies != [] {
      var p := proxies[|proxies| - 1];
      ProxyEntriesGet(proxies[..|proxies| - 1], id);
      PutGet(ProxyEntries(proxies[..|proxies| - 1]), p.proxyId, (p.proxyId, p.host), id);
    }
  }

  /** `get_host_proxy_info`: the cached proxy, or the placeholder for a missing or unknown id. */
  function ProxyOf(host: Host, cache: Dict<String, (String, String)>): (String, String) {
    match host.proxyHostId
    case None => NoProxy
    case Some(id) => match Get(cache, id) case None => NoProxy case Some(p) => p
  }

  /**
   * With the proxy list known, a host's proxy is the last listed proxy of its
   * id; a host with no proxy id, or an id not listed, gets the placeholder.
   */
  lemma ProxyOfKnown(host: Host, proxies: seq<Proxy>)
    ensures ProxyOf(host, ProxyCache(Some(proxies))) ==
      if host.proxyHostId.Some? && LastProxyName(proxies, host.proxyHostId.value).Some?
      then (host.proxyHostId.value, LastProxyName(proxies, host.proxyHostId.value).value)
      else NoProxy
  {
    if host.proxyHostId.Some? {
      ProxyEntriesGet(proxies, host.proxyHostId.value);
    }
  }

  /** With the proxy query failed, every host gets the placeholder. */
  lemma ProxyOfFailed(host: Host)
    ensures ProxyOf(host, ProxyCache(None)) == NoProxy
  {
  }

  // -------------------------------------------------------------- triggers

  /** `get_host_trigger_info`: a host without triggers gets one placeholder, keyed unlike a real trigger. */
  function TriggersOf(host: Host): (r: seq<Trigger>)
    ensures |r| >= 1
  {
    var ts := ItemsOf(host.triggers);
    if ts == [] then [[("Trigger ID", "N/A"), ("Trigger Name", "N/A"), ("Trigger 是否启用", "N/A")]] else ts
  }

  /** Lines 95-108: the record of one host and one trigger, before projection. */
  datatype Record = Record(hostId: String, hostName: String, visibleName: String, ip: String, enabled: String,
                           interfaceType: String, groups: seq<(String, String)>, templates: seq<(String, String)>,
                           proxy: (String, String), triggerId: String, triggerName: String, triggerEnabled: String)

  function RecordOf(host: Host, cache: Dict<String, (String, String)>, trigger: Trigger): Record {
    var (ip, itype) := InterfaceInfo(ItemsOf(host.interfaces));
    Record(Strip(OrElse(host.hostId, "")), Strip(OrElse(host.host, "")), Strip(OrElse(host.name, "")),
           ip, StatusText(host.status), itype,
           GroupInfo(ItemsOf(host.groups)), TemplateInfo(ItemsOf(host.parentTemplates)), ProxyOf(host, cache),
           OrElse(Get(trigger, "triggerid"), "未知Trigger ID"), OrElse(Get(trigger, "description"), "未知Trigger Name"),
           StatusText(Get(trigger, "status")))
  }

  /** `host_data[field]` when `field in host_data`: the record's column of that name. */
  function Column(r: Record, field: String): Option<Cell> {
    if field == "主机ID" then Some(Text(r.hostId))
    else if field == "主机名称" then Some(Text(r.hostName))
    else if field == "可见名称" then Some(Text(r.visibleName))
    else if field == "IP地址" then Some(Text(r.ip))
    else if field == "是否启用" then Some(Text(r.enabled))
    else if field == "接口类型" then Some(Text(r.interfaceType))
    else if field == "组信息" then Some(GroupList(r.groups))
    else if field == "模板信息" then Some(TemplateList(r.templates))
    else if field == "代理信息" then Some(ProxyInfo(r.proxy.0, r.proxy.1))
    else if field == "Trigger ID" then Some(Text(r.triggerId))
    else if field == "Trigger Name" then Some(Text(r.triggerName))
    else if field == "Trigger 是否启用" then Some(Text(r.triggerEnabled))
    else None
  }

  /** The record has exactly the twelve default columns. */
  lemma ColumnDefined(r: Record, field: String)
    ensures Column(r, field).Some? <==> field in DefaultFields
  {
  }

  /**
   * A host without triggers yields the placeholder row: unknown trigger id
   * and name, and "disabled", since the placeholder's keys are not the API's.
   */
  lemma PlaceholderRow(host: Host, cache: Dict<String, (String, String)>)
    requires ItemsOf(host.triggers) == []
    ensures var r := RecordOf(host, cache, TriggersOf(host)[0]);
      r.triggerId == "未知Trigger ID" && r.triggerName == "未知Trigger Name" && r.triggerEnabled == "禁用"
  {
    var t := TriggersOf(host)[0];
    assert Keys(t) == ["Trigger ID", "Trigger Name", "Trigger 是否启用"];
    assert "triggerid" !in Keys(t) && "description" !in Keys(t) && "status" !in Keys(t);
  }

  // ------------------------------------------------------------ projection

  /** Line 111: `{f: host_data[f] for f in fields if f in host_data}`. */
  function Project(r: Record, fields: seq<String>): Row {
    if fields == [] then []
    else
      var f := fields[|fields| - 1];
      var init := Project(r, fields[..|fields| - 1]);
      match Column(r, f)
      case None => init
      case Some(v) => Put(init, f, v)
  }

  /** The requested fields the record has, in request order. */
  function Present(fields: seq<String>): seq<String> {
    if fields == [] then []
    else Present(fields[..|fields| - 1]) + (if fields[|fields| - 1] in DefaultFields then [fields[|fields| - 1]] else [])
  }

  /** A projected row holds a field exactly when it was requested and exists, with the record's value. */
  lemma {:induction false} ProjectGet(r: Record, fields: seq<String>, f: String)
    ensures Get(Project(r, fields), f) == if f in fields then Column(r, f) else None
  {
    if fields != [] {
      var g := fields[|fields| - 1];
      ProjectGet(r, fields[..|fields| - 1], f);
      assert fields == fields[..|fields| - 1] + [g];
      match Column(r, g)
      case None =>
      case Some(v) => PutGet(Project(r, fields[..|fields| - 1]), g, v, f);
    }
  }

  /** The projected row's columns are the requested existing fields, in request order, each once. */
  lemma {:induction false} ProjectKeys(r: Record, fields: seq<String>)
    ensures Keys(Project(r, fields)) == FirstSeen(Present(fields))
  {
    if fields != [] {
      var g := fields[|fields| - 1];
      var init := fields[..|fields| - 1];
      ProjectKeys(r, init);
      FirstSeenMembers(Present(init));
      ColumnDefined(r, g);
      var p := Present(fields);
      match Column(r, g)
      case None =>
        assert p == Present(init) + [] == Present(init);
        assert Project(r, fields) == Project(r, init);
      case Some(v) =>
        PutKeys(Project(r, init), g, v);
        assert p == Present(init) + [g];
        assert p[..|p| - 1] == Present(init);
    }
  }

  /** Line 25: `None` or an empty list falls back to the twelve default fields. */
  function FieldsOf(returnFields: Option<seq<String>>): (fs: seq<String>)
    ensures fs != []
    ensures returnFields.Some? && returnFields.value != [] ==> fs == returnFields.value
  {
    match returnFields
    case Some(fs) => if fs == [] then DefaultFields else fs
    case None => DefaultFields
  }

  lemma {:induction false} PresentAll(fields: seq<String>)
    requires forall k | 0 <= k < |fields| :: fields[k] in DefaultFields
    ensures Present(fields) == fields
  {
    if fields != [] {
      var init := fields[..|fields| - 1];
      assert forall k | 0 <= k < |init| :: init[k] == fields[k];
      PresentAll(init);
      assert fields == init + [fields[|fields| - 1]];
    }
  }

  /** Without requested fields every row has the twelve columns in the default order, with the record's values. */
  lemma DefaultProjection(r: Record)
    ensures Keys(Project(r, FieldsOf(None))) == DefaultFields
    ensures forall f :: Get(Project(r, FieldsOf(None)), f) == Column(r, f)
  {
    DefaultKeys(r);
    forall f ensures Get(Project(r, FieldsOf(None)), f) == Column(r, f) {
      ProjectGet(r, DefaultFields, f);
      ColumnDefined(r, f);
    }
  }

  lemma DefaultKeys(r: Record)
    ensures Keys(Project(r, DefaultFields)) == DefaultFields
  {
    ProjectKeys(r, DefaultFields);
    PresentAll(DefaultFields);
    DefaultFieldsDistinct();
    FirstSeenDistinct(DefaultFields);
  }

  lemma DefaultFieldsDistinct()
    ensures forall i, j | 0 <= i < j < |DefaultFields| :: DefaultFields[i] != DefaultFields[j]
  {
  }

  // ---------------------------------------------------------------- the rows

  /** Lines 71-112 for one host: one projected row per trigger. */
  function RowsOfHost(host: Host, cache: Dict<String, (String, String)>, fields: seq<String>): (rows: seq<Row>)
    ensures |rows| == |TriggersOf(host)|
  {
    RowsOfTriggers(host, cache, fields, TriggersOf(host))
  }

  function RowsOfTriggers(host: Host, cache: Dict<String, (String, String)>, fields: seq<String>, ts: seq<Trigger>): (rows: seq<Row>)
    ensures |rows| == |ts|
  {
    if ts == [] then []
    else RowsOfTriggers(host, cache, fields, ts[..|ts| - 1]) + [Project(RecordOf(host, cache, ts[|ts| - 1]), fields)]
  }

  /** Row `k` of a host is the record of its trigger `k` with the requested fields. */
  lemma RowsOfHostAt(host: Host, cache: Dict<String, (String, String)>, fields: seq<String>)
    ensures forall k | 0 <= k < |TriggersOf(host)| ::
      RowsOfHost(host, cache, fields)[k] == Project(RecordOf(host, cache, TriggersOf(host)[k]), fields)
  {
    RowsOfTriggersAt(host, cache, fields, TriggersOf(host));
  }

  lemma {:induction false} RowsOfTriggersAt(host: Host, cache: Dict<String, (String, String)>, fields: seq<String>, ts: seq<Trigger>)
    ensures forall k | 0 <= k < |ts| ::
      RowsOfTriggers(host, cache, fields, ts)[k] == Project(RecordOf(host, cache, ts[k]), fields)
  {
    if ts != [] {
      var init := ts[..|ts| - 1];
      RowsOfTriggersAt(host, cache, fields, init);
      forall k | 0 <= k < |ts|
        ensures RowsOfTriggers(host, cache, fields, ts)[k] == Project(RecordOf(host, cache, ts[k]), fields)
      {
        if k < |init| {
          assert init[k] == ts[k];
        }
      }
    }
  }

  function AllRows(hosts: seq<Host>, cache: Dict<String, (String, String)>, fields: seq<String>): seq<Row> {
    if hosts == [] then []
    else AllRows(hosts[..|hosts| - 1], cache, fields) + RowsOfHost(hosts[|hosts| - 1], cache, fields)
  }

  /** The number of rows a host contributes: its triggers, or one. */
  function RowCount(hosts: seq<Host>): nat {
    if hosts == [] then 0
    else RowCount(hosts[..|hosts| - 1]) + (if ItemsOf(hosts[|hosts| - 1].triggers) == [] then 1 else |ItemsOf(hosts[|hosts| - 1].triggers)|)
  }

  /** One row per trigger, and one for a host without triggers. */
  lemma {:induction false} AllRowsCount(hosts: seq<Host>, cache: Dict<String, (String, String)>, fields: seq<String>)
    ensures |AllRows(hosts, cache, fields)| == RowCount(hosts)
  {
    if hosts != [] {
      AllRowsCount(hosts[..|hosts| - 1], cache, fields);
    }
  }

  // ------------------------------------------------------------ the request

  /** The arguments of `get_host_info`; an empty text counts as not given. */
  datatype Query = Query(hostName: Option<String>, ipAddress: Option<String>, keyword: Option<String>,
                         templateName: Option<String>, groupName: Option<String>, proxyName: Option<String>,
                         returnFields: Option<seq<String>>)

  /** The optional parts of the `host.get` parameters (the fixed output selection is left implicit). */
  datatype Params = Params(filterHost: Option<String>, filterIp: Option<seq<String>>, search: Option<(String, String)>,
                           templateIds: Option<seq<String>>, groupIds: Option<seq<String>>, proxyIds: Option<seq<String>>)

  predicate Given(v: Option<String>) {
    v.Some? && v.value != []
  }

  /**
   * Lines 45-59: the filters and searches. `templateIds`, `groupIds` and
   * `proxyIds` look names up; a lookup that raised makes the whole call fail.
   */
  function ParamsOf(q: Query, templateIds: String -> Option<seq<String>>, groupIds: String -> Option<seq<String>>,
                    proxyIds: String -> Option<seq<String>>): Option<Params> {
    var t := if Given(q.templateName) then templateIds(q.templateName.value) else Some([]);
    var g := if Given(q.groupName) then groupIds(q.groupName.value) else Some([]);
    var p := if Given(q.proxyName) then proxyIds(q.proxyName.value) else Some([]);
    if t.None? || g.None? || p.None? then None
    else
      Some(Params(
        if Given(q.hostName) then q.hostName else None,
        if Given(q.ipAddress) then Some([q.ipAddress.value]) else None,
        if Given(q.keyword) then Some((q.keyword.value, q.keyword.value)) else None,
        if Given(q.templateName) then t else None,
        if Given(q.groupName) then g else None,
        if Given(q.proxyName) then p else None))
  }

  /**
   * A filter appears only for an argument that was given: the host name
   * filters `host`, the IP is the one element of `filter.ip`, the keyword
   * searches both `host` and `name`.
   */
  lemma ParamsOfGiven(q: Query, templateIds: String -> Option<seq<String>>, groupIds: String -> Option<seq<String>>,
                      proxyIds: String -> Option<seq<String>>)
    requires ParamsOf(q, templateIds, groupIds, proxyIds).Some?
    ensures var p := ParamsOf(q, templateIds, groupIds, proxyIds).value;
      && (p.filterHost.Some? <==> Given(q.hostName)) && (p.filterHost.Some? ==> p.filterHost == q.hostName)
      && (p.filterIp.Some? <==> Given(q.ipAddress)) && (p.filterIp.Some? ==> p.filterIp.value == [q.ipAddress.value])
      && (p.search.Some? <==> Given(q.keyword)) && (p.search.Some? ==> p.search.value == (q.keyword.value, q.keyword.value))
      && (p.templateIds.Some? <==> Given(q.templateName))
      && (p.groupIds.Some? <==> Given(q.groupName))
      && (p.proxyIds.Some? <==> Given(q.proxyName))
  {
  }

  /** `get_host_info`: `None` when a lookup or the host query raised. */
  function HostInfo(q: Query, proxies: Option<seq<Proxy>>, templateIds: String -> Option<seq<String>>,
                    groupIds: String -> Option<seq<String>>, proxyIds: String -> Option<seq<String>>,
                    hostGet: Params -> Option<seq<Host>>): Option<seq<Row>> {
    match ParamsOf(q, templateIds, groupIds, proxyIds)
    case None => None
    case Some(params) =>
      match hostGet(params)
      case None => None
      case Some(hosts) => Some(AllRows(hosts, ProxyCache(proxies), FieldsOf(q.returnFields)))
  }

  /** The two nested loops of lines 71-112. */
  method GetHostInfo(q: Query, proxies: Option<seq<Proxy>>, templateIds: String -> Option<seq<String>>,
                     groupIds: String -> Option<seq<String>>, proxyIds: String -> Option<seq<String>>,
                     hostGet: Params -> Option<seq<Host>>) returns (result: Option<seq<Row>>)
    ensures result == HostInfo(q, proxies, templateIds, groupIds, proxyIds, hostGet)
  {
    var fields := FieldsOf(q.returnFields);
    var cache := ProxyCache(proxies);
    var params := ParamsOf(q, templateIds, groupIds, proxyIds);
    if params.None? {
      return None;
    }
    var answer := hostGet(params.value);
    if answer.None? {
      return None;
    }
    var all := CollectRows(answer.value, cache, fields);
    result := Some(all);
  }

  /** The outer loop over the hosts (lines 71-112). */
  method CollectRows(hosts: seq<Host>, cache: Dict<String, (String, String)>, fields: seq<String>) returns (all: seq<Row>)
    ensures all == AllRows(hosts, cache, fields)
  {
    all := [];
    for i := 0 to |hosts|
      invariant all == AllRows(hosts[..i], cache, fields)
    {
      assert hosts[..i + 1][..i] == hosts[..i];
      var rows := HostRows(hosts[i], cache, fields);
      all := all + rows;
    }
    assert hosts[..|hosts|] == hosts;
  }

  /** The inner loop over one host's triggers (lines 93-112). */
  method HostRows(host: Host, cache: Dict<String, (String, String)>, fields: seq<String>) returns (rows: seq<Row>)
    ensures rows == RowsOfHost(host, cache, fields)
  {
    var triggers := TriggersOf(host);
    rows := [];
    for j := 0 to |triggers|
      invariant rows == RowsOfTriggers(host, cache, fields, triggers[..j])
    {
      rows := AppendRow(rows, host, cache, fields, triggers, j);
    }
    assert triggers[..|triggers|] == triggers;
  }

  /** One step of the inner loop: the row of trigger `j` appended. */
  method AppendRow(rows: seq<Row>, host: Host, cache: Dict<String, (String, String)>, fields: seq<String>,
                   triggers: seq<Trigger>, j: nat) returns (out: seq<Row>)
    requires j < |triggers| && rows == RowsOfTriggers(host, cache, fields, triggers[..j])
    ensures out == RowsOfTriggers(host, cache, fields, triggers[..j + 1])
  {
    assert triggers[..j + 1][..j] == triggers[..j];
    out := rows + [Project(RecordOf(host, cache, triggers[j]), fields)];
  }
}
