/**
 * create_host.py: one `host.create` request per spreadsheet row. The row's
 * system type picks the monitoring interface and the template, the brand and
 * model make the visible name, and an optional proxy name is resolved to a
 * proxy id. Every row gets a result of its own; a login, configuration or
 * read failure instead yields one error entry.
 *
 * The spreadsheet, the lookups and the HTTP post are parameters.
 */
module HostCreate {
  import opened Wrappers
  import opened Text
  import opened Dict

  // ---------------------------------------------------------------- columns

  const IpColumn: String := "IP地址"
  const ProxyColumn: String := "Proxy代理主机"
  const BrandColumn: String := "品牌"
  const ModelColumn: String := "型号"
  const SystemTypeColumn: String := "系统类型"

  /** Lines 39-42: the columns a sheet must have, in the order they are reported. */
  const RequiredColumns: seq<String> := [IpColumn, ProxyColumn, SystemTypeColumn, BrandColumn]

  /** A data row: the cells by column, a blank (`NaN`) cell being `None`. */
  type Row = Dict<String, Option<String>>

  datatype Sheet = Sheet(columns: seq<String>, rows: seq<Row>)

  /** The required columns the sheet lacks, in the order of `required`. */
  function MissingOf(required: seq<String>, columns: seq<String>): seq<String> {
    if required == [] then []
    else MissingOf(required[..|required| - 1], columns)
         + (if required[|required| - 1] in columns then [] else [required[|required| - 1]])
  }

  /** Line 43: the missing columns. */
  function MissingColumns(columns: seq<String>): seq<String> {
    MissingOf(RequiredColumns, columns)
  }

  /** A column is reported exactly when it is required and absent. */
  lemma {:induction false} MissingOfMembers(required: seq<String>, columns: seq<String>)
    ensures forall c :: c in MissingOf(required, columns) <==> c in required && c !in columns
  {
    if required != [] {
      var init := required[..|required| - 1];
      MissingOfMembers(init, columns);
      assert required == init + [required[|required| - 1]];
    }
  }

  /** Missing columns are reported in the order they are required. */
  lemma {:induction false} MissingOfOrder(a: seq<String>, b: seq<String>, columns: seq<String>)
    ensures MissingOf(a + b, columns) == MissingOf(a, columns) + MissingOf(b, columns)
  {
    if b == [] {
      assert a + b == a;
    } else {
      var b' := b[..|b| - 1];
      assert (a + b)[..|a + b| - 1] == a + b';
      MissingOfOrder(a, b', columns);
    }
  }

  /** Lines 43-45: the sheet is accepted exactly when every required column is there; the model column is optional. */
  lemma MissingColumnsEmpty(columns: seq<String>)
    ensures MissingColumns(columns) == [] <==> forall c | c in RequiredColumns :: c in columns
    ensures ModelColumn !in MissingColumns(columns)
  {
    MissingOfMembers(RequiredColumns, columns);
    if MissingColumns(columns) != [] {
      assert MissingColumns(columns)[0] in MissingColumns(columns);
    }
  }

  /** `row.get(column)`, a missing cell read as blank. */
  function Cell(row: Row, column: String): Option<String> {
    match Get(row, column)
    case Some(v) => v
    case None => None
  }

  predicate Truthy(v: Option<String>) {
    v.Some? && v.value != []
  }

  // -------------------------------------------------------------- interface

  datatype SystemType = Agent | Snmp

  datatype SnmpDetails = SnmpDetails(version: int, bulk: int, community: String)

  datatype Interface = Interface(itype: int, main: int, useip: int, ip: String, dns: String, port: String,
                                 details: Option<SnmpDetails>)

  const InterfaceAgent: int := 1
  const InterfaceSnmp: int := 2
  const SnmpCommunity: String := "{$SNMP_COMMUNITY}"

  /** Lines 28-31: the port of each interface type. */
  function Port(t: SystemType): String {
    match t
    case Agent => "10050"
    case Snmp => "161"
  }

  /** `build_host_interface`: the main interface reached by IP; an SNMP one carries the SNMPv2 details. */
  function HostInterface(t: SystemType, ip: String): (r: Interface)
    ensures r.main == 1 && r.useip == 1 && r.ip == ip && r.dns == ""
    ensures t == Agent <==> r.itype == InterfaceAgent
    ensures t == Snmp <==> r.itype == InterfaceSnmp
    ensures r.port == (if t == Agent then "10050" else "161")
    ensures r.details.Some? <==> t == Snmp
    ensures r.details.Some? ==> r.details.value == SnmpDetails(2, 1, SnmpCommunity)
  {
    Interface(if t == Agent then InterfaceAgent else InterfaceSnmp, 1, 1, ip, "", Port(t),
              if t == Snmp then Some(SnmpDetails(2, 1, SnmpCommunity)) else None)
  }

  // ----------------------------------------------------------- visible name

  /** Line 80: a missing or empty brand is "Unknown". */
  function BrandOf(row: Row): (b: String)
    ensures b != []
    ensures Truthy(Cell(row, BrandColumn)) ==> b == Cell(row, BrandColumn).value
    ensures !Truthy(Cell(row, BrandColumn)) ==> b == "Unknown"
  {
    if Truthy(Cell(row, BrandColumn)) then Cell(row, BrandColumn).value else "Unknown"
  }

  /** Line 81: a missing model is empty. */
  function ModelOf(row: Row): (m: String)
    ensures m == if Truthy(Cell(row, ModelColumn)) then Cell(row, ModelColumn).value else ""
  {
    match Cell(row, ModelColumn)
    case Some(m) => m
    case None => ""
  }

  /** Line 82: IP, brand and (when there is one) model, joined by underscores. */
  function VisibleName(ip: String, row: Row): String {
    var model := ModelOf(row);
    ip + "_" + BrandOf(row) + (if model != [] then "_" + model else "")
  }

  /**
   * The visible name splits back into its parts when none holds an
   * underscore: the IP, the brand, and the model when it is not empty.
   */
  lemma VisibleNameParts(ip: String, row: Row)
    requires '_' !in ip && '_' !in BrandOf(row) && '_' !in ModelOf(row)
    ensures Split(VisibleName(ip, row), '_') ==
      [ip, BrandOf(row)] + (if ModelOf(row) != [] then [ModelOf(row)] else [])
  {
    var brand := BrandOf(row);
    var model := ModelOf(row);
    if model != [] {
      assert VisibleName(ip, row) == ip + ['_'] + (brand + ['_'] + model);
      SplitCons(ip, brand + ['_'] + model, '_');
      SplitCons(brand, model, '_');
      SplitNone(model, '_');
    } else {
      assert VisibleName(ip, row) == ip + ['_'] + brand;
      SplitCons(ip, brand, '_');
      SplitNone(brand, '_');
    }
  }

  // ------------------------------------------------------------ system type

  /** Lines 146-149: the cell stripped and lower-cased must read `snmp` or `agent`. */
  function SystemTypeOf(raw: Option<String>): (r: Option<SystemType>)
    ensures r == Some(Snmp) <==> Truthy(raw) && Lower(Strip(raw.value)) == "snmp"
    ensures r == Some(Agent) <==> Truthy(raw) && Lower(Strip(raw.value)) == "agent"
  {
    if !Truthy(raw) then None
    else
      var t := Lower(Strip(raw.value));
      if t == "snmp" then Some(Snmp) else if t == "agent" then Some(Agent) else None
  }

  /** White space around the cell does not matter: the padded text selects what the text alone selects. */
  lemma SystemTypeIgnoresPadding(lead: String, core: String, trail: String)
    requires AllSpace(lead) && AllSpace(trail)
    requires core != [] && !IsSpace(core[0]) && !IsSpace(core[|core| - 1])
    ensures SystemTypeOf(Some(lead + core + trail)) == SystemTypeOf(Some(core))
  {
    var s := lead + core + trail;
    assert Strip(s) == core by { StripPadded(lead, core, trail); }
    assert Strip(core) == core by {
      StripPadded([], core, []);
      assert [] + core + [] == core;
    }
    assert |s| >= |core| > 0;
    SystemTypeOfStrip(s, core);
  }

  /** The selection reads only the stripped text of a non-empty cell. */
  lemma SystemTypeOfStrip(a: String, b: String)
    requires a != [] && b != [] && Strip(a) == Strip(b)
    ensures SystemTypeOf(Some(a)) == SystemTypeOf(Some(b))
  {
  }

  /** Nor does case: the lower-cased cell selects what the cell selects. */
  lemma SystemTypeIgnoresCase(raw: String)
    ensures SystemTypeOf(Some(Lower(raw))) == SystemTypeOf(Some(raw))
  {
    StripLower(raw);
    LowerIdempotent(Strip(raw));
  }

  // ---------------------------------------------------------------- request

  /** Why a row fails. */
  datatype Failure =
    | InvalidType(raw: Option<String>)   // line 149
    | EmptyIp                            // line 73
    | ProxyFailed(proxyName: String)     // lines 90-94
    | RequestFailed                      // line 176: the post or its answer raised

  datatype HostParams = HostParams(host: String, name: String, interfaces: seq<Interface>, groups: seq<String>,
                                   templates: seq<String>, status: int, proxyHostId: Option<String>)

  datatype Request = Request(jsonrpc: String, rpcMethod: String, params: HostParams, auth: String, id: int)

  /** The group, the two template ids and the session token the run works with (lines 120-131). */
  datatype Config = Config(groupId: String, snmpTemplateId: String, agentTemplateId: String, auth: String)

  /**
   * Lines 85-94: the proxy id to send. `proxyOf` answers `get_proxy_info`
   * (`None` when it raised or knows no such proxy); an empty id is not sent.
   */
  function ProxyIdOf(row: Row, proxyOf: String -> Option<Option<String>>): Result<Option<String>, Failure> {
    var name := Cell(row, ProxyColumn);
    if !Truthy(name) then Ok(None)
    else
      match proxyOf(name.value)
      case None => Err(ProxyFailed(name.value))
      case Some(id) => Ok(if Truthy(id) then id else None)
  }

  /** `create_host_params`. */
  function CreateHostParams(row: Row, t: SystemType, templateId: String, groupId: String, auth: String,
                            proxyOf: String -> Option<Option<String>>): Result<Request, Failure> {
    var ip := Cell(row, IpColumn);
    if !Truthy(ip) then Err(EmptyIp)
    else
      match ProxyIdOf(row, proxyOf)
      case Err(e) => Err(e)
      case Ok(proxy) =>
        Ok(Request("2.0", "host.create",
                   HostParams(ip.value, VisibleName(ip.value, row), [HostInterface(t, ip.value)], [groupId], [templateId], 0, proxy),
                   auth, 1))
  }

  /** Lines 146-157: the request of a row, after its system type is checked. */
  function RequestOf(row: Row, c: Config, proxyOf: String -> Option<Option<String>>): Result<Request, Failure> {
    match SystemTypeOf(Cell(row, SystemTypeColumn))
    case None => Err(InvalidType(Cell(row, SystemTypeColumn)))
    case Some(t) =>
      CreateHostParams(row, t, if t == Snmp then c.snmpTemplateId else c.agentTemplateId, c.groupId, c.auth, proxyOf)
  }

  /**
   * What a row's request holds, and when a row has none: the system type is
   * checked first, then the IP, then the proxy; the SNMP type selects the
   * SNMP template and the agent type the agent template; a proxy id is sent
   * only when a proxy name was given and resolved to a non-empty id.
   */
  lemma RequestOfSpec(row: Row, c: Config, proxyOf: String -> Option<Option<String>>)
    ensures var t := SystemTypeOf(Cell(row, SystemTypeColumn));
      var ip := Cell(row, IpColumn);
      var proxyName := Cell(row, ProxyColumn);
      match RequestOf(row, c, proxyOf)
      case Err(e) =>
        && (e.InvalidType? <==> t.None?)
        && (e == EmptyIp <==> t.Some? && !Truthy(ip))
        && (e.ProxyFailed? <==> t.Some? && Truthy(ip) && Truthy(proxyName) && proxyOf(proxyName.value).None?)
        && e != RequestFailed
      case Ok(r) =>
        && t.Some? && Truthy(ip)
        && r.jsonrpc == "2.0" && r.rpcMethod == "host.create" && r.auth == c.auth && r.id == 1
        && r.params.host == ip.value && r.params.name == VisibleName(ip.value, row)
        && r.params.interfaces == [HostInterface(t.value, ip.value)]
        && r.params.groups == [c.groupId] && r.params.status == 0
        && r.params.templates == [if t.value == Snmp then c.snmpTemplateId else c.agentTemplateId]
        && (r.params.proxyHostId.Some? <==> Truthy(proxyName) && Truthy(proxyOf(proxyName.value).value))
        && (r.params.proxyHostId.Some? ==> r.params.proxyHostId == proxyOf(proxyName.value).value)
  {
  }

  // ---------------------------------------------------------------- results

  /** What the post answers: it raised, the API reported an error, or the created host ids. */
  datatype PostAnswer = Raised | ApiError(code: int, data: String) | Answer(hostIds: seq<String>)

  /** An entry of the result list; `host` is the row's IP cell (line 143). */
  datatype Entry =
    | Created(host: Option<String>, hostId: String)
    | Rejected(host: Option<String>, code: int, data: String)
    | RowFailed(host: Option<String>, line: int, why: Failure)
    | LoginFailed
    | ConfigFailed
    | ReadFailed(missing: seq<String>)

  /** An entry a row can give. */
  predicate RowKind(e: Entry) {
    e.Created? || e.Rejected? || e.RowFailed?
  }

  /** Line 143: the IP cell, "未知主机" when the row has none. */
  function HostLabel(row: Row): Option<String> {
    match Get(row, IpColumn)
    case Some(v) => v
    case None => Some("未知主机")
  }

  /** Lines 143-181: the entry of the row at position `index`; its line in the sheet is `index + 2`. */
  function RowEntry(row: Row, index: nat, c: Config, proxyOf: String -> Option<Option<String>>,
                    post: Request -> PostAnswer): (e: Entry)
    ensures RowKind(e)
  {
    var host := HostLabel(row);
    match RequestOf(row, c, proxyOf)
    case Err(e) => RowFailed(host, index + 2, e)
    case Ok(r) =>
      match post(r)
      case Raised => RowFailed(host, index + 2, RequestFailed)
      case ApiError(code, data) => Rejected(host, code, data)
      case Answer(ids) => if ids == [] then RowFailed(host, index + 2, RequestFailed) else Created(host, ids[0])
  }

  function RowEntries(rows: seq<Row>, c: Config, proxyOf: String -> Option<Option<String>>,
                      post: Request -> PostAnswer): (es: seq<Entry>)
    ensures |es| == |rows|
    ensures forall e | e in es :: RowKind(e)
  {
    if rows == [] then []
    else RowEntries(rows[..|rows| - 1], c, proxyOf, post) + [RowEntry(rows[|rows| - 1], |rows| - 1, c, proxyOf, post)]
  }

  /** A failing row does not stop the rows after it: entry `k` is row `k`'s own. */
  lemma {:induction false} RowEntriesAt(rows: seq<Row>, c: Config, proxyOf: String -> Option<Option<String>>,
                                        post: Request -> PostAnswer, k: nat)
    requires k < |rows|
    ensures RowEntries(rows, c, proxyOf, post)[k] == RowEntry(rows[k], k, c, proxyOf, post)
  {
    if k < |rows| - 1 {
      RowEntriesAt(rows[..|rows| - 1], c, proxyOf, post, k);
    }
  }

  /** A row failing before its post reports its sheet line, which is its position plus two. */
  lemma RowFailureLine(row: Row, index: nat, c: Config, proxyOf: String -> Option<Option<String>>,
                       post: Request -> PostAnswer)
    requires RequestOf(row, c, proxyOf).Err?
    ensures RowEntry(row, index, c, proxyOf, post) == RowFailed(HostLabel(row), index + 2, RequestOf(row, c, proxyOf).error)
    ensures RowEntry(row, index, c, proxyOf, post).why != RequestFailed
  {
    RequestOfSpec(row, c, proxyOf);
  }

  /**
   * `create_hosts`: `auth` is the login's token (`None` when it failed),
   * `config` the group and template ids (`None` when a lookup failed) and
   * `sheet` the file read (`None` when it could not be read).
   */
  function CreateHosts(auth: Option<String>, config: Option<(String, String, String)>, sheet: Option<Sheet>,
                       proxyOf: String -> Option<Option<String>>, post: Request -> PostAnswer): seq<Entry> {
    if auth.None? then [LoginFailed]
    else if config.None? then [ConfigFailed]
    else if sheet.None? then [ReadFailed([])]
    else if MissingColumns(sheet.value.columns) != [] then [ReadFailed(MissingColumns(sheet.value.columns))]
    else RowEntries(sheet.value.rows, Config(config.value.0, config.value.1, config.value.2, auth.value), proxyOf, post)
  }

  /** Lines 119-139: a failure before the rows gives exactly one error entry; otherwise each row gives one. */
  lemma CreateHostsShape(auth: Option<String>, config: Option<(String, String, String)>, sheet: Option<Sheet>,
                         proxyOf: String -> Option<Option<String>>, post: Request -> PostAnswer)
    ensures var es := CreateHosts(auth, config, sheet, proxyOf, post);
      if auth.None? || config.None? || sheet.None? || MissingColumns(sheet.value.columns) != [] then
        |es| == 1 && (es[0].LoginFailed? || es[0].ConfigFailed? || es[0].ReadFailed?)
      else
        |es| == |sheet.value.rows| && forall e | e in es :: RowKind(e)
  {
  }

  /** The loop of lines 141-181. */
  method CreateHostsMethod(auth: Option<String>, config: Option<(String, String, String)>, sheet: Option<Sheet>,
                           proxyOf: String -> Option<Option<String>>, post: Request -> PostAnswer)
    returns (results: seq<Entry>)
    ensures results == CreateHosts(auth, config, sheet, proxyOf, post)
  {
    if auth.None? {
      return [LoginFailed];
    }
    if config.None? {
      return [ConfigFailed];
    }
    if sheet.None? {
      return [ReadFailed([])];
    }
    var missing := MissingColumns(sheet.value.columns);
    if missing != [] {
      return [ReadFailed(missing)];
    }
    var c := Config(config.value.0, config.value.1, config.value.2, auth.value);
    results := CollectEntries(sheet.value.rows, c, proxyOf, post);
  }

  method CollectEntries(rows: seq<Row>, c: Config, proxyOf: String -> Option<Option<String>>,
                        post: Request -> PostAnswer) returns (results: seq<Entry>)
    ensures results == RowEntries(rows, c, proxyOf, post)
  {
    results := [];
    for index := 0 to |rows|
      invariant results == RowEntries(rows[..index], c, proxyOf, post)
    {
      assert rows[..index + 1][..index] == rows[..index];
      var entry := RowEntry(rows[index], index, c, proxyOf, post);
      results := results + [entry];
    }
    assert rows[..|rows|] == rows;
  }
}
