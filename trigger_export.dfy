/**
 * export_triggers.py: the host rows of each template, in template order,
 * keeping the rows whose trigger name contains a keyword, written to a CSV
 * or an Excel file.
 */
module TriggerExport {
  import opened Wrappers
  import opened Text
  import opened Dict
  import HostSearch

  /** Line 45: the fields asked of the host search. */
  const ExportFields: seq<String> := ["主机ID", "主机名称", "IP地址", "是否启用", "Trigger ID", "Trigger Name", "Trigger 是否启用"]

  /** `host.get("Trigger Name", "")`. */
  function TriggerNameOf(row: HostSearch.Row): String {
    match Get(row, "Trigger Name")
    case Some(cell) => if cell.Text? then cell.s else ""
    case None => ""
  }

  /** Line 50: the rows whose trigger name contains the keyword, in order. */
  function Matching(rows: seq<HostSearch.Row>, keyword: String): seq<HostSearch.Row> {
    if rows == [] then []
    else
      var last := rows[|rows| - 1];
      Matching(rows[..|rows| - 1], keyword) + (if Contains(TriggerNameOf(last), keyword) then [last] else [])
  }

  /** A row is kept exactly when its trigger name contains the keyword. */
  lemma {:induction false} MatchingMembers(rows: seq<HostSearch.Row>, keyword: String)
    ensures forall r :: r in Matching(rows, keyword) <==> r in rows && Contains(TriggerNameOf(r), keyword)
  {
    if rows != [] {
      MatchingMembers(rows[..|rows| - 1], keyword);
      assert rows == rows[..|rows| - 1] + [rows[|rows| - 1]];
    }
  }

  /** Filtering keeps the order: the kept rows of two runs of rows are the kept rows of each, in turn. */
  lemma {:induction false} MatchingConcat(a: seq<HostSearch.Row>, b: seq<HostSearch.Row>, keyword: String)
    ensures Matching(a + b, keyword) == Matching(a, keyword) + Matching(b, keyword)
  {
    if b == [] {
      assert a + b == a;
    } else {
      var b' := b[..|b| - 1];
      assert (a + b)[..|a + b| - 1] == a + b';
      MatchingConcat(a, b', keyword);
    }
  }

  /** A row without a trigger name is kept only for the empty keyword. */
  lemma NamelessRow(row: HostSearch.Row, keyword: String)
    requires "Trigger Name" !in Keys(row)
    ensures Contains(TriggerNameOf(row), keyword) <==> keyword == []
  {
    if keyword == [] {
      assert OccursAt([], keyword, 0);
    }
  }

  /** The search of one template (line 49); `None` when it raised. */
  datatype Search = Search(proxies: Option<seq<HostSearch.Proxy>>, templateIds: String -> Option<seq<String>>,
                           groupIds: String -> Option<seq<String>>, proxyIds: String -> Option<seq<String>>,
                           hostGet: HostSearch.Params -> Option<seq<HostSearch.Host>>)

  function TemplateRows(template: String, z: Search): Option<seq<HostSearch.Row>> {
    HostSearch.HostInfo(HostSearch.Query(None, None, None, Some(template), None, None, Some(ExportFields)),
                        z.proxies, z.templateIds, z.groupIds, z.proxyIds, z.hostGet)
  }

  /** The search run for each template name. */
  function Searcher(z: Search): String -> Option<seq<HostSearch.Row>> {
    t => TemplateRows(t, z)
  }

  /**
   * Lines 47-51: the kept rows of every template, template after template;
   * `None` when a search raised. `search` gives a template's rows.
   */
  function Collected(templates: seq<String>, keyword: String, search: String -> Option<seq<HostSearch.Row>>): Option<seq<HostSearch.Row>> {
    if templates == [] then Some([])
    else
      match Collected(templates[..|templates| - 1], keyword, search)
      case None => None
      case Some(before) =>
        match search(templates[|templates| - 1])
        case None => None
        case Some(rows) => Some(before + Matching(rows, keyword))
  }

  /** Template order: the rows of a list of templates are those of its first part, then those of the rest. */
  lemma {:induction false} CollectedConcat(a: seq<String>, b: seq<String>, keyword: String,
                                           search: String -> Option<seq<HostSearch.Row>>)
    requires Collected(a + b, keyword, search).Some?
    ensures Collected(a, keyword, search).Some? && Collected(b, keyword, search).Some?
    ensures Collected(a + b, keyword, search).value == Collected(a, keyword, search).value + Collected(b, keyword, search).value
  {
    if b == [] {
      assert a + b == a;
    } else {
      var b' := b[..|b| - 1];
      var last := b[|b| - 1];
      var front := a + b';
      assert a + b == front + [last];
      assert b == b' + [last];
      CollectedStep(front, last, keyword, search);
      var x := Collected(front, keyword, search);
      assert x.Some?;
      CollectedConcat(a, b', keyword, search);
      CollectedStep(b', last, keyword, search);
      var m := Matching(search(last).value, keyword);
      var xa, xb := Collected(a, keyword, search).value, Collected(b', keyword, search).value;
      assert (xa + xb) + m == xa + (xb + m) by {
        assert forall k | 0 <= k < |xa| + |xb| + |m| :: ((xa + xb) + m)[k] == (xa + (xb + m))[k];
      }
    }
  }

  lemma CollectedStep(ts: seq<String>, t: String, keyword: String, search: String -> Option<seq<HostSearch.Row>>)
    ensures Collected(ts + [t], keyword, search) ==
      if Collected(ts, keyword, search).Some? && search(t).Some?
      then Some(Collected(ts, keyword, search).value + Matching(search(t).value, keyword))
      else None
  {
    assert (ts + [t])[..|ts|] == ts;
  }

  // ----------------------------------------------------------------- export

  datatype Format = Csv | Xlsx

  /** Lines 19-24: the format, matched without regard to case. */
  function FormatOf(format: String): (r: Option<Format>)
    ensures r == Some(Csv) <==> Lower(format) == "csv"
    ensures r == Some(Xlsx) <==> Lower(format) == "xlsx"
  {
    var f := Lower(format);
    if f == "csv" then Some(Csv) else if f == "xlsx" then Some(Xlsx) else None
  }

  /** The format is read without regard to case: upper-case or mixed-case names select the same format. */
  lemma FormatIgnoresCase(format: String)
    ensures FormatOf(Lower(format)) == FormatOf(format)
  {
    LowerIdempotent(format);
  }

  /** What a run does: writes the rows in a format, writes nothing, or raises (a failed search, an unknown format or a failed write). */
  datatype Outcome = Written(rows: seq<HostSearch.Row>, format: Format) | NothingFound | Raised

  /**
   * `search_and_export_by_trigger_and_template`; `writeOk` tells whether the
   * file system accepts the write (lines 26-28 re-raise a failed one).
   */
  function SearchAndExport(keyword: String, templates: seq<String>, format: String, z: Search, writeOk: bool): Outcome {
    match Collected(templates, keyword, Searcher(z))
    case None => Raised
    case Some(rows) =>
      if rows == [] then NothingFound
      else match FormatOf(format)
        case None => Raised
        case Some(f) => if writeOk then Written(rows, f) else Raised
  }

  /**
   * Lines 53-57: a file is written only when some row matched, the format
   * is known and the write succeeds; with no match nothing is written,
   * whatever the format; every written row contains the keyword in its
   * trigger name.
   */
  lemma ExportSpec(keyword: String, templates: seq<String>, format: String, z: Search, writeOk: bool)
    ensures var o := SearchAndExport(keyword, templates, format, z, writeOk);
      && (o.Written? <==> Collected(templates, keyword, Searcher(z)).Some? && Collected(templates, keyword, Searcher(z)).value != [] && FormatOf(format).Some? && writeOk)
      && (o == NothingFound <==> Collected(templates, keyword, Searcher(z)) == Some([]))
      && (o == Raised <==> Collected(templates, keyword, Searcher(z)).None?
                           || (Collected(templates, keyword, Searcher(z)).value != [] && (FormatOf(format).None? || !writeOk)))
      && (o.Written? ==> o.rows == Collected(templates, keyword, Searcher(z)).value && o.format == FormatOf(format).value)
      && (o.Written? ==> forall r | r in o.rows :: Contains(TriggerNameOf(r), keyword))
  {
    var o := SearchAndExport(keyword, templates, format, z, writeOk);
    if o.Written? {
      CollectedKeeps(templates, keyword, Searcher(z));
    }
  }

  /** Every collected row passed the keyword filter. */
  lemma {:induction false} CollectedKeeps(templates: seq<String>, keyword: String,
                                          search: String -> Option<seq<HostSearch.Row>>)
    requires Collected(templates, keyword, search).Some?
    ensures forall r | r in Collected(templates, keyword, search).value :: Contains(TriggerNameOf(r), keyword)
  {
    if templates != [] {
      CollectedKeeps(templates[..|templates| - 1], keyword, search);
      var rows := search(templates[|templates| - 1]).value;
      MatchingMembers(rows, keyword);
    }
  }

  /** The template loop of lines 47-51 and the export of lines 53-57. */
  method SearchAndExportMethod(keyword: String, templates: seq<String>, format: String, z: Search, writeOk: bool)
    returns (o: Outcome)
    ensures o == SearchAndExport(keyword, templates, format, z, writeOk)
  {
    var all: seq<HostSearch.Row> := [];
    for i := 0 to |templates|
      invariant Collected(templates[..i], keyword, Searcher(z)) == Some(all)
    {
      assert templates[..i + 1][..i] == templates[..i];
      var found := TemplateRows(templates[i], z);
      if found.None? {
        CollectedFails(templates, keyword, Searcher(z), i + 1);
        return Raised;
      }
      all := all + Matching(found.value, keyword);
    }
    assert templates[..|templates|] == templates;
    if all == [] {
      return NothingFound;
    }
    var f := FormatOf(format);
    if f.None? || !writeOk {
      return Raised;
    }
    o := Written(all, f.value);
  }

  /** Once a search raises, the whole run does. */
  lemma {:induction false} CollectedFails(templates: seq<String>, keyword: String,
                                          search: String -> Option<seq<HostSearch.Row>>, n: nat)
    requires 0 < n <= |templates| && Collected(templates[..n], keyword, search).None?
    ensures Collected(templates, keyword, search).None?
    decreases |templates| - n
  {
    if n < |templates| {
      assert templates[..n + 1][..n] == templates[..n];
      CollectedFails(templates, keyword, search, n + 1);
    } else {
      assert templates[..n] == templates;
    }
  }
}
