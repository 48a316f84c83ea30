/**
 * create_maintenance.py: every CSV row names a host IP and a local time range
 * `YYYY/MM/DD HH:MM-HH:MM`; rows sharing a padded window are grouped into one
 * maintenance whose name spells the window out, and each group with at least
 * one resolved host is created unless a maintenance of that name exists.
 *
 * Times are LOCAL minutes counted from midnight of day 0; `dayOf` stands for
 * `strptime(date, '%Y/%m/%d')` (the day number of a date text, `None` when it
 * does not parse) and `dateText` for `strftime('%Y-%m-%d')` of a day number.
 */
module Maintenance {
  import opened Wrappers
  import opened Text
  import opened Dict

  const NamePrefix: String := "自定义维护名称"
  const MinutesPerDay: int := 1440
  /** Minutes added before the start and after the end of every window. */
  const Padding: int := 30
  /** Asia/Shanghai is eight hours ahead of UTC. */
  const UtcOffsetSeconds: int := 8 * 3600

  // ------------------------------------------------------------- clock text

  /** One or two decimal digits, as `%H` and `%M` accept them. */
  function SmallNumber(s: String): (r: Option<nat>)
    ensures r.Some? ==> r.value < 100
  {
    if |s| == 1 && IsDigit(s[0]) then Some(DigitValue(s[0]))
    else if |s| == 2 && IsDigit(s[0]) && IsDigit(s[1]) then Some(DigitValue(s[0]) * 10 + DigitValue(s[1]))
    else None
  }

  /** The `%H:%M` part of `strptime`: the minute of the day, `None` for a text it rejects. */
  function ClockOf(s: String): (r: Option<int>)
    ensures r.Some? ==> 0 <= r.value < MinutesPerDay
  {
    var parts := Split(s, ':');
    if |parts| != 2 then None
    else
      match (SmallNumber(parts[0]), SmallNumber(parts[1]))
      case (Some(h), Some(m)) => if h <= 23 && m <= 59 then Some(h * 60 + m) else None
      case _ => None
  }

  /** `strftime('%H:%M')` of a minute of the day. */
  function ClockText(c: int): String
    requires 0 <= c < MinutesPerDay
  {
    Pad2(c / 60) + ":" + Pad2(c % 60)
  }

  /** Writing a minute of the day as `HH:MM` and parsing it again gives it back. */
  lemma ClockRoundTrip(c: int)
    requires 0 <= c < MinutesPerDay
    ensures ClockOf(ClockText(c)) == Some(c)
  {
    var hh, mm := Pad2(c / 60), Pad2(c % 60);
    assert ':' !in hh && ':' !in mm;
    SplitTwo(hh, mm, ':');
    assert SmallNumber(hh) == Some(c / 60);
    assert SmallNumber(mm) == Some(c % 60);
  }

  /** `24:00` is not a clock reading `strptime` accepts, hence the special case. */
  lemma MidnightIsNotAClock()
    ensures ClockOf("24:00") == None
  {
    SplitTwo("24", "00", ':');
    assert "24:00" == "24" + [':'] + "00";
  }

  // ------------------------------------------------------------- parse_time

  /**
   * `strptime(date, '%Y/%m/%d')` (line 87): `dayOf` reads a date text; white
   * space after the date is data left unconverted, which raises.
   */
  function DateOf(dayOf: String -> Option<int>, date: String): Option<int> {
    if TrimRight(date) == date then dayOf(date) else None
  }

  /**
   * `strptime(f"{date} {time}", '%Y/%m/%d %H:%M')` (line 88): the space of the
   * format matches any run of white space, so white space ending the date or
   * starting the time is skipped; the date is read as `dayOf` reads it.
   */
  function DateTimeOf(dayOf: String -> Option<int>, date: String, time: String): Option<int> {
    At(dayOf(TrimRight(date)), ClockOf(TrimLeft(time)))
  }

  /** The minute `c` of day `d`, when both were read. */
  function At(d: Option<int>, c: Option<int>): Option<int> {
    if d.Some? && c.Some? then Some(d.value * MinutesPerDay + c.value) else None
  }

  /** `parse_time`: `24:00` is midnight of the next day; any other time is that minute of the date. */
  function ParseTime(dayOf: String -> Option<int>, date: String, time: String): Option<int> {
    if time == "24:00" then
      match DateOf(dayOf, date)
      case None => None
      case Some(d) => Some((d + 1) * MinutesPerDay)
    else DateTimeOf(dayOf, date, time)
  }

  /**
   * A parsed time lies in the day of the date (read without its trailing
   * white space), ends included, and it is the next midnight exactly when
   * the text was `24:00`.
   */
  lemma ParseTimeBounds(dayOf: String -> Option<int>, date: String, time: String)
    requires ParseTime(dayOf, date, time).Some?
    ensures dayOf(TrimRight(date)).Some?
    ensures var d, t := dayOf(TrimRight(date)).value, ParseTime(dayOf, date, time).value;
      && d * MinutesPerDay <= t <= (d + 1) * MinutesPerDay
      && (t == (d + 1) * MinutesPerDay <==> time == "24:00")
  {
  }

  /** White space before the time, as in `2024/01/01 \t10:00`, is skipped. */
  lemma ParseTimeLeadingSpace(dayOf: String -> Option<int>, date: String, lead: String, time: String)
    requires AllSpace(lead) && (time == [] || !IsSpace(time[0]))
    requires time != "24:00" && lead + time != "24:00"
    ensures ParseTime(dayOf, date, lead + time) == ParseTime(dayOf, date, time)
  {
    TrimLeftPadded(lead, time);
    TrimLeftPadded([], time);
    assert [] + time == time;
  }

  /**
   * White space after the date is skipped before a clock time, but makes
   * `24:00` fail, since the date alone is then not fully converted.
   */
  lemma ParseTimeTrailingSpace(dayOf: String -> Option<int>, date: String, trail: String, time: String)
    requires AllSpace(trail) && trail != [] && (date == [] || !IsSpace(date[|date| - 1]))
    ensures time != "24:00" ==> ParseTime(dayOf, date + trail, time) == ParseTime(dayOf, date, time)
    ensures ParseTime(dayOf, date + trail, "24:00") == None
  {
    TrimRightPadded(date, trail);
    TrimRightPadded(date, []);
    assert date + [] == date;
    assert |date + trail| > |date|;
  }

  // ------------------------------------------------------------- the window

  /** A padded maintenance window and its name (the key of a group). */
  datatype Window = Window(start: int, end: int, name: String)

  /** Lines 114-115: an end not after the start is taken to be on the next day. */
  function Corrected(start: int, end: int): int {
    if end <= start then end + MinutesPerDay else end
  }

  /**
   * For two times of the same date the corrected end lies in
   * `[start, start + 24 h]`, and it equals the start only for `24:00-00:00`.
   */
  lemma CorrectedBounds(d: int, start: int, end: int)
    requires d * MinutesPerDay <= start <= (d + 1) * MinutesPerDay
    requires d * MinutesPerDay <= end <= (d + 1) * MinutesPerDay
    ensures start <= Corrected(start, end) <= start + MinutesPerDay
    ensures Corrected(start, end) == start <==> start == (d + 1) * MinutesPerDay && end == d * MinutesPerDay
  {
  }

  /** `strftime('%Y-%m-%d %H:%M')` of a local time. */
  function Stamp(dateText: int -> String, t: int): String {
    dateText(t / MinutesPerDay) + " " + ClockText(t % MinutesPerDay)
  }

  /** The time of day written in a stamp parses back to the time's minute of the day. */
  lemma StampClock(dateText: int -> String, t: int)
    requires ' ' !in dateText(t / MinutesPerDay)
    ensures var parts := Split(Stamp(dateText, t), ' ');
      |parts| == 2 && parts[0] == dateText(t / MinutesPerDay) && ClockOf(parts[1]) == Some(t % MinutesPerDay)
  {
    var hh, mm := Pad2(t % MinutesPerDay / 60), Pad2(t % MinutesPerDay % 60);
    assert ' ' !in ClockText(t % MinutesPerDay) by {
      assert ClockText(t % MinutesPerDay) == hh + ":" + mm;
      assert ' ' !in hh && ' ' !in mm;
    }
    SplitTwo(dateText(t / MinutesPerDay), ClockText(t % MinutesPerDay), ' ');
    ClockRoundTrip(t % MinutesPerDay);
  }

  /** Line 122: `PREFIX-<start stamp>-<end stamp>`. */
  function NameOf(dateText: int -> String, start: int, end: int): String {
    NamePrefix + "-" + Stamp(dateText, start) + "-" + Stamp(dateText, end)
  }

  /** Lines 113-122: the corrected range, padded by 30 minutes on each side, and its name. */
  function WindowOf(dateText: int -> String, start: int, end: int): Window {
    var s := start - Padding;
    var e := Corrected(start, end) + Padding;
    Window(s, e, NameOf(dateText, s, e))
  }

  /** The padded window starts 30 minutes early and lasts its range plus one hour. */
  lemma WindowPadding(dateText: int -> String, start: int, end: int)
    ensures WindowOf(dateText, start, end).start == start - 30
    ensures WindowOf(dateText, start, end).end - WindowOf(dateText, start, end).start == Corrected(start, end) - start + 60
  {
  }

  // ------------------------------------------------------------------ rows

  /**
   * One data row (lines 103-125): the IP and the window, or `None` when the
   * row would raise (fewer than two cells, a time field that is not one date
   * and one range, or a date or time that does not parse).
   */
  function RowWindow(dayOf: String -> Option<int>, dateText: int -> String, row: seq<String>): Option<(String, Window)> {
    if |row| < 2 then None
    else
      var parts := Split(row[1], ' ');
      if |parts| != 2 then None
      else
        var times := Split(parts[1], '-');
        if |times| != 2 then None
        else
          match (ParseTime(dayOf, parts[0], times[0]), ParseTime(dayOf, parts[0], times[1]))
          case (Some(start), Some(end)) => Some((row[0], WindowOf(dateText, start, end)))
          case _ => None
  }

  /** A well-formed window lasts at least an hour and at most a day and an hour. */
  predicate WellFormed(w: Window) {
    60 <= w.end - w.start <= MinutesPerDay + 60
  }

  lemma RowWindowWellFormed(dayOf: String -> Option<int>, dateText: int -> String, row: seq<String>)
    requires RowWindow(dayOf, dateText, row).Some?
    ensures WellFormed(RowWindow(dayOf, dateText, row).value.1)
  {
    var parts := Split(row[1], ' ');
    var times := Split(parts[1], '-');
    ParseTimeBounds(dayOf, parts[0], times[0]);
    ParseTimeBounds(dayOf, parts[0], times[1]);
    var start := ParseTime(dayOf, parts[0], times[0]).value;
    var end := ParseTime(dayOf, parts[0], times[1]).value;
    CorrectedBounds(dayOf(TrimRight(parts[0])).value, start, end);
  }

  /** A row written as `ip, "<date> <from>-<to>"` is read back as that IP and those two times. */
  lemma RowWindowFormatted(dayOf: String -> Option<int>, dateText: int -> String,
                           ip: String, date: String, a: String, b: String, rest: seq<String>)
    requires ' ' !in date && ' ' !in a && ' ' !in b && '-' !in a && '-' !in b
    requires ParseTime(dayOf, date, a).Some? && ParseTime(dayOf, date, b).Some?
    ensures RowWindow(dayOf, dateText, [ip, date + " " + a + "-" + b] + rest)
      == Some((ip, WindowOf(dateText, ParseTime(dayOf, date, a).value, ParseTime(dayOf, date, b).value)))
  {
    var range := a + "-" + b;
    var row := [ip, date + " " + a + "-" + b] + rest;
    assert Split(row[1], ' ') == [date, range] by {
      assert ' ' !in range;
      assert row[1] == date + [' '] + range by {
        var x := date + " " + a + "-" + b;
        assert forall k | 0 <= k < |x| :: x[k] == (date + [' '] + range)[k];
      }
      SplitTwo(date, range, ' ');
    }
    assert Split(range, '-') == [a, b] by { SplitTwo(a, b, '-'); }
  }

  /** `RowWindow` for one date reader and one date writer, as a value the row loop applies. */
  type RowParse = seq<String> -> Option<(String, Window)>

  function RowParser(dayOf: String -> Option<int>, dateText: int -> String): RowParse {
    row => RowWindow(dayOf, dateText, row)
  }

  /** All data rows, or `None` as soon as one of them would raise. */
  function ParsedRows(parse: RowParse, rows: seq<seq<String>>): Option<seq<(String, Window)>> {
    if rows == [] then Some([])
    else
      match ParsedRows(parse, rows[..|rows| - 1])
      case None => None
      case Some(es) =>
        match parse(rows[|rows| - 1])
        case None => None
        case Some(e) => Some(es + [e])
  }

  /** One malformed row makes the whole file fail, whatever follows it. */
  lemma {:induction false} ParsedRowsAbort(parse: RowParse, rows: seq<seq<String>>, i: nat)
    requires i < |rows| && parse(rows[i]).None?
    ensures ParsedRows(parse, rows) == None
  {
    if i < |rows| - 1 {
      assert rows[..|rows| - 1][i] == rows[i];
      ParsedRowsAbort(parse, rows[..|rows| - 1], i);
    }
  }

  lemma ParsedRowsStep(parse: RowParse, rows: seq<seq<String>>, i: nat, es: seq<(String, Window)>)
    requires i < |rows| && ParsedRows(parse, rows[..i]) == Some(es)
    requires parse(rows[i]).Some?
    ensures ParsedRows(parse, rows[..i + 1]) == Some(es + [parse(rows[i]).value])
  {
    assert rows[..i + 1][..i] == rows[..i];
  }

  /** When every row parses, the entries are the rows' windows, one per row, in row order. */
  lemma {:induction false} ParsedRowsEach(parse: RowParse, rows: seq<seq<String>>)
    requires ParsedRows(parse, rows).Some?
    ensures |ParsedRows(parse, rows).value| == |rows|
    ensures forall k | 0 <= k < |rows| :: Some(ParsedRows(parse, rows).value[k]) == parse(rows[k])
  {
    if rows != [] {
      var init := rows[..|rows| - 1];
      ParsedRowsEach(parse, init);
      var es := ParsedRows(parse, init).value;
      assert ParsedRows(parse, rows).value == es + [parse(rows[|rows| - 1]).value];
      assert forall k | 0 <= k < |init| :: rows[k] == init[k];
    }
  }

  // --------------------------------------------------------------- grouping

  /** Host id lists per window, in order of the window's first row. */
  type Groups = Dict<Window, seq<Option<String>>>

  /** `maintenance_dict.setdefault(w, []).append(id)`. */
  function AddToGroup(g: Groups, w: Window, id: Option<String>): Groups {
    Put(g, w, (match Get(g, w) case None => [] case Some(ids) => ids) + [id])
  }

  function GroupsOf(es: seq<(String, Window)>, hostIdOf: String -> Option<String>): Groups {
    if es == [] then []
    else
      var last := es[|es| - 1];
      AddToGroup(GroupsOf(es[..|es| - 1], hostIdOf), last.1, hostIdOf(last.0))
  }

  /** The looked-up host ids of the rows with window `w`, in row order. */
  function IdsFor(es: seq<(String, Window)>, hostIdOf: String -> Option<String>, w: Window): seq<Option<String>> {
    if es == [] then []
    else
      var last := es[|es| - 1];
      IdsFor(es[..|es| - 1], hostIdOf, w) + (if last.1 == w then [hostIdOf(last.0)] else [])
  }

  function Windows(es: seq<(String, Window)>): (ws: seq<Window>)
    ensures |ws| == |es| && forall k | 0 <= k < |es| :: ws[k] == es[k].1
  {
    if es == [] then [] else Windows(es[..|es| - 1]) + [es[|es| - 1].1]
  }

  /**
   * Grouping: a window has a group exactly when some row has it, and the
   * group holds the host ids of those rows in row order.
   */
  lemma {:induction false} GroupsGet(es: seq<(String, Window)>, hostIdOf: String -> Option<String>, w: Window)
    ensures Get(GroupsOf(es, hostIdOf), w) == if w in Windows(es) then Some(IdsFor(es, hostIdOf, w)) else None
  {
    if es != [] {
      var init := es[..|es| - 1];
      var last := es[|es| - 1];
      GroupsGet(init, hostIdOf, w);
      var g := GroupsOf(init, hostIdOf);
      var ids := match Get(g, last.1) case None => [] case Some(ids) => ids;
      PutGet(g, last.1, ids + [hostIdOf(last.0)], w);
      assert Windows(es) == Windows(init) + [last.1];
      assert GroupsOf(es, hostIdOf) == Put(g, last.1, ids + [hostIdOf(last.0)]);
      if w == last.1 {
        if w !in Windows(init) {
          IdsForAbsent(init, hostIdOf, w);
        }
        assert ids == IdsFor(init, hostIdOf, w);
        assert IdsFor(es, hostIdOf, w) == IdsFor(init, hostIdOf, w) + [hostIdOf(last.0)];
      } else {
        assert IdsFor(es, hostIdOf, w) == IdsFor(init, hostIdOf, w) + [];
        assert IdsFor(init, hostIdOf, w) + [] == IdsFor(init, hostIdOf, w);
      }
    }
  }

  lemma {:induction false} IdsForAbsent(es: seq<(String, Window)>, hostIdOf: String -> Option<String>, w: Window)
    requires w !in Windows(es)
    ensures IdsFor(es, hostIdOf, w) == []
  {
    if es != [] {
      var init := es[..|es| - 1];
      assert Windows(es) == Windows(init) + [es[|es| - 1].1];
      IdsForAbsent(init, hostIdOf, w);
    }
  }

  /** The groups come in order of their window's first row, each window once. */
  lemma {:induction false} GroupsKeys(es: seq<(String, Window)>, hostIdOf: String -> Option<String>)
    ensures Keys(GroupsOf(es, hostIdOf)) == FirstSeen(Windows(es))
    ensures DistinctKeys(GroupsOf(es, hostIdOf))
  {
    if es != [] {
      var init := es[..|es| - 1];
      var last := es[|es| - 1];
      GroupsKeys(init, hostIdOf);
      var g := GroupsOf(init, hostIdOf);
      var ids := match Get(g, last.1) case None => [] case Some(ids) => ids;
      PutKeys(g, last.1, ids + [hostIdOf(last.0)]);
      PutDistinct(g, last.1, ids + [hostIdOf(last.0)]);
      assert Windows(es) == Windows(init) + [last.1];
      assert Windows(es)[..|es| - 1] == Windows(init);
    }
  }

  /** Every group's window is the window of some row. */
  lemma GroupWindows(es: seq<(String, Window)>, hostIdOf: String -> Option<String>, k: nat)
    requires k < |GroupsOf(es, hostIdOf)|
    ensures GroupsOf(es, hostIdOf)[k].0 in Windows(es)
  {
    GroupsKeys(es, hostIdOf);
    FirstSeenMembers(Windows(es));
    assert Keys(GroupsOf(es, hostIdOf))[k] == GroupsOf(es, hostIdOf)[k].0;
  }

  // --------------------------------------------------------------- creation

  /** `maintenance.create` parameters. */
  datatype Request = Request(name: String, activeSince: int, activeTill: int, hostIds: seq<String>,
                             timeperiodType: int, startDate: int, period: int)

  /** `int(tz.localize(t).timestamp())` for a local time in minutes: Asia/Shanghai has no daylight saving. */
  function UnixOf(t: int): int {
    t * 60 - UtcOffsetSeconds
  }

  /** Line 130: the ids that were found. */
  function Resolved(ids: seq<Option<String>>): (r: seq<String>)
    ensures |r| <= |ids|
  {
    if ids == [] then []
    else Resolved(ids[..|ids| - 1]) + (match ids[|ids| - 1] case Some(id) => [id] case None => [])
  }

  lemma {:induction false} ResolvedMembers(ids: seq<Option<String>>)
    ensures forall id :: id in Resolved(ids) <==> Some(id) in ids
  {
    if ids != [] {
      ResolvedMembers(ids[..|ids| - 1]);
      assert ids == ids[..|ids| - 1] + [ids[|ids| - 1]];
    }
  }

  /**
   * The found ids keep the rows' order and repeats. Each found id adds itself
   * and each miss adds nothing, and two runs of rows give their ids one after
   * the other.
   */
  lemma {:induction false} ResolvedConcat(a: seq<Option<String>>, b: seq<Option<String>>)
    ensures Resolved([None]) == [] && forall id :: Resolved([Some(id)]) == [id]
    ensures Resolved(a + b) == Resolved(a) + Resolved(b)
  {
    if b == [] {
      assert a + b == a;
    } else {
      var init := b[..|b| - 1];
      ResolvedConcat(a, init);
      assert (a + b)[..|a + b| - 1] == a + init;
      assert (a + b)[|a + b| - 1] == b[|b| - 1];
    }
  }

  /** `maintenance_exists`: a lookup that raised (`None`) counts as "does not exist". */
  predicate NameExists(existsOf: String -> Option<bool>, name: String) {
    existsOf(name) == Some(true)
  }

  /** `create_maintenance` (lines 42-76): nothing when the name exists, otherwise one request. */
  function RequestFor(w: Window, hostIds: seq<String>, existsOf: String -> Option<bool>): (r: Option<Request>)
    ensures r.Some? <==> !NameExists(existsOf, w.name)
    ensures r.Some? ==> (&& r.value.name == w.name && r.value.hostIds == hostIds
                         && r.value.activeSince == w.start * 60 - UtcOffsetSeconds
                         && r.value.activeTill == w.end * 60 - UtcOffsetSeconds
                         && r.value.timeperiodType == 0 && r.value.startDate == r.value.activeSince
                         && r.value.period == r.value.activeTill - r.value.activeSince == (w.end - w.start) * 60)
  {
    if NameExists(existsOf, w.name) then None
    else Some(Request(w.name, UnixOf(w.start), UnixOf(w.end), hostIds, 0, UnixOf(w.start), UnixOf(w.end) - UnixOf(w.start)))
  }

  /** Lines 128-132: the requests of the groups, in group order; a group with no resolved host is skipped. */
  function RequestsOf(groups: Groups, existsOf: String -> Option<bool>): seq<Request> {
    if groups == [] then []
    else
      var (w, ids) := groups[|groups| - 1];
      var hostIds := Resolved(ids);
      RequestsOf(groups[..|groups| - 1], existsOf)
        + (if hostIds == [] then [] else match RequestFor(w, hostIds, existsOf) case None => [] case Some(r) => [r])
  }

  /** A group is created exactly when it has a resolved host and its name is free. */
  predicate Created(group: (Window, seq<Option<String>>), existsOf: String -> Option<bool>) {
    Resolved(group.1) != [] && !NameExists(existsOf, group.0.name)
  }

  /**
   * Every request belongs to a created group and carries its window, its
   * name and its resolved hosts; every created group has its request.
   */
  lemma {:induction false} RequestsOfMembers(groups: Groups, existsOf: String -> Option<bool>)
    ensures forall r | r in RequestsOf(groups, existsOf) ::
      exists k | 0 <= k < |groups| :: Created(groups[k], existsOf) && Some(r) == RequestFor(groups[k].0, Resolved(groups[k].1), existsOf)
    ensures forall k | 0 <= k < |groups| && Created(groups[k], existsOf) ::
      RequestFor(groups[k].0, Resolved(groups[k].1), existsOf).value in RequestsOf(groups, existsOf)
  {
    if groups != [] {
      var init := groups[..|groups| - 1];
      RequestsOfMembers(init, existsOf);
      assert forall k | 0 <= k < |init| :: groups[k] == init[k];
    }
  }

  /**
   * `read_and_process_csv` once the file is read: `file` is `None` when it
   * cannot be opened. The header is skipped; a missing header or a malformed
   * row means no request at all.
   */
  function Outcome(file: Option<seq<seq<String>>>, dayOf: String -> Option<int>, dateText: int -> String,
                   hostIdOf: String -> Option<String>, existsOf: String -> Option<bool>): seq<Request> {
    match file
    case None => []
    case Some(rows) =>
      if rows == [] then []
      else
        match ParsedRows(RowParser(dayOf, dateText), rows[1..])
        case None => []
        case Some(es) => RequestsOf(GroupsOf(es, hostIdOf), existsOf)
  }

  /** Every request of a file has a host and covers its range plus an hour, at most a day and an hour. */
  lemma OutcomeRequests(file: Option<seq<seq<String>>>, dayOf: String -> Option<int>, dateText: int -> String,
                        hostIdOf: String -> Option<String>, existsOf: String -> Option<bool>)
    ensures forall r | r in Outcome(file, dayOf, dateText, hostIdOf, existsOf) ::
      r.hostIds != [] && 3600 <= r.period <= 90000 && !NameExists(existsOf, r.name)
  {
    var parse := RowParser(dayOf, dateText);
    if file.Some? && file.value != [] && ParsedRows(parse, file.value[1..]).Some? {
      var rows := file.value[1..];
      var es := ParsedRows(parse, rows).value;
      var groups := GroupsOf(es, hostIdOf);
      RequestsOfMembers(groups, existsOf);
      ParsedRowsEach(parse, rows);
      forall r | r in RequestsOf(groups, existsOf)
        ensures r.hostIds != [] && 3600 <= r.period <= 90000 && !NameExists(existsOf, r.name)
      {
        var k :| 0 <= k < |groups| && Created(groups[k], existsOf) && Some(r) == RequestFor(groups[k].0, Resolved(groups[k].1), existsOf);
        GroupWindows(es, hostIdOf, k);
        var i :| 0 <= i < |es| && es[i].1 == groups[k].0;
        assert parse(rows[i]) == RowWindow(dayOf, dateText, rows[i]) == Some(es[i]);
        RowWindowWellFormed(dayOf, dateText, rows[i]);
      }
    }
  }

  /** The loop over the rows (lines 99-125) followed by the loop over the groups (lines 128-132). */
  method ReadAndProcessCsv(file: Option<seq<seq<String>>>, dayOf: String -> Option<int>, dateText: int -> String,
                           hostIdOf: String -> Option<String>, existsOf: String -> Option<bool>)
    returns (requests: seq<Request>)
    ensures requests == Outcome(file, dayOf, dateText, hostIdOf, existsOf)
  {
    if file.None? || file.value == [] {
      return [];
    }
    var rows := file.value[1..];
    var parse := RowParser(dayOf, dateText);
    var groups: Groups := [];
    ghost var es: seq<(String, Window)> := [];
    for i := 0 to |rows|
      invariant ParsedRows(parse, rows[..i]) == Some(es)
      invariant groups == GroupsOf(es, hostIdOf)
    {
      var entry := parse(rows[i]);
      if entry.None? {
        ParsedRowsAbort(parse, rows, i);
        return [];
      }
      var (ip, w) := entry.value;
      ParsedRowsStep(parse, rows, i, es);
      groups := AddToGroup(groups, w, hostIdOf(ip));
      assert (es + [(ip, w)])[..|es|] == es;
      es := es + [(ip, w)];
    }
    assert rows[..|rows|] == rows;
    requests := CreateAll(groups, existsOf);
  }

  method CreateAll(groups: Groups, existsOf: String -> Option<bool>) returns (requests: seq<Request>)
    ensures requests == RequestsOf(groups, existsOf)
  {
    requests := [];
    for i := 0 to |groups|
      invariant requests == RequestsOf(groups[..i], existsOf)
    {
      assert groups[..i + 1][..i] == groups[..i];
      var (w, ids) := groups[i];
      var hostIds := Resolved(ids);
      if hostIds != [] {
        var r := RequestFor(w, hostIds, existsOf);
        if r.Some? {
          requests := requests + [r.value];
        }
      }
    }
    assert groups[..|groups|] == groups;
  }
}
