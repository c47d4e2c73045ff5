/**
 * The cafeteria schedule (the "CVP" document): a PDF whose text lines give
 * a time window and the groups that eat in it.  Module `CovidPit` is the
 * line loop of `parse_covid_pit` (raspisanie_bot/parsing/covid_pit.py:54-78);
 * module `CvpParser` is `CVPParser.parse_groups_list` and the line loop of
 * `LinesConverter.receive_layout` (raspisanie_bot/parsing/parsers.py:116-153).
 * Both take the text lines the PDF layout analysis produced.
 */
module CovidPit {
  import opened Wrappers
  import opened Text
  import Common
  import ParserBase
  import Finder
  import Assoc

  /** The characters `NORM_GROUPS_RE = [^0-9а-я- ]+` keeps. */
  predicate IsGroupChar(c: char) {
    IsDigit(c) || ('а' <= c <= 'я') || c == '-'
  }

  /** `NORM_GROUPS_RE.sub(' ', line).split()`: the maximal runs of kept characters. */
  function GroupTokens(line: string): seq<string> {
    Runs(line, IsGroupChar)
  }

  /**
   * `NORM_TIME_RE.fullmatch(line)`, pattern `с\s*(\d+)[.:](\d+)\s*до\s*(\d+)[.:](\d+)\s*(.*)`:
   * the window and the rest of the line.
   */
  function TimeLine(line: string): (r: Option<(Common.TimePeriod, string)>)
    ensures r.Some? ==> |line| > 0 && line[0] == 'с'
    ensures r.Some? ==> r.value.0.begin >= 0 && r.value.0.end >= 0 && |r.value.1| <= |line|
  {
    if |line| > 0 && line[0] == 'с' then ParserBase.MatchPeriodFrom(line, Common.SkipSpaces(line, 1), false, false)
    else None
  }

  /** The line after the time it may start with: `match.group(5)`, or the whole line. */
  function RestOf(line: string): string {
    match TimeLine(line)
    case Some((_, rest)) => rest
    case None => line
  }

  /** `last_time` after the line. */
  function NextTime(line: string, last: Option<Common.TimePeriod>): Option<Common.TimePeriod> {
    if IsInt(line) then last
    else match TimeLine(line)
      case Some((p, _)) => Some(p)
      case None => last
  }

  /** What the time at the head of a line, or its absence, makes of the rest and of `last_time`. */
  lemma TimeLineParts(line: string, last: Option<Common.TimePeriod>, m: Option<(Common.TimePeriod, string)>)
    requires m == TimeLine(line) && !IsInt(line)
    ensures RestOf(line) == if m.Some? then m.value.1 else line
    ensures NextTime(line, last) == if m.Some? then Some(m.value.0) else last
    ensures var rest := RestOf(line); var groups := Finder.FoundGroups(GroupTokens(rest));
      LineEntry(line, last) == if rest != "" && groups != [] then [(NextTime(line, last), groups)] else []
  {
  }

  /** The groups a line lists: `parse_group_name(i, only_if_matches=True)` of its tokens, the failures dropped. */
  function LineGroups(line: string): seq<Common.GroupName> {
    Finder.FoundGroups(GroupTokens(RestOf(line)))
  }

  /** The assignment `table[last_time] = res` the line makes, if any. */
  function LineEntry(line: string, last: Option<Common.TimePeriod>): (r: seq<(Option<Common.TimePeriod>, seq<Common.GroupName>)>)
    ensures |r| <= 1
  {
    if IsInt(line) then []
    else if RestOf(line) != "" && LineGroups(line) != [] then [(NextTime(line, last), LineGroups(line))]
    else []
  }

  /** The assignments of the lines, `last` being `last_time` before them. */
  function Entries(lines: seq<string>, last: Option<Common.TimePeriod>): seq<(Option<Common.TimePeriod>, seq<Common.GroupName>)>
    decreases |lines|
  {
    if lines == [] then [] else LineEntry(lines[0], last) + Entries(lines[1..], NextTime(lines[0], last))
  }

  /** `last_time` after the lines. */
  function LastTime(lines: seq<string>, last: Option<Common.TimePeriod>): Option<Common.TimePeriod>
    decreases |lines|
  {
    if lines == [] then last else LastTime(lines[1..], NextTime(lines[0], last))
  }

  /** The inner loop: the groups of the tokens, appended one by one. */
  method CollectGroups(tokens: seq<string>) returns (res: seq<Common.GroupName>)
    ensures res == Finder.FoundGroups(tokens)
  {
    res := [];
    for k := 0 to |tokens|
      invariant res == Finder.FoundGroups(tokens[..k])
    {
      var g := Common.ParseGroupName(tokens[k], true);
      assert g == Finder.FindGroup(tokens[k]);
      Finder.FoundGroupsStep(tokens, k, res, g);
      if g.Some? {
        res := res + [g.value];
      }
    }
    assert tokens[..|tokens|] == tokens;
  }

  /** The first line's assignment, then those of the others. */
  lemma EntriesStep(lines: seq<string>, n: nat, last: Option<Common.TimePeriod>)
    requires n < |lines|
    ensures Entries(lines[n..], last) == LineEntry(lines[n], last) + Entries(lines[n + 1..], NextTime(lines[n], last))
  {
    assert lines[n..][1..] == lines[n + 1..];
  }

  /** The loop body for one line: `last_time` after it, and the assignment it makes, if any. */
  method ReadLine(line0: string, last: Option<Common.TimePeriod>)
    returns (lastTime: Option<Common.TimePeriod>, entry: seq<(Option<Common.TimePeriod>, seq<Common.GroupName>)>)
    ensures lastTime == NextTime(line0, last) && entry == LineEntry(line0, last)
  {
    lastTime, entry := last, [];
    var line := line0;
    if IsInt(line) {
      return;
    }
    var m := TimeLine(line);
    TimeLineParts(line, last, m);
    if m.Some? {
      lastTime := Some(m.value.0);
      line := m.value.1;
    }
    if line != "" {
      var res := CollectGroups(GroupTokens(line));
      if res != [] {
        entry := [(lastTime, res)];
      }
    }
  }

  /** One line read into the table; `done` is the assignments made so far. */
  method ApplyLine(line: string, last: Option<Common.TimePeriod>,
                   table0: map<Option<Common.TimePeriod>, seq<Common.GroupName>>,
                   ghost done: seq<(Option<Common.TimePeriod>, seq<Common.GroupName>)>)
    returns (lastTime: Option<Common.TimePeriod>, table: map<Option<Common.TimePeriod>, seq<Common.GroupName>>)
    requires table0 == Assoc.AsMap(done)
    ensures lastTime == NextTime(line, last)
    ensures table == Assoc.AsMap(done + LineEntry(line, last))
  {
    var entry;
    lastTime, entry := ReadLine(line, last);
    Assoc.AsMapSnocAtMostOne(done, entry);
    table := table0;
    if entry != [] {
      table := table[entry[0].0 := entry[0].1];
    }
  }

  /** `parse_covid_pit` from the lines of the document on. */
  method ParseCovidPit(lines: seq<string>) returns (table: map<Option<Common.TimePeriod>, seq<Common.GroupName>>)
    ensures table == Assoc.AsMap(Entries(lines, None))
  {
    var lastTime: Option<Common.TimePeriod> := None;
    table := map[];
    ghost var done: seq<(Option<Common.TimePeriod>, seq<Common.GroupName>)> := [];
    assert lines[0..] == lines;
    for n := 0 to |lines|
      invariant table == Assoc.AsMap(done)
      invariant done + Entries(lines[n..], lastTime) == Entries(lines, None)
    {
      EntriesStep(lines, n, lastTime);
      ghost var entry := LineEntry(lines[n], lastTime);
      ConcatAssoc(done, entry, Entries(lines[n + 1..], NextTime(lines[n], lastTime)));
      lastTime, table := ApplyLine(lines[n], lastTime, table, done);
      done := done + entry;
    }
    assert lines[|lines|..] == [];
    ConcatEmpty(done);
  }

  // ---------------------------------------------------------------- what the lines do

  /** A line of digits only (a page number) changes nothing. */
  lemma DigitLineIgnored(line: string, last: Option<Common.TimePeriod>)
    requires IsInt(line)
    ensures NextTime(line, last) == last && LineEntry(line, last) == []
  {
  }

  /**
   * A time line sets `last_time` to its window, and the rest of the line is
   * read for groups, under that window; with nothing after the time, or no
   * group in it, nothing is written.
   */
  lemma TimeLineSets(line: string, last: Option<Common.TimePeriod>)
    requires TimeLine(line).Some?
    ensures var (p, rest) := TimeLine(line).value;
      && NextTime(line, last) == Some(p)
      && LineEntry(line, last) ==
         (if rest != "" && Finder.FoundGroups(GroupTokens(rest)) != [] then [(Some(p), Finder.FoundGroups(GroupTokens(rest)))] else [])
  {
    assert !IsDigit(line[0]);
  }

  /** The lines are read in order: those after a prefix start from the prefix's last time. */
  lemma {:induction false} EntriesAppend(l1: seq<string>, l2: seq<string>, last: Option<Common.TimePeriod>)
    ensures Entries(l1 + l2, last) == Entries(l1, last) + Entries(l2, LastTime(l1, last))
    decreases |l1|
  {
    if l1 == [] {
      assert l1 + l2 == l2;
    } else {
      assert (l1 + l2)[0] == l1[0] && (l1 + l2)[1..] == l1[1..] + l2;
      EntriesAppend(l1[1..], l2, NextTime(l1[0], last));
      ConcatAssoc(LineEntry(l1[0], last), Entries(l1[1..], NextTime(l1[0], last)), Entries(l2, LastTime(l1, last)));
    }
  }

  /** A later list for the same time replaces the earlier one. */
  lemma LaterLinesOverwrite(l1: seq<string>, l2: seq<string>, last: Option<Common.TimePeriod>)
    ensures Assoc.AsMap(Entries(l1 + l2, last)) == Assoc.AsMap(Entries(l1, last)) + Assoc.AsMap(Entries(l2, LastTime(l1, last)))
  {
    EntriesAppend(l1, l2, last);
    Assoc.AsMapAppend(Entries(l1, last), Entries(l2, LastTime(l1, last)));
  }

  /** Before any time line every list is written under the key the loop started with (`None` at first). */
  lemma {:induction false} KeyBeforeTime(lines: seq<string>, last: Option<Common.TimePeriod>)
    requires forall n :: 0 <= n < |lines| ==> TimeLine(lines[n]).None?
    ensures forall k :: 0 <= k < |Entries(lines, last)| ==> Entries(lines, last)[k].0 == last
    decreases |lines|
  {
    if lines != [] {
      assert TimeLine(lines[0]).None?;
      assert forall n :: 1 <= n < |lines| ==> lines[n] == lines[1..][n - 1];
      KeyBeforeTime(lines[1..], last);
    }
  }

  /** Every list written holds at least one group. */
  lemma {:induction false} EntriesNotEmpty(lines: seq<string>, last: Option<Common.TimePeriod>)
    ensures forall k :: 0 <= k < |Entries(lines, last)| ==> Entries(lines, last)[k].1 != []
    decreases |lines|
  {
    if lines != [] {
      EntriesNotEmpty(lines[1..], NextTime(lines[0], last));
    }
  }
}

module CvpParser {
  import opened Wrappers
  import opened Text
  import Common
  import ParserBase
  import Finder
  import Handler

  /** The characters `NORM_GROUPS_RE = [^0-9а-яА-Я-]+` keeps. */
  predicate IsGroupChar(c: char) {
    IsDigit(c) || ('а' <= c <= 'я') || ('А' <= c <= 'Я') || c == '-'
  }

  /** `parse_groups_list(text)`: the groups `find_group` resolves among the runs of kept characters. */
  method ParseGroupsList(text: string) returns (groups: seq<Common.GroupName>)
    ensures groups == Finder.FoundGroups(Runs(text, IsGroupChar))
  {
    groups := ResolveGroups(Runs(text, IsGroupChar));
  }

  /** The generator's loop: each token through `find_group`, the resolved ones yielded in order. */
  method ResolveGroups(tokens: seq<string>) returns (groups: seq<Common.GroupName>)
    ensures groups == Finder.FoundGroups(tokens)
  {
    groups := [];
    for k := 0 to |tokens|
      invariant groups == Finder.FoundGroups(tokens[..k])
    {
      var group := Finder.FindGroup(tokens[k]);
      Finder.FoundGroupsStep(tokens, k, groups, group);
      if group.Some? {
        groups := groups + [group.value];
      }
    }
    assert tokens[..|tokens|] == tokens;
  }

  /** The two variables of the line loop: `last_time` and `date`. */
  datatype Layout<D> = Layout(lastTime: Option<Common.TimePeriod>, date: Option<D>)

  /** A line that announces the date: `на <date>`. */
  predicate IsDateLine(line: string) {
    StartsWith(line, "на ")
  }

  /** `line.removeprefix("на").strip()`. */
  function DateText(line: string): string
    requires IsDateLine(line)
  {
    Strip(line[2..])
  }

  /** Lines the loop passes over: empty, or digits only. */
  predicate Skipped(line: string) {
    line == "" || IsInt(line)
  }

  /** One `handle_cvp_item` call per group, with the current date and time. */
  function ItemEvents<D>(groups: seq<Common.GroupName>, date: Option<D>, t: Common.TimePeriod): (r: seq<Handler.Event<D>>)
    ensures |r| == |groups|
    ensures forall k :: 0 <= k < |groups| ==> r[k] == Handler.CvpItem(date, groups[k], t.begin, t.end)
  {
    seq(|groups|, k requires 0 <= k < |groups| => Handler.CvpItem(date, groups[k], t.begin, t.end))
  }

  /** The loop variables after one line; `raw` is the line's text before `strip()`. */
  function Step<D>(st: Layout<D>, raw: string, parseDate: string -> Option<D>): Layout<D> {
    var line := Strip(raw);
    if Skipped(line) then st
    else if IsDateLine(line) then Layout(st.lastTime, parseDate(DateText(line)))
    else
      var (start, end, _) := ParserBase.ParseTimePeriod(line);
      if start.Some? then Layout(Some(Common.TimePeriod(start.value, end.value)), st.date) else st
  }

  /** The handler calls of one line. */
  function StepEvents<D>(st: Layout<D>, raw: string, parseDate: string -> Option<D>): seq<Handler.Event<D>> {
    var line := Strip(raw);
    if Skipped(line) then []
    else if IsDateLine(line) then [Handler.NewCvpDate(parseDate(DateText(line)))]
    else
      var rest := ParserBase.ParseTimePeriod(line).2;
      var after := Step(st, raw, parseDate);
      if rest != "" && after.lastTime.Some? then
        ItemEvents(Finder.FoundGroups(Runs(rest, IsGroupChar)), after.date, after.lastTime.value)
      else []
  }

  /** The calls of the lines of a page, from the loop variables `st` on. */
  function LayoutEvents<D>(lines: seq<string>, st: Layout<D>, parseDate: string -> Option<D>): seq<Handler.Event<D>>
    decreases |lines|
  {
    if lines == [] then [] else StepEvents(st, lines[0], parseDate) + LayoutEvents(lines[1..], Step(st, lines[0], parseDate), parseDate)
  }

  /** The loop variables after the lines. */
  function LayoutAfter<D>(lines: seq<string>, st: Layout<D>, parseDate: string -> Option<D>): Layout<D>
    decreases |lines|
  {
    if lines == [] then st else LayoutAfter(lines[1..], Step(st, lines[0], parseDate), parseDate)
  }

  /** `for group in ...: handle_cvp_item(date, group, *last_time)`. */
  method ReportItems<D>(groups: seq<Common.GroupName>, date: Option<D>, t: Common.TimePeriod) returns (events: seq<Handler.Event<D>>)
    ensures events == ItemEvents(groups, date, t)
  {
    events := [];
    for k := 0 to |groups|
      invariant events == ItemEvents(groups[..k], date, t)
    {
      events := events + [Handler.CvpItem(date, groups[k], t.begin, t.end)];
    }
    assert groups[..|groups|] == groups;
  }

  /** One pass of the loop body. */
  method ReceiveLine<D>(st: Layout<D>, raw: string, parseDate: string -> Option<D>)
    returns (events: seq<Handler.Event<D>>, after: Layout<D>)
    ensures events == StepEvents(st, raw, parseDate) && after == Step(st, raw, parseDate)
  {
    var lastTime, date := st.lastTime, st.date;
    events := [];
    var line := Strip(raw);
    if line == "" || IsInt(line) {
      return events, st;
    }
    if StartsWith(line, "на ") {
      line := Strip(line[2..]);
      date := parseDate(line);
      events := [Handler.NewCvpDate(date)];
      return events, Layout(lastTime, date);
    }
    var period := ParserBase.ParseTimePeriod(line);
    line := period.2;
    if period.0.Some? {
      lastTime := Some(Common.TimePeriod(period.0.value, period.1.value));
    }
    if line != "" && lastTime.Some? {
      var groups := ParseGroupsList(line);
      events := ReportItems(groups, date, lastTime.value);
    }
    after := Layout(lastTime, date);
  }

  /** `receive_layout(ltpage)`: a page's text lines, with `last_time` and `date` starting as `None`. */
  method ReceiveLayout<D>(lines: seq<string>, parseDate: string -> Option<D>) returns (events: seq<Handler.Event<D>>)
    ensures events == LayoutEvents(lines, Layout(None, None), parseDate)
  {
    var st: Layout<D> := Layout(None, None);
    events := [];
    assert lines[0..] == lines;
    for n := 0 to |lines|
      invariant events + LayoutEvents(lines[n..], st, parseDate) == LayoutEvents(lines, Layout(None, None), parseDate)
    {
      assert lines[n..][1..] == lines[n + 1..];
      var calls, after := ReceiveLine(st, lines[n], parseDate);
      ghost var rest := LayoutEvents(lines[n + 1..], after, parseDate);
      assert LayoutEvents(lines[n..], st, parseDate) == calls + rest;
      ConcatAssoc(events, calls, rest);
      events, st := events + calls, after;
    }
    assert lines[|lines|..] == [];
    ConcatEmpty(events);
  }

  // ---------------------------------------------------------------- what the lines do

  /** The lines of a page are read in order: those after a prefix start from the prefix's variables. */
  lemma {:induction false} LayoutAppend<D>(l1: seq<string>, l2: seq<string>, st: Layout<D>, parseDate: string -> Option<D>)
    ensures LayoutEvents(l1 + l2, st, parseDate) == LayoutEvents(l1, st, parseDate) + LayoutEvents(l2, LayoutAfter(l1, st, parseDate), parseDate)
    decreases |l1|
  {
    if l1 == [] {
      assert l1 + l2 == l2;
    } else {
      assert (l1 + l2)[0] == l1[0] && (l1 + l2)[1..] == l1[1..] + l2;
      LayoutAppend(l1[1..], l2, Step(st, l1[0], parseDate), parseDate);
    }
  }

  /** A date line reports the new date, which later items carry, and keeps the time. */
  lemma DateLineReported<D>(st: Layout<D>, raw: string, parseDate: string -> Option<D>)
    requires IsDateLine(Strip(raw))
    ensures StepEvents(st, raw, parseDate) == [Handler.NewCvpDate(parseDate(DateText(Strip(raw))))]
    ensures Step(st, raw, parseDate) == Layout(st.lastTime, parseDate(DateText(Strip(raw))))
  {
    var line := Strip(raw);
    assert line[0] == 'н' && !IsDigit(line[0]);
  }

  /**
   * A line with groups after a time reports one item per group, under the
   * window that line or an earlier one gave and the current date.
   */
  lemma ItemsOfLine<D>(st: Layout<D>, raw: string, parseDate: string -> Option<D>)
    requires !Skipped(Strip(raw)) && !IsDateLine(Strip(raw))
    ensures var rest := ParserBase.ParseTimePeriod(Strip(raw)).2;
      var t := Step(st, raw, parseDate).lastTime;
      StepEvents(st, raw, parseDate) ==
        if rest != "" && t.Some? then ItemEvents(Finder.FoundGroups(Runs(rest, IsGroupChar)), st.date, t.value) else []
  {
  }

  /** No item is reported while no line has given a time. */
  lemma {:induction false} NoItemsWithoutTime<D>(lines: seq<string>, st: Layout<D>, parseDate: string -> Option<D>)
    requires st.lastTime.None?
    requires forall n :: 0 <= n < |lines| ==> ParserBase.MatchTimePeriod(Strip(lines[n])).None?
    ensures forall k :: 0 <= k < |LayoutEvents(lines, st, parseDate)| ==> LayoutEvents(lines, st, parseDate)[k].NewCvpDate?
    decreases |lines|
  {
    if lines != [] {
      var st1 := Step(st, lines[0], parseDate);
      assert ParserBase.MatchTimePeriod(Strip(lines[0])).None?;
      assert st1.lastTime.None?;
      assert forall n :: 1 <= n < |lines| ==> lines[n] == lines[1..][n - 1];
      NoItemsWithoutTime(lines[1..], st1, parseDate);
    }
  }

  /** Every item carries a window of non-negative minutes. */
  lemma {:induction false} ItemTimesNonNegative<D>(lines: seq<string>, st: Layout<D>, parseDate: string -> Option<D>)
    requires st.lastTime.Some? ==> st.lastTime.value.begin >= 0 && st.lastTime.value.end >= 0
    ensures forall k :: 0 <= k < |LayoutEvents(lines, st, parseDate)| && LayoutEvents(lines, st, parseDate)[k].CvpItem? ==>
      LayoutEvents(lines, st, parseDate)[k].begin >= 0 && LayoutEvents(lines, st, parseDate)[k].end >= 0
    decreases |lines|
  {
    if lines != [] {
      ItemTimesNonNegative(lines[1..], Step(st, lines[0], parseDate), parseDate);
    }
  }
}
