/**
 * `TimetableParser.parse_table` (raspisanie_bot/parsing/parsers.py:206-249):
 * the header row names one group per column after the corner cell; each
 * body row starts with its pair-number cell and lists cells that may span
 * several rows (`rowspan`) or several groups (`colspan`).  The parser walks
 * the groups of a row and works out which physical cell, if any, holds each
 * group's pair:
 *   - `skipped[p]` lists the groups whose cell in row `p` is covered by a
 *     cell of an earlier row (a `rowspan`);
 *   - `curr_spans` counts the groups of this row that use no physical cell
 *     of their own, so group `gi` reads cell `gi + 1 - curr_spans`;
 *   - `next_common_pair` counts how many more groups share the previous
 *     cell (a `colspan`), whose text `prev_text` they are given.
 * Every pair found is reported as a `handle_parsed_pair` call.
 */
module TableParser {
  import opened Wrappers
  import opened Text
  import Common
  import Finder
  import CellExtractor
  import Handler

  /** A `td`: its text, and its `rowspan` and `colspan` attributes when present. */
  datatype Cell = Cell(text: string, rowspan: Option<int>, colspan: Option<int>)

  /** A `tr`: the pair-number cell `tr[0]`, then `tr[1:]`; `len(tr)` is `|cells| + 1`. */
  datatype Row = Row(numberCell: string, cells: seq<Cell>)

  /** The header's cells after the corner cell, and the body rows. */
  datatype Table = Table(header: seq<string>, rows: seq<Row>)

  /** `skipped`: pair number to the indices of the groups covered in that row. */
  type Skips = map<nat, seq<nat>>

  function Lookup(skipped: Skips, pair: nat): seq<nat> {
    if pair in skipped then skipped[pair] else []
  }

  /** The rows below that a `rowspan` of `n` covers: `range(n - 1)`, empty for `n <= 1`. */
  function RowsBelow(n: int): nat {
    if n > 1 then n - 1 else 0
  }

  /** `skipped.setdefault(pair + i + 1, []).append(gi)` for `i` in `range(n)`. */
  function MarkRows(skipped: Skips, pair: nat, gi: nat, n: nat): Skips
    decreases n
  {
    if n == 0 then skipped
    else
      var s := MarkRows(skipped, pair, gi, n - 1);
      s[pair + n := Lookup(s, pair + n) + [gi]]
  }

  /** A cell of `rowspan` `n + 1` in row `pair` covers group `gi` in rows `pair + 1 .. pair + n`, and nothing else. */
  lemma {:induction false} MarkRowsCovers(skipped: Skips, pair: nat, gi: nat, n: nat, q: nat, g: nat)
    ensures g in Lookup(MarkRows(skipped, pair, gi, n), q) <==> g in Lookup(skipped, q) || (g == gi && pair < q <= pair + n)
  {
    if n > 0 {
      MarkRowsCovers(skipped, pair, gi, n - 1, q, g);
    }
  }

  /** Lines 240-242. */
  method MarkRowspan(skipped0: Skips, pair: nat, gi: nat, rowspan: int) returns (skipped: Skips)
    ensures skipped == MarkRows(skipped0, pair, gi, RowsBelow(rowspan))
  {
    skipped := skipped0;
    var i := 0;
    while i < rowspan - 1
      invariant 0 <= i <= RowsBelow(rowspan)
      invariant skipped == MarkRows(skipped0, pair, gi, i)
    {
      var key := pair + i + 1;
      var list := if key in skipped then skipped[key] else [];
      skipped := skipped[key := list + [gi]];
      i := i + 1;
    }
  }

  // ---------------------------------------------------------------- one cell

  /** What `parse_pair(date, group, pair, text)` reports: one pair, or nothing for a cell without words. */
  function PairEvents<D>(date: Option<D>, group: Common.GroupName, pair: nat, text: string): (r: seq<Handler.Event<D>>)
    ensures |r| <= 1
    ensures r == [] <==> forall i :: 0 <= i < |text| ==> !IsWordChar(text[i])
    ensures r != [] ==> r[0] == Handler.ParsedPair(date, group, pair, CellExtractor.PairOfTokens(Words(text)))
  {
    WordsEmpty(text);
    if Words(text) == [] then [] else [Handler.ParsedPair(date, group, pair, CellExtractor.PairOfTokens(Words(text)))]
  }

  method ReportPair<D>(date: Option<D>, group: Common.GroupName, pair: nat, text: string) returns (events: seq<Handler.Event<D>>)
    ensures events == PairEvents(date, group, pair, text)
  {
    var p := CellExtractor.ParsePair(text);
    WordsEmpty(text);
    events := if p.Some? then [Handler.ParsedPair(date, group, pair, p.value)] else [];
  }

  // ---------------------------------------------------------------- one row

  /** The loop variables of one row: `curr_spans`, `next_common_pair`, `prev_text`, and `skipped`. */
  datatype Scan = Scan(spans: nat, common: int, prevText: Option<string>, skipped: Skips)

  /** What the loop body does for one group: the new variables, the text it hands to `parse_pair`, and whether it breaks. */
  datatype Outcome = Outcome(next: Scan, report: Option<string>, stop: bool)

  /** Lines 225-249 for group `gi`; `spans <= gi` keeps the physical index past the number cell. */
  function GroupStep(st: Scan, gi: nat, group: Option<Common.GroupName>, pair: nat, row: Row): (r: Outcome)
    requires st.spans <= gi
    ensures r.next.spans <= gi + 1
    ensures r.stop ==> r.next == st && r.report.None?
    ensures r.report.Some? ==> group.Some?
  {
    if gi in Lookup(st.skipped, pair) then Outcome(st.(spans := st.spans + 1), None, false)
    else if st.common != 0 then
      Outcome(st.(spans := st.spans + 1, common := st.common - 1), if group.Some? then st.prevText else None, false)
    else if gi + 1 - st.spans >= |row.cells| + 1 then Outcome(st, None, true)
    else
      var td := row.cells[gi - st.spans];
      var skipped := if td.rowspan.Some? then MarkRows(st.skipped, pair, gi, RowsBelow(td.rowspan.value)) else st.skipped;
      var common := if td.colspan.Some? then td.colspan.value - 1 else st.common;
      if group.Some? then Outcome(Scan(st.spans, common, Some(td.text), skipped), Some(td.text), false)
      else Outcome(Scan(st.spans, common, st.prevText, skipped), None, false)
  }

  /** A `parse_pair(date, group, pair, text)` call: the group and the text. */
  type Call = (Common.GroupName, string)

  /** The `parse_pair` call a step makes, if any. */
  function StepCalls(group: Option<Common.GroupName>, report: Option<string>): (r: seq<Call>)
    ensures |r| <= 1
  {
    if group.Some? && report.Some? then [(group.value, report.value)] else []
  }

  /** The `parse_pair` calls of a row, and `skipped` after it. */
  datatype RowResult = RowResult(calls: seq<Call>, skipped: Skips)

  /** The loop over the groups from `gi` on. */
  function RowScan(groups: seq<Option<Common.GroupName>>, gi: nat, st: Scan, pair: nat, row: Row): RowResult
    requires gi <= |groups| && st.spans <= gi
    decreases |groups| - gi
  {
    if gi == |groups| then RowResult([], st.skipped)
    else
      var o := GroupStep(st, gi, groups[gi], pair, row);
      if o.stop then RowResult([], st.skipped)
      else
        var rest := RowScan(groups, gi + 1, o.next, pair, row);
        RowResult(StepCalls(groups[gi], o.report) + rest.calls, rest.skipped)
  }

  /** One turn of the loop over the groups. */
  lemma RowScanStep(groups: seq<Option<Common.GroupName>>, gi: nat, st: Scan, pair: nat, row: Row, o: Outcome)
    requires gi < |groups| && st.spans <= gi
    requires o == GroupStep(st, gi, groups[gi], pair, row)
    ensures o.stop ==> RowScan(groups, gi, st, pair, row) == RowResult([], st.skipped)
    ensures !o.stop ==> (RowScan(groups, gi, st, pair, row) ==
      RowResult(StepCalls(groups[gi], o.report) + RowScan(groups, gi + 1, o.next, pair, row).calls,
                RowScan(groups, gi + 1, o.next, pair, row).skipped))
  {
  }

  /** What the calls report, in order. */
  function CallEvents<D>(date: Option<D>, pair: nat, calls: seq<Call>): (r: seq<Handler.Event<D>>)
    ensures |r| <= |calls|
  {
    if calls == [] then [] else PairEvents(date, calls[0].0, pair, calls[0].1) + CallEvents(date, pair, calls[1..])
  }

  lemma {:induction false} CallEventsAppend<D>(date: Option<D>, pair: nat, a: seq<Call>, b: seq<Call>)
    ensures CallEvents(date, pair, a + b) == CallEvents(date, pair, a) + CallEvents(date, pair, b)
  {
    if a == [] {
      assert a + b == b;
    } else {
      assert (a + b)[0] == a[0] && (a + b)[1..] == a[1..] + b;
      CallEventsAppend(date, pair, a[1..], b);
      ConcatAssoc(PairEvents(date, a[0].0, pair, a[0].1), CallEvents(date, pair, a[1..]), CallEvents(date, pair, b));
    }
  }

  /** The loop body: the new variables, the text for `parse_pair`, and whether the row ends here. */
  method ScanGroup(st: Scan, gi: nat, group: Option<Common.GroupName>, pair: nat, row: Row)
    returns (next: Scan, report: Option<string>, stop: bool)
    requires st.spans <= gi
    ensures Outcome(next, report, stop) == GroupStep(st, gi, group, pair, row)
  {
    next, report, stop := st, None, false;
    if gi in Lookup(st.skipped, pair) {
      next := st.(spans := st.spans + 1);
      return;
    }
    if st.common != 0 {
      next := st.(spans := st.spans + 1, common := st.common - 1);
      if group.Some? {
        report := st.prevText;
      }
      return;
    }
    if gi + 1 - st.spans >= |row.cells| + 1 {
      stop := true;
      return;
    }
    var td := row.cells[gi - st.spans];
    var skipped := st.skipped;
    if td.rowspan.Some? {
      skipped := MarkRowspan(skipped, pair, gi, td.rowspan.value);
    }
    var common := st.common;
    if td.colspan.Some? {
      common := td.colspan.value - 1;
    }
    var prevText := st.prevText;
    if group.Some? {
      prevText := Some(td.text);
      report := Some(td.text);
    }
    next := Scan(st.spans, common, prevText, skipped);
  }

  /** Lines 225-249 for group `gi`, with the `parse_pair` call; `calls` and `events` are the row's so far. */
  method RowTurn<D>(groups: seq<Option<Common.GroupName>>, gi: nat, st: Scan, pair: nat, row: Row, date: Option<D>,
                    events0: seq<Handler.Event<D>>, ghost calls0: seq<Call>)
    returns (events: seq<Handler.Event<D>>, ghost calls: seq<Call>, next: Scan, stop: bool)
    requires gi < |groups| && st.spans <= gi
    requires events0 == CallEvents(date, pair, calls0)
    ensures events == CallEvents(date, pair, calls)
    ensures stop ==> next == st && calls == calls0 && RowScan(groups, gi, st, pair, row) == RowResult([], st.skipped)
    ensures !stop ==> next.spans <= gi + 1
    ensures !stop ==> calls0 + RowScan(groups, gi, st, pair, row).calls == calls + RowScan(groups, gi + 1, next, pair, row).calls
    ensures !stop ==> RowScan(groups, gi, st, pair, row).skipped == RowScan(groups, gi + 1, next, pair, row).skipped
  {
    var report;
    next, report, stop := ScanGroup(st, gi, groups[gi], pair, row);
    RowScanStep(groups, gi, st, pair, row, Outcome(next, report, stop));
    events, calls := events0, calls0;
    if !stop && report.Some? && groups[gi].Some? {
      var found := ReportPair(date, groups[gi].value, pair, report.value);
      CallEventsAppend(date, pair, calls0, [(groups[gi].value, report.value)]);
      events, calls := events0 + found, calls0 + [(groups[gi].value, report.value)];
    }
    if !stop {
      ghost var step := StepCalls(groups[gi], report);
      ghost var rest := RowScan(groups, gi + 1, next, pair, row).calls;
      assert calls == calls0 + step;
      ConcatAssoc(calls0, step, rest);
    }
  }

  /** Lines 221-249: one row with pair number `pair`. */
  method ParseRow<D>(groups: seq<Option<Common.GroupName>>, pair: nat, row: Row, date: Option<D>, skipped0: Skips)
    returns (events: seq<Handler.Event<D>>, skipped: Skips)
    ensures events == CallEvents(date, pair, RowScan(groups, 0, Scan(0, 0, None, skipped0), pair, row).calls)
    ensures skipped == RowScan(groups, 0, Scan(0, 0, None, skipped0), pair, row).skipped
  {
    ghost var whole := RowScan(groups, 0, Scan(0, 0, None, skipped0), pair, row);
    var st := Scan(0, 0, None, skipped0);
    events := [];
    ghost var calls: seq<Call> := [];
    for gi := 0 to |groups|
      invariant st.spans <= gi
      invariant events == CallEvents(date, pair, calls)
      invariant whole.calls == calls + RowScan(groups, gi, st, pair, row).calls
      invariant whole.skipped == RowScan(groups, gi, st, pair, row).skipped
    {
      var stop;
      events, calls, st, stop := RowTurn(groups, gi, st, pair, row, date, events, calls);
      if stop {
        ConcatEmpty(calls);
        return events, st.skipped;
      }
    }
    assert RowScan(groups, |groups|, st, pair, row) == RowResult([], st.skipped);
    ConcatEmpty(calls);
    skipped := st.skipped;
  }

  // ---------------------------------------------------------------- what a row does

  /** The calls a cell shared by `groups` makes: one per group that parsed, all with the cell's text. */
  function SharedCalls(groups: seq<Option<Common.GroupName>>, text: string): (r: seq<Call>)
    ensures |r| <= |groups|
  {
    if groups == [] then [] else StepCalls(groups[0], Some(text)) + SharedCalls(groups[1..], text)
  }

  /**
   * Lines 229-234: while `next_common_pair` counts down from `n`, the next
   * `n` groups (none of them covered from above) all get the shared cell's
   * text, and none of them uses a physical cell: `curr_spans` grows by `n`.
   */
  lemma {:induction false} ColspanShares(groups: seq<Option<Common.GroupName>>, gi: nat, st: Scan, pair: nat, row: Row, n: nat, text: string)
    requires st.common == n && st.prevText == Some(text) && st.spans <= gi && gi + n <= |groups|
    requires forall j :: gi <= j < gi + n ==> j !in Lookup(st.skipped, pair)
    ensures RowScan(groups, gi, st, pair, row).calls ==
      SharedCalls(groups[gi..gi + n], text) + RowScan(groups, gi + n, st.(common := 0, spans := st.spans + n), pair, row).calls
    ensures RowScan(groups, gi, st, pair, row).skipped == RowScan(groups, gi + n, st.(common := 0, spans := st.spans + n), pair, row).skipped
    decreases n
  {
    if n == 0 {
      assert st.(common := 0, spans := st.spans + n) == st;
      assert groups[gi..gi + n] == [];
    } else {
      var next := st.(spans := st.spans + 1, common := st.common - 1);
      ColspanStep(groups, gi, st, pair, row, text);
      ColspanShares(groups, gi + 1, next, pair, row, n - 1, text);
      assert next.(common := 0, spans := next.spans + (n - 1)) == st.(common := 0, spans := st.spans + n);
      assert groups[gi..gi + n][0] == groups[gi] && groups[gi..gi + n][1..] == groups[gi + 1..gi + n];
      assert SharedCalls(groups[gi..gi + n], text) == StepCalls(groups[gi], Some(text)) + SharedCalls(groups[gi + 1..gi + n], text);
      var rest := RowScan(groups, gi + n, st.(common := 0, spans := st.spans + n), pair, row).calls;
      ConcatAssoc(StepCalls(groups[gi], Some(text)), SharedCalls(groups[gi + 1..gi + n], text), rest);
    }
  }

  /** One group under a shared cell: it gets the cell's text and uses no physical cell. */
  lemma ColspanStep(groups: seq<Option<Common.GroupName>>, gi: nat, st: Scan, pair: nat, row: Row, text: string)
    requires st.common != 0 && st.prevText == Some(text) && st.spans <= gi < |groups|
    requires gi !in Lookup(st.skipped, pair)
    ensures var rest := RowScan(groups, gi + 1, st.(spans := st.spans + 1, common := st.common - 1), pair, row);
      RowScan(groups, gi, st, pair, row) == RowResult(StepCalls(groups[gi], Some(text)) + rest.calls, rest.skipped)
  {
    var o := GroupStep(st, gi, groups[gi], pair, row);
    assert !o.stop && o.next == st.(spans := st.spans + 1, common := st.common - 1);
    assert StepCalls(groups[gi], o.report) == StepCalls(groups[gi], Some(text));
    RowScanStep(groups, gi, st, pair, row, o);
  }

  /** A row with no spanning cell: the calls of group `gi` onward, group `gi` reading `tr[gi + 1]`. */
  function PlainCalls(groups: seq<Option<Common.GroupName>>, cells: seq<Cell>, gi: nat): seq<Call>
    decreases |groups| - gi
  {
    if gi >= |groups| || gi >= |cells| then [] else StepCalls(groups[gi], Some(cells[gi].text)) + PlainCalls(groups, cells, gi + 1)
  }

  predicate NoSpans(cells: seq<Cell>) {
    forall i :: 0 <= i < |cells| ==> cells[i].rowspan.None? && cells[i].colspan.None?
  }

  /**
   * With no spans at all, group `gi` gets body cell `gi + 1`, the groups past
   * the end of the row get nothing, and `skipped` is left as it was.
   */
  lemma {:induction false} PlainRow(groups: seq<Option<Common.GroupName>>, gi: nat, st: Scan, pair: nat, row: Row)
    requires NoSpans(row.cells) && st.spans == 0 && st.common == 0 && gi <= |groups|
    requires forall j :: gi <= j < |groups| ==> j !in Lookup(st.skipped, pair)
    ensures RowScan(groups, gi, st, pair, row) == RowResult(PlainCalls(groups, row.cells, gi), st.skipped)
    decreases |groups| - gi
  {
    if gi < |groups| && gi < |row.cells| {
      var o := GroupStep(st, gi, groups[gi], pair, row);
      PlainRow(groups, gi + 1, o.next, pair, row);
    }
  }

  /** A group covered in some row stays covered: a row only adds to `skipped`. */
  lemma {:induction false} CoverKept(groups: seq<Option<Common.GroupName>>, gi: nat, st: Scan, pair: nat, row: Row, q: nat, g: nat)
    requires gi <= |groups| && st.spans <= gi
    requires g in Lookup(st.skipped, q)
    ensures g in Lookup(RowScan(groups, gi, st, pair, row).skipped, q)
    decreases |groups| - gi
  {
    if gi < |groups| {
      var o := GroupStep(st, gi, groups[gi], pair, row);
      if !o.stop {
        if o.next.skipped != st.skipped {
          var td := row.cells[gi - st.spans];
          MarkRowsCovers(st.skipped, pair, gi, RowsBelow(td.rowspan.value), q, g);
        }
        CoverKept(groups, gi + 1, o.next, pair, row, q, g);
      }
    }
  }

  /** Every call of a row is for a group the header named, with this row's pair number. */
  lemma {:induction false} CallsFromHeader(groups: seq<Option<Common.GroupName>>, gi: nat, st: Scan, pair: nat, row: Row)
    requires gi <= |groups| && st.spans <= gi
    ensures forall c :: c in RowScan(groups, gi, st, pair, row).calls ==> Some(c.0) in groups[gi..]
    decreases |groups| - gi
  {
    if gi < |groups| {
      var o := GroupStep(st, gi, groups[gi], pair, row);
      if !o.stop {
        CallsFromHeader(groups, gi + 1, o.next, pair, row);
        assert groups[gi..] == [groups[gi]] + groups[gi + 1..];
      }
    }
  }

  // ---------------------------------------------------------------- the table

  /** Lines 211-213: the group each header cell names, `None` where none parses. */
  function HeaderGroups(header: seq<string>): (r: seq<Option<Common.GroupName>>)
    ensures |r| == |header|
  {
    Map(header, Finder.FindGroup)
  }

  /** `skipped.setdefault(pair, [])`. */
  function RowStart(skipped: Skips, pair: nat): Skips {
    if pair in skipped then skipped else skipped[pair := []]
  }

  /** One body row: the pairs it reports and `skipped` after it; a row without a pair number is passed over. */
  function TableRow<D>(groups: seq<Option<Common.GroupName>>, row: Row, skipped: Skips, date: Option<D>): (seq<Handler.Event<D>>, Skips) {
    match Finder.FindPairNumber(row.numberCell)
    case None => ([], skipped)
    case Some(pair) =>
      var r := RowScan(groups, 0, Scan(0, 0, None, RowStart(skipped, pair)), pair, row);
      (CallEvents(date, pair, r.calls), r.skipped)
  }

  /** The pairs the rows report, `skipped` being what earlier rows covered. */
  function TableEvents<D>(groups: seq<Option<Common.GroupName>>, rows: seq<Row>, skipped: Skips, date: Option<D>): seq<Handler.Event<D>>
    decreases |rows|
  {
    if rows == [] then []
    else
      var r := TableRow(groups, rows[0], skipped, date);
      r.0 + TableEvents(groups, rows[1..], r.1, date)
  }

  /** Lines 211-213. */
  method ReadHeader(header: seq<string>) returns (groups: seq<Option<Common.GroupName>>)
    ensures groups == HeaderGroups(header)
  {
    groups := [];
    for k := 0 to |header|
      invariant groups == HeaderGroups(header[..k])
    {
      assert header[..k + 1] == header[..k] + [header[k]];
      groups := groups + [Finder.FindGroup(header[k])];
    }
    assert header[..|header|] == header;
  }

  /** Lines 216-249 for one body row. */
  method ReadRow<D>(groups: seq<Option<Common.GroupName>>, row: Row, date: Option<D>, skipped0: Skips)
    returns (events: seq<Handler.Event<D>>, skipped: Skips)
    ensures (events, skipped) == TableRow(groups, row, skipped0, date)
  {
    var pair := Finder.FindPairNumber(row.numberCell);
    if pair.None? {
      return [], skipped0;
    }
    var start := skipped0;
    if pair.value !in start {
      start := start[pair.value := []];
    }
    events, skipped := ParseRow(groups, pair.value, row, date, start);
  }

  /** `parse_table(date, table)`. */
  method ParseTable<D>(date: Option<D>, t: Table) returns (events: seq<Handler.Event<D>>)
    ensures events == TableEvents(HeaderGroups(t.header), t.rows, map[], date)
  {
    var groups := ReadHeader(t.header);
    var rows := t.rows;
    var skipped: Skips := map[];
    events := [];
    assert rows[0..] == rows;
    for n := 0 to |rows|
      invariant events + TableEvents(groups, rows[n..], skipped, date) == TableEvents(groups, rows, map[], date)
    {
      assert rows[n..][1..] == rows[n + 1..];
      var found, after := ReadRow(groups, rows[n], date, skipped);
      ghost var rest := TableEvents(groups, rows[n + 1..], after, date);
      ConcatAssoc(events, found, rest);
      events, skipped := events + found, after;
    }
    assert rows[|rows|..] == [];
    ConcatEmpty(events);
  }

  // ---------------------------------------------------------------- what the table does

  /** A row whose first cell holds no digit reports nothing and leaves `skipped` alone. */
  lemma UnnumberedRowPassed<D>(groups: seq<Option<Common.GroupName>>, row: Row, rows: seq<Row>, skipped: Skips, date: Option<D>)
    requires Finder.FindPairNumber(row.numberCell).None?
    ensures TableEvents(groups, [row] + rows, skipped, date) == TableEvents(groups, rows, skipped, date)
  {
    assert ([row] + rows)[1..] == rows;
  }

  /** `parse_pair` reports nothing but `handle_parsed_pair` calls. */
  lemma {:induction false} CallEventsArePairs<D>(date: Option<D>, pair: nat, calls: seq<Call>)
    ensures forall e :: e in CallEvents(date, pair, calls) ==> e.ParsedPair? && e.date == date && e.pairNumber == pair
  {
    if calls != [] {
      CallEventsArePairs(date, pair, calls[1..]);
    }
  }

  /** A table reports nothing but `handle_parsed_pair` calls, all with the page's date. */
  lemma {:induction false} TableEventsArePairs<D>(groups: seq<Option<Common.GroupName>>, rows: seq<Row>, skipped: Skips, date: Option<D>)
    ensures forall e :: e in TableEvents(groups, rows, skipped, date) ==> e.ParsedPair? && e.date == date
    decreases |rows|
  {
    if rows != [] {
      var r := TableRow(groups, rows[0], skipped, date);
      TableEventsArePairs(groups, rows[1..], r.1, date);
      match Finder.FindPairNumber(rows[0].numberCell)
      case None =>
      case Some(pair) =>
        CallEventsArePairs(date, pair, RowScan(groups, 0, Scan(0, 0, None, RowStart(skipped, pair)), pair, rows[0]).calls);
    }
  }
}
