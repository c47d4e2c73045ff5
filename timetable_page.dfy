/**
 * `TimetableParser.parse_timetable_page` (raspisanie_bot/parsing/parsers.py:174-204):
 * the children of the page's first body element are read in order.  A
 * paragraph holding a link is reported to `handle_link`; any other
 * non-empty paragraph may name the timetable's date, and a date that differs
 * from the current one is reported to `handle_new_date` before it becomes
 * current; a table (bare or as the first child of a `div`) is read by
 * `parse_table` under the current date; `font` and unknown elements are
 * passed over.  The date parser is the parameter `parseDate`.
 */
module TimetablePage {
  import opened Wrappers
  import opened Text
  import Common
  import Handler
  import TableParser

  /** A child of `page.body[0]`. */
  datatype Block =
    | Paragraph(content: string, href: Option<string>)  // a `p`: its text and the `href` of its first `a`, if it has one
    | Division(table: TableParser.Table)                // a `div`: its first child
    | TableBlock(table: TableParser.Table)              // a `table`
    | Font                                              // a `font`
    | Other(tag: string)                                // anything else, which is only logged

  /** `s.replace(pat, '')`: the occurrences of `pat`, taken from the left without overlap, removed. */
  function RemoveAll(s: string, pat: string): (r: string)
    requires |pat| > 0
    ensures |r| <= |s|
    decreases |s|
  {
    if |s| < |pat| then s
    else if s[..|pat|] == pat then RemoveAll(s[|pat|..], pat)
    else [s[0]] + RemoveAll(s[1..], pat)
  }

  /** `pat` occurs in `s` at index `i`. */
  predicate At(s: string, i: nat, pat: string) {
    i + |pat| <= |s| && s[i..i + |pat|] == pat
  }

  ghost predicate Occurs(s: string, pat: string) {
    exists i: nat :: At(s, i, pat)
  }

  /** Text without the word is left as it is. */
  lemma {:induction false} RemoveAllAbsent(s: string, pat: string)
    requires |pat| > 0 && !Occurs(s, pat)
    ensures RemoveAll(s, pat) == s
    decreases |s|
  {
    if |s| >= |pat| {
      assert !At(s, 0, pat);
      assert s[0..|pat|] == s[..|pat|];
      if Occurs(s[1..], pat) {
        var i: nat :| At(s[1..], i, pat);
        assert s[1..][i..i + |pat|] == s[i + 1..i + 1 + |pat|];
        assert At(s, i + 1, pat);
        assert false;
      }
      RemoveAllAbsent(s[1..], pat);
      assert s == [s[0]] + s[1..];
    }
  }

  /** The word itself is removed wherever the text has it, here at the front. */
  lemma RemoveAllFront(pat: string, s: string)
    requires |pat| > 0
    ensures RemoveAll(pat + s, pat) == RemoveAll(s, pat)
  {
    assert (pat + s)[..|pat|] == pat;
    assert (pat + s)[|pat|..] == s;
  }

  /** Line 187: the text handed to the date parser. */
  function DateText(text: string): string {
    RemoveAll(RemoveAll(LowerAll(text), "знаменатель"), "числитель")
  }

  /** What one child reports, and the current date after it. */
  function BlockEvents<D(==)>(b: Block, date: Option<D>, parseDate: string -> Option<D>): (r: (seq<Handler.Event<D>>, Option<D>))
    ensures date.Some? ==> r.1.Some?
  {
    match b
    case Paragraph(content, href) =>
      var text := Common.NormalizeText(content);
      if href.Some? && href.value != "" then (Handler.LinkEvents(text, href.value), date)
      else if text == "" then ([], date)
      else
        (match parseDate(DateText(text))
         case None => ([], date)
         case Some(d) => (if Some(d) != date then [Handler.NewDate(d, date)] else [], Some(d)))
    case Division(t) => (TableParser.TableEvents(TableParser.HeaderGroups(t.header), t.rows, map[], date), date)
    case TableBlock(t) => (TableParser.TableEvents(TableParser.HeaderGroups(t.header), t.rows, map[], date), date)
    case Font => ([], date)
    case Other(_) => ([], date)
  }

  /** What the children report, `date` being the current date before them. */
  function PageEvents<D(==)>(blocks: seq<Block>, date: Option<D>, parseDate: string -> Option<D>): seq<Handler.Event<D>>
    decreases |blocks|
  {
    if blocks == [] then []
    else
      var r := BlockEvents(blocks[0], date, parseDate);
      r.0 + PageEvents(blocks[1..], r.1, parseDate)
  }

  /** Lines 178-204 for one child. */
  method ReadBlock<D(==)>(b: Block, date0: Option<D>, parseDate: string -> Option<D>) returns (events: seq<Handler.Event<D>>, date: Option<D>)
    ensures (events, date) == BlockEvents(b, date0, parseDate)
  {
    events, date := [], date0;
    match b
    case Paragraph(content, href) =>
      var text := Common.NormalizeText(content);
      if href.Some? && href.value != "" {
        events := Handler.LinkEvents(text, href.value);
      } else if text != "" {
        var newDate := parseDate(DateText(text));
        if newDate.Some? {
          if newDate != date {
            events := [Handler.NewDate(newDate.value, date)];
          }
          date := newDate;
        }
      }
    case Division(t) =>
      events := TableParser.ParseTable(date, t);
    case TableBlock(t) =>
      events := TableParser.ParseTable(date, t);
    case Font =>
    case Other(_) =>
  }

  /** `parse_timetable_page(page)`. */
  method ParseTimetablePage<D(==)>(blocks: seq<Block>, parseDate: string -> Option<D>) returns (events: seq<Handler.Event<D>>)
    ensures events == PageEvents(blocks, None, parseDate)
  {
    var date: Option<D> := None;
    events := [];
    assert blocks[0..] == blocks;
    for n := 0 to |blocks|
      invariant events + PageEvents(blocks[n..], date, parseDate) == PageEvents(blocks, None, parseDate)
    {
      assert blocks[n..][1..] == blocks[n + 1..];
      var found, after := ReadBlock(blocks[n], date, parseDate);
      ghost var rest := PageEvents(blocks[n + 1..], after, parseDate);
      ConcatAssoc(events, found, rest);
      events, date := events + found, after;
    }
    assert blocks[|blocks|..] == [];
    ConcatEmpty(events);
  }

  // ---------------------------------------------------------------- what a page reports

  /** A date reported with no date before it: the one case where the store clears that day's pairs. */
  predicate IsFirstDate<D>(e: Handler.Event<D>) {
    e.NewDate? && e.oldDate.None?
  }

  /** Tables report no dates. */
  lemma TableHasNoDates<D>(t: TableParser.Table, date: Option<D>)
    ensures Filter(TableParser.TableEvents(TableParser.HeaderGroups(t.header), t.rows, map[], date), IsFirstDate) == []
  {
    var events := TableParser.TableEvents(TableParser.HeaderGroups(t.header), t.rows, map[], date);
    TableParser.TableEventsArePairs(TableParser.HeaderGroups(t.header), t.rows, map[], date);
    assert forall i :: 0 <= i < |events| ==> events[i] in events;
    FilterNone(events, IsFirstDate);
  }

  /**
   * A page reports a date with no date before it at most once, and never
   * once a date is current: after the first date line the current date is
   * never unset again.
   */
  lemma {:induction false} FirstDateOnce<D>(blocks: seq<Block>, date: Option<D>, parseDate: string -> Option<D>)
    ensures |Filter(PageEvents(blocks, date, parseDate), IsFirstDate)| <= if date.None? then 1 else 0
    decreases |blocks|
  {
    if blocks != [] {
      var r := BlockEvents(blocks[0], date, parseDate);
      FirstDateOnce(blocks[1..], r.1, parseDate);
      FilterAppend(r.0, PageEvents(blocks[1..], r.1, parseDate), IsFirstDate);
      BlockFirstDate(blocks[0], date, parseDate);
    }
  }

  /** One child reports a date with no date before it only when there was none, and a date is current after it. */
  lemma BlockFirstDate<D>(b: Block, date: Option<D>, parseDate: string -> Option<D>)
    ensures var r := BlockEvents(b, date, parseDate);
      |Filter(r.0, IsFirstDate)| + (if r.1.None? then 1 else 0) <= if date.None? then 1 else 0
  {
    match b
    case Paragraph(content, href) => ParagraphFirstDate(content, href, date, parseDate);
    case Division(t) => TableHasNoDates(t, date);
    case TableBlock(t) => TableHasNoDates(t, date);
    case Font =>
    case Other(_) =>
  }

  /** The same for a paragraph. */
  lemma ParagraphFirstDate<D>(content: string, href: Option<string>, date: Option<D>, parseDate: string -> Option<D>)
    ensures var r := BlockEvents(Paragraph(content, href), date, parseDate);
      |Filter(r.0, IsFirstDate)| + (if r.1.None? then 1 else 0) <= if date.None? then 1 else 0
  {
    var r := BlockEvents(Paragraph(content, href), date, parseDate);
    var text := Common.NormalizeText(content);
    if href.Some? && href.value != "" {
      FilterNone(r.0, IsFirstDate);
    } else if text != "" && parseDate(DateText(text)).Some? {
      assert r.1.Some?;
    }
  }

  /** Every reported date change is a real change: the new date differs from the one it replaces. */
  lemma {:induction false} DatesChange<D>(blocks: seq<Block>, date: Option<D>, parseDate: string -> Option<D>)
    ensures forall e :: e in PageEvents(blocks, date, parseDate) && e.NewDate? ==> Some(e.newDate) != e.oldDate
    decreases |blocks|
  {
    if blocks != [] {
      var r := BlockEvents(blocks[0], date, parseDate);
      DatesChange(blocks[1..], r.1, parseDate);
      BlockDatesChange(blocks[0], date, parseDate);
      assert PageEvents(blocks, date, parseDate) == r.0 + PageEvents(blocks[1..], r.1, parseDate);
    }
  }

  lemma BlockDatesChange<D>(b: Block, date: Option<D>, parseDate: string -> Option<D>)
    ensures forall e :: e in BlockEvents(b, date, parseDate).0 && e.NewDate? ==> Some(e.newDate) != e.oldDate
  {
    match b
    case Paragraph(_, _) =>
    case Division(t) => TableParser.TableEventsArePairs(TableParser.HeaderGroups(t.header), t.rows, map[], date);
    case TableBlock(t) => TableParser.TableEventsArePairs(TableParser.HeaderGroups(t.header), t.rows, map[], date);
    case Font =>
    case Other(_) =>
  }
}
