/**
 * The bell schedule page: a table whose rows hold a pair-number cell and a
 * time cell such as `8.30 - 10.00`.  Module `CallSchedule` is the function
 * `parse_call_schedule` (raspisanie_bot/parsing/call_schedule.py), which
 * returns a dictionary from pair number to time window; module
 * `CallScheduleParser` is the newer `CallScheduleParser.parse_call_schedule_page`
 * (raspisanie_bot/parsing/parsers.py:83-101), which reports each row to the
 * handler instead.  A table is given as its rows' two cell texts.
 */
module CallSchedule {
  import opened Wrappers
  import opened Text
  import Common
  import ParserBase
  import Assoc

  // ---------------------------------------------------------------- NORM_TIME_RE

  /**
   * `NORM_TIME_RE.fullmatch(col2)`, pattern `\s*(\d+)[.,:](\d+)\s*.\s*(\d+)[.,:](\d+)\s*`:
   * two clock readings separated by one character that is not a digit, with
   * nothing else on the line.
   */
  function MatchNormTime(s: string): (r: Option<Common.TimePeriod>)
    ensures r.Some? ==> r.value.begin >= 0 && r.value.end >= 0
  {
    match ParserBase.MatchClock(s, Common.SkipSpaces(s, 0), true)
    case None => None
    case Some((begin, j)) => MatchNormTimeEnd(s, begin, j)
  }

  /** The rest of `NORM_TIME_RE` after the first clock, which read `begin` and ended at `j`. */
  function MatchNormTimeEnd(s: string, begin: nat, j: nat): (r: Option<Common.TimePeriod>)
    requires j <= |s|
    ensures r.Some? ==> r.value.begin == begin && r.value.end >= 0
  {
    var k := Common.SkipSpaces(s, j);
    if k < |s| && !IsDigit(s[k]) then
      match ParserBase.MatchClock(s, Common.SkipSpaces(s, k + 1), true)
      case None => None
      case Some((end, n)) =>
        if Common.SkipSpaces(s, n) == |s| then Some(Common.TimePeriod(begin, end)) else None
    else None
  }

  /** A clock reading starts with a digit. */
  lemma ClockStartsWithDigit(s: string, i: nat)
    requires i <= |s| && ParserBase.MatchClock(s, i, true).Some?
    ensures i < |s| && IsDigit(s[i])
  {
  }

  /**
   * A time cell written `hh.mm`, a separator and `hh.mm`, with plain spaces
   * around the parts, is read as the two clock readings in minutes.
   */
  lemma NormTimeAt(s: string, a0: nat, hh1: string, p1: char, mm1: string, d: nat,
                   a2: nat, hh2: string, p2: char, mm2: string)
    requires IsInt(hh1) && IsInt(mm1) && IsInt(hh2) && IsInt(mm2)
    requires ParserBase.IsTimePunct(p1, true) && ParserBase.IsTimePunct(p2, true)
    requires ParserBase.SpacesAt(s, 0, a0)
    requires a0 + |hh1| + 1 + |mm1| <= d < a2 && a2 + |hh2| + 1 + |mm2| <= |s|
    requires s[a0..a0 + |hh1|] == hh1 && s[a0 + |hh1|] == p1 && s[a0 + |hh1| + 1..a0 + |hh1| + 1 + |mm1|] == mm1
    requires ParserBase.SpacesAt(s, a0 + |hh1| + 1 + |mm1|, d)
    requires !IsDigit(s[d]) && !IsSpace(s[d])
    requires ParserBase.SpacesAt(s, d + 1, a2)
    requires s[a2..a2 + |hh2|] == hh2 && s[a2 + |hh2|] == p2 && s[a2 + |hh2| + 1..a2 + |hh2| + 1 + |mm2|] == mm2
    requires ParserBase.SpacesAt(s, a2 + |hh2| + 1 + |mm2|, |s|)
    ensures MatchNormTime(s) ==
      Some(Common.TimePeriod(ParserBase.ClockMinutes(hh1, mm1), ParserBase.ClockMinutes(hh2, mm2)))
  {
    var e1 := a0 + |hh1| + 1 + |mm1|;
    assert s[a0] == hh1[0];
    ParserBase.SkipSpacesAt(s, 0, a0);
    ParserBase.MatchClockAt(s, a0, hh1, p1, mm1, true);
    NormTimeEndAt(s, ParserBase.ClockMinutes(hh1, mm1), e1, d, a2, hh2, p2, mm2);
  }

  /** The separator and the second clock reading, after a first one that ended at `e1`. */
  lemma NormTimeEndAt(s: string, begin: nat, e1: nat, d: nat, a2: nat, hh2: string, p2: char, mm2: string)
    requires IsInt(hh2) && IsInt(mm2) && ParserBase.IsTimePunct(p2, true)
    requires e1 <= d < a2 && a2 + |hh2| + 1 + |mm2| <= |s|
    requires ParserBase.SpacesAt(s, e1, d)
    requires !IsDigit(s[d]) && !IsSpace(s[d])
    requires ParserBase.SpacesAt(s, d + 1, a2)
    requires s[a2..a2 + |hh2|] == hh2 && s[a2 + |hh2|] == p2 && s[a2 + |hh2| + 1..a2 + |hh2| + 1 + |mm2|] == mm2
    requires ParserBase.SpacesAt(s, a2 + |hh2| + 1 + |mm2|, |s|)
    ensures MatchNormTimeEnd(s, begin, e1) == Some(Common.TimePeriod(begin, ParserBase.ClockMinutes(hh2, mm2)))
  {
    var e2 := a2 + |hh2| + 1 + |mm2|;
    ParserBase.SkipSpacesAt(s, e1, d);
    assert s[a2] == hh2[0];
    ParserBase.SkipSpacesAt(s, d + 1, a2);
    ParserBase.MatchClockAt(s, a2, hh2, p2, mm2, true);
    ParserBase.SkipSpacesAt(s, e2, |s|);
  }

  /** A well-formed cell: `8.30 - 10.00` is the window from 510 to 600 minutes. */
  lemma NormTimeExample()
    ensures MatchNormTime("8.30 - 10.00") == Some(Common.TimePeriod(510, 600))
  {
    var s := "8.30 - 10.00";
    assert s[0..1] == "8";
    assert s[2..4] == "30";
    assert s[7..9] == "10";
    assert s[10..12] == "00";
    assert DigitsValue("8") == 8 && DigitsValue("30") == 30 && DigitsValue("10") == 10 && DigitsValue("00") == 0 by {
      assert "30"[..1] == "3" && "10"[..1] == "1" && "00"[..1] == "0";
      assert "8"[..0] == "" && "3"[..0] == "" && "1"[..0] == "" && "0"[..0] == "";
    }
    assert ParserBase.ClockMinutes("8", "30") == 510 && ParserBase.ClockMinutes("10", "00") == 600;
    NormTimeAt(s, 0, "8", '.', "30", 5, 7, "10", '.', "00");
  }

  /**
   * Whatever `NORM_TIME_RE` reads, the pattern of `parse_time_period` reads
   * the same way, with an empty rest of the line: the two parsers of the
   * bell schedule agree on the cells the older one accepts.
   */
  lemma NormTimeIsTimePeriod(s: string)
    requires MatchNormTime(s).Some?
    ensures ParserBase.ParseTimePeriod(s) == (Some(MatchNormTime(s).value.begin), Some(MatchNormTime(s).value.end), "")
  {
    var i := Common.SkipSpaces(s, 0);
    NormTimeFrom(s);
    assert s[i] != 'с' && Common.SkipSpaces(s, i) == i;
    assert ParserBase.MatchTimePeriod(s) == ParserBase.MatchPeriodFrom(s, i, true, true);
  }

  /** From the first clock on, the pattern of `parse_time_period` reads what `NORM_TIME_RE` reads. */
  lemma NormTimeFrom(s: string)
    requires MatchNormTime(s).Some?
    ensures var i := Common.SkipSpaces(s, 0);
      && i < |s| && IsDigit(s[i])
      && ParserBase.MatchPeriodFrom(s, i, true, true) == Some((MatchNormTime(s).value, ""))
  {
    var i, begin, j, k, m, end, n := NormTimeSteps(s);
    ClockStartsWithDigit(s, i);
    ClockStartsWithDigit(s, m);
    SingleDash(s, k, m);
    assert ParserBase.MatchRest(s, |s|) == Some("") by {
      assert s[|s|..] == "";
    }
    ParserBase.MatchPeriodEndSteps(s, begin, k, k + 1, m, end, n, |s|, "", true, true);
    ParserBase.MatchPeriodFromSteps(s, i, begin, j, k, true, true);
  }

  /** The steps by which `NORM_TIME_RE` matched `s`. */
  lemma NormTimeSteps(s: string) returns (i: nat, begin: nat, j: nat, k: nat, m: nat, end: nat, n: nat)
    requires MatchNormTime(s).Some?
    ensures i == Common.SkipSpaces(s, 0) && ParserBase.MatchClock(s, i, true) == Some((begin, j))
    ensures k == Common.SkipSpaces(s, j) && k < |s| && !IsDigit(s[k])
    ensures m == Common.SkipSpaces(s, k + 1) && ParserBase.MatchClock(s, m, true) == Some((end, n))
    ensures Common.SkipSpaces(s, n) == |s| && MatchNormTime(s).value == Common.TimePeriod(begin, end)
  {
    i := Common.SkipSpaces(s, 0);
    begin, j := ParserBase.MatchClock(s, i, true).value.0, ParserBase.MatchClock(s, i, true).value.1;
    assert MatchNormTimeEnd(s, begin, j) == MatchNormTime(s);
    k := Common.SkipSpaces(s, j);
    m := Common.SkipSpaces(s, k + 1);
    end, n := ParserBase.MatchClock(s, m, true).value.0, ParserBase.MatchClock(s, m, true).value.1;
  }

  /** The one character between the clocks is a separator `(?:до|.)` of one character. */
  lemma SingleDash(s: string, k: nat, m: nat)
    requires k < |s| && !IsDigit(s[k]) && !IsSpace(s[k])
    requires m < |s| && m == Common.SkipSpaces(s, k + 1) && IsDigit(s[m])
    ensures ParserBase.MatchSeparator(s, k, true) == Some(k + 1)
  {
    if k + 1 < |s| && !IsSpace(s[k + 1]) {
      assert m == k + 1;
    }
  }

  // ---------------------------------------------------------------- parse_call_schedule

  /** The assignments `pair_info[pn] = TimePeriod(start, end)` the rows make, `last` being `last_pn` before them. */
  function Assignments(rows: seq<(string, string)>, last: int): seq<(int, Common.TimePeriod)>
    decreases |rows|
  {
    if rows == [] then []
    else
      var (col1, col2) := rows[0];
      if IsBlank(col1) then Assignments(rows[1..], last)
      else
        var pn := Common.ParsePairNumber(col1, last + 1);
        (match MatchNormTime(col2) case None => [] case Some(p) => [(pn, p)]) + Assignments(rows[1..], pn)
  }

  /** The rows from `rn` on, when row `rn` has a blank first column: the rest. */
  lemma AssignmentsBlank(rows: seq<(string, string)>, rn: nat, last: int)
    requires rn < |rows| && IsBlank(rows[rn].0)
    ensures Assignments(rows[rn..], last) == Assignments(rows[rn + 1..], last)
  {
    assert rows[rn..][0] == rows[rn] && rows[rn..][1..] == rows[rn + 1..];
  }

  /** The rows from `rn` on, for any other row: its assignment, if its time matches, then the rest. */
  lemma AssignmentsRow(rows: seq<(string, string)>, rn: nat, last: int, pn: int, time: Option<Common.TimePeriod>)
    requires rn < |rows| && !IsBlank(rows[rn].0)
    requires pn == Common.ParsePairNumber(rows[rn].0, last + 1) && time == MatchNormTime(rows[rn].1)
    ensures Assignments(rows[rn..], last) == (if time.Some? then [(pn, time.value)] else []) + Assignments(rows[rn + 1..], pn)
  {
    assert rows[rn..][0] == rows[rn] && rows[rn..][1..] == rows[rn + 1..];
  }

  /** `last_pn` after the rows. */
  function LastNumber(rows: seq<(string, string)>, last: int): int
    decreases |rows|
  {
    if rows == [] then last
    else if IsBlank(rows[0].0) then LastNumber(rows[1..], last)
    else LastNumber(rows[1..], Common.ParsePairNumber(rows[0].0, last + 1))
  }

  /** `parse_call_schedule(page)` over the rows of the schedule table. */
  method ParseCallSchedule(rows: seq<(string, string)>) returns (pairInfo: map<int, Common.TimePeriod>)
    ensures pairInfo == Assoc.AsMap(Assignments(rows, 0))
  {
    pairInfo := map[];
    var lastPn := 0;
    ghost var done: seq<(int, Common.TimePeriod)> := [];
    for rn := 0 to |rows|
      invariant pairInfo == Assoc.AsMap(done)
      invariant done + Assignments(rows[rn..], lastPn) == Assignments(rows, 0)
    {
      var (col1, col2) := rows[rn];
      if IsBlank(col1) {
        AssignmentsBlank(rows, rn, lastPn);
        continue;
      }
      var pn := Common.ParsePairNumber(col1, lastPn + 1);
      var time := MatchNormTime(col2);
      AssignmentsRow(rows, rn, lastPn, pn, time);
      ghost var rest := Assignments(rows[rn + 1..], pn);
      lastPn := pn;
      if time.Some? {
        ConcatAssoc(done, [(pn, time.value)], rest);
        Assoc.AsMapSnoc(done, pn, time.value);
        pairInfo := pairInfo[pn := time.value];
        done := done + [(pn, time.value)];
      } else {
        ConcatEmpty(done);
      }
    }
    assert Assignments(rows[|rows|..], lastPn) == [];
    assert done == Assignments(rows, 0);
  }

  // ---------------------------------------------------------------- what the rows do

  /** The rows are read in order: the rows after a prefix continue from the prefix's last pair number. */
  lemma {:induction false} AssignmentsAppend(r1: seq<(string, string)>, r2: seq<(string, string)>, last: int)
    ensures Assignments(r1 + r2, last) == Assignments(r1, last) + Assignments(r2, LastNumber(r1, last))
    decreases |r1|
  {
    if r1 == [] {
      assert r1 + r2 == r2;
    } else {
      assert (r1 + r2)[0] == r1[0] && (r1 + r2)[1..] == r1[1..] + r2;
      if IsBlank(r1[0].0) {
        AssignmentsAppend(r1[1..], r2, last);
      } else {
        AssignmentsAppend(r1[1..], r2, Common.ParsePairNumber(r1[0].0, last + 1));
      }
    }
  }

  /**
   * A later row overwrites an earlier one with the same pair number: the
   * table of `rows1 + rows2` is that of `rows1` updated with that of `rows2`.
   */
  lemma LaterRowsOverwrite(r1: seq<(string, string)>, r2: seq<(string, string)>, last: int)
    ensures Assoc.AsMap(Assignments(r1 + r2, last))
         == Assoc.AsMap(Assignments(r1, last)) + Assoc.AsMap(Assignments(r2, LastNumber(r1, last)))
  {
    AssignmentsAppend(r1, r2, last);
    Assoc.AsMapAppend(Assignments(r1, last), Assignments(r2, LastNumber(r1, last)));
  }

  /** A row whose number cell is whitespace only changes nothing: no entry, and `last_pn` is kept. */
  lemma BlankRowSkipped(col1: string, col2: string, rows: seq<(string, string)>, last: int)
    requires IsBlank(col1)
    ensures Assignments([(col1, col2)] + rows, last) == Assignments(rows, last)
    ensures LastNumber([(col1, col2)] + rows, last) == LastNumber(rows, last)
  {
    assert ([(col1, col2)] + rows)[1..] == rows;
  }

  /**
   * Any other row takes the pair number written in its first cell, or the
   * previous one plus one when that cell has no digit (an empty cell
   * included, since `"".isspace()` is false), and the number counts even
   * when the time cell is not understood; the entry is written only when it
   * is.
   */
  lemma RowNumbered(col1: string, col2: string, rows: seq<(string, string)>, last: int)
    requires !IsBlank(col1)
    ensures var pn := Common.ParsePairNumber(col1, last + 1);
      && LastNumber([(col1, col2)] + rows, last) == LastNumber(rows, pn)
      && Assignments([(col1, col2)] + rows, last) ==
         (if MatchNormTime(col2).Some? then [(pn, MatchNormTime(col2).value)] else []) + Assignments(rows, pn)
      && ((forall i :: 0 <= i < |col1| ==> !IsDigit(col1[i])) ==> pn == last + 1)
  {
    assert ([(col1, col2)] + rows)[1..] == rows;
  }

  /** A table of one row per pair, each with its number and a well-formed time, maps every number to its time. */
  lemma {:induction false} AssignmentKeys(rows: seq<(string, string)>, last: int, pn: int)
    ensures (exists i :: 0 <= i < |Assignments(rows, last)| && Assignments(rows, last)[i].0 == pn)
        <==> pn in Assoc.AsMap(Assignments(rows, last))
  {
    Assoc.AsMapKeys(Assignments(rows, last), pn);
  }
}

/**
 * `CallScheduleParser.parse_call_schedule_page`: a `handle_new_call_schedule`
 * call, then one `handle_pair_time` call for every row whose time cell
 * `parse_time_period` understands.  Rows are not numbered from the previous
 * one here: the pair number is `parse_pair_number(col1)`, `None` when the
 * cell has no digit.
 */
module CallScheduleParser {
  import opened Wrappers
  import opened Text
  import ParserBase
  import Handler

  /** The `handle_pair_time` call of one row, if it makes one. */
  function RowEvents<D>(col1: string, col2: string): (r: seq<Handler.Event<D>>)
    ensures |r| <= 1
    ensures r != [] ==> r[0].PairTime? && r[0].start >= 0 && r[0].finish >= 0
  {
    var period := ParserBase.ParseTimePeriod(col2);
    if IsBlank(col1) || period.0.None? then []
    else [Handler.PairTime(ParserBase.ParsePairNumber(col1), period.0.value, period.1.value)]
  }

  /** The `handle_pair_time` calls of the rows. */
  function TimeEvents<D>(rows: seq<(string, string)>): (r: seq<Handler.Event<D>>)
    ensures |r| <= |rows|
    decreases |rows|
  {
    if rows == [] then [] else RowEvents(rows[0].0, rows[0].1) + TimeEvents(rows[1..])
  }

  /** All the calls, in order. */
  function ScheduleEvents<D>(rows: seq<(string, string)>): seq<Handler.Event<D>> {
    [Handler.NewCallSchedule] + TimeEvents(rows)
  }

  /** The body of the row loop: the calls one row makes. */
  method ReportRow<D>(col1: string, col2: string) returns (events: seq<Handler.Event<D>>)
    ensures events == RowEvents(col1, col2)
  {
    events := [];
    if IsBlank(col1) {
      return;
    }
    var pn := ParserBase.ParsePairNumber(col1);
    var period := ParserBase.ParseTimePeriod(col2);
    if period.0.Some? {
      events := [Handler.PairTime(pn, period.0.value, period.1.value)];
    }
  }

  method ParseCallSchedulePage<D>(rows: seq<(string, string)>) returns (events: seq<Handler.Event<D>>)
    ensures events == ScheduleEvents(rows)
  {
    events := [Handler.NewCallSchedule];
    assert rows[0..] == rows;
    for rn := 0 to |rows|
      invariant events + TimeEvents<D>(rows[rn..]) == ScheduleEvents<D>(rows)
    {
      assert rows[rn..][1..] == rows[rn + 1..];
      var calls := ReportRow<D>(rows[rn].0, rows[rn].1);
      ConcatAssoc(events, calls, TimeEvents<D>(rows[rn + 1..]));
      events := events + calls;
    }
    assert rows[|rows|..] == [];
    ConcatEmpty(events);
  }

  /** Every call after the first reports a row; the rows' calls come in the rows' order. */
  lemma {:induction false} TimeEventsAppend<D>(r1: seq<(string, string)>, r2: seq<(string, string)>)
    ensures TimeEvents<D>(r1 + r2) == TimeEvents<D>(r1) + TimeEvents<D>(r2)
    decreases |r1|
  {
    if r1 == [] {
      assert r1 + r2 == r2;
    } else {
      assert (r1 + r2)[0] == r1[0] && (r1 + r2)[1..] == r1[1..] + r2;
      TimeEventsAppend<D>(r1[1..], r2);
      ConcatAssoc(RowEvents<D>(r1[0].0, r1[0].1), TimeEvents<D>(r1[1..]), TimeEvents<D>(r2));
    }
  }

  /**
   * Exactly the rows with a number cell that is not whitespace only and a
   * time cell `parse_time_period` understands make a call.
   */
  lemma RowEventIff<D>(col1: string, col2: string)
    ensures RowEvents<D>(col1, col2) != [] <==> !IsBlank(col1) && ParserBase.MatchTimePeriod(col2).Some?
  {
  }
}
