/**
 * The text helpers of `ParserBase` (raspisanie_bot/parsing/parsers.py) and the
 * time-period recognisers of the line parsers.  Each regular expression is
 * written out as a greedy recogniser: it accepts the well-formed shape of the
 * pattern and returns the groups the pattern's greedy match captures there.
 */
module ParserBase {
  import opened Wrappers
  import opened Text
  import Common

  // ---------------------------------------------------------------- pair numbers and group names

  /** `ParserBase.parse_pair_number`: all digits of the text read as one number, `None` when there are none. */
  function ParsePairNumber(text: string): (r: Option<nat>)
    ensures r.None? <==> forall i :: 0 <= i < |text| ==> !IsDigit(text[i])
    ensures forall d: int :: r.Some? ==> r.value == Common.ParsePairNumber(text, d)
  {
    FilterEmpty(text, IsDigit);
    var digits := Filter(text, IsDigit);
    if digits == [] then None else Some(DigitsValue(digits))
  }

  /**
   * `parse_group_name` of parsers.py: the same match as the older helper, but
   * with no free-form fallback.
   */
  function ParseGroupName(text: string): (r: Option<Common.GroupName>)
    ensures r.Some? <==> Common.MatchGroupName(UpperAll(text)).Some?
    ensures r == Common.ParseGroupName(text, true)
  {
    Common.MatchGroupName(UpperAll(text))
  }

  // ---------------------------------------------------------------- clock times

  /** The punctuation between hours and minutes: `[.,:]`, or `[.:]` when commas are not allowed. */
  predicate IsTimePunct(c: char, allowComma: bool) {
    c == '.' || c == ':' || (allowComma && c == ',')
  }

  /** Index just past the maximal run of digits starting at `i`. */
  function DigitsEnd(s: string, i: nat): (j: nat)
    requires i <= |s|
    ensures i <= j <= |s|
    ensures forall k :: i <= k < j ==> IsDigit(s[k])
    ensures j < |s| ==> !IsDigit(s[j])
    decreases |s| - i
  {
    if i < |s| && IsDigit(s[i]) then DigitsEnd(s, i + 1) else i
  }

  /** A clock reading `(\d+)[.,:](\d+)` starting at `i`: minutes since midnight and the index after it. */
  function MatchClock(s: string, i: nat, allowComma: bool): (r: Option<(nat, nat)>)
    requires i <= |s|
    ensures r.Some? ==> i < r.value.1 <= |s|
  {
    var j := DigitsEnd(s, i);
    if i < j && j < |s| && IsTimePunct(s[j], allowComma) then
      var k := DigitsEnd(s, j + 1);
      if j + 1 < k then Some((DigitsValue(s[i..j]) * 60 + DigitsValue(s[j + 1..k]), k)) else None
    else None
  }

  /** `(?:до|.)` in the well-formed shape: the word `до` or one character that is not a digit. */
  function MatchDash(s: string, i: nat): (r: Option<nat>)
    requires i <= |s|
    ensures r.Some? ==> i < r.value <= |s|
  {
    if i + 2 <= |s| && s[i..i + 2] == "до" then Some(i + 2)
    else if i < |s| && !IsDigit(s[i]) && s[i] != '\n' then Some(i + 1)
    else None
  }

  /** `(.*)` at the end of a full match: the rest of the line, which must not hold a line break. */
  function MatchRest(s: string, i: nat): (r: Option<string>)
    requires i <= |s|
    ensures r.Some? ==> r.value == s[i..] && '\n' !in r.value
  {
    if '\n' in s[i..] then None else Some(s[i..])
  }

  /**
   * `TIME_PERIOD_RE.fullmatch(text)`, pattern
   * `\s*с?\s*(\d+)[.,:](\d+)\s*(?:до|.)\s*(\d+)[.,:](\d+)\s*(.*)`.
   */
  function MatchTimePeriod(s: string): (r: Option<(Common.TimePeriod, string)>)
    ensures r.Some? ==> r.value.0.begin >= 0 && r.value.0.end >= 0
    ensures r.Some? ==> '\n' !in r.value.1 && |r.value.1| <= |s|
  {
    var i := Common.SkipSpaces(s, 0);
    var i1 := if i < |s| && s[i] == 'с' then i + 1 else i;
    MatchPeriodFrom(s, Common.SkipSpaces(s, i1), true, true)
  }

  /** The separator between the clocks: `(?:до|.)` when `anyDash`, otherwise only `до`. */
  function MatchSeparator(s: string, i: nat, anyDash: bool): (r: Option<nat>)
    requires i <= |s|
    ensures r.Some? ==> i < r.value <= |s|
  {
    if anyDash then MatchDash(s, i)
    else if i + 2 <= |s| && s[i..i + 2] == "до" then Some(i + 2)
    else None
  }

  /**
   * The part shared by the patterns from the first clock on: clock, `\s*`,
   * separator, `\s*`, clock, `\s*`, then the rest of the line.
   */
  function MatchPeriodFrom(s: string, i: nat, allowComma: bool, anyDash: bool): (r: Option<(Common.TimePeriod, string)>)
    requires i <= |s|
    ensures r.Some? ==> r.value.0.begin >= 0 && r.value.0.end >= 0
    ensures r.Some? ==> '\n' !in r.value.1 && |r.value.1| <= |s|
  {
    match MatchClock(s, i, allowComma)
    case None => None
    case Some((begin, j)) => MatchPeriodEnd(s, begin, Common.SkipSpaces(s, j), allowComma, anyDash)
  }

  function MatchPeriodEnd(s: string, begin: nat, k: nat, allowComma: bool, anyDash: bool): (r: Option<(Common.TimePeriod, string)>)
    requires k <= |s|
    ensures r.Some? ==> r.value.0.begin >= 0 && r.value.0.end >= 0
    ensures r.Some? ==> '\n' !in r.value.1 && |r.value.1| <= |s|
  {
    match MatchSeparator(s, k, anyDash)
    case None => None
    case Some(m) =>
      match MatchClock(s, Common.SkipSpaces(s, m), allowComma)
      case None => None
      case Some((end, n)) =>
        match MatchRest(s, Common.SkipSpaces(s, n))
        case None => None
        case Some(rest) => Some((Common.TimePeriod(begin, end), rest))
  }

  /** `parse_time_period(text)`: `(start, end, rest)` on a full match, `(None, None, text)` otherwise. */
  function ParseTimePeriod(text: string): (r: (Option<int>, Option<int>, string))
    ensures r.0.Some? <==> r.1.Some?
    ensures r.0.None? ==> r.2 == text
    ensures r.0.Some? ==> r.0.value >= 0 && r.1.value >= 0 && '\n' !in r.2
  {
    match MatchTimePeriod(text)
    case None => (None, None, text)
    case Some((p, rest)) => (Some(p.begin), Some(p.end), rest)
  }

  // ---------------------------------------------------------------- what the recogniser accepts

  /** Its value in minutes. */
  function ClockMinutes(hh: string, mm: string): nat
    requires IsInt(hh) && IsInt(mm)
  {
    DigitsValue(hh) * 60 + DigitsValue(mm)
  }

  lemma DigitsEndOver(s: string, i: nat, j: nat)
    requires i <= j <= |s|
    requires forall k :: i <= k < j ==> IsDigit(s[k])
    requires j < |s| ==> !IsDigit(s[j])
    ensures DigitsEnd(s, i) == j
    decreases j - i
  {
    if i < j {
      DigitsEndOver(s, i + 1, j);
    }
  }

  /** A clock written `hh.mm` is read as `60 * hh + mm`, whatever the minutes are. */
  lemma MatchClockAt(s: string, i: nat, hh: string, p: char, mm: string, allowComma: bool)
    requires IsInt(hh) && IsInt(mm) && IsTimePunct(p, allowComma)
    requires i + |hh| + 1 + |mm| <= |s|
    requires s[i..i + |hh|] == hh && s[i + |hh|] == p && s[i + |hh| + 1..i + |hh| + 1 + |mm|] == mm
    requires i + |hh| + 1 + |mm| < |s| ==> !IsDigit(s[i + |hh| + 1 + |mm|])
    ensures MatchClock(s, i, allowComma) == Some((ClockMinutes(hh, mm), i + |hh| + 1 + |mm|))
  {
    var j := i + |hh|;
    var k := j + 1 + |mm|;
    assert forall t :: i <= t < j ==> s[t] == hh[t - i];
    assert forall t :: j + 1 <= t < k ==> s[t] == mm[t - j - 1];
    DigitsEndOver(s, i, j);
    DigitsEndOver(s, j + 1, k);
  }

  /** A separator the recogniser takes between the two clocks: `до`, or one character that is neither a digit nor whitespace. */
  predicate IsDash(dash: string, anyDash: bool) {
    dash == "до" || (anyDash && |dash| == 1 && !IsDigit(dash[0]) && !IsSpace(dash[0]))
  }

  /** What follows the last clock: after at least one space anything, and otherwise no digit. */
  predicate IsRestAfter(gap: nat, rest: string) {
    && '\n' !in rest
    && (rest == [] || !IsSpace(rest[0]))
    && (gap > 0 || rest == [] || !IsDigit(rest[0]))
  }

  /** Only plain spaces stand between `i` and `j`. */
  predicate SpacesAt(s: string, i: nat, j: nat) {
    i <= j <= |s| && forall k :: i <= k < j ==> s[k] == ' '
  }

  lemma SkipSpacesAt(s: string, i: nat, j: nat)
    requires SpacesAt(s, i, j) && (j < |s| ==> !IsSpace(s[j]))
    ensures Common.SkipSpaces(s, i) == j
  {
    Common.SkipSpacesOver(s, i, j);
  }

  /** The separator, up to the spaces before the second clock. */
  lemma MatchSeparatorAt(s: string, k: nat, dash: string, anyDash: bool)
    requires IsDash(dash, anyDash)
    requires k + |dash| < |s| && (s[k + |dash|] == ' ' || IsDigit(s[k + |dash|]))
    requires s[k..k + |dash|] == dash
    ensures MatchSeparator(s, k, anyDash) == Some(k + |dash|)
  {
    if dash != "до" {
      assert s[k + 1] != 'о';
    }
  }

  /** The spaces after the last clock and the rest of the line. */
  lemma MatchRestAt(s: string, n: nat, m: nat, rest: string)
    requires SpacesAt(s, n, m) && s[m..] == rest
    requires IsRestAfter(m - n, rest)
    ensures n < |s| ==> !IsDigit(s[n])
    ensures Common.SkipSpaces(s, n) == m
    ensures MatchRest(s, m) == Some(rest)
  {
    if m < |s| {
      assert s[m] == rest[0];
    }
    SkipSpacesAt(s, n, m);
  }

  /** The tail recogniser follows its steps: separator, spaces, clock, spaces, rest. */
  lemma MatchPeriodEndSteps(s: string, begin: nat, k: nat, a3: nat, a4: nat, v: nat, a5: nat, a6: nat, rest: string,
                            allowComma: bool, anyDash: bool)
    requires k <= a3 <= |s| && a5 <= |s|
    requires MatchSeparator(s, k, anyDash) == Some(a3)
    requires Common.SkipSpaces(s, a3) == a4
    requires MatchClock(s, a4, allowComma) == Some((v, a5))
    requires Common.SkipSpaces(s, a5) == a6
    requires MatchRest(s, a6) == Some(rest)
    ensures MatchPeriodEnd(s, begin, k, allowComma, anyDash) == Some((Common.TimePeriod(begin, v), rest))
  {
  }

  /**
   * From the separator on: the separator `s[k..a3]`, spaces up to `a4`, the
   * second clock `hh p mm` up to `a5`, spaces up to `a6`, then the rest.
   */
  lemma MatchPeriodEndAt(s: string, begin: nat, k: nat, dash: string, a3: nat, a4: nat, hh: string, p: char,
                         mm: string, a5: nat, a6: nat, rest: string, allowComma: bool, anyDash: bool)
    requires a3 == k + |dash| && a5 == a4 + |hh| + 1 + |mm| && a3 <= a4 <= a5 <= a6 <= |s|
    requires IsInt(hh) && IsInt(mm) && IsTimePunct(p, allowComma)
    requires IsDash(dash, anyDash) && IsRestAfter(a6 - a5, rest)
    requires s[k..a3] == dash
    requires SpacesAt(s, a3, a4)
    requires s[a4..a4 + |hh|] == hh && s[a4 + |hh|] == p && s[a4 + |hh| + 1..a5] == mm
    requires SpacesAt(s, a5, a6)
    requires s[a6..] == rest
    ensures MatchPeriodEnd(s, begin, k, allowComma, anyDash) == Some((Common.TimePeriod(begin, ClockMinutes(hh, mm)), rest))
  {
    assert s[a4] == hh[0];
    MatchSeparatorAt(s, k, dash, anyDash);
    MatchSecondClockAt(s, a3, a4, hh, p, mm, a5, a6, rest, allowComma);
    MatchPeriodEndSteps(s, begin, k, a3, a4, ClockMinutes(hh, mm), a5, a6, rest, allowComma, anyDash);
  }

  /** Spaces up to `a4`, the second clock up to `a5`, spaces up to `a6`, then the rest. */
  lemma MatchSecondClockAt(s: string, a3: nat, a4: nat, hh: string, p: char, mm: string, a5: nat, a6: nat,
                           rest: string, allowComma: bool)
    requires a5 == a4 + |hh| + 1 + |mm| && a3 <= a4 <= a5 <= a6 <= |s|
    requires IsInt(hh) && IsInt(mm) && IsTimePunct(p, allowComma) && IsRestAfter(a6 - a5, rest)
    requires SpacesAt(s, a3, a4)
    requires s[a4..a4 + |hh|] == hh && s[a4 + |hh|] == p && s[a4 + |hh| + 1..a5] == mm
    requires SpacesAt(s, a5, a6)
    requires s[a6..] == rest
    ensures Common.SkipSpaces(s, a3) == a4
    ensures MatchClock(s, a4, allowComma) == Some((ClockMinutes(hh, mm), a5))
    ensures Common.SkipSpaces(s, a5) == a6 && MatchRest(s, a6) == Some(rest)
  {
    assert s[a4] == hh[0];
    SkipSpacesAt(s, a3, a4);
    MatchRestAt(s, a5, a6, rest);
    MatchClockAt(s, a4, hh, p, mm, allowComma);
  }

  /** From the first clock `hh p mm` at `i` to the separator at `k`. */
  lemma MatchPeriodFromAt(s: string, i: nat, hh: string, p: char, mm: string, j: nat, k: nat, begin: nat,
                          allowComma: bool, anyDash: bool, r: Option<(Common.TimePeriod, string)>)
    requires j == i + |hh| + 1 + |mm| && j <= k < |s|
    requires IsInt(hh) && IsInt(mm) && IsTimePunct(p, allowComma) && begin == ClockMinutes(hh, mm)
    requires s[i..i + |hh|] == hh && s[i + |hh|] == p && s[i + |hh| + 1..j] == mm
    requires SpacesAt(s, j, k) && !IsSpace(s[k]) && !IsDigit(s[k])
    requires MatchPeriodEnd(s, begin, k, allowComma, anyDash) == r
    ensures MatchPeriodFrom(s, i, allowComma, anyDash) == r
  {
    SkipSpacesAt(s, j, k);
    assert !IsDigit(s[j]) by {
      if j < k {
        assert s[j] == ' ';
      }
    }
    MatchClockAt(s, i, hh, p, mm, allowComma);
    MatchPeriodFromSteps(s, i, begin, j, k, allowComma, anyDash);
  }

  /** The head recogniser follows its steps: clock, spaces, then the tail. */
  lemma MatchPeriodFromSteps(s: string, i: nat, begin: nat, j: nat, k: nat, allowComma: bool, anyDash: bool)
    requires i <= j <= |s|
    requires MatchClock(s, i, allowComma) == Some((begin, j))
    requires Common.SkipSpaces(s, j) == k
    ensures k <= |s| && MatchPeriodFrom(s, i, allowComma, anyDash) == MatchPeriodEnd(s, begin, k, allowComma, anyDash)
  {
  }

  /** The leading `\s*с?\s*` of `TIME_PERIOD_RE`: `lead` spaces, optionally `с` and `gap` spaces. */
  lemma MatchTimePeriodAt(s: string, lead: nat, from: bool, i: nat, r: Option<(Common.TimePeriod, string)>)
    requires lead <= i < |s| && IsDigit(s[i])
    requires SpacesAt(s, 0, lead)
    requires from ==> lead < i && s[lead] == 'с' && SpacesAt(s, lead + 1, i)
    requires !from ==> lead == i
    requires MatchPeriodFrom(s, i, true, true) == r
    ensures MatchTimePeriod(s) == r
  {
    if from {
      SkipSpacesAt(s, 0, lead);
      SkipSpacesAt(s, lead + 1, i);
      MatchTimePeriodFrom(s, lead, lead + 1, i);
    } else {
      SkipSpacesAt(s, 0, i);
      MatchTimePeriodFrom(s, i, i, i);
    }
  }

  /** `MatchTimePeriod` once the leading spaces and `с` are skipped: the head recogniser from the first clock. */
  lemma MatchTimePeriodFrom(s: string, lead: nat, i1: nat, i: nat)
    requires Common.SkipSpaces(s, 0) == lead && i1 == (if lead < |s| && s[lead] == 'с' then lead + 1 else lead)
    requires i1 <= |s| && Common.SkipSpaces(s, i1) == i
    ensures MatchTimePeriod(s) == MatchPeriodFrom(s, i, true, true)
  {
  }

  /** A line of the timetable. */
  const ExampleLine: string := "с 8.30 до 10.00 Физика"

  lemma ExampleLineEnd()
    ensures MatchPeriodEnd(ExampleLine, 510, 7, true, true) == Some((Common.TimePeriod(510, 600), "Физика"))
  {
    var s := ExampleLine;
    assert |s| == 22;
    assert s[7] == 'д' && s[8] == 'о';
    assert s[7..9] == "до";
    assert s[9] == ' ';
    assert SpacesAt(s, 9, 10);
    assert s[10] == '1' && s[11] == '0';
    assert s[10..12] == "10";
    assert s[13] == '0' && s[14] == '0';
    assert s[13..15] == "00";
    assert s[15] == ' ';
    assert SpacesAt(s, 15, 16);
    assert s[16..] == "Физика";
    assert DigitsValue("10") == 10 && DigitsValue("00") == 0;
    MatchPeriodEndAt(s, 510, 7, "до", 9, 10, "10", '.', "00", 15, 16, "Физика", true, true);
  }

  lemma ExampleLineClock()
    ensures MatchClock(ExampleLine, 2, true) == Some((510, 6))
  {
    var s := ExampleLine;
    assert DigitsValue("8") == 8 && DigitsValue("30") == 30;
    assert s[2] == '8' && s[3] == '.' && s[4] == '3' && s[5] == '0' && s[6] == ' ';
    assert s[2..3] == "8" && s[4..6] == "30";
    MatchClockAt(s, 2, "8", '.', "30", true);
  }

  lemma ExampleLineGap()
    ensures Common.SkipSpaces(ExampleLine, 6) == 7
  {
    assert SpacesAt(ExampleLine, 6, 7) && ExampleLine[7] == 'д';
    SkipSpacesAt(ExampleLine, 6, 7);
  }

  lemma ExampleLineFrom()
    ensures MatchPeriodFrom(ExampleLine, 2, true, true) == Some((Common.TimePeriod(510, 600), "Физика"))
  {
    ExampleLineClock();
    ExampleLineGap();
    ExampleLineEnd();
  }

  lemma ExampleLineLead()
    ensures Common.SkipSpaces(ExampleLine, 0) == 0 && ExampleLine[0] == 'с' && Common.SkipSpaces(ExampleLine, 1) == 2
  {
    assert SpacesAt(ExampleLine, 0, 0) && SpacesAt(ExampleLine, 1, 2) && ExampleLine[2] == '8';
    SkipSpacesAt(ExampleLine, 0, 0);
    SkipSpacesAt(ExampleLine, 1, 2);
  }

  /** `с 8.30 до 10.00 Физика` is read as 8:30 to 10:00 with the rest `Физика`. */
  lemma ParseTimePeriodExample()
    ensures ParseTimePeriod(ExampleLine) == (Some(510), Some(600), "Физика")
  {
    ExampleLineLead();
    ExampleLineFrom();
  }
}
