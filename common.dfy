/**
 * Token helpers shared by the older parsers (raspisanie_bot/parsing/common.py):
 * text normalisation, pair numbers and group names.
 */
module Common {
  import opened Wrappers
  import opened Text

  /** A student group: course digit, letter code and subgroup digit (`course == 0`: free-form name). */
  datatype GroupName = GroupName(course: int, group: string, subgroup: int)

  /** A pair's time window, in minutes since midnight. */
  datatype TimePeriod = TimePeriod(begin: int, end: int)

  // ---------------------------------------------------------------- normalize_text

  predicate NoEdgeSpace(s: string) {
    s == [] || (!IsSpace(s[0]) && !IsSpace(s[|s| - 1]))
  }

  /** Every whitespace character is a plain space. */
  predicate OnlyPlainSpaces(s: string) {
    forall i :: 0 <= i < |s| && IsSpace(s[i]) ==> s[i] == ' '
  }

  predicate NoDoubleSpace(s: string) {
    forall i :: 0 <= i < |s| - 1 ==> !(IsSpace(s[i]) && IsSpace(s[i + 1]))
  }

  /** Normalised text: single plain spaces between non-space runs, none at the ends. */
  predicate Normalized(s: string) {
    NoEdgeSpace(s) && OnlyPlainSpaces(s) && NoDoubleSpace(s)
  }

  /** `normalize_text(s)`: whitespace runs become one space, then the ends are stripped. */
  function NormalizeText(s: string): (r: string)
    ensures Normalized(r)
    ensures Filter(r, NotSpace) == Filter(s, NotSpace)
  {
    CollapseProperties(s);
    var c := CollapseSpaces(s);
    StripProperties(c);
    Strip(c)
  }

  lemma {:induction false} CollapseProperties(s: string)
    ensures OnlyPlainSpaces(CollapseSpaces(s)) && NoDoubleSpace(CollapseSpaces(s))
    ensures Filter(CollapseSpaces(s), NotSpace) == Filter(s, NotSpace)
    ensures s != [] && !IsSpace(s[0]) ==> CollapseSpaces(s) != [] && CollapseSpaces(s)[0] == s[0]
    decreases |s|
  {
    if s == [] {
    } else if IsSpace(s[0]) {
      var n := RunLength(s, IsSpace);
      var rest := CollapseSpaces(s[n..]);
      CollapseProperties(s[n..]);
      assert s == s[..n] + s[n..];
      FilterAppend(s[..n], s[n..], NotSpace);
      FilterNone(s[..n], NotSpace);
      FilterAppend([' '], rest, NotSpace);
      assert n < |s| ==> !IsSpace(s[n..][0]);
    } else {
      var rest := CollapseSpaces(s[1..]);
      CollapseProperties(s[1..]);
      assert s == [s[0]] + s[1..];
      FilterAppend([s[0]], s[1..], NotSpace);
      FilterAppend([s[0]], rest, NotSpace);
    }
  }

  /** Stripping keeps a substring and removes only whitespace. */
  lemma {:induction false} StripStartProperties(s: string)
    ensures exists k :: 0 <= k <= |s| && StripStart(s) == s[k..]
    ensures StripStart(s) == [] || !IsSpace(StripStart(s)[0])
    ensures Filter(StripStart(s), NotSpace) == Filter(s, NotSpace)
    decreases |s|
  {
    if s != [] && IsSpace(s[0]) {
      StripStartProperties(s[1..]);
      var k :| 0 <= k <= |s[1..]| && StripStart(s[1..]) == s[1..][k..];
      assert StripStart(s) == s[k + 1..];
      assert s == [s[0]] + s[1..];
      FilterAppend([s[0]], s[1..], NotSpace);
    } else {
      assert StripStart(s) == s[0..];
    }
  }

  lemma {:induction false} StripEndProperties(s: string)
    ensures exists k :: 0 <= k <= |s| && StripEnd(s) == s[..k]
    ensures StripEnd(s) == [] || !IsSpace(StripEnd(s)[|StripEnd(s)| - 1])
    ensures Filter(StripEnd(s), NotSpace) == Filter(s, NotSpace)
    decreases |s|
  {
    if s != [] && IsSpace(s[|s| - 1]) {
      var init := s[..|s| - 1];
      StripEndProperties(init);
      var k :| 0 <= k <= |init| && StripEnd(init) == init[..k];
      assert StripEnd(s) == s[..k];
      assert s == init + [s[|s| - 1]];
      FilterAppend(init, [s[|s| - 1]], NotSpace);
    } else {
      assert StripEnd(s) == s[..|s|];
    }
  }

  lemma StripProperties(s: string)
    requires OnlyPlainSpaces(s) && NoDoubleSpace(s)
    ensures Normalized(Strip(s))
    ensures Filter(Strip(s), NotSpace) == Filter(s, NotSpace)
  {
    StripStartProperties(s);
    var a := StripStart(s);
    var i :| 0 <= i <= |s| && a == s[i..];
    StripEndProperties(a);
    var b := StripEnd(a);
    var j :| 0 <= j <= |a| && b == a[..j];
    assert b == s[i..i + j];
    SliceKeepsSpacing(s, i, i + j);
    assert b != [] ==> b[0] == a[0];
  }

  /** A slice of text with single plain spaces has single plain spaces. */
  lemma SliceKeepsSpacing(s: string, i: nat, j: nat)
    requires i <= j <= |s| && OnlyPlainSpaces(s) && NoDoubleSpace(s)
    ensures OnlyPlainSpaces(s[i..j]) && NoDoubleSpace(s[i..j])
  {
    assert forall k :: 0 <= k < j - i ==> s[i..j][k] == s[i + k];
  }

  /** Text without whitespace runs is unchanged by collapsing them. */
  lemma {:induction false} CollapseNormalized(s: string)
    requires OnlyPlainSpaces(s) && NoDoubleSpace(s)
    ensures CollapseSpaces(s) == s
    decreases |s|
  {
    if s != [] {
      CollapseNormalized(s[1..]);
      if IsSpace(s[0]) {
        assert RunLength(s, IsSpace) == 1;
      }
    }
  }

  /** Normalising twice is the same as normalising once. */
  lemma NormalizeIdempotent(s: string)
    ensures NormalizeText(NormalizeText(s)) == NormalizeText(s)
  {
    var n := NormalizeText(s);
    CollapseNormalized(n);
    assert StripStart(n) == n;
    assert StripEnd(n) == n;
  }

  // ---------------------------------------------------------------- parse_pair_number

  /** `parse_pair_number(s, default)`: the number written by all digits of `s`, or `default`. */
  function ParsePairNumber(s: string, default: int): (r: int)
    ensures (forall i :: 0 <= i < |s| ==> !IsDigit(s[i])) ==> r == default
    ensures (exists i :: 0 <= i < |s| && IsDigit(s[i])) ==> r >= 0
  {
    FilterEmpty(s, IsDigit);
    var digits := Filter(s, IsDigit);
    if digits == [] then default else DigitsValue(digits)
  }

  /** A label that holds one number among non-digit text ("3 пара", "№3") parses to that number. */
  lemma PairNumberOfLabel(prefix: string, n: nat, suffix: string, default: int)
    requires forall i :: 0 <= i < |prefix| ==> !IsDigit(prefix[i])
    requires forall i :: 0 <= i < |suffix| ==> !IsDigit(suffix[i])
    ensures ParsePairNumber(prefix + NatToString(n) + suffix, default) == n
  {
    var t := NatToString(n);
    FilterAppend(prefix + t, suffix, IsDigit);
    FilterAppend(prefix, t, IsDigit);
    FilterNone(prefix, IsDigit);
    FilterNone(suffix, IsDigit);
    FilterAll(t, IsDigit);
    assert Filter(prefix + t + suffix, IsDigit) == t;
    NatToStringRoundTrip(n);
  }

  /** All digits are read as one number: "1-2" gives 12. */
  lemma PairNumberJoinsDigits()
    ensures ParsePairNumber("1-2", 0) == 12
  {
    var s := "1-2";
    assert s[1..] == "-2" && s[1..][1..] == "2" && s[1..][1..][1..] == "";
    assert Filter("2", IsDigit) == "2";
    assert Filter("-2", IsDigit) == "2";
    assert Filter(s, IsDigit) == "12";
    assert DigitsValue("1") == 1;
    assert "12"[..1] == "1";
  }

  // ---------------------------------------------------------------- parse_group_name

  /** Index of the first non-whitespace character at or after `i` (`\s*`). */
  function SkipSpaces(s: string, i: nat): (j: nat)
    requires i <= |s|
    ensures i <= j <= |s|
    ensures j < |s| ==> !IsSpace(s[j])
    decreases |s| - i
  {
    if i < |s| && IsSpace(s[i]) then SkipSpaces(s, i + 1) else i
  }

  /** `\s*-?\s*`. */
  function SkipSeparator(s: string, i: nat): (j: nat)
    requires i <= |s|
    ensures i <= j <= |s|
  {
    var k := SkipSpaces(s, i);
    if k < |s| && s[k] == '-' then SkipSpaces(s, k + 1) else k
  }

  /** End of the letter code starting at `j`: `[А-Я]{1,2}` takes a second letter when there is one. */
  function CodeEnd(u: string, j: nat): (k: nat)
    requires j < |u|
    ensures j < k <= |u| && k <= j + 2
  {
    if j + 1 < |u| && IsUpperRu(u[j + 1]) then j + 2 else j + 1
  }

  /**
   * `GROUP_NAME_RE.match(u)`: a course digit, one or two letters `[А-Я]` and a
   * subgroup digit, each separated by `\s*-?\s*`, at the start of `u`.
   */
  function MatchGroupName(u: string): (r: Option<GroupName>)
    ensures r.Some? ==> 0 <= r.value.course <= 9 && 0 <= r.value.subgroup <= 9
    ensures r.Some? ==> 1 <= |r.value.group| <= 2
  {
    var i := SkipSpaces(u, 0);
    if i < |u| && IsDigit(u[i]) then MatchCode(u, i, SkipSeparator(u, i + 1)) else None
  }

  function MatchCode(u: string, i: nat, j: nat): (r: Option<GroupName>)
    requires i < |u| && IsDigit(u[i]) && j <= |u|
    ensures r.Some? ==> 0 <= r.value.course <= 9 && 0 <= r.value.subgroup <= 9
    ensures r.Some? ==> 1 <= |r.value.group| <= 2
  {
    if j < |u| && IsUpperRu(u[j]) then
      var k := CodeEnd(u, j);
      MatchSubgroup(u, i, u[j..k], SkipSeparator(u, k))
    else None
  }

  function MatchSubgroup(u: string, i: nat, code: string, m: nat): (r: Option<GroupName>)
    requires i < |u| && IsDigit(u[i]) && m <= |u|
    requires 1 <= |code| <= 2
    ensures r.Some? ==> 0 <= r.value.course <= 9 && 0 <= r.value.subgroup <= 9
    ensures r.Some? ==> 1 <= |r.value.group| <= 2
  {
    if m < |u| && IsDigit(u[m]) then Some(GroupName(DigitValue(u[i]), code, DigitValue(u[m]))) else None
  }

  /** The letter code of a recognised group name is made of the letters `[А-Я]`. */
  lemma MatchGroupNameCode(u: string)
    requires MatchGroupName(u).Some?
    ensures forall c :: c in MatchGroupName(u).value.group ==> IsUpperRu(c)
  {
  }

  /** `parse_group_name(s, only_if_matches)`. */
  function ParseGroupName(s: string, onlyIfMatches: bool): (r: Option<GroupName>)
    ensures MatchGroupName(UpperAll(s)).Some? ==> r == MatchGroupName(UpperAll(s))
    ensures MatchGroupName(UpperAll(s)).None? && onlyIfMatches ==> r == None
    ensures MatchGroupName(UpperAll(s)).None? && !onlyIfMatches ==>
              r == Some(GroupName(0, NormalizeText(UpperAll(s)), 1))
  {
    var u := UpperAll(s);
    match MatchGroupName(u)
    case Some(g) => Some(g)
    case None => if onlyIfMatches then None else Some(GroupName(0, NormalizeText(u), 1))
  }

  /** The whitespace skipped before a character of `s` is skipped the same way in `s + t`. */
  lemma {:induction false} SkipSpacesAppend(s: string, t: string, i: nat)
    requires i <= |s|
    requires SkipSpaces(s, i) < |s|
    ensures SkipSpaces(s + t, i) == SkipSpaces(s, i)
    decreases |s| - i
  {
    if i < |s| && IsSpace(s[i]) {
      SkipSpacesAppend(s, t, i + 1);
    }
  }

  lemma SkipSeparatorAppend(s: string, t: string, i: nat)
    requires i <= |s|
    requires SkipSeparator(s, i) < |s|
    ensures SkipSeparator(s + t, i) == SkipSeparator(s, i)
  {
    var k := SkipSpaces(s, i);
    if k < |s| {
      SkipSpacesAppend(s, t, i);
      if s[k] == '-' {
        SkipSpacesAppend(s, t, k + 1);
      }
    }
  }

  /** Only a prefix is matched: text after the subgroup digit never changes the result. */
  lemma MatchGroupNameIgnoresTrailing(u: string, t: string)
    requires MatchGroupName(u).Some?
    ensures MatchGroupName(u + t) == MatchGroupName(u)
  {
    var v := u + t;
    var i := SkipSpaces(u, 0);
    SkipSpacesAppend(u, t, 0);
    assert v[i] == u[i];
    var j := SkipSeparator(u, i + 1);
    SkipSeparatorAppend(u, t, i + 1);
    assert v[j] == u[j];
    var k := CodeEnd(u, j);
    assert j + 1 < |u|;
    assert v[j + 1] == u[j + 1];
    assert CodeEnd(v, j) == k;
    var m := SkipSeparator(u, k);
    SkipSeparatorAppend(u, t, k);
    assert v[m] == u[m];
    assert v[j..k] == u[j..k];
    assert MatchSubgroup(v, i, v[j..k], m) == MatchSubgroup(u, i, u[j..k], m);
  }

  /** Group names are case-insensitive: the input is upper-cased first. */
  lemma ParseGroupNameIgnoresCase(s: string, onlyIfMatches: bool)
    ensures ParseGroupName(LowerAll(s), onlyIfMatches) == ParseGroupName(s, onlyIfMatches)
  {
    forall i | 0 <= i < |s| {
      UpperOfLower(s[i]);
    }
    assert UpperAll(LowerAll(s)) == UpperAll(s);
  }

  /** A separator matched by `\s*-?\s*`: spaces, an optional hyphen, spaces. */
  function Separator(before: nat, hyphen: bool, after: nat): (r: string)
    ensures forall i :: 0 <= i < |r| ==> r[i] == ' ' || r[i] == '-'
  {
    Repeat(' ', before) + (if hyphen then "-" else "") + Repeat(' ', after)
  }

  lemma {:induction false} SkipSpacesOver(s: string, i: nat, j: nat)
    requires i <= j <= |s|
    requires forall k :: i <= k < j ==> IsSpace(s[k])
    requires j < |s| ==> !IsSpace(s[j])
    ensures SkipSpaces(s, i) == j
    decreases j - i
  {
    if i < j {
      SkipSpacesOver(s, i + 1, j);
    }
  }

  lemma SkipSeparatorOver(s: string, i: nat, before: nat, hyphen: bool, after: nat)
    requires i + |Separator(before, hyphen, after)| < |s|
    requires s[i..i + |Separator(before, hyphen, after)|] == Separator(before, hyphen, after)
    requires !IsSpace(s[i + |Separator(before, hyphen, after)|])
    requires s[i + |Separator(before, hyphen, after)|] != '-'
    ensures SkipSeparator(s, i) == i + |Separator(before, hyphen, after)|
  {
    var sep := Separator(before, hyphen, after);
    var h := if hyphen then 1 else 0;
    assert |sep| == before + h + after;
    assert forall k :: i <= k < i + |sep| ==> s[k] == sep[k - i];
    if hyphen {
      assert sep[before] == '-';
      SkipSpacesOver(s, i, i + before);
      SkipSpacesOver(s, i + before + 1, i + |sep|);
    } else {
      SkipSpacesOver(s, i, i + |sep|);
    }
  }

  lemma CodeEndAt(u: string, j: nat, code: string)
    requires 1 <= |code| <= 2 && j + |code| < |u|
    requires u[j..j + |code|] == code
    requires forall i :: 0 <= i < |code| ==> IsUpperRu(code[i])
    requires !IsUpperRu(u[j + |code|])
    ensures CodeEnd(u, j) == j + |code|
  {
    assert u[j + 1] == if |code| == 2 then code[1] else u[j + |code|];
  }

  /** The recogniser reads a course digit, a code and a subgroup digit laid out at the given positions. */
  lemma MatchGroupNameAt(u: string, lead: nat, course: nat, sep1: (nat, bool, nat), code: string,
                         sep2: (nat, bool, nat), subgroup: nat)
    requires course < 10 && subgroup < 10
    requires 1 <= |code| <= 2 && forall i :: 0 <= i < |code| ==> IsUpperRu(code[i])
    requires lead + 1 + |Separator(sep1.0, sep1.1, sep1.2)| + |code| + |Separator(sep2.0, sep2.1, sep2.2)| < |u|
    requires u[..lead] == Repeat(' ', lead)
    requires u[lead] == DigitChar(course)
    requires u[lead + 1..lead + 1 + |Separator(sep1.0, sep1.1, sep1.2)|] == Separator(sep1.0, sep1.1, sep1.2)
    requires u[lead + 1 + |Separator(sep1.0, sep1.1, sep1.2)|..][..|code|] == code
    requires u[lead + 1 + |Separator(sep1.0, sep1.1, sep1.2)| + |code|..][..|Separator(sep2.0, sep2.1, sep2.2)|]
             == Separator(sep2.0, sep2.1, sep2.2)
    requires u[lead + 1 + |Separator(sep1.0, sep1.1, sep1.2)| + |code| + |Separator(sep2.0, sep2.1, sep2.2)|]
             == DigitChar(subgroup)
    ensures MatchGroupName(u) == Some(GroupName(course, code, subgroup))
  {
    var s1 := Separator(sep1.0, sep1.1, sep1.2);
    var s2 := Separator(sep2.0, sep2.1, sep2.2);
    var p2 := lead + 1 + |s1|;
    var p3 := p2 + |code|;
    var p4 := p3 + |s2|;
    assert u[p2] == code[0];
    GroupHeadAt(u, lead, course, sep1, code[0]);
    assert u[p2..p3] == code;
    assert u[p3..p4] == s2;
    GroupTailAt(u, p2, code, sep2, subgroup);
    MatchGroupNameSteps(u, lead, course, p2, code, p4, subgroup);
  }

  /** The recogniser's steps: spaces to `lead`, the course digit, the code from `p2`, the subgroup digit at `p4`. */
  lemma MatchGroupNameSteps(u: string, lead: nat, course: nat, p2: nat, code: string, p4: nat, subgroup: nat)
    requires lead < |u| && SkipSpaces(u, 0) == lead && IsDigit(u[lead]) && DigitValue(u[lead]) == course
    requires SkipSeparator(u, lead + 1) == p2 && p2 + |code| <= |u| && 1 <= |code| <= 2
    requires p2 < |u| && IsUpperRu(u[p2]) && CodeEnd(u, p2) == p2 + |code| && u[p2..p2 + |code|] == code
    requires SkipSeparator(u, p2 + |code|) == p4 && p4 < |u| && IsDigit(u[p4]) && DigitValue(u[p4]) == subgroup
    ensures MatchGroupName(u) == Some(GroupName(course, code, subgroup))
  {
  }

  /** Spaces, the course digit, then a separator up to the first letter of the code. */
  lemma GroupHeadAt(u: string, lead: nat, course: nat, sep1: (nat, bool, nat), first: char)
    requires course < 10 && IsUpperRu(first)
    requires lead + 1 + |Separator(sep1.0, sep1.1, sep1.2)| < |u|
    requires u[..lead] == Repeat(' ', lead)
    requires u[lead] == DigitChar(course)
    requires u[lead + 1..lead + 1 + |Separator(sep1.0, sep1.1, sep1.2)|] == Separator(sep1.0, sep1.1, sep1.2)
    requires u[lead + 1 + |Separator(sep1.0, sep1.1, sep1.2)|] == first
    ensures SkipSpaces(u, 0) == lead && IsDigit(u[lead]) && DigitValue(u[lead]) == course
    ensures SkipSeparator(u, lead + 1) == lead + 1 + |Separator(sep1.0, sep1.1, sep1.2)|
  {
    assert forall k :: 0 <= k < lead ==> u[k] == Repeat(' ', lead)[k];
    SkipSpacesOver(u, 0, lead);
    SkipSeparatorOver(u, lead + 1, sep1.0, sep1.1, sep1.2);
  }

  /** The code from `p2`, a separator, then the subgroup digit. */
  lemma GroupTailAt(u: string, p2: nat, code: string, sep2: (nat, bool, nat), subgroup: nat)
    requires subgroup < 10
    requires 1 <= |code| <= 2 && forall i :: 0 <= i < |code| ==> IsUpperRu(code[i])
    requires p2 + |code| + |Separator(sep2.0, sep2.1, sep2.2)| < |u|
    requires u[p2..p2 + |code|] == code
    requires u[p2 + |code|..p2 + |code| + |Separator(sep2.0, sep2.1, sep2.2)|] == Separator(sep2.0, sep2.1, sep2.2)
    requires u[p2 + |code| + |Separator(sep2.0, sep2.1, sep2.2)|] == DigitChar(subgroup)
    ensures IsUpperRu(u[p2]) && CodeEnd(u, p2) == p2 + |code|
    ensures SkipSeparator(u, p2 + |code|) == p2 + |code| + |Separator(sep2.0, sep2.1, sep2.2)|
    ensures IsDigit(u[p2 + |code| + |Separator(sep2.0, sep2.1, sep2.2)|])
    ensures DigitValue(u[p2 + |code| + |Separator(sep2.0, sep2.1, sep2.2)|]) == subgroup
  {
    var s2 := Separator(sep2.0, sep2.1, sep2.2);
    var p3 := p2 + |code|;
    assert u[p2] == code[0];
    assert !IsUpperRu(u[p3]) by {
      if |s2| > 0 {
        assert u[p3] == s2[0];
      }
    }
    CodeEndAt(u, p2, code);
    SkipSeparatorOver(u, p3, sep2.0, sep2.1, sep2.2);
  }

  /**
   * Every text of the documented shape is recognised, with its fields:
   * spaces, course digit, separator, one or two letters, separator,
   * subgroup digit, then anything.
   */
  lemma MatchGroupNameComplete(lead: nat, course: nat, sep1: (nat, bool, nat), code: string,
                               sep2: (nat, bool, nat), subgroup: nat, rest: string)
    requires course < 10 && subgroup < 10
    requires 1 <= |code| <= 2 && forall i :: 0 <= i < |code| ==> IsUpperRu(code[i])
    ensures MatchGroupName(Repeat(' ', lead) + [DigitChar(course)] + Separator(sep1.0, sep1.1, sep1.2) + code
                           + Separator(sep2.0, sep2.1, sep2.2) + [DigitChar(subgroup)] + rest)
            == Some(GroupName(course, code, subgroup))
  {
    var s1 := Separator(sep1.0, sep1.1, sep1.2);
    var s2 := Separator(sep2.0, sep2.1, sep2.2);
    var x0 := Repeat(' ', lead);
    var x1 := x0 + [DigitChar(course)];
    var x2 := x1 + s1;
    var x3 := x2 + code;
    var x4 := x3 + s2;
    var x5 := x4 + [DigitChar(subgroup)];
    var u := x5 + rest;
    assert u[..|x0|] == x0;
    assert u[|x0|] == x1[|x0|];
    assert u[|x1|..|x2|] == s1;
    assert u[|x2|..][..|code|] == code;
    assert u[|x3|..][..|s2|] == s2;
    assert u[|x4|] == x5[|x4|];
    MatchGroupNameAt(u, lead, course, sep1, code, sep2, subgroup);
  }
}
