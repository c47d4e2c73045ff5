/**
 * `Finder` and `Handler.handle_link` of raspisanie_bot/parsing/parsers.py:
 * how the parsers turn tokens into groups, pair numbers, cabinets, teachers
 * and subject names before any database lookup, and how a link on the
 * timetable page is recognised.
 */
module Finder {
  import opened Wrappers
  import opened Text
  import Common
  import ParserBase

  /** A teacher as the extractor records it: surname, name initial, patronymic initial. */
  datatype Teacher = Teacher(surname: string, name: string, patronymic: string)

  /** `Finder.find_group`: the group-name pattern of `ParserBase`, with no fallback. */
  function FindGroup(text: string): (r: Option<Common.GroupName>)
    ensures r.Some? ==> 0 <= r.value.course <= 9 && 0 <= r.value.subgroup <= 9
    ensures r.Some? ==> 1 <= |r.value.group| <= 2
  {
    ParserBase.ParseGroupName(text)
  }

  /** The groups `find_group` resolves among `tokens`, in order; the tokens it refuses are dropped. */
  function FoundGroups(tokens: seq<string>): (r: seq<Common.GroupName>)
    ensures |r| <= |tokens|
  {
    if tokens == [] then [] else GroupOf(tokens[0]) + FoundGroups(tokens[1..])
  }

  /** The group one token names, as a list of at most one. */
  function GroupOf(token: string): (r: seq<Common.GroupName>)
    ensures |r| <= 1
  {
    match FindGroup(token)
    case Some(g) => [g]
    case None => []
  }

  /** Tokens are resolved one by one, so the groups of two lists follow each other. */
  lemma {:induction false} FoundGroupsAppend(a: seq<string>, b: seq<string>)
    ensures FoundGroups(a + b) == FoundGroups(a) + FoundGroups(b)
    decreases |a|
  {
    if a == [] {
      assert a + b == b;
    } else {
      assert (a + b)[0] == a[0] && (a + b)[1..] == a[1..] + b;
      FoundGroupsAppend(a[1..], b);
      ConcatAssoc(GroupOf(a[0]), FoundGroups(a[1..]), FoundGroups(b));
    }
  }

  /** One more token: its group, if it names one, comes last. */
  lemma FoundGroupsStep(tokens: seq<string>, k: nat, found: seq<Common.GroupName>, g: Option<Common.GroupName>)
    requires k < |tokens| && found == FoundGroups(tokens[..k]) && g == FindGroup(tokens[k])
    ensures (if g.Some? then found + [g.value] else found) == FoundGroups(tokens[..k + 1])
  {
    TakeSnoc(tokens, k);
    FoundGroupsAppend(tokens[..k], [tokens[k]]);
    FoundGroupsOne(tokens[k], g);
    if g.None? {
      ConcatEmpty(found);
    }
  }

  /** The groups of one token. */
  lemma FoundGroupsOne(t: string, g: Option<Common.GroupName>)
    requires g == FindGroup(t)
    ensures FoundGroups([t]) == if g.Some? then [g.value] else []
  {
    assert [t][1..] == [];
  }

  /** No group is found exactly when no token is a group name. */
  lemma {:induction false} FoundGroupsNone(tokens: seq<string>)
    ensures FoundGroups(tokens) == [] <==> forall i :: 0 <= i < |tokens| ==> FindGroup(tokens[i]).None?
    decreases |tokens|
  {
    if tokens != [] {
      FoundGroupsNone(tokens[1..]);
      assert forall i :: 1 <= i < |tokens| ==> tokens[i] == tokens[1..][i - 1];
    }
  }

  /** When every token is a group name, every one of them is kept, in order. */
  lemma {:induction false} FoundGroupsAll(tokens: seq<string>)
    requires forall i :: 0 <= i < |tokens| ==> FindGroup(tokens[i]).Some?
    ensures |FoundGroups(tokens)| == |tokens|
    ensures forall i :: 0 <= i < |tokens| ==> FoundGroups(tokens)[i] == FindGroup(tokens[i]).value
    decreases |tokens|
  {
    if tokens != [] {
      assert forall i :: 1 <= i < |tokens| ==> tokens[i] == tokens[1..][i - 1];
      FoundGroupsAll(tokens[1..]);
    }
  }

  /** `Finder.find_pair_number`. */
  function FindPairNumber(text: string): (r: Option<nat>)
    ensures r.None? <==> forall i :: 0 <= i < |text| ==> !IsDigit(text[i])
  {
    ParserBase.ParsePairNumber(text)
  }

  /** `Finder.find_cabinet`: `int(text)`, or `None` when that fails. */
  function FindCabinet(text: string): (r: Option<nat>)
    ensures r.Some? <==> IsInt(text)
    ensures r.Some? ==> r.value == DigitsValue(text)
  {
    if IsInt(text) then Some(DigitsValue(text)) else None
  }

  /** `Finder.find_teacher`: the three tokens as they are; it never fails. */
  function FindTeacher(surname: string, name: string, patronymic: string): (r: Teacher)
    ensures r.surname == surname && r.name == name && r.patronymic == patronymic
  {
    Teacher(surname, name, patronymic)
  }

  /**
   * The course-code shape of `find_pair`: the prefix, a dot, then the words
   * after the prefix joined by dots (`prefix + '.' + '.'.join(text.removeprefix(prefix).strip().split())`).
   */
  function CourseName(prefix: string, text: string): string
    requires StartsWith(text, prefix)
  {
    prefix + "." + Join(".", Split(Strip(text[|prefix|..])))
  }

  /** No name starts with both codes: the second letters differ. */
  lemma CodesExclusive(text: string)
    ensures !(StartsWith(text, "МДК") && StartsWith(text, "МИДК"))
  {
    if StartsWith(text, "МДК") && |text| >= 4 {
      assert text[..4][1] == text[..3][1];
    }
  }

  lemma CourseNameStarts(prefix: string, text: string)
    requires StartsWith(text, prefix)
    ensures StartsWith(CourseName(prefix, text), prefix + ".")
  {
    var r := CourseName(prefix, text);
    assert r == (prefix + ".") + Join(".", Split(Strip(text[|prefix|..])));
    assert r[..|prefix| + 1] == prefix + ".";
  }

  /** `Finder.find_pair`: `МДК` and `МИДК` codes are rewritten, every other name is kept. */
  function FindPair(text: string): (r: string)
    ensures !StartsWith(text, "МДК") && !StartsWith(text, "МИДК") ==> r == text
    ensures StartsWith(text, "МДК") ==> StartsWith(r, "МДК.")
    ensures StartsWith(text, "МИДК") ==> StartsWith(r, "МИДК.")
  {
    CodesExclusive(text);
    if StartsWith(text, "МДК") then
      CourseNameStarts("МДК", text);
      CourseName("МДК", text)
    else if StartsWith(text, "МИДК") then
      CourseNameStarts("МИДК", text);
      CourseName("МИДК", text)
    else text
  }

  /** Stripping a single leading space off words joined by spaces. */
  lemma StripSpacedJoin(ws: seq<string>)
    requires ws != [] && forall k :: 0 <= k < |ws| ==> IsToken(ws[k])
    ensures Strip(" " + Join(" ", ws)) == Join(" ", ws)
  {
    var j := Join(" ", ws);
    JoinEnds(ws);
    assert (" " + j)[1..] == j;
    assert StripStart(" " + j) == StripStart(j);
  }

  /**
   * A course code written with spaces, `МДК 01 02`, becomes `МДК.01.02`:
   * the words after the code are joined by dots.
   */
  lemma CourseNameOfWords(prefix: string, ws: seq<string>)
    requires prefix == "МДК" || prefix == "МИДК"
    requires ws != [] && forall k :: 0 <= k < |ws| ==> IsToken(ws[k])
    ensures FindPair(prefix + " " + Join(" ", ws)) == prefix + "." + Join(".", ws)
  {
    var text := prefix + " " + Join(" ", ws);
    CourseNameJoined(prefix, ws);
    CodesExclusive(text);
  }

  /** The same for the rewriting alone, with any prefix. */
  lemma CourseNameJoined(prefix: string, ws: seq<string>)
    requires ws != [] && forall k :: 0 <= k < |ws| ==> IsToken(ws[k])
    ensures StartsWith(prefix + " " + Join(" ", ws), prefix)
    ensures CourseName(prefix, prefix + " " + Join(" ", ws)) == prefix + "." + Join(".", ws)
  {
    var j := Join(" ", ws);
    var rest := " " + j;
    var text := prefix + rest;
    ConcatAssoc(prefix, " ", j);
    assert text[..|prefix|] == prefix;
    assert text[|prefix|..] == rest;
    StripSpacedJoin(ws);
    SplitJoin(ws);
    CourseNameOf(prefix, text, ws);
  }

  /** `CourseName` once the words after the prefix are known. */
  lemma CourseNameOf(prefix: string, text: string, ws: seq<string>)
    requires StartsWith(text, prefix) && Split(Strip(text[|prefix|..])) == ws
    ensures CourseName(prefix, text) == prefix + "." + Join(".", ws)
  {
  }

  /** What a link on the timetable page leads to. */
  datatype LinkKind = CafeteriaSchedule | CallSchedule | OtherLink

  /** `Handler.handle_link`: the link's lower-cased caption decides which subpage it is. */
  function HandleLink(name: string): (r: LinkKind)
    ensures r == CafeteriaSchedule <==> LowerAll(name) == "график питания студентов в столовой"
    ensures r == CallSchedule <==> LowerAll(name) == "расписание звонков"
  {
    var lower := LowerAll(name);
    if lower == "график питания студентов в столовой" then CafeteriaSchedule
    else if lower == "расписание звонков" then CallSchedule
    else OtherLink
  }
}
