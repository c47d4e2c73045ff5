/**
 * The earlier timetable reader of raspisanie_bot/parsing/timetable.py:
 * `parse_pair_name` (the first version of the cell extractor, which keeps
 * the raw text and records teachers without a lookup), `parse_table` (one
 * dictionary of pairs per header group) and `parse_timetable` (links, the
 * date of the page and all its tables).
 *
 * The extractor shares the substitution, subgroup and teacher stages with
 * `CellExtractor`; its cabinet stage differs: it stops at the first token
 * after `ауд` that is not an integer.  The date parser and the
 * `PairNameFix` table are parameters (`parseDate`, `fixes`).
 */
module LegacyTimetable {
  import opened Wrappers
  import opened Text
  import opened Tokens
  import Common
  import Finder
  import Assoc
  import CellExtractor
  import TimetablePage

  /** `PairInfo`, the result of `parse_pair_name`. */
  datatype PairInfo = PairInfo(name: string, teachers: seq<Finder.Teacher>, cabinets: seq<nat>,
                               isSubstitution: bool, subgroup: Option<nat>, raw: string)

  // ---------------------------------------------------------------- cabinets

  /** Where the run of integer tokens starting at `i` ends. */
  function IntRunEnd(a: seq<string>, i: nat): (j: nat)
    requires i <= |a|
    ensures i <= j <= |a|
    ensures forall k :: i <= k < j ==> IsInt(a[k])
    ensures j < |a| ==> !IsInt(a[j])
    decreases |a| - i
  {
    if i == |a| || !IsInt(a[i]) then i else IntRunEnd(a, i + 1)
  }

  /**
   * Lines 47-59: the first `ауд` is deleted, then the integer tokens right
   * after it become cabinets and are deleted, up to the first token that is
   * not an integer.
   */
  function CabinetStage(a: seq<string>): (r: CellExtractor.Stage<seq<nat>>)
    ensures IndexOf(LowerEach(a), "ауд").None? ==> r == CellExtractor.Stage(a, [], [])
  {
    match IndexOf(LowerEach(a), "ауд")
    case None => CellExtractor.Stage(a, [], [])
    case Some(i) =>
      var b := Without(a, i);
      var j := IntRunEnd(b, i);
      CellExtractor.Stage(b[..i] + b[j..], CellExtractor.IntValues(b[i..j]), [a[i]] + b[i..j])
  }

  /**
   * What the stage `r` leaves of `a` when `a[i]` is the first `ауд`: the
   * tokens before it stay, the cabinets are the integers right after it, and
   * the token that now follows the kept prefix is not an integer.
   */
  predicate StopsAtNonInt(a: seq<string>, i: nat, r: CellExtractor.Stage<seq<nat>>)
    requires i < |a|
  {
    && i <= |r.rest| && r.rest[..i] == a[..i]
    && (i < |r.rest| ==> !IsInt(r.rest[i]))
    && i + 1 + |r.value| <= |a| && r.rest[i..] == a[i + 1 + |r.value|..]
    && ValuesAt(a, i + 1, r.value)
  }

  /** `value` is read off the integer tokens of `a` from index `from` on. */
  predicate ValuesAt(a: seq<string>, from: nat, value: seq<nat>) {
    && from + |value| <= |a|
    && (forall k :: from <= k < from + |value| ==> IsInt(a[k]))
    && value == CellExtractor.IntValues(a[from..from + |value|])
  }

  /** Lines 47-59 with the first `ауд` at `i`: the scan stops at the first token that is not an integer. */
  lemma CabinetsStopAtNonInt(a: seq<string>, i: nat)
    requires IndexOf(LowerEach(a), "ауд") == Some(i)
    ensures StopsAtNonInt(a, i, CabinetStage(a))
  {
    CabinetStageAt(a, i);
    RunCut(a, i, CabinetStage(a));
  }

  /** Deleting `a[i]` and then the run of integers that follows it. */
  lemma RunCut(a: seq<string>, i: nat, r: CellExtractor.Stage<seq<nat>>)
    requires i < |a|
    requires var b := Without(a, i);
      var j := IntRunEnd(b, i);
      r.rest == b[..i] + b[j..] && r.value == CellExtractor.IntValues(b[i..j])
    ensures StopsAtNonInt(a, i, r)
  {
    var b := Without(a, i);
    var j := IntRunEnd(b, i);
    RunCutRest(a, i, b, j, r.rest);
    RunCutValues(a, i, b, j, r.value);
  }

  lemma RunCutRest(a: seq<string>, i: nat, b: seq<string>, j: nat, rest: seq<string>)
    requires i < |a| && b == Without(a, i) && j == IntRunEnd(b, i) && rest == b[..i] + b[j..]
    ensures i <= |rest| && rest[..i] == a[..i]
    ensures i < |rest| ==> !IsInt(rest[i])
    ensures i + 1 + (j - i) <= |a| && rest[i..] == a[i + 1 + (j - i)..]
  {
    assert rest[..i] == b[..i];
    assert rest[i..] == b[j..];
    assert b[j..] == a[j + 1..];
    if i < |rest| {
      assert rest[i] == b[j];
    }
  }

  lemma RunCutValues(a: seq<string>, i: nat, b: seq<string>, j: nat, value: seq<nat>)
    requires i < |a| && b == Without(a, i) && j == IntRunEnd(b, i) && value == CellExtractor.IntValues(b[i..j])
    ensures |value| == j - i
    ensures ValuesAt(a, i + 1, value)
  {
    assert a[i + 1..j + 1] == b[i..j];
    forall k | i + 1 <= k < j + 1
      ensures IsInt(a[k])
    {
      assert a[k] == b[k - 1];
    }
  }

  /** `CabinetStage` with the first `ауд` at `i`. */
  lemma CabinetStageAt(a: seq<string>, i: nat)
    requires IndexOf(LowerEach(a), "ауд") == Some(i)
    ensures var b := Without(a, i);
      var j := IntRunEnd(b, i);
      CabinetStage(a) == CellExtractor.Stage(b[..i] + b[j..], CellExtractor.IntValues(b[i..j]), [a[i]] + b[i..j])
  {
  }

  lemma CabinetPartitions(a: seq<string>)
    ensures CellExtractor.Partitions(a, CabinetStage(a))
  {
    match IndexOf(LowerEach(a), "ауд")
    case None =>
      SubseqRefl(a);
    case Some(i) =>
      var b := Without(a, i);
      var j := IntRunEnd(b, i);
      WithoutSubseq(a, i);
      WithoutMultiset(a, i);
      CutSubseq(b, i, j);
      CutMultiset(b, i, j);
      SubseqTrans(b[..i] + b[j..], b, a);
  }

  /** The token at the scan position, and what taking it leaves. */
  lemma TakeOne(a0: seq<string>, start: nat, k: nat)
    requires start <= k < |a0|
    ensures (a0[..start] + a0[k..])[start] == a0[k]
    ensures Without(a0[..start] + a0[k..], start) == a0[..start] + a0[k + 1..]
  {
    assert a0[k..] == [a0[k]] + a0[k + 1..];
    WithoutBetween(a0[..start], a0[k], a0[k + 1..]);
    assert a0[..start] + a0[k..] == a0[..start] + [a0[k]] + a0[k + 1..];
  }

  /** One more cabinet. */
  lemma TakeOneValue(a0: seq<string>, start: nat, k: nat)
    requires start <= k < |a0| && forall j :: start <= j <= k ==> IsInt(a0[j])
    ensures CellExtractor.IntValues(a0[start..k + 1]) == CellExtractor.IntValues(a0[start..k]) + [CellExtractor.IntValue(a0[k])]
  {
    assert a0[start..k + 1] == a0[start..k] + [a0[k]];
    CellExtractor.IntValuesAppend(a0[start..k], [a0[k]]);
  }

  /** The loop of lines 52-59: take integers at `start` until a token is not one. */
  method TakeCabinets(a0: seq<string>, start: nat) returns (words: seq<string>, lWords: seq<string>, cabinets: seq<nat>)
    requires start <= |a0|
    ensures words == a0[..start] + a0[IntRunEnd(a0, start)..]
    ensures lWords == LowerEach(words)
    ensures cabinets == CellExtractor.IntValues(a0[start..IntRunEnd(a0, start)])
  {
    words, lWords, cabinets := a0, LowerEach(a0), [];
    ghost var k := start;
    assert a0[..start] + a0[start..] == a0;
    while start < |words|
      invariant start <= k <= |a0| && AllInts(a0, start, k)
      invariant words == a0[..start] + a0[k..]
      invariant lWords == LowerEach(words)
      invariant cabinets == CellExtractor.IntValues(a0[start..k])
      decreases |words| - start
    {
      TakeOne(a0, start, k);
      if !IsInt(words[start]) {
        break;
      }
      TakeOneValue(a0, start, k);
      cabinets := cabinets + [CellExtractor.IntValue(words[start])];
      LowerEachWithout(words, start);
      words, lWords := Without(words, start), Without(lWords, start);
      k := k + 1;
    }
    RunEndAt(a0, start, k);
  }

  /** The first token from `start` on that is not an integer, or the end, is where the run ends. */
  lemma {:induction false} RunEndAt(a: seq<string>, start: nat, k: nat)
    requires start <= k <= |a| && AllInts(a, start, k)
    requires k == |a| || !IsInt(a[k])
    ensures k == IntRunEnd(a, start)
    decreases k - start
  {
    if start < k {
      RunEndAt(a, start + 1, k);
    }
  }

  /** The tokens from `start` up to `k` are all integers. */
  predicate AllInts(a: seq<string>, start: nat, k: nat)
    requires start <= k <= |a|
  {
    forall j :: start <= j < k ==> IsInt(a[j])
  }

  /** Lines 47-59 in place. */
  method CabinetStep(a0: seq<string>, la0: seq<string>) returns (words: seq<string>, lWords: seq<string>, cabinets: seq<nat>)
    requires la0 == LowerEach(a0)
    ensures words == CabinetStage(a0).rest && cabinets == CabinetStage(a0).value
    ensures lWords == LowerEach(words)
  {
    words, lWords, cabinets := a0, la0, [];
    var aud := IndexOf(lWords, "ауд");
    if aud.Some? {
      var index := aud.value;
      words := Without(words, index);
      words, lWords, cabinets := TakeCabinets(words, index);
    }
  }

  // ---------------------------------------------------------------- the name

  /** Lines 93-94: a name starting with `МДК` becomes `МДК.` and its words joined by dots. */
  function CourseCode(name: string): (r: string)
    ensures !StartsWith(name, "МДК") ==> r == name
    ensures StartsWith(name, "МДК") ==> StartsWith(r, "МДК.")
  {
    if StartsWith(name, "МДК") then
      Finder.CourseNameStarts("МДК", name);
      Finder.CourseName("МДК", name)
    else name
  }

  /** `МДК 01 02` is read as `МДК.01.02`. */
  lemma CourseCodeOfWords(ws: seq<string>)
    requires ws != [] && forall k :: 0 <= k < |ws| ==> IsToken(ws[k])
    ensures CourseCode("МДК" + " " + Join(" ", ws)) == "МДК." + Join(".", ws)
  {
    Finder.CourseNameJoined("МДК", ws);
  }

  /** Lines 96-98: the `PairNameFix` whose `prev_name` is the lower-cased name replaces it. */
  function FixName(name: string, fixes: map<string, string>): string {
    var key := LowerAll(name);
    if key in fixes then fixes[key] else name
  }

  // ---------------------------------------------------------------- the whole cell

  /** All stages in the source's order; the cabinet stage is this version's. */
  function Extract(ws: seq<string>): CellExtractor.Extraction {
    var s1 := CellExtractor.SubstitutionStage(ws);
    var s2 := CabinetStage(s1.rest);
    var s3 := CellExtractor.SubgroupStage(s2.rest);
    var s4 := CellExtractor.TeacherScan(s3.rest, 2);
    CellExtractor.Extraction(s4.0, s4.1, s2.value, s3.value, s1.value,
                             s1.taken + s2.taken + s3.taken + CellExtractor.TeacherTokens(s4.1))
  }

  /** The name is made of the tokens no stage took, in their original order. */
  lemma ExtractKeepsOrder(ws: seq<string>)
    ensures IsSubseq(Extract(ws).rest, ws)
  {
    var s1 := CellExtractor.SubstitutionStage(ws);
    var s2 := CabinetStage(s1.rest);
    var s3 := CellExtractor.SubgroupStage(s2.rest);
    CellExtractor.SubstitutionPartitions(ws);
    CabinetPartitions(s1.rest);
    CellExtractor.SubgroupPartitions(s2.rest);
    CellExtractor.TeacherScanSubseq(s3.rest, 2);
    SubseqTrans(s2.rest, s1.rest, ws);
    SubseqTrans(s3.rest, s2.rest, ws);
    SubseqTrans(Extract(ws).rest, s3.rest, ws);
  }

  /** The cell's tokens are exactly those left plus those the stages took. */
  lemma ExtractTakes(ws: seq<string>)
    ensures multiset(ws) == multiset(Extract(ws).rest) + multiset(Extract(ws).taken)
  {
    var s1 := CellExtractor.SubstitutionStage(ws);
    var s2 := CabinetStage(s1.rest);
    var s3 := CellExtractor.SubgroupStage(s2.rest);
    CellExtractor.SubstitutionPartitions(ws);
    CabinetPartitions(s1.rest);
    CellExtractor.SubgroupPartitions(s2.rest);
    CellExtractor.TeacherScanMultiset(s3.rest, 2);
  }

  /** Lines 82-90 record a teacher for every pair of one-character tokens, without a lookup. */
  lemma ExtractInitials(ws: seq<string>)
    ensures CellExtractor.AllInitials(Extract(ws).teachers)
  {
    var s1 := CellExtractor.SubstitutionStage(ws);
    var s2 := CabinetStage(s1.rest);
    var s3 := CellExtractor.SubgroupStage(s2.rest);
    CellExtractor.TeacherScanInitials(s3.rest, 2);
  }

  /** What `parse_pair_name` returns. */
  function PairInfoOf(s: string, fixes: map<string, string>): Option<PairInfo> {
    var ws := Words(s);
    if ws == [] then None
    else
      var e := Extract(ws);
      Some(PairInfo(FixName(CourseCode(Join(" ", e.rest)), fixes), e.teachers, e.cabinets,
                    e.isSubstitution, e.subgroup, Common.NormalizeText(s)))
  }

  /** Lines 32-37: no pair without a word character; otherwise `raw` is the normalized text. */
  lemma PairInfoRaw(s: string, fixes: map<string, string>)
    ensures PairInfoOf(s, fixes).None? <==> forall i :: 0 <= i < |s| ==> !IsWordChar(s[i])
    ensures PairInfoOf(s, fixes).Some? ==>
      PairInfoOf(s, fixes).value.raw == Common.NormalizeText(s) && Common.Normalized(PairInfoOf(s, fixes).value.raw)
  {
    WordsEmpty(s);
  }

  /**
   * `parse_pair_name`: `None` exactly when the text has no word character,
   * otherwise the pair read off its tokens, edited in place as the source does.
   */
  method ParsePairName(s: string, fixes: map<string, string>) returns (r: Option<PairInfo>)
    ensures r.None? <==> forall i :: 0 <= i < |s| ==> !IsWordChar(s[i])
    ensures r == PairInfoOf(s, fixes)
  {
    var words := Words(s);
    WordsEmpty(s);
    if words == [] {
      return None;
    }
    var raw := Common.NormalizeText(s);
    var lWords := LowerEach(words);
    var isSubstitution, cabinets, subgroup, teachers;
    words, lWords, isSubstitution := CellExtractor.SubstitutionStep(words, lWords);
    words, lWords, cabinets := CabinetStep(words, lWords);
    words, subgroup := CellExtractor.SubgroupStep(words, lWords);
    words, teachers := CellExtractor.ScanTeachers(words);
    var name := CourseCode(Join(" ", words));
    name := FixName(name, fixes);
    return Some(PairInfo(name, teachers, cabinets, isSubstitution, subgroup, raw));
  }

  // ---------------------------------------------------------------- parse_table

  /** A body row: the pair-number cell and the group cells. */
  datatype Row = Row(numberCell: string, cells: seq<string>)

  /** A table: the header's group cells (after the corner cell) and the body rows. */
  datatype Table = Table(header: seq<string>, rows: seq<Row>)

  /** Lines 123-127: each row's pair number, falling back to the previous one plus one. */
  function PairNumbers(rows: seq<Row>): (r: seq<int>)
    ensures |r| == |rows|
    decreases |rows|
  {
    if rows == [] then []
    else
      var p := PairNumbers(rows[..|rows| - 1]);
      p + [Common.ParsePairNumber(rows[|rows| - 1].numberCell, NextDefault(p))]
  }

  /** The numbers of a prefix of the rows are a prefix of the numbers. */
  lemma {:induction false} PairNumbersPrefix(rows: seq<Row>, n: nat)
    requires n <= |rows|
    ensures PairNumbers(rows[..n]) == PairNumbers(rows)[..n]
    decreases |rows|
  {
    if n < |rows| {
      var init := rows[..|rows| - 1];
      assert init[..n] == rows[..n];
      PairNumbersPrefix(init, n);
    } else {
      assert rows[..n] == rows;
    }
  }

  /** The number after the last of `p`, or 1 when there is none. */
  function NextDefault(p: seq<int>): int {
    (if p == [] then 0 else p[|p| - 1]) + 1
  }

  lemma PairNumbersUnfold(rows: seq<Row>)
    requires rows != []
    ensures PairNumbers(rows) == PairNumbers(rows[..|rows| - 1])
      + [Common.ParsePairNumber(rows[|rows| - 1].numberCell, NextDefault(PairNumbers(rows[..|rows| - 1])))]
  {
  }

  /** Line 125: the number of row `k` from its cell and the previous row's number. */
  lemma NextPairNumber(rows: seq<Row>, k: nat)
    requires k < |rows|
    ensures PairNumbers(rows)[k] ==
      Common.ParsePairNumber(rows[k].numberCell, (if k == 0 then 0 else PairNumbers(rows)[k - 1]) + 1)
  {
    var done := rows[..k + 1];
    PairNumbersPrefix(rows, k + 1);
    PairNumbersPrefix(rows, k);
    assert done[..k] == rows[..k] && done[k] == rows[k];
    var p := PairNumbers(rows[..k]);
    PairNumbersUnfold(done);
    assert PairNumbers(rows)[k] == PairNumbers(done)[k];
    assert NextDefault(p) == (if k == 0 then 0 else PairNumbers(rows)[k - 1]) + 1;
  }

  /** A row whose first cell has no digit gets the number after the previous row's (1 for the first). */
  lemma PairNumberFallback(rows: seq<Row>, k: nat)
    requires k < |rows| && forall i :: 0 <= i < |rows[k].numberCell| ==> !IsDigit(rows[k].numberCell[i])
    ensures PairNumbers(rows)[k] == (if k == 0 then 0 else PairNumbers(rows)[k - 1]) + 1
  {
    PairNumbersPrefix(rows, k + 1);
    PairNumbersPrefix(rows, k);
    assert rows[..k + 1][..k] == rows[..k];
  }

  /** Row `k` has a value for group column `gi`. */
  predicate Hit<V>(rows: seq<Row>, k: int, gi: nat, parse: string -> Option<V>) {
    0 <= k < |rows| && gi < |rows[k].cells| && parse(rows[k].cells[gi]).Some?
  }

  /** Lines 129-132 for one column: the assignments `timetable[gi][1][pn] = pt`, in row order. */
  function ColumnEntries<V>(rows: seq<Row>, pns: seq<int>, gi: nat, parse: string -> Option<V>): seq<(int, V)>
    requires |pns| == |rows|
    decreases |rows|
  {
    if rows == [] then []
    else
      var k := |rows| - 1;
      var init := ColumnEntries(rows[..k], pns[..k], gi, parse);
      if Hit(rows, k, gi, parse) then init + [(pns[k], parse(rows[k].cells[gi]).value)] else init
  }

  /** The dictionary of one header group. */
  function Column<V>(rows: seq<Row>, pns: seq<int>, gi: nat, parse: string -> Option<V>): map<int, V>
    requires |pns| == |rows|
  {
    Assoc.AsMap(ColumnEntries(rows, pns, gi, parse))
  }

  /** One more row. */
  lemma ColumnSnoc<V>(rows: seq<Row>, pns: seq<int>, gi: nat, parse: string -> Option<V>)
    requires |pns| == |rows| && rows != []
    ensures var k := |rows| - 1;
      Column(rows, pns, gi, parse) ==
        if Hit(rows, k, gi, parse) then Column(rows[..k], pns[..k], gi, parse)[pns[k] := parse(rows[k].cells[gi]).value]
        else Column(rows[..k], pns[..k], gi, parse)
  {
    var k := |rows| - 1;
    if Hit(rows, k, gi, parse) {
      Assoc.AsMapSnoc(ColumnEntries(rows[..k], pns[..k], gi, parse), pns[k], parse(rows[k].cells[gi]).value);
    }
  }

  /** A pair number is in a group's dictionary exactly when some row with that number has a pair in its column. */
  lemma {:induction false} ColumnKeys<V>(rows: seq<Row>, pns: seq<int>, gi: nat, parse: string -> Option<V>, pn: int)
    requires |pns| == |rows|
    ensures pn in Column(rows, pns, gi, parse) <==> exists k :: Hit(rows, k, gi, parse) && pns[k] == pn
    decreases |rows|
  {
    if rows != [] {
      var k := |rows| - 1;
      ColumnSnoc(rows, pns, gi, parse);
      ColumnKeys(rows[..k], pns[..k], gi, parse, pn);
      if exists j :: Hit(rows[..k], j, gi, parse) && pns[..k][j] == pn {
        var j :| Hit(rows[..k], j, gi, parse) && pns[..k][j] == pn;
        assert Hit(rows, j, gi, parse) && pns[j] == pn;
      }
      if exists j :: Hit(rows, j, gi, parse) && pns[j] == pn {
        var j :| Hit(rows, j, gi, parse) && pns[j] == pn;
        if j < k {
          assert Hit(rows[..k], j, gi, parse) && pns[..k][j] == pn;
        }
      }
    }
  }

  /** A group's pair for a number is the one of the last row with that number and a pair in its column. */
  lemma {:induction false} ColumnLast<V>(rows: seq<Row>, pns: seq<int>, gi: nat, parse: string -> Option<V>, k: nat)
    requires |pns| == |rows| && Hit(rows, k, gi, parse)
    requires forall j :: k < j < |rows| && Hit(rows, j, gi, parse) ==> pns[j] != pns[k]
    ensures pns[k] in Column(rows, pns, gi, parse)
    ensures Column(rows, pns, gi, parse)[pns[k]] == parse(rows[k].cells[gi]).value
    decreases |rows|
  {
    var n := |rows| - 1;
    ColumnSnoc(rows, pns, gi, parse);
    if k < n {
      assert Hit(rows[..n], k, gi, parse);
      ColumnLast(rows[..n], pns[..n], gi, parse, k);
    }
  }

  /** `parse_group_name` of a header cell; without `only_if_matches` it always gives a name. */
  function HeaderGroup(cell: string): Common.GroupName {
    var g := Common.ParseGroupName(cell, false);
    assert g.Some?;
    g.value
  }

  /** `parse_pair_name` with the fixes at hand, as the cell parser the table machinery applies. */
  function Parser(fixes: map<string, string>): string -> Option<PairInfo> {
    s => PairInfoOf(s, fixes)
  }

  lemma ParserApply(fixes: map<string, string>, s: string)
    ensures Parser(fixes)(s) == PairInfoOf(s, fixes)
  {
  }

  /** A cell beyond the header's width that holds a pair: `timetable[gi]` raises `IndexError`. */
  predicate RowOverflows<V>(row: Row, width: nat, parse: string -> Option<V>) {
    exists gi :: width <= gi < |row.cells| && parse(row.cells[gi]).Some?
  }

  /** The list `timetable` of lines 119-132: one entry per header cell. */
  function Groups<V>(t: Table, parse: string -> Option<V>): seq<(Common.GroupName, map<int, V>)> {
    var pns := PairNumbers(t.rows);
    seq(|t.header|, g requires 0 <= g < |t.header| => (HeaderGroup(t.header[g]), Column(t.rows, pns, g, parse)))
  }

  /** One of the first `n` rows has a pair in a column the header has no group for. */
  predicate OverflowsBefore<V>(t: Table, n: nat, parse: string -> Option<V>) {
    exists k :: 0 <= k < n && k < |t.rows| && RowOverflows(t.rows[k], |t.header|, parse)
  }

  /** Some row has a pair in a column the header has no group for. */
  predicate Overflows<V>(t: Table, parse: string -> Option<V>) {
    OverflowsBefore(t, |t.rows|, parse)
  }

  /** One more row overflows or not, and a row that overflows makes the table overflow. */
  lemma OverflowsAt<V>(t: Table, k: nat, parse: string -> Option<V>)
    requires k < |t.rows|
    ensures OverflowsBefore(t, k + 1, parse) <==> OverflowsBefore(t, k, parse) || RowOverflows(t.rows[k], |t.header|, parse)
    ensures RowOverflows(t.rows[k], |t.header|, parse) ==> Overflows(t, parse)
  {
  }

  /** The cells from `width` up to `end` hold no pair. */
  predicate NoPairsFrom<V>(cells: seq<string>, width: nat, end: nat, parse: string -> Option<V>)
    requires end <= |cells|
  {
    forall g :: width <= g < end ==> parse(cells[g]).None?
  }

  /** The dictionaries after the first `k` rows. */
  ghost predicate Built<V>(timetable: seq<(Common.GroupName, map<int, V>)>, header: seq<string>, rows: seq<Row>, k: nat,
                           parse: string -> Option<V>)
    requires k <= |rows|
  {
    && |timetable| == |header|
    && forall g :: 0 <= g < |header| ==>
         timetable[g] == (HeaderGroup(header[g]), Column(rows[..k], PairNumbers(rows)[..k], g, parse))
  }

  /** Row `k` written up to column `gi`: the columns before `gi` have it, the others not yet. */
  ghost predicate Filled<V>(timetable: seq<(Common.GroupName, map<int, V>)>, header: seq<string>, rows: seq<Row>, k: nat,
                            gi: nat, parse: string -> Option<V>)
    requires k < |rows|
  {
    && |timetable| == |header|
    && (forall g :: 0 <= g < |header| && g < gi ==>
          timetable[g] == (HeaderGroup(header[g]), Column(rows[..k + 1], PairNumbers(rows)[..k + 1], g, parse)))
    && (forall g :: gi <= g < |header| ==>
          timetable[g] == (HeaderGroup(header[g]), Column(rows[..k], PairNumbers(rows)[..k], g, parse)))
  }

  /** Row `k` in the column machinery: the last of `rows[..k + 1]`. */
  lemma RowStep<V>(rows: seq<Row>, k: nat, g: nat, parse: string -> Option<V>)
    requires k < |rows|
    ensures Column(rows[..k + 1], PairNumbers(rows)[..k + 1], g, parse) ==
      if g < |rows[k].cells| && parse(rows[k].cells[g]).Some?
      then Column(rows[..k], PairNumbers(rows)[..k], g, parse)[PairNumbers(rows)[k] := parse(rows[k].cells[g]).value]
      else Column(rows[..k], PairNumbers(rows)[..k], g, parse)
  {
    var done, pns := rows[..k + 1], PairNumbers(rows)[..k + 1];
    assert done[..k] == rows[..k] && pns[..k] == PairNumbers(rows)[..k] && done[k] == rows[k];
    ColumnSnoc(done, pns, g, parse);
  }

  /** Writing the cell at `gi` of row `k`, or skipping it when it holds no pair. */
  lemma FillCell<V>(timetable: seq<(Common.GroupName, map<int, V>)>, header: seq<string>, rows: seq<Row>, k: nat,
                    gi: nat, parse: string -> Option<V>)
    requires k < |rows| && gi < |rows[k].cells| && Filled(timetable, header, rows, k, gi, parse)
    requires parse(rows[k].cells[gi]).Some? ==> gi < |header|
    ensures var pt := parse(rows[k].cells[gi]);
      Filled(if pt.Some? then timetable[gi := (timetable[gi].0, timetable[gi].1[PairNumbers(rows)[k] := pt.value])] else timetable,
             header, rows, k, gi + 1, parse)
  {
    if gi < |header| {
      RowStep(rows, k, gi, parse);
    }
  }

  /** The columns after the row's last cell are unchanged by it. */
  lemma FillBeyond<V>(timetable: seq<(Common.GroupName, map<int, V>)>, header: seq<string>, rows: seq<Row>, k: nat,
                      parse: string -> Option<V>)
    requires k < |rows| && Filled(timetable, header, rows, k, |rows[k].cells|, parse)
    ensures Built(timetable, header, rows, k + 1, parse)
  {
    forall g | |rows[k].cells| <= g < |header|
      ensures Column(rows[..k + 1], PairNumbers(rows)[..k + 1], g, parse) == Column(rows[..k], PairNumbers(rows)[..k], g, parse)
    {
      RowStep(rows, k, g, parse);
    }
  }

  /** Lines 129-132 for row `k`, numbered `pn`: its pairs go to their groups' dictionaries. */
  method FillRow<V>(timetable0: seq<(Common.GroupName, map<int, V>)>, header: seq<string>, cells: seq<string>,
                    pn: int, parse: string -> Option<V>, ghost rows: seq<Row>, ghost k: nat)
    returns (timetable: seq<(Common.GroupName, map<int, V>)>, ok: bool)
    requires k < |rows| && cells == rows[k].cells && pn == PairNumbers(rows)[k]
    requires Built(timetable0, header, rows, k, parse)
    ensures ok <==> !RowOverflows(rows[k], |header|, parse)
    ensures ok ==> Built(timetable, header, rows, k + 1, parse)
  {
    timetable := timetable0;
    StartRow(timetable, header, rows, k, parse);
    for gi := 0 to |cells|
      invariant Filled(timetable, header, rows, k, gi, parse)
      invariant NoPairsFrom(cells, |header|, gi, parse)
    {
      var pt := parse(cells[gi]);
      if pt.Some? && gi >= |timetable| {
        Overflow(rows[k], |header|, gi, parse);
        return timetable, false;
      }
      FillCell(timetable, header, rows, k, gi, parse);
      NoPairsStep(cells, |header|, gi, parse);
      if pt.Some? {
        timetable := timetable[gi := (timetable[gi].0, timetable[gi].1[pn := pt.value])];
      }
    }
    FillBeyond(timetable, header, rows, k, parse);
    NoOverflow(rows[k], |header|, parse);
    return timetable, true;
  }

  /** Before its first cell, row `k` is written up to column 0. */
  lemma StartRow<V>(timetable: seq<(Common.GroupName, map<int, V>)>, header: seq<string>, rows: seq<Row>, k: nat,
                    parse: string -> Option<V>)
    requires k < |rows| && Built(timetable, header, rows, k, parse)
    ensures Filled(timetable, header, rows, k, 0, parse) && NoPairsFrom(rows[k].cells, |header|, 0, parse)
  {
  }

  /** A pair in cell `gi`, at or beyond the header's width, overflows. */
  lemma Overflow<V>(row: Row, width: nat, gi: nat, parse: string -> Option<V>)
    requires width <= gi < |row.cells| && parse(row.cells[gi]).Some?
    ensures RowOverflows(row, width, parse)
  {
  }

  /** One more cell with no pair, or one within the header's width. */
  lemma NoPairsStep<V>(cells: seq<string>, width: nat, gi: nat, parse: string -> Option<V>)
    requires gi < |cells| && NoPairsFrom(cells, width, gi, parse)
    requires parse(cells[gi]).Some? ==> gi < width
    ensures NoPairsFrom(cells, width, gi + 1, parse)
  {
  }

  /** No pair beyond the header's width: no overflow. */
  lemma NoOverflow<V>(row: Row, width: nat, parse: string -> Option<V>)
    requires NoPairsFrom(row.cells, width, |row.cells|, parse)
    ensures !RowOverflows(row, width, parse)
  {
  }

  /** Lines 119-121: an empty dictionary for each header group. */
  method EmptyGroups<V>(header: seq<string>, ghost rows: seq<Row>, parse: string -> Option<V>)
    returns (timetable: seq<(Common.GroupName, map<int, V>)>)
    ensures Built(timetable, header, rows, 0, parse)
  {
    timetable := [];
    for h := 0 to |header|
      invariant |timetable| == h
      invariant forall g :: 0 <= g < h ==> timetable[g] == (HeaderGroup(header[g]), map[])
    {
      timetable := timetable + [(HeaderGroup(header[h]), map[])];
    }
  }

  /** After the last row the dictionaries are those of `Groups`. */
  lemma BuiltAll<V>(timetable: seq<(Common.GroupName, map<int, V>)>, t: Table, parse: string -> Option<V>)
    requires Built(timetable, t.header, t.rows, |t.rows|, parse)
    ensures timetable == Groups(t, parse)
  {
    assert t.rows[..|t.rows|] == t.rows && PairNumbers(t.rows)[..|t.rows|] == PairNumbers(t.rows);
  }

  /**
   * `parse_table` with `parse_pair_name` as `parse` (see `Parser`): the
   * dictionary from each header group to its pairs by number, or `None`
   * where the source raises `IndexError`.
   */
  method ParseTable<V>(t: Table, parse: string -> Option<V>) returns (r: Option<map<Common.GroupName, map<int, V>>>)
    ensures r.None? <==> Overflows(t, parse)
    ensures r.Some? ==> r.value == Assoc.AsMap(Groups(t, parse))
  {
    var header, rows := t.header, t.rows;
    var timetable := EmptyGroups(header, rows, parse);
    var lastPn := 0;
    for k := 0 to |rows|
      invariant lastPn == if k == 0 then 0 else PairNumbers(rows)[k - 1]
      invariant Built(timetable, header, rows, k, parse)
      invariant !OverflowsBefore(t, k, parse)
    {
      var pn := Common.ParsePairNumber(rows[k].numberCell, lastPn + 1);
      NextPairNumber(rows, k);
      lastPn := pn;
      var ok;
      timetable, ok := FillRow(timetable, header, rows[k].cells, pn, parse, rows, k);
      OverflowsAt(t, k, parse);
      if !ok {
        return None;
      }
    }
    BuiltAll(timetable, t, parse);
    return Some(Assoc.AsMap(timetable));
  }
  // ---------------------------------------------------------------- parse_date and parse_timetable

  /** `parse_date(text)`: the date parser on the lower-cased text without `знаменатель` and `числитель`. */
  function ParseDate<D>(text: string, parseDate: string -> Option<D>): Option<D> {
    parseDate(TimetablePage.DateText(text))
  }

  /** A child of `page.body[0]`. */
  datatype Element =
    | Para(content: string, href: Option<string>)  // a `p`: its text and the `href` of its first `a`, if it has one
    | Div(first: Table)                            // a `div`: its first child
    | TableElem(table: Table)                      // a `table`
    | FontElem                                     // a `font`
    | OtherElem(tag: string)                       // anything else, which is only logged

  /** The three collections of the loop: `useful_links`, the set `today`, and `timetable`. */
  datatype Scan<D> = Scan(links: map<string, string>, dates: set<D>, timetable: map<Common.GroupName, map<int, PairInfo>>)

  /** The table of an element that has one. */
  function TableOf(e: Element): Option<Table> {
    match e
    case Div(t) => Some(t)
    case TableElem(t) => Some(t)
    case _ => None
  }

  /** The link a paragraph records: its normalized text and a non-empty `href`. */
  function LinkOf(e: Element): Option<(string, string)> {
    match e
    case Para(content, href) => if href.Some? && href.value != "" then Some((Common.NormalizeText(content), href.value)) else None
    case _ => None
  }

  /** The date a paragraph without a link gives, when its text is not empty and parses. */
  function DateOf<D>(e: Element, parseDate: string -> Option<D>): Option<D> {
    match e
    case Para(content, href) =>
      var text := Common.NormalizeText(content);
      if (href.Some? && href.value != "") || text == "" then None else ParseDate(text, parseDate)
    case _ => None
  }

  /** One pass of the loop; `None` where `parse_table` raises `IndexError`. */
  function ElementStep<D>(st: Scan<D>, e: Element, parseDate: string -> Option<D>, fixes: map<string, string>): (r: Option<Scan<D>>)
    ensures r.None? <==> TableOf(e).Some? && Overflows(TableOf(e).value, Parser(fixes))
  {
    match TableOf(e)
    case Some(t) =>
      if Overflows(t, Parser(fixes)) then None
      else Some(st.(timetable := st.timetable + Assoc.AsMap(Groups(t, Parser(fixes)))))
    case None =>
      match LinkOf(e)
      case Some(link) => Some(st.(links := st.links[link.0 := link.1]))
      case None =>
        match DateOf(e, parseDate)
        case Some(d) => Some(st.(dates := st.dates + {d}))
        case None => Some(st)
  }

  /** The loop over the elements from `st` on. */
  function ScanFrom<D>(st: Scan<D>, es: seq<Element>, parseDate: string -> Option<D>, fixes: map<string, string>): Option<Scan<D>>
    decreases |es|
  {
    if es == [] then Some(st)
    else
      match ElementStep(st, es[0], parseDate, fixes)
      case None => None
      case Some(next) => ScanFrom(next, es[1..], parseDate, fixes)
  }

  /** Lines 144-168 for one element. */
  method ReadElement<D(==)>(links0: map<string, string>, dates0: set<D>, timetable0: map<Common.GroupName, map<int, PairInfo>>,
                            e: Element, parseDate: string -> Option<D>, fixes: map<string, string>)
    returns (r: Option<Scan<D>>)
    ensures r == ElementStep(Scan(links0, dates0, timetable0), e, parseDate, fixes)
  {
    var links, dates, timetable := links0, dates0, timetable0;
    match e {
      case Para(content, href) =>
        var text := Common.NormalizeText(content);
        if href.Some? && href.value != "" {
          links := links[text := href.value];
        } else if text != "" {
          var date := ParseDate(text, parseDate);
          if date.Some? {
            dates := dates + {date.value};
          }
        }
      case Div(t) =>
        var parsed := ParseTable(t, Parser(fixes));
        if parsed.None? {
          return None;
        }
        timetable := timetable + parsed.value;
      case TableElem(t) =>
        var parsed := ParseTable(t, Parser(fixes));
        if parsed.None? {
          return None;
        }
        timetable := timetable + parsed.value;
      case FontElem =>
      case OtherElem(_) =>
    }
    r := Some(Scan(links, dates, timetable));
  }

  /**
   * `parse_timetable(page)`: the page's date, its links and its timetable,
   * or `None` where a table raises.  The date is one of the dates the
   * paragraphs gave (the set's `pop()` picks any), or `today` when none did.
   */
  method ParseTimetable<D(==)>(es: seq<Element>, parseDate: string -> Option<D>, fixes: map<string, string>, today: D)
    returns (r: Option<(D, map<string, string>, map<Common.GroupName, map<int, PairInfo>>)>)
    ensures r.None? <==> ScanFrom(Scan(map[], {}, map[]), es, parseDate, fixes).None?
    ensures r.Some? ==> var s := ScanFrom(Scan(map[], {}, map[]), es, parseDate, fixes).value;
      r.value.1 == s.links && r.value.2 == s.timetable && r.value.0 in (if s.dates == {} then {today} else s.dates)
  {
    var links: map<string, string>, dates: set<D>, timetable: map<Common.GroupName, map<int, PairInfo>> := map[], {}, map[];
    ghost var whole := ScanFrom(Scan(map[], {}, map[]), es, parseDate, fixes);
    assert es[0..] == es;
    for n := 0 to |es|
      invariant ScanFrom(Scan(links, dates, timetable), es[n..], parseDate, fixes) == whole
    {
      assert es[n..][1..] == es[n + 1..];
      var next := ReadElement(links, dates, timetable, es[n], parseDate, fixes);
      if next.None? {
        return None;
      }
      links, dates, timetable := next.value.links, next.value.dates, next.value.timetable;
    }
    assert es[|es|..] == [];
    if dates == {} {
      dates := {today};
    }
    var date :| date in dates;
    r := Some((date, links, timetable));
  }

  // ---------------------------------------------------------------- what a page gives

  /** The link assignments of the paragraphs, in order. */
  function LinkAssignments(es: seq<Element>): seq<(string, string)>
    decreases |es|
  {
    if es == [] then [] else (if LinkOf(es[0]).Some? then [LinkOf(es[0]).value] else []) + LinkAssignments(es[1..])
  }

  /** The dates the paragraphs give. */
  function DatesOf<D>(es: seq<Element>, parseDate: string -> Option<D>): set<D>
    decreases |es|
  {
    if es == [] then {} else (if DateOf(es[0], parseDate).Some? then {DateOf(es[0], parseDate).value} else {}) + DatesOf(es[1..], parseDate)
  }

  /** Some table of the elements raises. */
  ghost predicate SomeOverflow(es: seq<Element>, fixes: map<string, string>) {
    exists i :: 0 <= i < |es| && TableOf(es[i]).Some? && Overflows(TableOf(es[i]).value, Parser(fixes))
  }

  /** The page raises exactly when one of its tables has a pair beyond its header. */
  lemma {:induction false} ScanFails<D>(st: Scan<D>, es: seq<Element>, parseDate: string -> Option<D>, fixes: map<string, string>)
    ensures ScanFrom(st, es, parseDate, fixes).None? <==> SomeOverflow(es, fixes)
    decreases |es|
  {
    if es != [] {
      var next := ElementStep(st, es[0], parseDate, fixes);
      if next.Some? {
        ScanFails(next.value, es[1..], parseDate, fixes);
        if SomeOverflow(es, fixes) {
          var i :| 0 <= i < |es| && TableOf(es[i]).Some? && Overflows(TableOf(es[i]).value, Parser(fixes));
          assert es[1..][i - 1] == es[i];
        }
        if SomeOverflow(es[1..], fixes) {
          var i :| 0 <= i < |es[1..]| && TableOf(es[1..][i]).Some? && Overflows(TableOf(es[1..][i]).value, Parser(fixes));
          assert es[i + 1] == es[1..][i];
        }
      }
    }
  }

  /**
   * The links are the dictionary of the link paragraphs' assignments, in
   * page order, so a later paragraph with the same text wins.
   */
  lemma {:induction false} ScanCollectsLinks<D>(l: seq<(string, string)>, st: Scan<D>, es: seq<Element>,
                                                parseDate: string -> Option<D>, fixes: map<string, string>)
    requires st.links == Assoc.AsMap(l)
    ensures ScanFrom(st, es, parseDate, fixes).Some? ==>
      ScanFrom(st, es, parseDate, fixes).value.links == Assoc.AsMap(l + LinkAssignments(es))
    decreases |es|
  {
    if es == [] {
      assert l + [] == l;
    } else {
      var next := ElementStep(st, es[0], parseDate, fixes);
      if next.Some? {
        var e := es[0];
        var add := if LinkOf(e).Some? then [LinkOf(e).value] else [];
        Assoc.AsMapSnocAtMostOne(l, add);
        ElementCollects(st, e, parseDate, fixes);
        ScanCollectsLinks(l + add, next.value, es[1..], parseDate, fixes);
        ConcatAssoc(l, add, LinkAssignments(es[1..]));
      }
    }
  }

  /** The dates are all those the paragraphs without a link give. */
  lemma {:induction false} ScanCollectsDates<D>(st: Scan<D>, es: seq<Element>, parseDate: string -> Option<D>, fixes: map<string, string>)
    ensures ScanFrom(st, es, parseDate, fixes).Some? ==>
      ScanFrom(st, es, parseDate, fixes).value.dates == st.dates + DatesOf(es, parseDate)
    decreases |es|
  {
    if es != [] {
      var next := ElementStep(st, es[0], parseDate, fixes);
      if next.Some? {
        ElementCollects(st, es[0], parseDate, fixes);
        ScanCollectsDates(next.value, es[1..], parseDate, fixes);
      }
    }
  }

  /** One element adds at most its link and its date. */
  lemma ElementCollects<D>(st: Scan<D>, e: Element, parseDate: string -> Option<D>, fixes: map<string, string>)
    requires ElementStep(st, e, parseDate, fixes).Some?
    ensures var next := ElementStep(st, e, parseDate, fixes).value;
      && next.links == (if LinkOf(e).Some? then st.links[LinkOf(e).value.0 := LinkOf(e).value.1] else st.links)
      && next.dates == st.dates + (if DateOf(e, parseDate).Some? then {DateOf(e, parseDate).value} else {})
  {
  }

  /** What `parse_timetable` returns: all link paragraphs, last one winning, and a date a paragraph gave, or `today`. */
  lemma PageResult<D>(es: seq<Element>, parseDate: string -> Option<D>, fixes: map<string, string>)
    ensures var s := ScanFrom(Scan(map[], {}, map[]), es, parseDate, fixes);
      s.Some? ==> s.value.links == Assoc.AsMap(LinkAssignments(es)) && s.value.dates == DatesOf(es, parseDate)
  {
    ScanCollectsLinks([], Scan(map[], {}, map[]), es, parseDate, fixes);
    ScanCollectsDates(Scan(map[], {}, map[]), es, parseDate, fixes);
    assert [] + LinkAssignments(es) == LinkAssignments(es);
  }

  /** Every date in `DatesOf` comes from one paragraph. */
  lemma {:induction false} DatesFromParagraphs<D>(es: seq<Element>, parseDate: string -> Option<D>, d: D)
    ensures d in DatesOf(es, parseDate) <==> exists i :: 0 <= i < |es| && DateOf(es[i], parseDate) == Some(d)
    decreases |es|
  {
    if es != [] {
      DatesFromParagraphs(es[1..], parseDate, d);
      if exists i :: 0 <= i < |es| && DateOf(es[i], parseDate) == Some(d) {
        var i :| 0 <= i < |es| && DateOf(es[i], parseDate) == Some(d);
        if i > 0 {
          assert es[1..][i - 1] == es[i];
        }
      }
      if exists i :: 0 <= i < |es[1..]| && DateOf(es[1..][i], parseDate) == Some(d) {
        var i :| 0 <= i < |es[1..]| && DateOf(es[1..][i], parseDate) == Some(d);
        assert es[i + 1] == es[1..][i];
      }
    }
  }
}
