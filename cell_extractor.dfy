/**
 * `TimetableParser.parse_pair` (raspisanie_bot/parsing/parsers.py): one
 * timetable cell such as `Физика Иванов А Б ауд 305` is split into word
 * tokens, and tokens are deleted in a fixed order: the substitution marker
 * `зам`, the cabinet marker `ауд` with the integers after it, a subgroup
 * marker `<n> п гр` or `<n>п гр`, and teacher triples `Surname N P`.  What
 * is left, joined by spaces, names the subject.
 *
 * Each stage is a function on the token list that says what the stage
 * leaves, what it finds and which tokens it takes; the extractor itself is
 * the method `ParsePair`, which edits `array` and `l_array` in place as the
 * source does and is proved to agree with the stages.  The lookups are those
 * of the base `Finder`; the database finder fails on exactly the same tokens
 * (see `Store`), so the tokens deleted are the same.
 */
module CellExtractor {
  import opened Wrappers
  import opened Text
  import opened Tokens
  import Finder

  /** The arguments `parse_pair` hands to `handle_parsed_pair`. */
  datatype ParsedPair = ParsedPair(name: string, teachers: seq<Finder.Teacher>, cabinets: seq<nat>,
                                   subgroup: Option<nat>, isSubstitution: bool)

  /** What a stage leaves of the token list, what it found, and the tokens it took out. */
  datatype Stage<V> = Stage(rest: seq<string>, value: V, taken: seq<string>)

  /** A stage keeps the order of the tokens it leaves and takes out exactly `taken`. */
  predicate Partitions<V>(a: seq<string>, st: Stage<V>) {
    IsSubseq(st.rest, a) && multiset(a) == multiset(st.rest) + multiset(st.taken)
  }

  // ---------------------------------------------------------------- the substitution marker

  /** Lines 263-268: the first token that lower-cases to `зам` is deleted. */
  function SubstitutionStage(a: seq<string>): (r: Stage<bool>)
    ensures r.value <==> exists j :: 0 <= j < |a| && LowerAll(a[j]) == "зам"
    ensures !r.value ==> r.rest == a && r.taken == []
    ensures r.value ==> |r.rest| == |a| - 1 && |r.taken| == 1 && LowerAll(r.taken[0]) == "зам"
  {
    match IndexOf(LowerEach(a), "зам")
    case None => Stage(a, false, [])
    case Some(i) => Stage(Without(a, i), true, [a[i]])
  }

  /** Only the first marker goes: the tokens before it and after it stay. */
  lemma SubstitutionRemovesFirst(a: seq<string>, i: nat)
    requires i < |a| && LowerAll(a[i]) == "зам"
    requires forall j :: 0 <= j < i ==> LowerAll(a[j]) != "зам"
    ensures SubstitutionStage(a).rest == a[..i] + a[i + 1..]
  {
    var l := LowerEach(a);
    assert l[i] == "зам";
  }

  lemma SubstitutionPartitions(a: seq<string>)
    ensures Partitions(a, SubstitutionStage(a))
  {
    match IndexOf(LowerEach(a), "зам")
    case None =>
      SubseqRefl(a);
    case Some(i) =>
      WithoutSubseq(a, i);
      WithoutMultiset(a, i);
  }

  // ---------------------------------------------------------------- cabinets

  predicate NotInt(t: string) {
    !IsInt(t)
  }

  /** The number `find_cabinet` reads off an integer token. */
  function IntValue(t: string): nat
    requires IsInt(t)
  {
    DigitsValue(t)
  }

  /** The numbers `find_cabinet` reads off integer tokens, in order. */
  function IntValues(ts: seq<string>): (r: seq<nat>)
    requires forall k :: 0 <= k < |ts| ==> IsInt(ts[k])
    ensures |r| == |ts| && forall k :: 0 <= k < |ts| ==> r[k] == IntValue(ts[k])
  {
    if ts == [] then [] else [IntValue(ts[0])] + IntValues(ts[1..])
  }

  lemma IntValuesAppend(s: seq<string>, t: seq<string>)
    requires forall k :: 0 <= k < |s| ==> IsInt(s[k])
    requires forall k :: 0 <= k < |t| ==> IsInt(t[k])
    ensures IntValues(s + t) == IntValues(s) + IntValues(t)
  {
    var st := s + t;
    assert forall k :: 0 <= k < |st| ==> IsInt(st[k]);
  }

  /**
   * Lines 270-283: the first `ауд` is deleted, then every later token that
   * is an integer becomes a cabinet and is deleted; the other tokens stay.
   */
  function CabinetStage(a: seq<string>): (r: Stage<seq<nat>>)
    ensures IndexOf(LowerEach(a), "ауд").None? ==> r == Stage(a, [], [])
  {
    match IndexOf(LowerEach(a), "ауд")
    case None => Stage(a, [], [])
    case Some(i) =>
      var b := Without(a, i);
      var ints := Filter(b[i..], IsInt);
      Stage(b[..i] + Filter(b[i..], NotInt), IntValues(ints), [a[i]] + ints)
  }

  /**
   * With the first `ауд` at `i`: the tokens before it stay, no integer is
   * left after it (a non-integer does not end the scan), and the cabinets
   * are the integers taken, in the order of the cell.
   */
  lemma CabinetsAfterMarker(a: seq<string>, i: nat)
    requires IndexOf(LowerEach(a), "ауд") == Some(i)
    ensures var r := CabinetStage(a);
      && i <= |r.rest| && r.rest[..i] == a[..i]
      && (forall k :: i <= k < |r.rest| ==> !IsInt(r.rest[k]))
      && |r.taken| == |r.value| + 1 && LowerAll(r.taken[0]) == "ауд"
      && (forall k :: 1 <= k < |r.taken| ==> IsInt(r.taken[k]) && r.value[k - 1] == IntValue(r.taken[k]))
  {
    var b := Without(a, i);
    var kept, ints := Filter(b[i..], NotInt), Filter(b[i..], IsInt);
    var r := CabinetStage(a);
    CabinetStageAt(a, i);
    assert r.rest[..i] == a[..i] by {
      assert (b[..i] + kept)[..i] == b[..i];
    }
    forall k | i <= k < |r.rest|
      ensures !IsInt(r.rest[k])
    {
      assert r.rest[k] == kept[k - i];
    }
    forall k | 1 <= k < |r.taken|
      ensures IsInt(r.taken[k]) && r.value[k - 1] == IntValue(r.taken[k])
    {
      assert r.taken[k] == ints[k - 1];
    }
  }

  /** `CabinetStage` with the first `ауд` at `i`. */
  lemma CabinetStageAt(a: seq<string>, i: nat)
    requires IndexOf(LowerEach(a), "ауд") == Some(i)
    ensures var b := Without(a, i);
      && CabinetStage(a) == Stage(b[..i] + Filter(b[i..], NotInt), IntValues(Filter(b[i..], IsInt)), [a[i]] + Filter(b[i..], IsInt))
      && LowerAll(a[i]) == "ауд"
  {
    assert LowerEach(a)[i] == "ауд";
  }

  lemma CabinetPartitions(a: seq<string>)
    ensures Partitions(a, CabinetStage(a))
  {
    match IndexOf(LowerEach(a), "ауд")
    case None =>
      SubseqRefl(a);
    case Some(i) =>
      CabinetStageAt(a, i);
      var b := Without(a, i);
      MarkerScanPartitions(a, i, b, Filter(b[i..], NotInt), Filter(b[i..], IsInt));
  }

  /** Deleting the marker at `i` and splitting what follows it into kept tokens and integers. */
  lemma MarkerScanPartitions(a: seq<string>, i: nat, b: seq<string>, kept: seq<string>, ints: seq<string>)
    requires i < |a| && b == Without(a, i) && kept == Filter(b[i..], NotInt) && ints == Filter(b[i..], IsInt)
    ensures IsSubseq(b[..i] + kept, a) && multiset(a) == multiset(b[..i] + kept) + multiset([a[i]] + ints)
  {
    WithoutSubseq(a, i);
    WithoutMultiset(a, i);
    FilterSubseq(b[i..], NotInt, IsInt);
    SubseqRefl(b[..i]);
    SubseqAppend(b[..i], b[..i], kept, b[i..]);
    assert b == b[..i] + b[i..];
    SubseqTrans(b[..i] + kept, b, a);
  }

  /** One more token of the scan: it goes to the kept tokens or to the integers. */
  lemma CabinetScanStep(a0: seq<string>, start: nat, k: nat)
    requires start <= k < |a0|
    ensures Filter(a0[start..k + 1], NotInt) == Filter(a0[start..k], NotInt) + (if IsInt(a0[k]) then [] else [a0[k]])
    ensures Filter(a0[start..k + 1], IsInt) == Filter(a0[start..k], IsInt) + (if IsInt(a0[k]) then [a0[k]] else [])
  {
    assert a0[start..k + 1] == a0[start..k] + [a0[k]];
    FilterAppend(a0[start..k], [a0[k]], NotInt);
    FilterAppend(a0[start..k], [a0[k]], IsInt);
  }

  /** A non-integer at the scan position stays where it is. */
  lemma CabinetKeep(a0: seq<string>, start: nat, k: nat)
    requires start <= k < |a0| && !IsInt(a0[k])
    ensures Filter(a0[start..k + 1], NotInt) == Filter(a0[start..k], NotInt) + [a0[k]]
    ensures Filter(a0[start..k + 1], IsInt) == Filter(a0[start..k], IsInt)
  {
    CabinetScanStep(a0, start, k);
  }

  /** Keeping the token at the scan position leaves the tokens as they are. */
  lemma ScannedKeep(a0: seq<string>, start: nat, k: nat, kept: seq<string>)
    requires start <= k < |a0| && kept == Filter(a0[start..k], NotInt) && Filter(a0[start..k + 1], NotInt) == kept + [a0[k]]
    ensures Scanned(a0, start, k) == Scanned(a0, start, k + 1)
  {
    assert a0[k..] == [a0[k]] + a0[k + 1..];
    assert a0[..start] + kept + a0[k..] == a0[..start] + (kept + [a0[k]]) + a0[k + 1..];
  }

  /** The tokens while the scan is at `k`: the kept ones before it, all of them from it on. */
  function Scanned(a0: seq<string>, start: nat, k: nat): seq<string>
    requires start <= k <= |a0|
  {
    a0[..start] + Filter(a0[start..k], NotInt) + a0[k..]
  }

  /** An integer at the scan position is deleted and becomes the next cabinet. */
  lemma CabinetTake(a0: seq<string>, start: nat, k: nat)
    requires start <= k < |a0| && IsInt(a0[k])
    ensures Filter(a0[start..k + 1], NotInt) == Filter(a0[start..k], NotInt)
    ensures IntValues(Filter(a0[start..k + 1], IsInt)) == IntValues(Filter(a0[start..k], IsInt)) + [IntValue(a0[k])]
  {
    CabinetScanStep(a0, start, k);
    IntValuesAppend(Filter(a0[start..k], IsInt), [a0[k]]);
  }

  /** Deleting the token at the scan position moves the scan past it. */
  lemma ScannedDrop(a0: seq<string>, start: nat, k: nat, kept: seq<string>)
    requires start <= k < |a0| && kept == Filter(a0[start..k], NotInt) && Filter(a0[start..k + 1], NotInt) == kept
    ensures var i := start + |kept|;
      i < |Scanned(a0, start, k)| && Scanned(a0, start, k)[i] == a0[k] && Without(Scanned(a0, start, k), i) == Scanned(a0, start, k + 1)
  {
    var pre := a0[..start] + kept;
    assert a0[k..] == [a0[k]] + a0[k + 1..];
    assert Scanned(a0, start, k) == pre + [a0[k]] + a0[k + 1..];
    WithoutBetween(pre, a0[k], a0[k + 1..]);
  }

  /**
   * The scan of lines 275-283 on the tokens after the marker: the tokens
   * from `start` on that are not integers stay, in order, and the integers
   * are appended to `cabinets` and deleted.
   */
  method TakeCabinets(a0: seq<string>, start: nat) returns (words: seq<string>, lWords: seq<string>, cabinets: seq<nat>)
    requires start <= |a0|
    ensures words == a0[..start] + Filter(a0[start..], NotInt)
    ensures lWords == LowerEach(words)
    ensures cabinets == IntValues(Filter(a0[start..], IsInt))
  {
    words, lWords, cabinets := a0, LowerEach(a0), [];
    var index: nat := start;
    ghost var k := start;
    assert a0[start..start] == [];
    assert Scanned(a0, start, start) == a0;
    while index < |words|
      invariant start <= k <= |a0| && ScanAt(a0, start, k, words, index, cabinets)
      invariant lWords == LowerEach(words)
      decreases |words| - index
    {
      words, lWords, cabinets, index := ScanToken(a0, start, k, words, lWords, cabinets, index);
      k := k + 1;
    }
    assert a0[start..k] == a0[start..] && a0[k..] == [];
  }

  /** The state of the scan with the tokens of `a0` before `k` looked at. */
  predicate ScanAt(a0: seq<string>, start: nat, k: nat, words: seq<string>, index: nat, cabinets: seq<nat>)
    requires start <= k <= |a0|
  {
    && words == Scanned(a0, start, k)
    && index == start + |Filter(a0[start..k], NotInt)| && |words| == index + |a0| - k
    && cabinets == IntValues(Filter(a0[start..k], IsInt))
  }

  /** Lines 277-283 for the token at `index`, the `k`-th of `a0`. */
  method ScanToken(a0: seq<string>, start: nat, ghost k: nat, words: seq<string>, lWords: seq<string>, cabinets: seq<nat>, index: nat)
    returns (words': seq<string>, lWords': seq<string>, cabinets': seq<nat>, index': nat)
    requires start <= k < |a0| && ScanAt(a0, start, k, words, index, cabinets) && lWords == LowerEach(words)
    ensures ScanAt(a0, start, k + 1, words', index', cabinets') && lWords' == LowerEach(words')
  {
    assert words[index] == a0[k];
    var cabinet := Finder.FindCabinet(words[index]);
    if cabinet.None? {
      CabinetKeep(a0, start, k);
      ScannedKeep(a0, start, k, Filter(a0[start..k], NotInt));
      words', lWords', cabinets', index' := words, lWords, cabinets, index + 1;
    } else {
      CabinetTake(a0, start, k);
      ScannedDrop(a0, start, k, Filter(a0[start..k], NotInt));
      LowerEachWithout(words, index);
      words', lWords', cabinets', index' := Without(words, index), Without(lWords, index), cabinets + [cabinet.value], index;
    }
  }

  /** Lines 270-283 in place: delete the first `ауд`, then scan from its index. */
  method CabinetStep(a0: seq<string>, la0: seq<string>) returns (words: seq<string>, lWords: seq<string>, cabinets: seq<nat>)
    requires la0 == LowerEach(a0)
    ensures words == CabinetStage(a0).rest && cabinets == CabinetStage(a0).value
    ensures lWords == LowerEach(words)
  {
    words, lWords, cabinets := a0, la0, [];
    var aud := IndexOf(lWords, "ауд");
    if aud.Some? {
      var index := aud.value;
      words := Without(words, index);
      words, lWords, cabinets := TakeCabinets(words, index);
    }
  }

  // ---------------------------------------------------------------- the subgroup marker

  /** `l_array[index - 1][-1] == 'п'`. */
  predicate EndsWithP(t: string) {
    |t| > 0 && t[|t| - 1] == 'п'
  }

  /** `int(words[index - 1][:-1])` succeeds. */
  predicate IsIntBeforeLast(t: string) {
    |t| > 0 && IsInt(t[..|t| - 1])
  }

  /**
   * Lines 285-304: at the first `гр`, either `<n> п гр` (three tokens) or
   * `<n>п гр` (two tokens) gives the subgroup `n` and is deleted; when `n`
   * is not an integer nothing happens.
   */
  function SubgroupStage(a: seq<string>): (r: Stage<Option<nat>>)
    ensures r.value.None? ==> r.rest == a && r.taken == []
    ensures r.value.Some? ==> 2 <= |r.taken| <= 3 && LowerAll(r.taken[|r.taken| - 1]) == "гр"
  {
    var l := LowerEach(a);
    match IndexOf(l, "гр")
    case None => Stage(a, None, [])
    case Some(i) => SubgroupAt(a, l, i)
  }

  /** The stage with `гр` at `i`, `l` being the lower-cased tokens. */
  function SubgroupAt(a: seq<string>, l: seq<string>, i: nat): (r: Stage<Option<nat>>)
    requires |l| == |a| && i < |a| && l[i] == "гр" && l == LowerEach(a)
    ensures r.value.None? ==> r.rest == a && r.taken == []
    ensures r.value.Some? ==> 2 <= |r.taken| <= 3 && LowerAll(r.taken[|r.taken| - 1]) == "гр"
  {
    if i > 1 && l[i - 1] == "п" then
      if IsInt(a[i - 2]) then Stage(a[..i - 2] + a[i + 1..], Some(DigitsValue(a[i - 2])), a[i - 2..i + 1])
      else Stage(a, None, [])
    else if i > 0 && EndsWithP(l[i - 1]) then
      if IsIntBeforeLast(a[i - 1]) then
        var t := a[i - 1];
        Stage(a[..i - 1] + a[i + 1..], Some(DigitsValue(t[..|t| - 1])), a[i - 1..i + 1])
      else Stage(a, None, [])
    else Stage(a, None, [])
  }

  lemma SubgroupPartitions(a: seq<string>)
    ensures Partitions(a, SubgroupStage(a))
  {
    var st := SubgroupStage(a);
    if st.value.None? {
      SubseqRefl(a);
    } else {
      var i := IndexOf(LowerEach(a), "гр").value;
      var j := if |st.taken| == 3 then i - 2 else i - 1;
      assert st.rest == a[..j] + a[i + 1..] && st.taken == a[j..i + 1];
      CutSubseq(a, j, i + 1);
      CutMultiset(a, j, i + 1);
    }
  }

  /** `<n> п гр`, the first `гр` of the cell, gives subgroup `n` and goes away. */
  lemma SubgroupSpaced(pre: seq<string>, n: string, p: string, g: string, post: seq<string>)
    requires forall k :: 0 <= k < |pre| ==> LowerAll(pre[k]) != "гр"
    requires IsInt(n) && LowerAll(p) == "п" && LowerAll(g) == "гр"
    ensures SubgroupStage(pre + [n, p, g] + post) == Stage(pre + post, Some(DigitsValue(n)), [n, p, g])
  {
    var a := pre + [n, p, g] + post;
    var i := |pre| + 2;
    var l := LowerEach(a);
    assert a[i] == g && a[i - 1] == p && a[i - 2] == n;
    assert LowerAll(n) != "гр" by {
      assert LowerAll(n)[0] == Lower(n[0]);
    }
    assert IndexOf(l, "гр") == Some(i) by {
      assert forall k :: 0 <= k < i ==> l[k] != "гр" by {
        forall k | 0 <= k < i
          ensures l[k] != "гр"
        {
          if k < |pre| {
            assert a[k] == pre[k];
          }
        }
      }
    }
    assert a[..i - 2] == pre && a[i + 1..] == post && a[i - 2..i + 1] == [n, p, g];
  }

  /** `<n>п гр`, the first `гр` of the cell, gives subgroup `n` and goes away. */
  lemma SubgroupJoined(pre: seq<string>, n: string, p: char, g: string, post: seq<string>)
    requires forall k :: 0 <= k < |pre| ==> LowerAll(pre[k]) != "гр"
    requires IsInt(n) && Lower(p) == 'п' && LowerAll(g) == "гр"
    ensures SubgroupStage(pre + [n + [p], g] + post) == Stage(pre + post, Some(DigitsValue(n)), [n + [p], g])
  {
    var np := n + [p];
    var a := pre + [np, g] + post;
    var i := |pre| + 1;
    var l := LowerEach(a);
    assert a[i] == g && a[i - 1] == np;
    assert LowerAll(np) != "гр" && LowerAll(np) != "п" by {
      assert LowerAll(np)[0] == Lower(n[0]);
    }
    assert EndsWithP(l[i - 1]) && np[..|np| - 1] == n;
    assert IndexOf(l, "гр") == Some(i) by {
      assert forall k :: 0 <= k < i ==> l[k] != "гр" by {
        forall k | 0 <= k < i
          ensures l[k] != "гр"
        {
          if k < |pre| {
            assert a[k] == pre[k];
          }
        }
      }
    }
    assert a[..i - 1] == pre && a[i + 1..] == post && a[i - 1..i + 1] == [np, g];
  }

  // ---------------------------------------------------------------- teachers

  /**
   * Lines 306-319 from `index` on: whenever the token at `index` and the one
   * before it have one character each, the three tokens ending at `index`
   * are a teacher and are deleted (and `index` stays); otherwise `index`
   * moves on.
   */
  function TeacherScan(a: seq<string>, index: nat): (seq<string>, seq<Finder.Teacher>)
    requires 2 <= index
    decreases |a| - index
  {
    if index >= |a| then (a, [])
    else if |a[index]| == 1 && |a[index - 1]| == 1 then
      var r := TeacherScan(a[..index - 2] + a[index + 1..], index);
      (r.0, [Finder.FindTeacher(a[index - 2], a[index - 1], a[index])] + r.1)
    else TeacherScan(a, index + 1)
  }

  /** The tokens of the teachers, three per teacher. */
  function TeacherTokens(ts: seq<Finder.Teacher>): (r: seq<string>)
    ensures |r| == 3 * |ts|
  {
    if ts == [] then [] else [ts[0].surname, ts[0].name, ts[0].patronymic] + TeacherTokens(ts[1..])
  }

  /** One teacher found at `index`: the scan goes on over the tokens left, at the same index. */
  lemma TeacherScanFound(a: seq<string>, index: nat)
    requires 2 <= index < |a| && |a[index]| == 1 && |a[index - 1]| == 1
    ensures var b := a[..index - 2] + a[index + 1..];
      && TeacherScan(a, index).0 == TeacherScan(b, index).0
      && TeacherScan(a, index).1 == [Finder.FindTeacher(a[index - 2], a[index - 1], a[index])] + TeacherScan(b, index).1
  {
  }

  /** No teacher ends at `index`: the scan moves on. */
  lemma TeacherScanSkip(a: seq<string>, index: nat)
    requires 2 <= index < |a| && !(|a[index]| == 1 && |a[index - 1]| == 1)
    ensures TeacherScan(a, index) == TeacherScan(a, index + 1)
  {
  }

  /** Each teacher has a one-character name and patronymic. */
  predicate AllInitials(ts: seq<Finder.Teacher>) {
    forall k :: 0 <= k < |ts| ==> |ts[k].name| == 1 && |ts[k].patronymic| == 1
  }

  /** Every teacher the scan records has a one-character name and patronymic. */
  lemma {:induction false} TeacherScanInitials(a: seq<string>, index: nat)
    requires 2 <= index
    ensures AllInitials(TeacherScan(a, index).1)
    decreases |a| - index
  {
    if index < |a| {
      if |a[index]| == 1 && |a[index - 1]| == 1 {
        var b := a[..index - 2] + a[index + 1..];
        TeacherScanInitials(b, index);
        TeacherScanFound(a, index);
        var t := Finder.FindTeacher(a[index - 2], a[index - 1], a[index]);
        var ts := TeacherScan(b, index).1;
        assert forall k :: 1 <= k < |[t] + ts| ==> ([t] + ts)[k] == ts[k - 1];
      } else {
        TeacherScanInitials(a, index + 1);
        TeacherScanSkip(a, index);
      }
    }
  }

  lemma TeacherTokensCons(t: Finder.Teacher, ts: seq<Finder.Teacher>)
    ensures TeacherTokens([t] + ts) == [t.surname, t.name, t.patronymic] + TeacherTokens(ts)
  {
    assert ([t] + ts)[1..] == ts;
  }

  /** The tokens the scan leaves keep their order. */
  lemma {:induction false} TeacherScanSubseq(a: seq<string>, index: nat)
    requires 2 <= index
    ensures IsSubseq(TeacherScan(a, index).0, a)
    decreases |a| - index
  {
    if index >= |a| {
      SubseqRefl(a);
    } else if |a[index]| == 1 && |a[index - 1]| == 1 {
      var b := a[..index - 2] + a[index + 1..];
      TeacherScanSubseq(b, index);
      TeacherScanFound(a, index);
      CutSubseq(a, index - 2, index + 1);
      SubseqTrans(TeacherScan(b, index).0, b, a);
    } else {
      TeacherScanSubseq(a, index + 1);
      TeacherScanSkip(a, index);
    }
  }

  /** The three tokens of a found teacher leave the list together. */
  lemma TeacherCutMultiset(a: seq<string>, index: nat, rest: seq<string>, ts: seq<Finder.Teacher>)
    requires 2 <= index < |a|
    requires multiset(a[..index - 2] + a[index + 1..]) == multiset(rest) + multiset(TeacherTokens(ts))
    ensures multiset(a) == multiset(rest) + multiset(TeacherTokens([Finder.FindTeacher(a[index - 2], a[index - 1], a[index])] + ts))
  {
    var t := Finder.FindTeacher(a[index - 2], a[index - 1], a[index]);
    var three := [t.surname, t.name, t.patronymic];
    SliceThree(a, index);
    CutMultiset(a, index - 2, index + 1);
    TeacherTokensCons(t, ts);
    assert multiset(TeacherTokens([t] + ts)) == multiset(three) + multiset(TeacherTokens(ts));
  }

  /** The scan deletes exactly the tokens of the teachers it records. */
  lemma {:induction false} TeacherScanMultiset(a: seq<string>, index: nat)
    requires 2 <= index
    ensures multiset(a) == multiset(TeacherScan(a, index).0) + multiset(TeacherTokens(TeacherScan(a, index).1))
    decreases |a| - index
  {
    if index >= |a| {
    } else if |a[index]| == 1 && |a[index - 1]| == 1 {
      var b := a[..index - 2] + a[index + 1..];
      TeacherScanMultiset(b, index);
      TeacherScanFound(a, index);
      TeacherCutMultiset(a, index, TeacherScan(b, index).0, TeacherScan(b, index).1);
    } else {
      TeacherScanMultiset(a, index + 1);
      TeacherScanSkip(a, index);
    }
  }

  /** The loop of lines 306-319. */
  method ScanTeachers(a0: seq<string>) returns (words: seq<string>, teachers: seq<Finder.Teacher>)
    ensures words == TeacherScan(a0, 2).0 && teachers == TeacherScan(a0, 2).1
  {
    words, teachers := a0, [];
    var index := 2;
    assert [] + TeacherScan(a0, 2).1 == TeacherScan(a0, 2).1;
    while index < |words|
      invariant 2 <= index
      invariant TeacherScan(words, index).0 == TeacherScan(a0, 2).0
      invariant teachers + TeacherScan(words, index).1 == TeacherScan(a0, 2).1
      decreases |words| - index
    {
      if |words[index]| == 1 && |words[index - 1]| == 1 {
        var teacher := Finder.FindTeacher(words[index - 2], words[index - 1], words[index]);
        TeacherScanFound(words, index);
        WithoutThree(words, index);
        ghost var rest := TeacherScan(words[..index - 2] + words[index + 1..], index).1;
        assert teachers + ([teacher] + rest) == (teachers + [teacher]) + rest;
        teachers := teachers + [teacher];
        words := Without(Without(Without(words, index), index - 1), index - 2);
      } else {
        TeacherScanSkip(words, index);
        index := index + 1;
      }
    }
  }

  // ---------------------------------------------------------------- the whole cell

  /** All stages in the source's order, with every token any stage took out. */
  datatype Extraction = Extraction(rest: seq<string>, teachers: seq<Finder.Teacher>, cabinets: seq<nat>,
                                   subgroup: Option<nat>, isSubstitution: bool, taken: seq<string>)

  function Extract(ws: seq<string>): Extraction {
    var s1 := SubstitutionStage(ws);
    var s2 := CabinetStage(s1.rest);
    var s3 := SubgroupStage(s2.rest);
    var s4 := TeacherScan(s3.rest, 2);
    Extraction(s4.0, s4.1, s2.value, s3.value, s1.value, s1.taken + s2.taken + s3.taken + TeacherTokens(s4.1))
  }

  /** The subject name is made of the tokens no stage took, in their original order. */
  lemma ExtractKeepsOrder(ws: seq<string>)
    ensures IsSubseq(Extract(ws).rest, ws)
  {
    var s1 := SubstitutionStage(ws);
    var s2 := CabinetStage(s1.rest);
    var s3 := SubgroupStage(s2.rest);
    SubstitutionPartitions(ws);
    CabinetPartitions(s1.rest);
    SubgroupPartitions(s2.rest);
    TeacherScanSubseq(s3.rest, 2);
    SubseqTrans(s2.rest, s1.rest, ws);
    SubseqTrans(s3.rest, s2.rest, ws);
    SubseqTrans(Extract(ws).rest, s3.rest, ws);
  }

  /** The cell's tokens are exactly those left plus those the stages took. */
  lemma ExtractTakes(ws: seq<string>)
    ensures multiset(ws) == multiset(Extract(ws).rest) + multiset(Extract(ws).taken)
  {
    var s1 := SubstitutionStage(ws);
    var s2 := CabinetStage(s1.rest);
    var s3 := SubgroupStage(s2.rest);
    SubstitutionPartitions(ws);
    CabinetPartitions(s1.rest);
    SubgroupPartitions(s2.rest);
    TeacherScanMultiset(s3.rest, 2);
  }

  /** Every teacher of the cell has a one-character name and patronymic. */
  lemma ExtractInitials(ws: seq<string>)
    ensures AllInitials(Extract(ws).teachers)
  {
    var s1 := SubstitutionStage(ws);
    var s2 := CabinetStage(s1.rest);
    var s3 := SubgroupStage(s2.rest);
    TeacherScanInitials(s3.rest, 2);
  }

  /** What `parse_pair` reports for a non-empty token list. */
  function PairOfTokens(ws: seq<string>): ParsedPair {
    var e := Extract(ws);
    ParsedPair(Finder.FindPair(Join(" ", e.rest)), e.teachers, e.cabinets, e.subgroup, e.isSubstitution)
  }

  /** Lines 261-268 in place. */
  method SubstitutionStep(a0: seq<string>, la0: seq<string>) returns (words: seq<string>, lWords: seq<string>, isSubstitution: bool)
    requires la0 == LowerEach(a0)
    ensures words == SubstitutionStage(a0).rest && isSubstitution == SubstitutionStage(a0).value
    ensures lWords == LowerEach(words)
  {
    words, lWords, isSubstitution := a0, la0, false;
    var zam := IndexOf(lWords, "зам");
    if zam.Some? {
      var index := zam.value;
      LowerEachWithout(words, index);
      words, lWords := Without(words, index), Without(lWords, index);
      isSubstitution := true;
    }
  }

  /** Lines 285-304 in place. */
  method SubgroupStep(a0: seq<string>, lWords: seq<string>) returns (words: seq<string>, subgroup: Option<nat>)
    requires lWords == LowerEach(a0)
    ensures words == SubgroupStage(a0).rest && subgroup == SubgroupStage(a0).value
  {
    words, subgroup := a0, None;
    var gr := IndexOf(lWords, "гр");
    assert SubgroupStage(a0) == if gr.None? then Stage(a0, None, []) else SubgroupAt(a0, lWords, gr.value);
    if gr.Some? {
      var index := gr.value;
      if index > 1 && lWords[index - 1] == "п" {
        if IsInt(words[index - 2]) {
          subgroup := Some(DigitsValue(words[index - 2]));
          WithoutThree(words, index);
          words := Without(Without(Without(words, index), index - 1), index - 2);
        }
      } else if index > 0 && EndsWithP(lWords[index - 1]) {
        if IsIntBeforeLast(words[index - 1]) {
          var t := words[index - 1];
          subgroup := Some(DigitsValue(t[..|t| - 1]));
          WithoutTwo(words, index);
          words := Without(Without(words, index), index - 1);
        }
      }
    }
  }

  /**
   * `parse_pair`: `None` (no `handle_parsed_pair` call) exactly when the
   * text has no word character; otherwise the one reported pair.
   */
  method ParsePair(text: string) returns (r: Option<ParsedPair>)
    ensures r.None? <==> forall i :: 0 <= i < |text| ==> !IsWordChar(text[i])
    ensures r.Some? ==> r.value == PairOfTokens(Words(text))
  {
    var words := Words(text);
    WordsEmpty(text);
    if words == [] {
      return None;
    }
    var lWords := LowerEach(words);
    var isSubstitution, cabinets, subgroup, teachers;
    words, lWords, isSubstitution := SubstitutionStep(words, lWords);
    words, lWords, cabinets := CabinetStep(words, lWords);
    words, subgroup := SubgroupStep(words, lWords);
    words, teachers := ScanTeachers(words);
    var pair := Finder.FindPair(Join(" ", words));
    return Some(ParsedPair(pair, teachers, cabinets, subgroup, isSubstitution));
  }
}
