/**
 * `DatabaseFinder` and `DatabaseHandler` (raspisanie_bot/parsing/database.py)
 * over an in-memory store.  The finder's lookups are permissive
 * get-or-create operations, so a catalogue entry is identified by its value:
 * a cabinet by its record, a teacher by the capitalized triple, a group by
 * its `GroupName`.  The handler deletes and inserts call-schedule rows and
 * pairs.  `Step` says what one handler call does to the store, and `Replay`
 * what a parser's whole list of calls does.
 */
module Store {
  import opened Wrappers
  import opened Text
  import Common
  import Finder
  import CellExtractor
  import Handler
  import CallScheduleParser
  import CvpParser

  /** A `Cabinet` row. */
  datatype Cabinet = Cabinet(number: nat, floor: nat, name: string)

  /** A `PairTime` row: `pair_number`, `start_time`, `end_time` (minutes). */
  datatype PairTimeRow = PairTimeRow(pairNumber: Option<nat>, startTime: int, endTime: int)

  /** A `Pair` row with its many-to-many links to teachers and cabinets. */
  datatype Pair<D> = Pair(date: Option<D>, pairNumber: nat, group: Common.GroupName, name: string,
                          teachers: set<Finder.Teacher>, cabinets: set<Cabinet>)

  /** The tables the handler touches; `fixes` is `PairNameFix`, keyed by its primary key `prev_name`. */
  datatype State<D> = State(cabinets: set<Cabinet>, teachers: set<Finder.Teacher>, groups: set<Common.GroupName>,
                            fixes: map<string, string>, pairTimes: seq<PairTimeRow>, pairs: seq<Pair<D>>)

  // ---------------------------------------------------------------- what the finder resolves

  /** The cabinet `find_cabinet` gets or creates for a number: on floor `number // 100`, with an empty name. */
  function CabinetOf(number: nat): (c: Cabinet)
    ensures c.number == number && c.name == ""
    ensures c.floor * 100 <= number < c.floor * 100 + 100
  {
    Cabinet(number, number / 100, "")
  }

  /** The teacher `find_teacher` gets or creates: each part capitalized. */
  function TeacherOf(t: Finder.Teacher): Finder.Teacher {
    Finder.Teacher(Capitalize(t.surname), Capitalize(t.name), Capitalize(t.patronymic))
  }

  /** `find_pair` after the base rules: the fix whose `prev_name` is exactly `text`, if there is one. */
  function FixedName(fixes: map<string, string>, text: string): (r: string)
    ensures text in fixes ==> r == fixes[text]
    ensures text !in fixes ==> r == text
  {
    if text in fixes then fixes[text] else text
  }

  /** The cabinets of a list of numbers, in order. */
  function CabinetsOf(numbers: seq<nat>): (r: seq<Cabinet>)
    ensures |r| == |numbers|
    ensures forall i :: 0 <= i < |numbers| ==> r[i] == CabinetOf(numbers[i])
  {
    Map(numbers, CabinetOf)
  }

  /** The teachers of a list of triples, in order. */
  function TeachersOf(triples: seq<Finder.Teacher>): (r: seq<Finder.Teacher>)
    ensures |r| == |triples|
    ensures forall i :: 0 <= i < |triples| ==> r[i] == TeacherOf(triples[i])
  {
    Map(triples, TeacherOf)
  }

  /** The elements of a list, as a set. */
  function Elements<T(!new)>(s: seq<T>): (r: set<T>)
    ensures forall x :: x in r <==> x in s
  {
    set x | x in s
  }

  /** One more element, added to a set that already holds the others. */
  lemma ElementsSnoc<T(!new)>(base: set<T>, s: seq<T>, x: T)
    ensures base + Elements(s) + {x} == base + Elements(s + [x])
  {
  }

  lemma TeachersOfSnoc(triples: seq<Finder.Teacher>, k: nat)
    requires k < |triples|
    ensures TeachersOf(triples[..k + 1]) == TeachersOf(triples[..k]) + [TeacherOf(triples[k])]
  {
  }

  lemma CabinetsOfSnoc(numbers: seq<nat>, k: nat)
    requires k < |numbers|
    ensures CabinetsOf(numbers[..k + 1]) == CabinetsOf(numbers[..k]) + [CabinetOf(numbers[k])]
  {
  }

  // ---------------------------------------------------------------- what one handler call does

  /** The pairs left after `Pair.delete().where(Pair.date == date)`; undated pairs never match. */
  function Undated<D(==)>(pairs: seq<Pair<D>>, date: D): (r: seq<Pair<D>>)
    ensures forall i :: 0 <= i < |r| ==> r[i].date != Some(date)
  {
    Filter(pairs, (p: Pair<D>) => p.date != Some(date))
  }

  /** The store after a parsed pair: its group, teachers and cabinets resolved, and one new `Pair`. */
  function WithPair<D>(s: State<D>, date: Option<D>, group: Common.GroupName, number: nat, p: CellExtractor.ParsedPair): State<D> {
    var cabinets := Elements(CabinetsOf(p.cabinets));
    var teachers := Elements(TeachersOf(p.teachers));
    s.(cabinets := s.cabinets + cabinets, teachers := s.teachers + teachers, groups := s.groups + {group},
       pairs := s.pairs + [Pair(date, number, group, FixedName(s.fixes, p.name), teachers, cabinets)])
  }

  /**
   * One handler call.  A cafeteria item's group was got or created by
   * `find_group` when the parser resolved it; otherwise the cafeteria calls
   * only print, and the link calls start downloads the store does not see.
   */
  function Step<D(==)>(s: State<D>, e: Handler.Event<D>): State<D> {
    match e
    case NewCallSchedule => s.(pairTimes := [])
    case PairTime(pair, start, finish) => s.(pairTimes := s.pairTimes + [PairTimeRow(pair, start, finish)])
    case NewDate(date, oldDate) => if oldDate.None? then s.(pairs := Undated(s.pairs, date)) else s
    case ParsedPair(date, group, number, p) => WithPair(s, date, group, number, p)
    case Cvp(_) => s
    case CallScheduleLink(_) => s
    case NewCvpDate(_) => s
    case CvpItem(_, group, _, _) => s.(groups := s.groups + {group})
  }

  /** The store after the calls, in order. */
  function Replay<D(==)>(s: State<D>, events: seq<Handler.Event<D>>): State<D>
    decreases |events|
  {
    if events == [] then s else Replay(Step(s, events[0]), events[1..])
  }

  // ---------------------------------------------------------------- the store

  class Database<D(==)> {
    var cabinets: set<Cabinet>
    var teachers: set<Finder.Teacher>
    var groups: set<Common.GroupName>
    var fixes: map<string, string>
    var pairTimes: seq<PairTimeRow>
    var pairs: seq<Pair<D>>

    function Contents(): State<D>
      reads this
    {
      State(cabinets, teachers, groups, fixes, pairTimes, pairs)
    }

    /** An empty store with the given name fixes. */
    constructor (fixes: map<string, string>)
      ensures Contents() == State({}, {}, {}, fixes, [], [])
    {
      cabinets, teachers, groups := {}, {}, {};
      this.fixes := fixes;
      pairTimes, pairs := [], [];
    }

    /** `Cabinet.get_or_create(number=number, floor=number // 100, name="")`. */
    method GetCabinet(number: nat) returns (c: Cabinet)
      modifies this
      ensures c == CabinetOf(number) && c in cabinets
      ensures Contents() == old(Contents()).(cabinets := old(cabinets) + {c})
    {
      c := Cabinet(number, number / 100, "");
      cabinets := cabinets + {c};
    }

    /** `find_cabinet(text)`: nothing for a non-integer, otherwise the cabinet with that number. */
    method FindCabinet(text: string) returns (c: Option<Cabinet>)
      modifies this
      ensures c.Some? <==> IsInt(text)
      ensures c.Some? ==> c.value == CabinetOf(DigitsValue(text)) && c.value in cabinets
      ensures Contents() == old(Contents()).(cabinets := old(cabinets) + if c.Some? then {c.value} else {})
    {
      var number := Finder.FindCabinet(text);
      if number.None? {
        return None;
      }
      var cabinet := GetCabinet(number.value);
      c := Some(cabinet);
    }

    /** `find_teacher(surname, name, patronymic)`: the capitalized triple, got or created. */
    method FindTeacher(surname: string, name: string, patronymic: string) returns (t: Finder.Teacher)
      modifies this
      ensures t == TeacherOf(Finder.FindTeacher(surname, name, patronymic)) && t in teachers
      ensures Contents() == old(Contents()).(teachers := old(teachers) + {t})
    {
      var found := Finder.FindTeacher(surname, name, patronymic);
      t := Finder.Teacher(Capitalize(found.surname), Capitalize(found.name), Capitalize(found.patronymic));
      teachers := teachers + {t};
    }

    /** `Group.get_or_create(course=..., group=..., subgroup=...)`. */
    method GetGroup(g: Common.GroupName)
      modifies this
      ensures Contents() == old(Contents()).(groups := old(groups) + {g})
    {
      groups := groups + {g};
    }

    /** `find_group(text)`: nothing for a name the pattern refuses, otherwise that group, got or created. */
    method FindGroup(text: string) returns (g: Option<Common.GroupName>)
      modifies this
      ensures g == Finder.FindGroup(text)
      ensures g.Some? ==> g.value in groups
      ensures Contents() == old(Contents()).(groups := old(groups) + if g.Some? then {g.value} else {})
    {
      g := Finder.FindGroup(text);
      if g.Some? {
        GetGroup(g.value);
      }
    }

    /** The `PairNameFix.get_or_none(PairNameFix.prev_name == text)` step of `find_pair`. */
    method FixName(text: string) returns (name: string)
      ensures text in fixes ==> name == fixes[text]
      ensures text !in fixes ==> name == text
    {
      name := text;
      if text in fixes {
        name := fixes[text];
      }
    }

    /** `find_pair(text)`: the base name, replaced by a fix whose `prev_name` is exactly that name. */
    method FindPair(text: string) returns (name: string)
      ensures name == FixedName(fixes, Finder.FindPair(text))
    {
      name := FixName(Finder.FindPair(text));
    }

    /** `handle_new_call_schedule()`: every `PairTime` row deleted. */
    method HandleNewCallSchedule()
      modifies this
      ensures Contents() == old(Contents()).(pairTimes := [])
    {
      pairTimes := [];
    }

    /** `handle_pair_time(pair, start, end)`: one `PairTime` row created. */
    method HandlePairTime(pair: Option<nat>, start: int, finish: int)
      modifies this
      ensures Contents() == old(Contents()).(pairTimes := old(pairTimes) + [PairTimeRow(pair, start, finish)])
    {
      pairTimes := pairTimes + [PairTimeRow(pair, start, finish)];
    }

    /** `handle_new_date(new_date, old_date)`: the pairs of that day deleted, only for a page's first date. */
    method HandleNewDate(newDate: D, oldDate: Option<D>)
      modifies this
      ensures oldDate.None? ==> Contents() == old(Contents()).(pairs := Undated(old(pairs), newDate))
      ensures oldDate.Some? ==> Contents() == old(Contents())
    {
      if oldDate.None? {
        pairs := Undated(pairs, newDate);
      }
    }

    /** `handle_parsed_pair(...)`: one `Pair` saved and linked to all the given teachers and cabinets. */
    method HandleParsedPair(date: Option<D>, group: Common.GroupName, number: nat, name: string,
                            pairTeachers: seq<Finder.Teacher>, pairCabinets: seq<Cabinet>)
      modifies this
      ensures Contents() == old(Contents()).(pairs := old(pairs) + [Pair(date, number, group, name, Elements(pairTeachers), Elements(pairCabinets))])
    {
      var pair := Pair(date, number, group, name, Elements(pairTeachers), Elements(pairCabinets));
      pairs := pairs + [pair];
    }

    /** The `find_cabinet` calls for a cell's cabinet numbers. */
    method ResolveCabinets(numbers: seq<nat>) returns (found: seq<Cabinet>)
      modifies this
      ensures found == CabinetsOf(numbers)
      ensures Contents() == old(Contents()).(cabinets := old(cabinets) + Elements(found))
    {
      found := [];
      for k := 0 to |numbers|
        invariant found == CabinetsOf(numbers[..k])
        invariant Contents() == old(Contents()).(cabinets := old(cabinets) + Elements(found))
      {
        var c := GetCabinet(numbers[k]);
        CabinetsOfSnoc(numbers, k);
        ElementsSnoc(old(cabinets), found, c);
        found := found + [c];
      }
      assert numbers[..|numbers|] == numbers;
    }

    /** The `find_teacher` calls for a cell's teacher triples. */
    method ResolveTeachers(triples: seq<Finder.Teacher>) returns (found: seq<Finder.Teacher>)
      modifies this
      ensures found == TeachersOf(triples)
      ensures Contents() == old(Contents()).(teachers := old(teachers) + Elements(found))
    {
      found := [];
      for k := 0 to |triples|
        invariant found == TeachersOf(triples[..k])
        invariant Contents() == old(Contents()).(teachers := old(teachers) + Elements(found))
      {
        var t := FindTeacher(triples[k].surname, triples[k].name, triples[k].patronymic);
        TeachersOfSnoc(triples, k);
        ElementsSnoc(old(teachers), found, t);
        found := found + [t];
      }
      assert triples[..|triples|] == triples;
    }

    /** One handler call, with the entities of a parsed pair resolved through the finder first. */
    method Apply(e: Handler.Event<D>)
      modifies this
      ensures Contents() == Step(old(Contents()), e)
    {
      match e
      case NewCallSchedule => HandleNewCallSchedule();
      case PairTime(pair, start, finish) => HandlePairTime(pair, start, finish);
      case NewDate(date, oldDate) => HandleNewDate(date, oldDate);
      case ParsedPair(date, group, number, p) =>
        var found := ResolveCabinets(p.cabinets);
        var who := ResolveTeachers(p.teachers);
        GetGroup(group);
        var name := FixName(p.name);
        HandleParsedPair(date, group, number, name, who, found);
      case Cvp(_) =>
      case CallScheduleLink(_) =>
      case NewCvpDate(_) =>
      case CvpItem(_, group, _, _) => GetGroup(group);
    }

    /** A parser run with this store as its handler: the calls applied in order. */
    method Ingest(events: seq<Handler.Event<D>>)
      modifies this
      ensures Contents() == Replay(old(Contents()), events)
    {
      assert events[0..] == events;
      for n := 0 to |events|
        invariant Replay(Contents(), events[n..]) == Replay(old(Contents()), events)
      {
        assert events[n..][1..] == events[n + 1..];
        Apply(events[n]);
      }
      assert events[|events|..] == [];
    }
  }

  // ---------------------------------------------------------------- what the calls do together

  /** The calls of a list run one after the other. */
  lemma {:induction false} ReplayAppend<D>(s: State<D>, a: seq<Handler.Event<D>>, b: seq<Handler.Event<D>>)
    ensures Replay(s, a + b) == Replay(Replay(s, a), b)
    decreases |a|
  {
    if a == [] {
      assert a + b == b;
    } else {
      assert (a + b)[0] == a[0] && (a + b)[1..] == a[1..] + b;
      ReplayAppend(Step(s, a[0]), a[1..], b);
    }
  }

  /** The rows of `handle_pair_time` calls. */
  function TimeRows<D>(events: seq<Handler.Event<D>>): (r: seq<PairTimeRow>)
    requires forall i :: 0 <= i < |events| ==> events[i].PairTime?
    ensures |r| == |events|
    ensures forall i :: 0 <= i < |events| ==> r[i] == PairTimeRow(events[i].pair, events[i].start, events[i].finish)
  {
    seq(|events|, i requires 0 <= i < |events| => PairTimeRow(events[i].pair, events[i].start, events[i].finish))
  }

  /** `handle_pair_time` calls append their rows, in order, and change nothing else. */
  lemma {:induction false} ReplayTimes<D>(s: State<D>, events: seq<Handler.Event<D>>)
    requires forall i :: 0 <= i < |events| ==> events[i].PairTime?
    ensures Replay(s, events) == s.(pairTimes := s.pairTimes + TimeRows(events))
    decreases |events|
  {
    if events != [] {
      var e := events[0];
      var s1 := s.(pairTimes := s.pairTimes + [PairTimeRow(e.pair, e.start, e.finish)]);
      ReplayTimes(s1, events[1..]);
      assert TimeRows(events) == [PairTimeRow(e.pair, e.start, e.finish)] + TimeRows(events[1..]);
      ConcatAssoc(s.pairTimes, [PairTimeRow(e.pair, e.start, e.finish)], TimeRows(events[1..]));
    }
  }

  /** The call-schedule page reports only pair times after its first call. */
  lemma {:induction false} TimeEventsArePairTimes<D>(rows: seq<(string, string)>)
    ensures forall i :: 0 <= i < |CallScheduleParser.TimeEvents<D>(rows)| ==> CallScheduleParser.TimeEvents<D>(rows)[i].PairTime?
    decreases |rows|
  {
    if rows != [] {
      TimeEventsArePairTimes<D>(rows[1..]);
    }
  }

  /**
   * Reading a call-schedule page replaces the stored pair times by exactly
   * the page's rows, in order, whatever was stored before, and leaves the
   * rest of the store as it was.
   */
  lemma ScheduleReplacesTimes<D>(s: State<D>, rows: seq<(string, string)>)
    ensures var times := CallScheduleParser.TimeEvents<D>(rows);
      (forall i :: 0 <= i < |times| ==> times[i].PairTime?) &&
      Replay(s, CallScheduleParser.ScheduleEvents<D>(rows)) == s.(pairTimes := TimeRows(times))
  {
    var times := CallScheduleParser.TimeEvents<D>(rows);
    TimeEventsArePairTimes<D>(rows);
    ReplayAppend(s, [Handler.NewCallSchedule], times);
    ReplayTimes(s.(pairTimes := []), times);
  }

  /** The calls of the cafeteria schedule. */
  predicate IsCafeteria<D>(e: Handler.Event<D>) {
    e.NewCvpDate? || e.CvpItem?
  }

  /** The groups of the reported cafeteria items. */
  function ItemGroups<D>(events: seq<Handler.Event<D>>): (r: set<Common.GroupName>)
    decreases |events|
  {
    if events == [] then {}
    else (if events[0].CvpItem? then {events[0].group} else {}) + ItemGroups(events[1..])
  }

  /** A group is among the items' groups exactly when some item reports it. */
  lemma {:induction false} ItemGroupsIn<D>(events: seq<Handler.Event<D>>, g: Common.GroupName)
    ensures g in ItemGroups(events) <==> exists i :: 0 <= i < |events| && events[i].CvpItem? && events[i].group == g
    decreases |events|
  {
    if events != [] {
      ItemGroupsIn(events[1..], g);
      assert forall i :: 1 <= i < |events| ==> events[1..][i - 1] == events[i];
      if g in ItemGroups(events[1..]) {
        var i :| 0 <= i < |events[1..]| && events[1..][i].CvpItem? && events[1..][i].group == g;
        assert events[i + 1] == events[1..][i];
      }
    }
  }

  /**
   * Cafeteria calls only add the groups of their items, which `find_group`
   * got or created; times, pairs, rooms, teachers and fixes stay as they were.
   */
  lemma {:induction false} ReplayCafeteria<D>(s: State<D>, events: seq<Handler.Event<D>>)
    requires forall i :: 0 <= i < |events| ==> IsCafeteria(events[i])
    ensures Replay(s, events) == s.(groups := s.groups + ItemGroups(events))
    decreases |events|
  {
    if events != [] {
      var s1 := Step(s, events[0]);
      ReplayCafeteria(s1, events[1..]);
      assert s1 == s.(groups := s.groups + if events[0].CvpItem? then {events[0].group} else {});
    }
  }

  lemma {:induction false} LayoutIsCafeteria<D>(lines: seq<string>, st: CvpParser.Layout<D>, parseDate: string -> Option<D>)
    ensures forall i :: 0 <= i < |CvpParser.LayoutEvents(lines, st, parseDate)| ==> IsCafeteria(CvpParser.LayoutEvents(lines, st, parseDate)[i])
    decreases |lines|
  {
    if lines != [] {
      LayoutIsCafeteria(lines[1..], CvpParser.Step(st, lines[0], parseDate), parseDate);
    }
  }

  /**
   * Reading the cafeteria schedule adds exactly the groups it reports and
   * changes nothing else: the schedule itself is only printed.
   */
  lemma CafeteriaAddsGroups<D>(s: State<D>, lines: seq<string>, parseDate: string -> Option<D>)
    ensures var events := CvpParser.LayoutEvents(lines, CvpParser.Layout(None, None), parseDate);
      Replay(s, events) == s.(groups := s.groups + ItemGroups(events))
  {
    LayoutIsCafeteria(lines, CvpParser.Layout(None, None), parseDate);
    ReplayCafeteria(s, CvpParser.LayoutEvents(lines, CvpParser.Layout(None, None), parseDate));
  }

  /**
   * A page's first date clears that day: afterwards no stored pair has the
   * date, and every pair of another day (or of none) is kept, in order.
   */
  lemma {:induction false} FirstDateClearsDay<D>(pairs: seq<Pair<D>>, date: D)
    ensures forall p :: p in Undated(pairs, date) ==> p.date != Some(date)
    ensures forall p :: p in pairs && p.date != Some(date) ==> p in Undated(pairs, date)
    ensures |Undated(pairs, date)| == |pairs| <==> forall p :: p in pairs ==> p.date != Some(date)
    decreases |pairs|
  {
    if pairs != [] {
      FirstDateClearsDay(pairs[1..], date);
      assert forall p :: p in pairs ==> p == pairs[0] || p in pairs[1..];
    }
  }

  /** A later date on the same page deletes nothing. */
  lemma LaterDateKeepsStore<D>(s: State<D>, date: D, oldDate: D)
    ensures Step(s, Handler.NewDate(date, Some(oldDate))) == s
  {
  }

  /** The pairs a run of parsed-pair calls stores, the name fixes being `fixes`. */
  function PairsOf<D>(fixes: map<string, string>, events: seq<Handler.Event<D>>): (r: seq<Pair<D>>)
    requires forall i :: 0 <= i < |events| ==> events[i].ParsedPair?
    ensures |r| == |events|
    ensures forall i :: 0 <= i < |events| ==> r[i].date == events[i].date && r[i].group == events[i].pairGroup
  {
    seq(|events|, i requires 0 <= i < |events| => PairOf(fixes, events[i]))
  }

  /** The `Pair` row one parsed-pair call adds. */
  function PairOf<D>(fixes: map<string, string>, e: Handler.Event<D>): Pair<D>
    requires e.ParsedPair?
  {
    Pair(e.date, e.pairNumber, e.pairGroup, FixedName(fixes, e.parsed.name),
         Elements(TeachersOf(e.parsed.teachers)), Elements(CabinetsOf(e.parsed.cabinets)))
  }

  /** The catalogue entries a run of parsed-pair calls gets or creates. */
  function CabinetsIn<D>(events: seq<Handler.Event<D>>): set<Cabinet>
    requires forall i :: 0 <= i < |events| ==> events[i].ParsedPair?
    decreases |events|
  {
    if events == [] then {} else Elements(CabinetsOf(events[0].parsed.cabinets)) + CabinetsIn(events[1..])
  }

  function TeachersIn<D>(events: seq<Handler.Event<D>>): set<Finder.Teacher>
    requires forall i :: 0 <= i < |events| ==> events[i].ParsedPair?
    decreases |events|
  {
    if events == [] then {} else Elements(TeachersOf(events[0].parsed.teachers)) + TeachersIn(events[1..])
  }

  function GroupsIn<D>(events: seq<Handler.Event<D>>): set<Common.GroupName>
    requires forall i :: 0 <= i < |events| ==> events[i].ParsedPair?
    decreases |events|
  {
    if events == [] then {} else {events[0].pairGroup} + GroupsIn(events[1..])
  }

  /** Parsed-pair calls append one pair each and add their catalogue entries. */
  lemma {:induction false} ReplayPairs<D>(s: State<D>, events: seq<Handler.Event<D>>)
    requires forall i :: 0 <= i < |events| ==> events[i].ParsedPair?
    ensures Replay(s, events) == s.(cabinets := s.cabinets + CabinetsIn(events), teachers := s.teachers + TeachersIn(events),
                                    groups := s.groups + GroupsIn(events), pairs := s.pairs + PairsOf(s.fixes, events))
    decreases |events|
  {
    if events != [] {
      var e := events[0];
      var s1 := Step(s, e);
      PairStep(s, e);
      ReplayPairs(s1, events[1..]);
      PairsOfCons(s.fixes, events);
      ConcatAssoc(s.pairs, [PairOf(s.fixes, e)], PairsOf(s.fixes, events[1..]));
      var r := Replay(s, events);
      assert r == Replay(s1, events[1..]);
      assert r.cabinets == s.cabinets + CabinetsIn(events);
      assert r.teachers == s.teachers + TeachersIn(events);
      assert r.groups == s.groups + GroupsIn(events);
    }
  }

  /** One parsed-pair call. */
  lemma PairStep<D>(s: State<D>, e: Handler.Event<D>)
    requires e.ParsedPair?
    ensures Step(s, e) == s.(cabinets := s.cabinets + Elements(CabinetsOf(e.parsed.cabinets)),
                             teachers := s.teachers + Elements(TeachersOf(e.parsed.teachers)),
                             groups := s.groups + {e.pairGroup}, pairs := s.pairs + [PairOf(s.fixes, e)])
  {
  }

  /** The rows of the first call, then those of the others. */
  lemma PairsOfCons<D>(fixes: map<string, string>, events: seq<Handler.Event<D>>)
    requires events != [] && forall i :: 0 <= i < |events| ==> events[i].ParsedPair?
    ensures PairsOf(fixes, events) == [PairOf(fixes, events[0])] + PairsOf(fixes, events[1..])
  {
  }

  /** Deleting a day twice deletes no more than once. */
  lemma {:induction false} UndatedTwice<D>(pairs: seq<Pair<D>>, date: D)
    ensures Undated(Undated(pairs, date), date) == Undated(pairs, date)
  {
    FilterAll(Undated(pairs, date), (p: Pair<D>) => p.date != Some(date));
  }

  /**
   * Reading a day's timetable page again does not duplicate it: when the
   * calls are the day's first date and then pairs of that day only, applying
   * them a second time leaves the store as the first time did.
   */
  lemma ReingestIdempotent<D>(s: State<D>, date: D, events: seq<Handler.Event<D>>)
    requires forall i :: 0 <= i < |events| ==> events[i].ParsedPair? && events[i].date == Some(date)
    ensures Replay(Replay(s, [Handler.NewDate(date, None)] + events), [Handler.NewDate(date, None)] + events)
         == Replay(s, [Handler.NewDate(date, None)] + events)
  {
    var first := [Handler.NewDate(date, None)] + events;
    var keep := (p: Pair<D>) => p.date != Some(date);
    // first pass
    var s1 := s.(pairs := Undated(s.pairs, date));
    ReplayAppend(s, [Handler.NewDate(date, None)], events);
    ReplayPairs(s1, events);
    var added := PairsOf(s.fixes, events);
    var s2 := Replay(s, first);
    assert s2.pairs == Undated(s.pairs, date) + added;
    // second pass
    var s3 := s2.(pairs := Undated(s2.pairs, date));
    ReplayAppend(s2, [Handler.NewDate(date, None)], events);
    ReplayPairs(s3, events);
    FilterAppend(Undated(s.pairs, date), added, keep);
    UndatedTwice(s.pairs, date);
    FilterNone(added, keep);
    ConcatEmpty(Undated(s.pairs, date));
    assert s3.pairs == Undated(s.pairs, date);
  }

  /** The same triple written in another case resolves to the same teacher. */
  lemma TeacherIgnoresCase(t: Finder.Teacher)
    ensures TeacherOf(Finder.Teacher(LowerAll(t.surname), LowerAll(t.name), LowerAll(t.patronymic))) == TeacherOf(t)
    ensures TeacherOf(Finder.Teacher(UpperAll(t.surname), UpperAll(t.name), UpperAll(t.patronymic))) == TeacherOf(t)
    ensures TeacherOf(TeacherOf(t)) == TeacherOf(t)
  {
    CapitalizeIgnoresCase(t.surname);
    CapitalizeIgnoresCase(t.name);
    CapitalizeIgnoresCase(t.patronymic);
  }
}
