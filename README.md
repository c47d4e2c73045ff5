# raspisanie_bot timetable ingestion, modelled in Dafny

raspisanie_bot is a Telegram bot that serves a college timetable. Its parsing package downloads the college's
timetable page and reads it:

- the date lines of the page;
- the links to two sub-pages: the call schedule and the cafeteria schedule;
- one table per block of groups, whose cells say which subject, teachers and rooms a group has in each period.

The package turns what it reads into calls on a handler, which stores them in a database. This project models that
core:

- **Cell extractor** (`parse_pair`, and its earlier version `parse_pair_name`). This module splits the text of one
  cell into word tokens. It then deletes, in a fixed order:
  1. the substitution marker `зам`;
  2. the room marker `ауд` and the room numbers after it;
  3. the subgroup marker `гр` with its number;
  4. the teachers, written as a surname and two initials.

  What is left is the subject's name.
- **Table walker** (`parse_table`, both versions). The current version follows `rowspan` and `colspan` cells
  through the `skipped` table and the `curr_spans`, `next_common_pair` and `prev_text` counters. The earlier version
  reads body cell `gi + 1` for header group `gi`.
- **Page walker** (`parse_timetable_page`, and the earlier `parse_timetable`). It reads paragraphs, links, dates and
  tables in order.
- **Line parsers.**
  - the call-schedule row loop (both versions);
  - the cafeteria-schedule line loops (the `covid_pit` script and `LinesConverter.receive_layout`);
  - `normalize_text`, `parse_pair_number`, `parse_group_name` and `parse_time_period`.
- **Entity resolution and the database handler** (`DatabaseFinder`, `DatabaseHandler`). These work over an
  in-memory store of sets and sequences.
- **Update loop** (`UpdateService.run`, `stop`, `start`) and the digest cache of `update_timetable`.
- **`MessageBuilder`**: the MarkdownV2 escaping used by the Telegram Bot API, and the rendering of times and dates.
- **Invite tokens**: a 64-bit id in eight little-endian bytes, followed by its HMAC-SHA256 tag (RFC 2104), in the
  URL-safe base64 of section 5 of RFC 4648 with the padding removed.

Parsers are modelled as the list of handler calls they make (`Handler.Event`). The store (`Store.Database`, a
class) applies those calls one at a time. Code that mutates lists, dictionaries or fields in loops is modelled as
methods with loops. Each such method is proved equal to a specification function, and the lemmas state the
properties about those functions.

Regular expressions are hand-written greedy recognisers. A text of the documented shape is recognised with the
regex's groups; the lemmas named `...At`, `...Complete` and `...Example` show this.

Some inputs are type or function parameters:

- dates;
- the date parser (`dateparser`);
- the digest (`hashlib.md5`);
- the keyed digest (`hmac.digest`);
- today's date;
- the name fixes (`PairNameFix`).

The modules, one file each:

| file | module | source |
|---|---|---|
| wrappers.dfy | `Wrappers` | `None` and exceptions, as `Option` and `Result` |
| text.dfy | `Text` | Python `str` builtins used by the source: `lower`, `upper`, `capitalize`, `split`, `strip`, `isspace`, `int`, `str` |
| tokens.dfy | `Tokens` | `del a[i]`, `list.index`, subsequences |
| assoc.dfy | `Assoc` | a `dict` filled by assignments in order |
| common.dfy | `Common` | parsing/common.py |
| parser_base.dfy | `ParserBase` | `ParserBase` in parsing/parsers.py |
| finder.dfy | `Finder` | `Finder` and `Handler.handle_link` in parsing/parsers.py |
| handler.dfy | `Handler` | the handler callbacks as values |
| cell_extractor.dfy | `CellExtractor` | `TimetableParser.parse_pair` |
| table_parser.dfy | `TableParser` | `TimetableParser.parse_table` |
| timetable_page.dfy | `TimetablePage` | `TimetableParser.parse_timetable_page` |
| legacy_timetable.dfy | `LegacyTimetable` | parsing/timetable.py |
| call_schedule.dfy | `CallSchedule`, `CallScheduleParser` | parsing/call_schedule.py, `CallScheduleParser` |
| cvp.dfy | `CovidPit`, `CvpParser` | parsing/covid_pit.py, `CVPParser` and `LinesConverter` |
| store.dfy | `Store` | parsing/database.py |
| timetable_updater.dfy | `TimetableUpdater` | `TimetableUpdater.update_timetable` |
| update_service.dfy | `UpdateService` | parsing/update_service.py |
| message_builder.dfy | `MessageBuilder` | message_builder.py |
| base64.dfy, encoded_invite.dfy | `Base64`, `EncodedInvite` | encoded_invite.py |

## Model

| member | source | states |
|---|---|---|
| Text.LowerAll | raspisanie_bot/parsing/parsers.py:261 | `str.lower()`: the same length, with each character lower-cased |
| Text.UpperAll | raspisanie_bot/parsing/common.py:31 | `str.upper()`: the same length, with each character upper-cased |
| Text.Capitalize | raspisanie_bot/parsing/database.py:18-20 | `str.capitalize()`: the first character is upper-cased and every other character lower-cased |
| Text.CapitalizeIgnoresCase | raspisanie_bot/parsing/database.py:18-20 | capitalizing gives the same result however the input was cased, and capitalizing twice is capitalizing once |
| Text.Words | raspisanie_bot/parsing/parsers.py:252 | the tokens of `re.sub('\W+', ' ', s).strip().split()` are non-empty and made of word characters only |
| Text.WordsEmpty | raspisanie_bot/parsing/parsers.py:252-254 | a text splits into no tokens exactly when it has no word character |
| Text.SplitJoin | raspisanie_bot/parsing/parsers.py:409-411 | splitting tokens that were joined with single spaces gives the tokens back |
| Text.JoinEnds | raspisanie_bot/parsing/parsers.py:321 | tokens joined with single spaces neither start nor end with whitespace |
| Text.NatToStringRoundTrip | raspisanie_bot/parsing/common.py:25 | reading back what `str` wrote gives the number: `int(str(n)) == n` |
| Tokens.Without | raspisanie_bot/parsing/parsers.py:265 | `del a[i]`: one element shorter, with the elements before `i` in place and those after `i` shifted down by one |
| Tokens.WithoutSubseq | raspisanie_bot/parsing/parsers.py:265-266 | a deletion keeps the order of what is left |
| Tokens.WithoutMultiset | raspisanie_bot/parsing/parsers.py:265-266 | a deletion removes exactly the element at `i` |
| Tokens.IndexOf | raspisanie_bot/parsing/parsers.py:263-264 | `x in xs` and `xs.index(x)`: the index of the first occurrence, or none exactly when `x` is absent |
| Tokens.LowerEachWithout | raspisanie_bot/parsing/parsers.py:265-266 | deleting the same index from `array` and `l_array` keeps `l_array` the lower-cased `array` |
| Tokens.WithoutThree | raspisanie_bot/parsing/parsers.py:293-295 | deleting `i`, `i - 1` and `i - 2` in that order cuts out `a[i - 2..i + 1]` |
| Tokens.WithoutTwo | raspisanie_bot/parsing/parsers.py:303-304 | deleting `i` and then `i - 1` cuts out `a[i - 1..i + 1]` |
| Assoc.AsMapSnoc | raspisanie_bot/parsing/call_schedule.py:37 | one more assignment `d[k] = v` updates that key and no other |
| Assoc.AsMapKeys | raspisanie_bot/parsing/call_schedule.py:37 | a key is in the dictionary exactly when some assignment was made to it |
| Assoc.AsMapLast | raspisanie_bot/parsing/call_schedule.py:37 | a key holds the value of its last assignment |
| Assoc.AsMapAppend | raspisanie_bot/parsing/timetable.py:158 | `d.update(other)`: the keys of `other` win over those of `d` |
| Common.NormalizeText | raspisanie_bot/parsing/common.py:15-16 | the result has no whitespace at either end and only single plain spaces inside, and it keeps every non-whitespace character of the input, in order |
| Common.CollapseProperties | raspisanie_bot/parsing/common.py:16 | `re.sub('\s+', ' ', s)` leaves only single plain spaces and keeps every non-whitespace character, in order |
| Common.StripProperties | raspisanie_bot/parsing/common.py:16 | `strip()` of collapsed text gives normalised text with the same non-whitespace characters |
| Common.NormalizeIdempotent | raspisanie_bot/parsing/common.py:15-16 | normalising twice is the same as normalising once |
| Common.ParsePairNumber | raspisanie_bot/parsing/common.py:19-27 | `default` when the text has no digit, and a non-negative number otherwise |
| Common.PairNumberOfLabel | raspisanie_bot/parsing/common.py:19-27 | a label holding one number among non-digit text, such as "3 пара" or "№3", parses to that number |
| Common.PairNumberJoinsDigits | raspisanie_bot/parsing/common.py:20-25 | all digits are read as one number: "1-2" gives 12 |
| Common.SkipSpaces | raspisanie_bot/parsing/common.py:8 | `\s*` stops at the first non-whitespace character at or after `i` |
| Common.MatchGroupName | raspisanie_bot/parsing/common.py:8 | on a match, course and subgroup are in 0..9 and the letter code has one or two characters |
| Common.MatchGroupNameCode | raspisanie_bot/parsing/common.py:8 | the code of a matched group name is made of the letters `[А-Я]` |
| Common.MatchGroupNameComplete | raspisanie_bot/parsing/common.py:8 | every text of the shape spaces, course digit, separator, one or two letters `А-Я`, separator, subgroup digit, and then anything is matched, with exactly those fields |
| Common.MatchGroupNameIgnoresTrailing | raspisanie_bot/parsing/common.py:32 | `re.match` matches only a prefix: text after a matched group name never changes the result |
| Common.ParseGroupName | raspisanie_bot/parsing/common.py:30-40 | the match when the upper-cased text matches; otherwise `None` when `only_if_matches` is set, and `GroupName(0, normalize_text(upper(s)), 1)` when it is not |
| Common.ParseGroupNameIgnoresCase | raspisanie_bot/parsing/common.py:31 | group names are case-insensitive: lower-casing the input first changes nothing |
| ParserBase.ParsePairNumber | raspisanie_bot/parsing/parsers.py:46-52 | `None` exactly when the text has no digit; otherwise the same number as `parse_pair_number` of common.py |
| ParserBase.ParseGroupName | raspisanie_bot/parsing/parsers.py:477-482 | a group exactly when the upper-cased text matches `GROUP_NAME_RE`; the same as common.py's `parse_group_name` with `only_if_matches` set |
| ParserBase.MatchTimePeriod | raspisanie_bot/parsing/parsers.py:28 | on a full match both times are non-negative and the rest has no newline (`.` does not match one) |
| ParserBase.MatchClockAt | raspisanie_bot/parsing/parsers.py:63 | `H.MM`, `H:MM` or `H,MM` read at `i` gives `60·H + MM` and ends after the minutes |
| ParserBase.MatchPeriodEndAt | raspisanie_bot/parsing/parsers.py:64-65 | after the start time, a dash (`до` or any single non-digit, non-space character), spaces, the end time, spaces and the rest give the period and the rest |
| ParserBase.MatchTimePeriodAt | raspisanie_bot/parsing/parsers.py:28 | leading spaces and an optional `с` followed by spaces are skipped before the start time |
| ParserBase.ParseTimePeriod | raspisanie_bot/parsing/parsers.py:58-65 | start and end are both present or both absent; when absent the text comes back unchanged; when present both are non-negative |
| ParserBase.ParseTimePeriodExample | raspisanie_bot/parsing/parsers.py:58-65 | "с 8.30 до 10.00 Физика" gives (510, 600, "Физика"), with no check of minute range or order |
| Finder.FindGroup | raspisanie_bot/parsing/parsers.py:394-395 | a found group has course and subgroup in 0..9 and a code of one or two letters |
| Finder.FoundGroupsAppend | raspisanie_bot/parsing/parsers.py:116-120 | the groups found in two token lists are those of the first list followed by those of the second |
| Finder.FoundGroupsNone | raspisanie_bot/parsing/parsers.py:116-120 | no group is found exactly when no token parses as a group |
| Finder.FoundGroupsAll | raspisanie_bot/parsing/parsers.py:116-120 | when every token parses, the groups are the tokens' groups, one for one and in order |
| Finder.FindPairNumber | raspisanie_bot/parsing/parsers.py:397-398 | `None` exactly when the text has no digit |
| Finder.FindCabinet | raspisanie_bot/parsing/parsers.py:400-404 | a number exactly when `int(text)` succeeds, and then that number |
| Finder.FindTeacher | raspisanie_bot/parsing/parsers.py:406-407 | the triple as given |
| Finder.FindPair | raspisanie_bot/parsing/parsers.py:409-416 | text starting with neither `МДК` nor `МИДК` is returned unchanged; text starting with either becomes that code followed by `.` |
| Finder.CodesExclusive | raspisanie_bot/parsing/parsers.py:410-413 | no text starts with both `МДК` and `МИДК`, so the order of the two tests does not matter |
| Finder.CourseNameStarts | raspisanie_bot/parsing/parsers.py:410-414 | a course name starts with its code and a dot |
| Finder.CourseNameOfWords | raspisanie_bot/parsing/parsers.py:409-414 | `МДК` or `МИДК` followed by words separated by spaces becomes the code, a dot, and the words joined by dots |
| Finder.HandleLink | raspisanie_bot/parsing/parsers.py:425-431 | the lower-cased link name selects the cafeteria schedule or the call schedule exactly for the two known titles |
| Handler.LinkEvents | raspisanie_bot/parsing/parsers.py:425-431 | `handle_link` reports `handle_cvp` or `handle_call_schedule` exactly for the two known titles, and nothing for any other link |
| CellExtractor.SubstitutionStage | raspisanie_bot/parsing/parsers.py:263-268 | `is_substitution` holds exactly when some token lower-cases to `зам`; then one such token is removed, and otherwise nothing is |
| CellExtractor.SubstitutionRemovesFirst | raspisanie_bot/parsing/parsers.py:263-266 | only the first `зам` token is removed |
| CellExtractor.SubstitutionPartitions | raspisanie_bot/parsing/parsers.py:263-266 | what is left keeps its order, and what is left plus what was removed is the input |
| CellExtractor.CabinetsAfterMarker | raspisanie_bot/parsing/parsers.py:270-283 | the tokens before the first `ауд` stay; no integer token stays after it; the marker and the integer tokens are removed, and the rooms are their values, in order |
| CellExtractor.CabinetStageAt | raspisanie_bot/parsing/parsers.py:270-283 | after the marker, the non-integer tokens are kept and the integer tokens become rooms: the scan skips non-integers and goes on to the end |
| CellExtractor.CabinetPartitions | raspisanie_bot/parsing/parsers.py:270-283 | the room stage keeps the order of what is left and removes exactly the tokens it took |
| CellExtractor.TakeCabinets | raspisanie_bot/parsing/parsers.py:275-283 | the deletion loop leaves the prefix and the non-integer tokens after it, keeps `l_array` in step, and collects the integer values in order |
| CellExtractor.CabinetStep | raspisanie_bot/parsing/parsers.py:270-283 | the room stage as written, with its `while` loop, equals the specification `CabinetStage` |
| CellExtractor.SubgroupStage | raspisanie_bot/parsing/parsers.py:285-304 | with no subgroup nothing is removed; with one, two or three tokens ending in `гр` are removed |
| CellExtractor.SubgroupPartitions | raspisanie_bot/parsing/parsers.py:285-304 | the subgroup stage keeps the order of what is left and removes exactly the tokens it took |
| CellExtractor.SubgroupSpaced | raspisanie_bot/parsing/parsers.py:286-295 | `<n> п гр` sets the subgroup to `n` and deletes the three tokens |
| CellExtractor.SubgroupJoined | raspisanie_bot/parsing/parsers.py:297-304 | `<n>п гр` sets the subgroup to `n` and deletes the two tokens |
| CellExtractor.SubgroupStep | raspisanie_bot/parsing/parsers.py:285-304 | the subgroup stage as written equals the specification `SubgroupStage` |
| CellExtractor.SubstitutionStep | raspisanie_bot/parsing/parsers.py:261-268 | the substitution stage as written equals the specification `SubstitutionStage`, and `l_array` stays the lower-cased `array` |
| CellExtractor.TeacherScanFound | raspisanie_bot/parsing/parsers.py:308-317 | two single-character tokens at `index - 1` and `index` record a teacher from the three tokens ending at `index`, and those three are deleted |
| CellExtractor.TeacherScanSkip | raspisanie_bot/parsing/parsers.py:318-319 | otherwise the scan moves on one token |
| CellExtractor.TeacherScanInitials | raspisanie_bot/parsing/parsers.py:308-314 | every recorded teacher has a one-character name and patronymic |
| CellExtractor.TeacherScanSubseq | raspisanie_bot/parsing/parsers.py:306-319 | the teacher scan keeps the order of what is left |
| CellExtractor.TeacherScanMultiset | raspisanie_bot/parsing/parsers.py:306-319 | what is left plus the teachers' tokens is the input |
| CellExtractor.ScanTeachers | raspisanie_bot/parsing/parsers.py:306-319 | the `while` loop as written equals the specification `TeacherScan` |
| CellExtractor.ExtractKeepsOrder | raspisanie_bot/parsing/parsers.py:252-321 | the subject's tokens are the cell's tokens with some deleted and the rest in their original order |
| CellExtractor.ExtractTakes | raspisanie_bot/parsing/parsers.py:252-321 | every token is either in the subject or taken by one of the four stages, and none is lost or duplicated |
| CellExtractor.ExtractInitials | raspisanie_bot/parsing/parsers.py:306-319 | every teacher of a cell has initials of one character |
| CellExtractor.ParsePair | raspisanie_bot/parsing/parsers.py:251-321 | no pair exactly when the text has no word character; otherwise the pair extracted from the text's tokens, with the subject joined by single spaces |
| TableParser.MarkRowsCovers | raspisanie_bot/parsing/parsers.py:240-242 | a cell with `rowspan` `n + 1` in row `pair` covers group `gi` in rows `pair + 1` to `pair + n`, and nothing else changes |
| TableParser.MarkRowspan | raspisanie_bot/parsing/parsers.py:240-242 | the `for` loop over `range(rowspan - 1)` as written equals the specification `MarkRows` |
| TableParser.PairEvents | raspisanie_bot/parsing/parsers.py:251-322 | a cell without word characters makes no call; any other cell makes exactly one `handle_parsed_pair` call, carrying the extracted pair |
| TableParser.ReportPair | raspisanie_bot/parsing/parsers.py:251-322 | `parse_pair` as written reports what `PairEvents` says |
| TableParser.GroupStep | raspisanie_bot/parsing/parsers.py:225-249 | one group never makes `curr_spans` exceed the groups seen; a `break` changes nothing and reports nothing; only a parsed group reports |
| TableParser.ScanGroup | raspisanie_bot/parsing/parsers.py:225-249 | the loop body as written equals the specification `GroupStep` |
| TableParser.ParseRow | raspisanie_bot/parsing/parsers.py:221-249 | the loop over the groups as written reports the calls of `RowScan` and leaves its `skipped` |
| TableParser.ColspanShares | raspisanie_bot/parsing/parsers.py:229-234 | while `next_common_pair` counts down from `n`, the next `n` groups get the shared text, and `curr_spans` grows by `n` |
| TableParser.ColspanStep | raspisanie_bot/parsing/parsers.py:229-234 | one group under a shared cell gets the previous text and uses no physical cell |
| TableParser.PlainRow | raspisanie_bot/parsing/parsers.py:236-249 | in a row without spans, group `gi` reads `tr[gi + 1]`; the groups past the end of the row get nothing, and `skipped` is unchanged |
| TableParser.CoverKept | raspisanie_bot/parsing/parsers.py:240-242 | a row only adds to `skipped`: a covered group stays covered |
| TableParser.CallsFromHeader | raspisanie_bot/parsing/parsers.py:224-249 | every call of a row is for a group of the header |
| TableParser.HeaderGroups | raspisanie_bot/parsing/parsers.py:211-213 | one group, or `None`, per header cell after the corner |
| TableParser.ReadHeader | raspisanie_bot/parsing/parsers.py:211-213 | the header loop as written equals `HeaderGroups` |
| TableParser.ReadRow | raspisanie_bot/parsing/parsers.py:215-249 | one body row as written equals the specification `TableRow` |
| TableParser.ParseTable | raspisanie_bot/parsing/parsers.py:206-249 | the table loop as written reports the calls of `TableEvents`, starting from an empty `skipped` |
| TableParser.UnnumberedRowPassed | raspisanie_bot/parsing/parsers.py:216-219 | a row whose pair number is `None` is skipped: it reports nothing and covers nothing |
| TableParser.CallEventsArePairs | raspisanie_bot/parsing/parsers.py:233-249 | the calls of a row are all `handle_parsed_pair` with the row's date and pair number |
| TableParser.TableEventsArePairs | raspisanie_bot/parsing/parsers.py:206-249 | a table reports only `handle_parsed_pair` calls, all with the table's date |
| TimetablePage.RemoveAllAbsent | raspisanie_bot/parsing/parsers.py:187 | `replace(word, '')` leaves text without the word as it is |
| TimetablePage.RemoveAllFront | raspisanie_bot/parsing/parsers.py:187 | `replace(word, '')` removes the word where the text has it at the front |
| TimetablePage.BlockEvents | raspisanie_bot/parsing/parsers.py:177-204 | once a date is current, no child unsets it |
| TimetablePage.ReadBlock | raspisanie_bot/parsing/parsers.py:178-204 | one child as written reports what `BlockEvents` says and leaves its current date |
| TimetablePage.ParseTimetablePage | raspisanie_bot/parsing/parsers.py:174-204 | the page loop as written reports the calls of `PageEvents`, starting with no date |
| TimetablePage.TableHasNoDates | raspisanie_bot/parsing/parsers.py:194-198 | a table reports no date |
| TimetablePage.FirstDateOnce | raspisanie_bot/parsing/parsers.py:186-192 | a page reports a date with no date before it at most once, and never once a date is current |
| TimetablePage.BlockFirstDate | raspisanie_bot/parsing/parsers.py:178-204 | a child reports a date with no date before it only when none was current, and a date is current after it |
| TimetablePage.ParagraphFirstDate | raspisanie_bot/parsing/parsers.py:178-192 | the same for a paragraph |
| TimetablePage.DatesChange | raspisanie_bot/parsing/parsers.py:188-190 | every reported date change is a real change: the new date differs from the one it replaces |
| TimetablePage.BlockDatesChange | raspisanie_bot/parsing/parsers.py:188-190 | the same for one child |
| LegacyTimetable.IntRunEnd | raspisanie_bot/parsing/timetable.py:52-56 | the end of the run of integer tokens starting at `i`: every token before it is an integer, and the token at it is not |
| LegacyTimetable.CabinetStage | raspisanie_bot/parsing/timetable.py:47-59 | without `ауд` nothing is removed and there are no rooms |
| LegacyTimetable.CabinetsStopAtNonInt | raspisanie_bot/parsing/timetable.py:47-59 | after the first `ауд`, only the consecutive integer tokens become rooms, and consumption stops at the first non-integer |
| LegacyTimetable.CabinetStageAt | raspisanie_bot/parsing/timetable.py:47-59 | the marker and the run of integers after it are removed, and their values are the rooms |
| LegacyTimetable.CabinetPartitions | raspisanie_bot/parsing/timetable.py:47-59 | the room stage keeps the order of what is left and removes exactly the tokens it took |
| LegacyTimetable.TakeCabinets | raspisanie_bot/parsing/timetable.py:52-59 | the `while` loop as written removes exactly the run of integers and collects their values |
| LegacyTimetable.CabinetStep | raspisanie_bot/parsing/timetable.py:47-59 | the room stage as written equals the specification `CabinetStage` |
| LegacyTimetable.CourseCode | raspisanie_bot/parsing/timetable.py:92-94 | a name without `МДК` at its start is unchanged; one with it becomes `МДК.` followed by more |
| LegacyTimetable.CourseCodeOfWords | raspisanie_bot/parsing/timetable.py:92-94 | `МДК` followed by words becomes `МДК.` followed by the words joined by dots |
| LegacyTimetable.ExtractKeepsOrder | raspisanie_bot/parsing/timetable.py:31-92 | the name's tokens are the cell's tokens with some deleted and the rest in order |
| LegacyTimetable.ExtractTakes | raspisanie_bot/parsing/timetable.py:31-92 | every token is in the name or taken by one of the stages |
| LegacyTimetable.ExtractInitials | raspisanie_bot/parsing/timetable.py:82-90 | every teacher has initials of one character |
| LegacyTimetable.PairInfoRaw | raspisanie_bot/parsing/timetable.py:31-37 | no result exactly when the text has no word character; otherwise `raw` is the normalised text |
| LegacyTimetable.ParsePairName | raspisanie_bot/parsing/timetable.py:31-100 | the function as written, with its deletion loops, equals the specification `PairInfoOf`, and returns nothing exactly for text without word characters |
| LegacyTimetable.PairNumbersPrefix | raspisanie_bot/parsing/timetable.py:123-127 | the pair numbers of the first rows do not depend on the later rows |
| LegacyTimetable.NextPairNumber | raspisanie_bot/parsing/timetable.py:126-127 | each row's pair number is parsed with the previous row's number plus one as the default |
| LegacyTimetable.PairNumberFallback | raspisanie_bot/parsing/timetable.py:126-127 | a row whose number cell has no digit gets the previous number plus one (1 for the first row) |
| LegacyTimetable.ColumnKeys | raspisanie_bot/parsing/timetable.py:129-132 | a pair number is in a group's column exactly when some row has a parsed pair in that group's cell |
| LegacyTimetable.ColumnLast | raspisanie_bot/parsing/timetable.py:129-132 | a later row with the same pair number overwrites an earlier one: the column holds the last one |
| LegacyTimetable.ColumnSnoc | raspisanie_bot/parsing/timetable.py:129-132 | body cell `gi + 1` goes to header group `gi`, and only parsed cells are stored |
| LegacyTimetable.FillRow | raspisanie_bot/parsing/timetable.py:129-132 | the cell loop fails exactly when a parsed cell has no header group (an `IndexError`), and otherwise stores the row |
| LegacyTimetable.BuiltAll | raspisanie_bot/parsing/timetable.py:113-134 | the filled list is the reference `Groups` of the table |
| LegacyTimetable.ParseTable | raspisanie_bot/parsing/timetable.py:113-134 | `parse_table` raises exactly when some row overflows the header; otherwise it returns `dict` of the reference group list |
| LegacyTimetable.OverflowsAt | raspisanie_bot/parsing/timetable.py:129-132 | one more row overflows the table exactly when it overflows the header |
| LegacyTimetable.ElementStep | raspisanie_bot/parsing/timetable.py:143-167 | one child fails exactly when it is a table that overflows its header |
| LegacyTimetable.ReadElement | raspisanie_bot/parsing/timetable.py:143-167 | one child as written equals `ElementStep` |
| LegacyTimetable.ParseTimetable | raspisanie_bot/parsing/timetable.py:137-177 | the links and the timetable are what the scan collects; the date is one of the parsed dates, or today when there is none |
| LegacyTimetable.ScanFails | raspisanie_bot/parsing/timetable.py:157-161 | the page fails exactly when one of its tables overflows |
| LegacyTimetable.ScanCollectsLinks | raspisanie_bot/parsing/timetable.py:144-151 | the links map each paragraph's normalised text to its `href`, a later paragraph with the same text overwriting an earlier one |
| LegacyTimetable.ScanCollectsDates | raspisanie_bot/parsing/timetable.py:152-155 | the dates are the set of the paragraphs' parsed dates |
| LegacyTimetable.ElementCollects | raspisanie_bot/parsing/timetable.py:144-155 | a link paragraph sets one link, a date paragraph adds one date |
| LegacyTimetable.PageResult | raspisanie_bot/parsing/timetable.py:139-155 | from an empty start, the links are the link paragraphs in order and the dates are the paragraphs' dates |
| LegacyTimetable.DatesFromParagraphs | raspisanie_bot/parsing/timetable.py:152-155 | a date is collected exactly when some paragraph parses to it |
| CallSchedule.MatchNormTime | raspisanie_bot/parsing/call_schedule.py:7 | a full match gives non-negative times |
| CallSchedule.NormTimeAt | raspisanie_bot/parsing/call_schedule.py:29-37 | a cell of the shape `H.MM`, one separator character, `H.MM` (with spaces around) gives `TimePeriod(60·h1 + m1, 60·h2 + m2)` |
| CallSchedule.NormTimeExample | raspisanie_bot/parsing/call_schedule.py:29-37 | "8.30 - 10.00" gives `TimePeriod(510, 600)` |
| CallSchedule.NormTimeIsTimePeriod | raspisanie_bot/parsing/call_schedule.py:7 | a cell that `NORM_TIME_RE` matches is read by `TIME_PERIOD_RE` with the same times and an empty rest |
| CallSchedule.AssignmentsBlank | raspisanie_bot/parsing/call_schedule.py:22-23 | a blank first cell skips the row |
| CallSchedule.AssignmentsRow | raspisanie_bot/parsing/call_schedule.py:25-37 | any other row gets its number with `last_pn + 1` as the default, becomes the new `last_pn`, and assigns its time only when the time cell matches |
| CallSchedule.ParseCallSchedule | raspisanie_bot/parsing/call_schedule.py:11-39 | the row loop as written builds the dictionary of the assignments, in order |
| CallSchedule.AssignmentsAppend | raspisanie_bot/parsing/call_schedule.py:20-37 | the rows of two tables are read one after the other, `last_pn` carrying over |
| CallSchedule.LaterRowsOverwrite | raspisanie_bot/parsing/call_schedule.py:37 | a later row with a duplicate pair number overwrites the earlier one |
| CallSchedule.BlankRowSkipped | raspisanie_bot/parsing/call_schedule.py:22-23 | a non-empty, whitespace-only first cell skips the row and leaves `last_pn` as it was (an empty cell is not skipped) |
| CallSchedule.RowNumbered | raspisanie_bot/parsing/call_schedule.py:25-37 | `last_pn` is updated even when the time cell does not match, and a number cell without digits gives `last_pn + 1` |
| CallSchedule.AssignmentKeys | raspisanie_bot/parsing/call_schedule.py:29-37 | a pair number is in the result exactly when some row with that number had a matching time cell |
| CallScheduleParser.RowEvents | raspisanie_bot/parsing/parsers.py:91-101 | a row makes at most one `handle_pair_time` call, with non-negative times |
| CallScheduleParser.RowEventIff | raspisanie_bot/parsing/parsers.py:93-101 | a row makes a call exactly when its first cell is not blank and its time cell matches |
| CallScheduleParser.ReportRow | raspisanie_bot/parsing/parsers.py:92-101 | one row as written equals `RowEvents` |
| CallScheduleParser.ParseCallSchedulePage | raspisanie_bot/parsing/parsers.py:83-101 | the page clears the times first and then reports each row's time |
| CallScheduleParser.TimeEventsAppend | raspisanie_bot/parsing/parsers.py:91-101 | the rows report independently, one after another |
| CovidPit.TimeLine | raspisanie_bot/parsing/covid_pit.py:61-66 | a time line starts with `с`, and its times are non-negative |
| CovidPit.TimeLineParts | raspisanie_bot/parsing/covid_pit.py:57-76 | a line that is not all digits continues on its rest after a time, and writes its groups only when the rest is non-empty and some group matched |
| CovidPit.CollectGroups | raspisanie_bot/parsing/covid_pit.py:69-73 | the token loop as written keeps the tokens that parse as groups, in order |
| CovidPit.EntriesStep | raspisanie_bot/parsing/covid_pit.py:57-76 | one line's entry comes before those of the following lines, which see its `last_time` |
| CovidPit.ReadLine | raspisanie_bot/parsing/covid_pit.py:58-76 | one line as written gives the next `last_time` and the line's entry |
| CovidPit.ApplyLine | raspisanie_bot/parsing/covid_pit.py:58-76 | one line as written assigns its entry to the table |
| CovidPit.ParseCovidPit | raspisanie_bot/parsing/covid_pit.py:54-78 | the line loop as written builds the dictionary of the lines' entries, in order |
| CovidPit.DigitLineIgnored | raspisanie_bot/parsing/covid_pit.py:58-59 | a line of digits changes nothing |
| CovidPit.TimeLineSets | raspisanie_bot/parsing/covid_pit.py:61-76 | a full time line sets `last_time` to its period; its rest is then read for groups, and an empty rest writes no entry |
| CovidPit.EntriesAppend | raspisanie_bot/parsing/covid_pit.py:57-76 | the lines of two parts are read one after the other, `last_time` carrying over |
| CovidPit.LaterLinesOverwrite | raspisanie_bot/parsing/covid_pit.py:75-76 | a later entry for the same `last_time` overwrites an earlier one |
| CovidPit.KeyBeforeTime | raspisanie_bot/parsing/covid_pit.py:54-76 | before the first time line every entry is keyed by the starting `last_time`, which is `None` at the start |
| CovidPit.EntriesNotEmpty | raspisanie_bot/parsing/covid_pit.py:75-76 | an entry is written only when at least one group matched |
| CvpParser.ParseGroupsList | raspisanie_bot/parsing/parsers.py:116-120 | the groups of the runs of `[0-9а-яА-Я-]`, in order, skipping tokens that do not parse |
| CvpParser.ResolveGroups | raspisanie_bot/parsing/parsers.py:117-120 | the generator's loop as written yields the tokens that parse as groups, in order |
| CvpParser.ItemEvents | raspisanie_bot/parsing/parsers.py:152-153 | one `handle_cvp_item` call per group, in order, with the current date and time |
| CvpParser.ReceiveLine | raspisanie_bot/parsing/parsers.py:134-153 | one line as written equals the specification `StepEvents` and `Step` |
| CvpParser.ReceiveLayout | raspisanie_bot/parsing/parsers.py:129-153 | the line loop as written reports the calls of `LayoutEvents`, starting with no time and no date |
| CvpParser.LayoutAppend | raspisanie_bot/parsing/parsers.py:133-153 | the lines of two parts are read one after the other, the time and date carrying over |
| CvpParser.DateLineReported | raspisanie_bot/parsing/parsers.py:141-145 | a line starting with `на ` reports its date and makes it current, keeping the time |
| CvpParser.ItemsOfLine | raspisanie_bot/parsing/parsers.py:147-153 | any other line reports its groups only when its rest is non-empty and a time is known |
| CvpParser.NoItemsWithoutTime | raspisanie_bot/parsing/parsers.py:147-153 | before any time line, only date lines are reported |
| CvpParser.ItemTimesNonNegative | raspisanie_bot/parsing/parsers.py:147-153 | every item reported has non-negative times |
| Store.CabinetOf | raspisanie_bot/parsing/database.py:14 | a room has the given number, the name `""`, and the floor `number // 100` |
| Store.FixedName | raspisanie_bot/parsing/database.py:38-42 | the fix's new name exactly when a fix exists for the text, the text otherwise |
| Store.CabinetsOf | raspisanie_bot/parsing/database.py:8-14 | one room per number, in order |
| Store.TeachersOf | raspisanie_bot/parsing/database.py:16-24 | one capitalised teacher per triple, in order |
| Store.Undated | raspisanie_bot/parsing/database.py:67-68 | no pair left has the deleted date |
| Store.Database.constructor | raspisanie_bot/parsing/database.py:5-6 | an empty store with the given name fixes |
| Store.Database.GetCabinet | raspisanie_bot/parsing/database.py:14 | get-or-create: the room is in the store afterwards, and nothing else changes |
| Store.Database.FindCabinet | raspisanie_bot/parsing/database.py:8-14 | `None` exactly for non-integer text; otherwise the room of that number, now in the store |
| Store.Database.FindTeacher | raspisanie_bot/parsing/database.py:16-24 | the capitalised triple, get-or-create, so the same triple always resolves to the same entry |
| Store.Database.FindGroup | raspisanie_bot/parsing/database.py:26-33 | `None` when the name does not parse; otherwise the group, added to the set of groups with no duplicate |
| Store.Database.FixName | raspisanie_bot/parsing/database.py:38-42 | the fix's new name when a fix exists for the exact text |
| Store.Database.FindPair | raspisanie_bot/parsing/database.py:35-42 | the base name, then the fix for that name |
| Store.Database.HandleNewCallSchedule | raspisanie_bot/parsing/database.py:56-58 | every `PairTime` row is deleted and nothing else changes |
| Store.Database.HandlePairTime | raspisanie_bot/parsing/database.py:60-62 | exactly one `PairTime` row is created |
| Store.Database.HandleNewDate | raspisanie_bot/parsing/database.py:64-68 | with no old date the pairs of the new date are deleted; otherwise the store is unchanged |
| Store.Database.HandleParsedPair | raspisanie_bot/parsing/database.py:70-76 | exactly one pair is created, linked to all the given teachers and rooms |
| Store.Database.ResolveCabinets | raspisanie_bot/parsing/database.py:8-14 | the rooms of all the numbers, each now in the store |
| Store.Database.ResolveTeachers | raspisanie_bot/parsing/database.py:16-24 | the teachers of all the triples, each now in the store |
| Store.Database.Apply | raspisanie_bot/parsing/database.py:45-76 | one handler call as written equals the reference `Step` |
| Store.Database.Ingest | raspisanie_bot/parsing/database.py:45-76 | a list of calls equals the reference `Replay` |
| Store.ReplayAppend | raspisanie_bot/parsing/database.py:45-76 | replaying two lists of calls is replaying one and then the other |
| Store.ReplayTimes | raspisanie_bot/parsing/database.py:60-62 | `handle_pair_time` calls append their rows in order |
| Store.ScheduleReplacesTimes | raspisanie_bot/parsing/database.py:56-62 | after a call-schedule page the times are exactly that page's times |
| Store.ItemGroupsIn | raspisanie_bot/parsing/parsers.py:116-120 | a group is among the cafeteria items' groups exactly when some `handle_cvp_item` call reports it |
| Store.ReplayCafeteria | raspisanie_bot/parsing/database.py:26-54 | cafeteria calls add the groups of their items, which `find_group` got or created, and change nothing else: times, pairs, rooms, teachers and fixes stay as they were |
| Store.LayoutIsCafeteria | raspisanie_bot/parsing/parsers.py:129-153 | the cafeteria parser makes only cafeteria calls |
| Store.CafeteriaAddsGroups | raspisanie_bot/parsing/parsers.py:116-153 | reading a cafeteria page adds exactly the groups it reports to the store, and changes nothing else |
| Store.FirstDateClearsDay | raspisanie_bot/parsing/database.py:67-68 | the first date deletes exactly the pairs of that date: no pair of it is left, every other pair stays, and nothing is deleted when none had the date |
| Store.LaterDateKeepsStore | raspisanie_bot/parsing/database.py:64-68 | a date reported after another one changes nothing |
| Store.PairsOf | raspisanie_bot/parsing/database.py:73-74 | one pair per call, with the call's date and group |
| Store.ReplayPairs | raspisanie_bot/parsing/database.py:70-76 | pair calls add their pairs in order and the rooms, teachers and groups they name |
| Store.UndatedTwice | raspisanie_bot/parsing/database.py:67-68 | deleting a date's pairs twice is deleting them once |
| Store.ReingestIdempotent | raspisanie_bot/parsing/database.py:64-76 | reading the same day's page twice leaves the store as reading it once |
| Store.TeacherIgnoresCase | raspisanie_bot/parsing/database.py:18-20 | a teacher resolves to the same entry however the triple is cased |
| TimetableUpdater.Update | raspisanie_bot/parsing/parsers.py:363-375 | parsing is skipped exactly when the digest equals the remembered one and the update is not forced; the digest is remembered only once parsing returns |
| TimetableUpdater.TimetableUpdater.constructor | raspisanie_bot/parsing/parsers.py:359-361 | no digest is remembered |
| TimetableUpdater.TimetableUpdater.UpdateTimetable | raspisanie_bot/parsing/parsers.py:363-375 | the method as written equals `Update` on the remembered digest |
| TimetableUpdater.ParsedThenCached | raspisanie_bot/parsing/parsers.py:367-373 | a page just parsed is parsed again only when forced |
| TimetableUpdater.ForcedNeverCached | raspisanie_bot/parsing/parsers.py:368 | a forced update always parses |
| TimetableUpdater.FailureKeepsCache | raspisanie_bot/parsing/parsers.py:372-373 | a page that fails to parse leaves the cache as it was |
| TimetableUpdater.RememberedIsLastParsed | raspisanie_bot/parsing/parsers.py:367-373 | after any run of calls the cache holds the digest of the most recently parsed page, or the starting one |
| UpdateService.Delay | raspisanie_bot/parsing/update_service.py:33-38 | 30 seconds after a failed update, the configured interval after a successful one |
| UpdateService.Pass | raspisanie_bot/parsing/update_service.py:25-48 | each pass starts with an update under the current `force`; it sleeps unless cancelled or stopped during the update; it leaves the loop exactly when cancelled or stopped |
| UpdateService.Service.constructor | raspisanie_bot/parsing/update_service.py:10-15 | not stopping, no task, nothing cancelled |
| UpdateService.Service.Stop | raspisanie_bot/parsing/update_service.py:57-61 | sets `_stopping` and cancels the timer; cancels `_task` only when `cancel_current` is set and `_task` exists |
| UpdateService.Service.Start | raspisanie_bot/parsing/update_service.py:63-65 | a task exists and nothing else changes |
| UpdateService.Service.Run | raspisanie_bot/parsing/update_service.py:17-55 | a service already stopping raises `RuntimeError`; otherwise the loop as written performs `Trace` from a forced first update |
| UpdateService.Service.RunPass | raspisanie_bot/parsing/update_service.py:26-48 | the loop body as written equals `Pass` |
| UpdateService.PassOnward | raspisanie_bot/parsing/update_service.py:26-48 | a pass that does not stop updates once and sleeps once |
| UpdateService.PassStopping | raspisanie_bot/parsing/update_service.py:29-46 | a pass that stops updates once and sleeps only when stopped during the sleep |
| UpdateService.ForceAfterCutSleep | raspisanie_bot/parsing/update_service.py:44-48 | the first update uses the initial `force`, and each later one is forced exactly when the sleep before it was cut short |
| UpdateService.FirstUpdateForced | raspisanie_bot/parsing/update_service.py:23-27 | the first cycle runs with `force=True` |
| UpdateService.SleepAfterOutcome | raspisanie_bot/parsing/update_service.py:33-43 | the k-th sleep follows an update that was not cancelled, and lasts 30 seconds after a failure or the interval after a success |
| UpdateService.NoUpdateAfterStop | raspisanie_bot/parsing/update_service.py:25-46 | no update starts after a stopping cycle; without one, every cycle updates once; the run stops exactly when some cycle stops |
| UpdateService.CloseLast | raspisanie_bot/parsing/update_service.py:54-55 | `updater.close()` is called exactly when the loop stopped, once, and as the last action |
| MessageBuilder.Escape | raspisanie_bot/message_builder.py:8-10 | escaping never shortens the text |
| MessageBuilder.EscapeAppend | raspisanie_bot/message_builder.py:41 | `translate` works character by character: escaping a concatenation escapes each part |
| MessageBuilder.UnescapeEscape | raspisanie_bot/message_builder.py:8-10 | reading back escaped text (a backslash stands for the character after it) gives the original, for any table that escapes the backslash |
| MessageBuilder.EscapeUnchanged | raspisanie_bot/message_builder.py:8-10 | escaping leaves a text unchanged exactly when it has no special character |
| MessageBuilder.EscapeEach | raspisanie_bot/message_builder.py:41 | each value is escaped on its own, in order |
| MessageBuilder.ConcatAppend | raspisanie_bot/message_builder.py:17-18 | `''.join` of two lists of parts is the join of the first followed by that of the second |
| MessageBuilder.TimeParts | raspisanie_bot/message_builder.py:87-88 | the hours, `:` and two digits of minutes |
| MessageBuilder.TimePartsValue | raspisanie_bot/message_builder.py:87-88 | the rendered time reads back as the minutes: hours times sixty plus the two-digit minutes, which are below 60 |
| MessageBuilder.DateParts | raspisanie_bot/message_builder.py:84-85 | the day, a space, and a month name from `MONTH_NAMES` |
| MessageBuilder.Builder.constructor | raspisanie_bot/message_builder.py:14-15 | no parts |
| MessageBuilder.Builder.Raw | raspisanie_bot/message_builder.py:30-32 | appends the values unchanged, so the text grows by their concatenation |
| MessageBuilder.Builder.Nl | raspisanie_bot/message_builder.py:34-35 | appends a newline |
| MessageBuilder.Builder.Text | raspisanie_bot/message_builder.py:38-41 | appends each value escaped with the given table, or unchanged when `escape` is false |
| MessageBuilder.Builder.OrText | raspisanie_bot/message_builder.py:25-28 | appends only when the builder is empty |
| MessageBuilder.Builder.Inline | raspisanie_bot/message_builder.py:43-49 | with no values just the marker; otherwise marker, escaped values, marker, the backtick marker escaping only `` ` `` and `\` |
| MessageBuilder.Builder.Bold | raspisanie_bot/message_builder.py:61-62 | the inline entity with marker `*` |
| MessageBuilder.Builder.Italic | raspisanie_bot/message_builder.py:64-65 | the inline entity with marker `_` |
| MessageBuilder.Builder.Underline | raspisanie_bot/message_builder.py:67-68 | the inline entity with marker `__` |
| MessageBuilder.Builder.Strikethrough | raspisanie_bot/message_builder.py:70-71 | the inline entity with marker `~` |
| MessageBuilder.Builder.Code | raspisanie_bot/message_builder.py:73-74 | the inline entity with marker `` ` ``, whose values escape only `` ` `` and `\` |
| MessageBuilder.Builder.Link | raspisanie_bot/message_builder.py:53-54 | the label raw, and the URL escaping only `)` and `\` |
| MessageBuilder.Builder.Pre | raspisanie_bot/message_builder.py:56-57 | a fenced block with the language, the values escaping only `` ` `` and `\` |
| MessageBuilder.Builder.Date | raspisanie_bot/message_builder.py:84-85 | the escaped day, space and month name |
| MessageBuilder.Builder.Time | raspisanie_bot/message_builder.py:87-88 | the escaped hours, `:` and two-digit minutes |
| Base64.Value | raspisanie_bot/encoded_invite.py:20 | the value of an alphabet character is below 64, and its character is the same character |
| Base64.ValueChar | raspisanie_bot/encoded_invite.py:15 | the character of a value reads back as that value |
| Base64.EncodeUnpadded | raspisanie_bot/encoded_invite.py:15 | the encoding uses only the URL-safe alphabet |
| Base64.EncodeUnpaddedLength | raspisanie_bot/encoded_invite.py:15 | four characters per three bytes, plus two or three for a final one or two bytes |
| Base64.BlockRoundTrip | raspisanie_bot/encoded_invite.py:15-20 | three bytes encoded as four characters decode back to the same bytes |
| Base64.DecodeTail1 | raspisanie_bot/encoded_invite.py:15-20 | a final byte encoded with `==` decodes back |
| Base64.DecodeTail2 | raspisanie_bot/encoded_invite.py:15-20 | two final bytes encoded with `=` decode back |
| Base64.DecodeEncode | raspisanie_bot/encoded_invite.py:15-20 | decoding the encoding of any bytes gives them back |
| EncodedInvite.PackLE | raspisanie_bot/encoded_invite.py:13 | `struct.pack("<Q")` writes `count` bytes |
| EncodedInvite.UnpackPack | raspisanie_bot/encoded_invite.py:13-24 | unpacking what was packed gives the number back, for numbers that fit |
| EncodedInvite.UnpackBound | raspisanie_bot/encoded_invite.py:24 | an unpacked number fits in its bytes |
| EncodedInvite.PadCount | raspisanie_bot/encoded_invite.py:20 | `3 - ((len - 1) % 4)` is at most 3 and makes the length a multiple of four |
| EncodedInvite.PadCountRestores | raspisanie_bot/encoded_invite.py:15-20 | the padding computed from the stripped length is exactly the padding that was stripped |
| EncodedInvite.StripPadding | raspisanie_bot/encoded_invite.py:15 | removing every `=` from the encoding leaves the unpadded encoding |
| EncodedInvite.EncodeInvite | raspisanie_bot/encoded_invite.py:12-15 | fails exactly for ids outside `0 <= iid < 2^64`; the token uses only the URL-safe alphabet |
| EncodedInvite.DecodeInvite | raspisanie_bot/encoded_invite.py:18-24 | a decoding error exactly when the padded text does not decode; `InviteSignatureError` exactly when the bytes after offset 8 differ from the tag of the first 8; otherwise the little-endian value of the first 8 bytes, below 2^64 |
| EncodedInvite.InviteRoundTrip | raspisanie_bot/encoded_invite.py:12-24 | `decode_invite(key, encode_invite(key, iid)) == iid` for every `0 <= iid < 2^64` |
| EncodedInvite.ForgedTagRefused | raspisanie_bot/encoded_invite.py:21-22 | a token carrying any tag other than the id's HMAC is refused with `InviteSignatureError` |

## Left out

- Network and async plumbing are not modelled: the downloads, `process_pending`, the `asyncio` task and the
  `CancelableTimer`. What the loop sees of them is the input `UpdateService.Cycle`: how the update ended, whether
  `stop()` ran during the update or the sleep, and whether the sleep was cut short.
- UpdateService.Service.Stop: records that the timer and `_task` were cancelled. How those cancellations reach a
  running `run()` is not traced; `Run` sees them only through its cycles.
- UpdateService.Service.Run: a run is given a finite list of cycles. A run that has not stopped when the list ends
  stops there without `close()`.
- HTML parsing with lxml is not modelled. A page is a list of blocks and a table is rows of cells with optional
  `rowspan` and `colspan`, so these are left out:
  - the unwrapping of `tbody`;
  - the `KeyError` of a link without `href`;
  - `int()` of a span attribute that is not a number.
- PDF text extraction with pdfminer is not modelled. The cafeteria loops take a list of lines.
- `dateparser`, `hashlib.md5`, `hmac.digest` and `datetime.date.today` are parameters.
- The peewee ORM and its schema are not modelled. The store is sets and sequences, and an entity's identity is its
  value. The store's fields are those that parsing/database.py uses, such as a pair's date and number and a room's
  name. The schema in raspisanie_bot/database.py has none of these fields, so the model follows the handler and not
  the schema.
- LegacyTimetable.ParseDate: has no contract of its own, because the date parser is a parameter.
- Store.Step: the groups of a table's header are added to the store when a pair of theirs is stored. The source
  creates them while reading the header, so a header group with no pairs is not in the model's store.
- Store.WithPair: a pair's teachers and rooms are sets. A cell naming the same teacher or room twice links it once,
  as a many-to-many table does.
- ParserBase.MatchTimePeriod: the `(?:до|.)` alternative of `TIME_PERIOD_RE` can match a digit or a space when the
  regex backtracks. The model accepts `до` or one character that is neither a digit nor whitespace. So the model
  refuses lines such as "8.30 10.00" that the regex reads by splitting a number.
- CallSchedule.MatchNormTime: the same holds for the `.` of `NORM_TIME_RE`.
- CovidPit.TimeLine: the same holds for `\s*` and `(\d+)` around `до`, which the model reads greedily.
- Text.IsInt: `int()` is modelled on non-empty strings of ASCII digits. Python's `int()` also accepts signs,
  underscores, surrounding whitespace and other Unicode digits.
- Text.IsSpace, Text.IsWordChar, Text.Lower, Text.Upper: `\s`, `\w` and case mapping are modelled for ASCII and
  the Russian alphabet only.
- Common.ParsePairNumber: its own contract gives only the default case and the sign. The value is stated by
  `PairNumberOfLabel` for a label with one number and by `PairNumberJoinsDigits` for the joining of digit groups.
- TableParser.RowStart: `skipped.setdefault(pair, [])` with `pair` `None` adds a key that is never read, so it is
  left out.
- Base64.Decode: decoding is strict, refusing any text that is not canonical padded URL-safe base64. Python's
  `urlsafe_b64decode` is lenient in three ways that are not modelled:
  - it skips characters outside the alphabet;
  - it reads `+` and `/` as well as `-` and `_`;
  - it stops at the first complete padding group and ignores whatever follows it.
- EncodedInvite.DecodeInvite: because of that strict decoder it returns `DecodeError` for some tokens that
  `decode_invite` accepts as valid invites. One example is a valid token with `!!!!` appended: Python drops the
  `!` characters, the tag still matches, and the id is returned. The model agrees with the source on every token
  made of URL-safe characters only. That includes every token `encode_invite` produces (`InviteRoundTrip`).
  A token with a non-ASCII character makes `data.encode("ascii")` raise `UnicodeEncodeError` before any decoding.
  The model reports that case as `DecodeError` too, so only the type of the error differs.
- The bot's commands, its storage adapter, `config.py` and the older `updater.py` are not part of this model.
- Logging is not modelled.
