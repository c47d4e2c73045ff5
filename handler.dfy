/**
 * The callbacks of `Handler` (raspisanie_bot/parsing/parsers.py:419-464) as
 * values: a parser's effect is the list of handler calls it makes, in the
 * order it makes them.  A storage back end (module `Store`) then applies the
 * calls one by one.  Dates are the type parameter `D`.
 */
module Handler {
  import opened Wrappers
  import Common
  import Finder
  import CellExtractor

  datatype Event<D> =
    | Cvp(link: string)                                   // handle_cvp(link)
    | CallScheduleLink(link: string)                      // handle_call_schedule(link)
    | NewCvpDate(cvpDate: Option<D>)                      // handle_new_cvp_date(date)
    | CvpItem(itemDate: Option<D>, group: Common.GroupName, begin: int, end: int)
    | NewCallSchedule                                     // handle_new_call_schedule()
    | PairTime(pair: Option<nat>, start: int, finish: int) // handle_pair_time(pair, start, end)
    | NewDate(newDate: D, oldDate: Option<D>)             // handle_new_date(new_date, old_date)
    | ParsedPair(date: Option<D>, pairGroup: Common.GroupName, pairNumber: nat, parsed: CellExtractor.ParsedPair)

  /** `handle_link(name, link)`: a call for the two known subpages, nothing for any other link. */
  function LinkEvents<D>(name: string, link: string): (r: seq<Event<D>>)
    ensures |r| <= 1
    ensures r == [Cvp(link)] <==> Finder.HandleLink(name) == Finder.CafeteriaSchedule
    ensures r == [CallScheduleLink(link)] <==> Finder.HandleLink(name) == Finder.CallSchedule
    ensures r == [] <==> Finder.HandleLink(name) == Finder.OtherLink
  {
    match Finder.HandleLink(name)
    case CafeteriaSchedule => [Cvp(link)]
    case CallSchedule => [CallScheduleLink(link)]
    case OtherLink => []
  }
}
