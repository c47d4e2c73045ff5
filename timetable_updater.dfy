/**
 * The digest cache of `TimetableUpdater.update_timetable`
 * (raspisanie_bot/parsing/parsers.py:358-375): the downloaded page is parsed
 * unless its digest equals the digest of the last page parsed and the update
 * is not forced, and that digest is remembered only once parsing has
 * returned.  The digest function is abstract: digests are the type parameter
 * `H`, and whether parsing returns or raises is the input `parseOk`.
 */
module TimetableUpdater {
  import opened Wrappers

  /** How one call ended: skipped by the cache, parsed, or raised while parsing. */
  datatype Outcome = Cached | Parsed | ParseFailed

  /** One call on the remembered digest `last`: how it ends and the digest remembered after it. */
  function Update<H(==)>(last: Option<H>, digest: H, force: bool, parseOk: bool): (r: (Outcome, Option<H>))
    ensures r.0 == Cached <==> last == Some(digest) && !force
    ensures r.0 != Cached ==> (r.0 == Parsed <==> parseOk)
    ensures r.1 == if r.0 == Parsed then Some(digest) else last
  {
    if last == Some(digest) && !force then (Cached, last)
    else if parseOk then (Parsed, Some(digest))
    else (ParseFailed, last)
  }

  class TimetableUpdater<H(==)> {
    /** `_last_tt_md5`. */
    var lastDigest: Option<H>

    constructor ()
      ensures lastDigest == None
    {
      lastDigest := None;
    }

    /** `update_timetable(link, force)` for a page whose digest is `digest`. */
    method UpdateTimetable(digest: H, force: bool, parseOk: bool) returns (r: Outcome)
      modifies this
      ensures (r, lastDigest) == Update(old(lastDigest), digest, force, parseOk)
    {
      if lastDigest == Some(digest) && !force {
        return Cached;
      }
      if !parseOk {
        return ParseFailed;
      }
      lastDigest := Some(digest);
      r := Parsed;
    }
  }

  /** A page that was just parsed is not parsed again unless forced. */
  lemma ParsedThenCached<H>(last: Option<H>, digest: H, force: bool, force2: bool, parseOk: bool)
    requires Update(last, digest, force, true).0 == Parsed
    ensures Update(Update(last, digest, force, true).1, digest, force2, parseOk).0 == Cached <==> !force2
  {
  }

  /** A forced update always parses: the cache never skips it. */
  lemma ForcedNeverCached<H>(last: Option<H>, digest: H, parseOk: bool)
    ensures Update(last, digest, true, parseOk).0 != Cached
  {
  }

  /**
   * A page that fails to parse leaves the cache as it was, so a later call
   * with the same page is skipped only if an earlier page with that digest
   * was parsed.
   */
  lemma FailureKeepsCache<H>(last: Option<H>, digest: H, force: bool, force2: bool, parseOk: bool)
    requires Update(last, digest, force, false).0 == ParseFailed
    ensures Update(Update(last, digest, force, false).1, digest, force2, parseOk) == Update(last, digest, force2, parseOk)
  {
  }

  /** The digest remembered after a run of calls: that of the last page parsed, or the starting one. */
  function Remembered<H(==)>(last: Option<H>, calls: seq<(H, bool, bool)>): Option<H>
    decreases |calls|
  {
    if calls == [] then last
    else Remembered(Update(last, calls[0].0, calls[0].1, calls[0].2).1, calls[1..])
  }

  /** The calls whose page was parsed. */
  function ParsedDigests<H(==)>(last: Option<H>, calls: seq<(H, bool, bool)>): seq<H>
    decreases |calls|
  {
    if calls == [] then []
    else
      var r := Update(last, calls[0].0, calls[0].1, calls[0].2);
      (if r.0 == Parsed then [calls[0].0] else []) + ParsedDigests(r.1, calls[1..])
  }

  /** After any run of calls the cache holds the digest of the most recent parsed page, if there was one. */
  lemma {:induction false} RememberedIsLastParsed<H>(last: Option<H>, calls: seq<(H, bool, bool)>)
    ensures var ps := ParsedDigests(last, calls);
      Remembered(last, calls) == if ps == [] then last else Some(ps[|ps| - 1])
    decreases |calls|
  {
    if calls != [] {
      var r := Update(last, calls[0].0, calls[0].1, calls[0].2);
      RememberedIsLastParsed(r.1, calls[1..]);
    }
  }
}
