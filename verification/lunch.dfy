/**
  The lunch panel's state in the dashboard component and the state write
  that ends `fetchLunch` (src/App.jsx:84-85, 122-151).

  The network call, the JSON decoding and the weekday naming are not
  modelled as code: what they produced is given to `FetchLunch` as a
  `FetchResult` value and a `dayOf` function.
*/
module Lunch {
  import opened Wrappers
  import opened Menu

  /** The decoded body of a successful `/api/lunch` response; an absent,
      `null` or `undefined` `FamilyMenuSessions` is `None`. */
  datatype Payload = Payload(familyMenuSessions: Option<seq<RawSession>>)

  /** What `fetch('/api/lunch')` and `res.json()` delivered: the fetch was
      rejected, or a response arrived with its `ok` flag and, when its body
      is valid JSON, the decoded payload. */
  datatype FetchResult =
    | Rejected
    | Response(ok: bool, body: Option<Payload>)

  /** The sessions `fetchLunch` goes on to normalize: only from an ok
      response whose body decodes and carries `FamilyMenuSessions`. */
  function SessionsOf(res: FetchResult): (r: Option<seq<RawSession>>)
    ensures r.Some? <==> res.Response? && res.ok && res.body.Some? && res.body.value.familyMenuSessions.Some?
    ensures r.Some? ==> r == res.body.value.familyMenuSessions
  {
    match res
    case Rejected => None
    case Response(ok, body) =>
      if ok && body.Some? then body.value.familyMenuSessions else None
  }

  /** The value of `lunchMenu` after one `fetchLunch`, given its value before. */
  function NextLunchMenu(prev: WeekMenu, dayOf: string -> DayName, res: FetchResult): (next: WeekMenu)
    ensures SessionsOf(res).None? ==> next == prev
    ensures SessionsOf(res).Some? && !(forall i :: 0 <= i < |SessionsOf(res).value| ==> Parsable(SessionsOf(res).value[i]))
      ==> next == prev
    ensures SessionsOf(res).Some? && (forall i :: 0 <= i < |SessionsOf(res).value| ==> Parsable(SessionsOf(res).value[i]))
      ==> next.Keys == DaysIn(dayOf, SessionsOf(res).value)
  {
    match SessionsOf(res)
    case None => prev
    case Some(ss) =>
      match Normalize(dayOf, ss)
      case None => prev
      case Some(m) =>
        NormalizeLastWins(dayOf, ss, m);
        m
  }

  /** A completed fetch either leaves `lunchMenu` as it was or replaces it
      wholesale: when it replaces, the new value does not depend on the old
      one (no merge), and every key holds the last session of its weekday. */
  lemma ReplaceOrKeep(prev1: WeekMenu, prev2: WeekMenu, dayOf: string -> DayName, res: FetchResult)
    ensures NextLunchMenu(prev1, dayOf, res) == prev1
         || NextLunchMenu(prev1, dayOf, res) == NextLunchMenu(prev2, dayOf, res)
    ensures NextLunchMenu(prev1, dayOf, res) != NextLunchMenu(prev2, dayOf, res) ==>
      NextLunchMenu(prev1, dayOf, res) == prev1 && NextLunchMenu(prev2, dayOf, res) == prev2
    ensures SessionsOf(res).Some? && Normalize(dayOf, SessionsOf(res).value).Some? ==>
      forall d, k :: IsLastFor(dayOf, SessionsOf(res).value, d, k) ==>
        d in NextLunchMenu(prev1, dayOf, res)
        && Some(NextLunchMenu(prev1, dayOf, res)[d]) == MapSession(SessionsOf(res).value[k])
  {
    if SessionsOf(res).Some? && Normalize(dayOf, SessionsOf(res).value).Some? {
      NormalizeLastWins(dayOf, SessionsOf(res).value, Normalize(dayOf, SessionsOf(res).value).value);
    }
  }

  /** The slice of the dashboard component's state that the lunch panel owns. */
  class Dashboard {
    var lunchMenu: WeekMenu
    var loadingMenu: bool

    /** `useState({})` and `useState(false)`. */
    constructor ()
      ensures lunchMenu == map[] && !loadingMenu
    {
      lunchMenu := map[];
      loadingMenu := false;
    }

    /** One run of `fetchLunch`: the loading flag is raised and lowered
        again (the `finally`), and `lunchMenu` is set to the normalized
        feed only when the response was ok, its body decoded, it carried
        `FamilyMenuSessions` and no session made the loop throw. */
    method FetchLunch(dayOf: string -> DayName, res: FetchResult)
      modifies this
      ensures !loadingMenu
      ensures lunchMenu == NextLunchMenu(old(lunchMenu), dayOf, res)
    {
      loadingMenu := true;
      if res.Response? && res.ok {
        if res.body.Some? {
          var data := res.body.value;
          if data.familyMenuSessions.Some? {
            var parsedMenu := ParseMenu(dayOf, data.familyMenuSessions.value);
            if parsedMenu.Some? {
              lunchMenu := parsedMenu.value;
            }
          }
        }
      }
      loadingMenu := false;
    }
  }
}
