/**
  The lunch-menu normalizer of the dashboard (src/App.jsx, fetchLunch).

  The provider feed is an ordered list of sessions, each with a serving date
  and a list of categories, each category with a list of items. The
  normalizer walks the feed in order and builds a dictionary from the
  weekday name of each session's serving date to the session's categories,
  reshaped as `{name, items: [string]}`. A later session with the same weekday
  overwrites the entry of an earlier one. A session without `MenuCategories`,
  or a category without `MenuItems`, makes `.map` throw, which aborts the
  whole normalization.
*/
module Menu {
  import opened Wrappers

  datatype Weekday = Monday | Tuesday | Wednesday | Thursday | Friday | Saturday | Sunday

  /** What `toLocaleDateString('en-US', { weekday: 'long' })` yields for a
      `Date`: an English weekday name, or "Invalid Date" when the serving
      date did not parse. */
  datatype DayName = Day(weekday: Weekday) | InvalidDate

  // The provider's raw shapes; an absent sub-list is `None`.
  datatype RawItem = RawItem(name: string)
  datatype RawCategory = RawCategory(name: string, menuItems: Option<seq<RawItem>>)
  datatype RawSession = RawSession(servingDate: string, menuCategories: Option<seq<RawCategory>>)

  // The normalized shapes the dashboard renders.
  datatype Category = Category(name: string, items: seq<string>)
  type WeekMenu = map<DayName, seq<Category>>

  /** A session the normalizer can reshape without throwing. */
  predicate Parsable(s: RawSession) {
    && s.menuCategories.Some?
    && forall i :: 0 <= i < |s.menuCategories.value| ==> s.menuCategories.value[i].menuItems.Some?
  }

  /** `cat.MenuItems.map(item => item.Name)` */
  function MapItems(items: seq<RawItem>): (names: seq<string>)
    ensures |names| == |items|
    ensures forall j :: 0 <= j < |items| ==> names[j] == items[j].name
  {
    if items == [] then [] else [items[0].name] + MapItems(items[1..])
  }

  /** `session.MenuCategories.map(cat => ({ name: cat.Name, items: ... }))`;
      `None` when some category has no `MenuItems` (the inner `.map` throws). */
  function MapCategories(cats: seq<RawCategory>): (r: Option<seq<Category>>)
    ensures r.Some? <==> forall i :: 0 <= i < |cats| ==> cats[i].menuItems.Some?
    ensures r.Some? ==> |r.value| == |cats|
    ensures r.Some? ==> forall i :: 0 <= i < |cats| ==>
      && r.value[i].name == cats[i].name
      && |r.value[i].items| == |cats[i].menuItems.value|
      && forall j :: 0 <= j < |cats[i].menuItems.value| ==>
           r.value[i].items[j] == cats[i].menuItems.value[j].name
  {
    if cats == [] then Some([])
    else
      match cats[0].menuItems
      case None => None
      case Some(items) =>
        match MapCategories(cats[1..])
        case None => None
        case Some(rest) => Some([Category(cats[0].name, MapItems(items))] + rest)
  }

  /** The categories of one session; `None` when reshaping it would throw. */
  function MapSession(s: RawSession): (r: Option<seq<Category>>)
    ensures r.Some? <==> Parsable(s)
    ensures r.Some? ==> |r.value| == |s.menuCategories.value|
  {
    match s.menuCategories
    case None => None
    case Some(cats) => MapCategories(cats)
  }

  /** The dictionary the `forEach` loop leaves behind after the sessions `ss`,
      processed in feed order: each session overwrites the entry of its
      weekday. `None` when some session makes the loop throw. */
  function Normalize(dayOf: string -> DayName, ss: seq<RawSession>): (r: Option<WeekMenu>)
    ensures r.Some? <==> forall i :: 0 <= i < |ss| ==> Parsable(ss[i])
  {
    if ss == [] then Some(map[])
    else
      var last := ss[|ss| - 1];
      match Normalize(dayOf, ss[..|ss| - 1])
      case None => None
      case Some(m) =>
        match MapSession(last)
        case None => None
        case Some(cats) => Some(m[dayOf(last.servingDate) := cats])
  }

  /** The weekday names of the sessions in `ss`. */
  function DaysIn(dayOf: string -> DayName, ss: seq<RawSession>): set<DayName> {
    set i | 0 <= i < |ss| :: dayOf(ss[i].servingDate)
  }

  /** Session `k` is the last one in `ss` whose serving date falls on `d`. */
  predicate IsLastFor(dayOf: string -> DayName, ss: seq<RawSession>, d: DayName, k: int) {
    && 0 <= k < |ss|
    && dayOf(ss[k].servingDate) == d
    && forall j :: k < j < |ss| ==> dayOf(ss[j].servingDate) != d
  }

  /** The keys of the normalized menu are exactly the weekdays of the feed,
      and each key holds the categories of the last session on that weekday;
      earlier sessions on the same weekday leave no trace. */
  lemma {:induction false} NormalizeLastWins(dayOf: string -> DayName, ss: seq<RawSession>, m: WeekMenu)
    requires Normalize(dayOf, ss) == Some(m)
    ensures m.Keys == DaysIn(dayOf, ss)
    ensures forall d, k :: IsLastFor(dayOf, ss, d, k) ==> d in m && Some(m[d]) == MapSession(ss[k])
  {
    if ss != [] {
      var pre, last := ss[..|ss| - 1], ss[|ss| - 1];
      var m' := Normalize(dayOf, pre).value;
      NormalizeLastWins(dayOf, pre, m');
      assert m == m'[dayOf(last.servingDate) := MapSession(last).value];
      assert DaysIn(dayOf, ss) == DaysIn(dayOf, pre) + {dayOf(last.servingDate)} by {
        forall d | d in DaysIn(dayOf, ss) ensures d in DaysIn(dayOf, pre) + {dayOf(last.servingDate)} {
          var i :| 0 <= i < |ss| && dayOf(ss[i].servingDate) == d;
          if i < |pre| { assert pre[i] == ss[i]; }
        }
        forall d | d in DaysIn(dayOf, pre) ensures d in DaysIn(dayOf, ss) {
          var i :| 0 <= i < |pre| && dayOf(pre[i].servingDate) == d;
          assert ss[i] == pre[i];
        }
      }
      forall d, k | IsLastFor(dayOf, ss, d, k) ensures d in m && Some(m[d]) == MapSession(ss[k]) {
        if k < |pre| {
          assert dayOf(last.servingDate) != d;
          assert IsLastFor(dayOf, pre, d, k);
          assert pre[k] == ss[k];
        }
      }
    }
  }

  /** Every weekday of the feed has a last session. */
  lemma {:induction false} LastSessionExists(dayOf: string -> DayName, ss: seq<RawSession>, d: DayName)
    requires d in DaysIn(dayOf, ss)
    ensures exists k :: IsLastFor(dayOf, ss, d, k)
  {
    var n := |ss| - 1;
    if dayOf(ss[n].servingDate) == d {
      assert IsLastFor(dayOf, ss, d, n);
    } else {
      var pre := ss[..n];
      assert d in DaysIn(dayOf, pre) by {
        var i :| 0 <= i < |ss| && dayOf(ss[i].servingDate) == d;
        assert i < n && pre[i] == ss[i];
      }
      LastSessionExists(dayOf, pre, d);
      var k :| IsLastFor(dayOf, pre, d, k);
      assert pre[k] == ss[k];
      assert IsLastFor(dayOf, ss, d, k);
    }
  }

  /** An empty feed normalizes to an empty dictionary. */
  lemma EmptyFeedEmptyMenu(dayOf: string -> DayName)
    ensures Normalize(dayOf, []) == Some(map[])
  {
  }

  /** A session with an empty `MenuCategories` that is the last of its
      weekday still creates that weekday's key, holding an empty list. */
  lemma EmptyCategoriesKeepKey(dayOf: string -> DayName, ss: seq<RawSession>, m: WeekMenu, k: int)
    requires Normalize(dayOf, ss) == Some(m)
    requires 0 <= k < |ss| && ss[k].menuCategories == Some([])
    requires IsLastFor(dayOf, ss, dayOf(ss[k].servingDate), k)
    ensures dayOf(ss[k].servingDate) in m && m[dayOf(ss[k].servingDate)] == []
  {
    NormalizeLastWins(dayOf, ss, m);
  }

  /** A single Monday session with one "Entree" category holding "Pizza"
      normalizes to exactly that Monday entry. */
  lemma MondayPizza(dayOf: string -> DayName)
    requires dayOf("2024-06-03") == Day(Monday)
    ensures Normalize(dayOf, [RawSession("2024-06-03", Some([RawCategory("Entree", Some([RawItem("Pizza")]))]))])
         == Some(map[Day(Monday) := [Category("Entree", ["Pizza"])]])
  {
    var items := [RawItem("Pizza")];
    var cats := [RawCategory("Entree", Some(items))];
    var ss := [RawSession("2024-06-03", Some(cats))];
    assert items[1..] == [] && cats[1..] == [] && ss[..0] == [];
    assert MapItems(items) == ["Pizza"];
    assert MapCategories(cats[1..]) == Some([]);
    assert [Category("Entree", ["Pizza"])] + [] == [Category("Entree", ["Pizza"])];
    assert MapCategories(cats) == Some([Category("Entree", ["Pizza"])]);
  }

  /** Two sessions on the same Monday: only the second one's "Tacos" survive. */
  lemma SecondMondayWins(dayOf: string -> DayName, first: RawSession)
    requires Parsable(first)
    requires dayOf(first.servingDate) == Day(Monday) && dayOf("2024-06-03") == Day(Monday)
    ensures Normalize(dayOf, [first, RawSession("2024-06-03", Some([RawCategory("Entree", Some([RawItem("Tacos")]))]))])
         == Some(map[Day(Monday) := [Category("Entree", ["Tacos"])]])
  {
    var items := [RawItem("Tacos")];
    var cats := [RawCategory("Entree", Some(items))];
    var ss := [first, RawSession("2024-06-03", Some(cats))];
    assert items[1..] == [] && cats[1..] == [] && ss[..1] == [first] && [first][..0] == [];
    assert MapItems(items) == ["Tacos"];
    assert MapCategories(cats[1..]) == Some([]);
    assert [Category("Entree", ["Tacos"])] + [] == [Category("Entree", ["Tacos"])];
    assert MapCategories(cats) == Some([Category("Entree", ["Tacos"])]);
    var earlier := MapSession(first).value;
    assert Normalize(dayOf, [first]) == Some(map[Day(Monday) := earlier]);
    assert map[Day(Monday) := earlier][Day(Monday) := [Category("Entree", ["Tacos"])]]
        == map[Day(Monday) := [Category("Entree", ["Tacos"])]];
  }

  /** The `forEach` loop of `fetchLunch` (src/App.jsx:129-142): it fills a
      fresh dictionary session by session and stops at the first session
      whose reshaping throws. */
  method ParseMenu(dayOf: string -> DayName, sessions: seq<RawSession>) returns (parsed: Option<WeekMenu>)
    ensures parsed == Normalize(dayOf, sessions)
    ensures parsed.Some? <==> forall i :: 0 <= i < |sessions| ==> Parsable(sessions[i])
    ensures parsed.Some? ==> parsed.value.Keys == DaysIn(dayOf, sessions)
  {
    var menu: WeekMenu := map[];
    var i := 0;
    while i < |sessions|
      invariant 0 <= i <= |sessions|
      invariant Normalize(dayOf, sessions[..i]) == Some(menu)
    {
      var session := sessions[i];
      var dayName := dayOf(session.servingDate);
      var categories := MapSession(session);
      if categories.None? {
        return None;
      }
      assert sessions[..i + 1][..i] == sessions[..i];
      menu := menu[dayName := categories.value];
      i := i + 1;
    }
    assert sessions[..i] == sessions;
    NormalizeLastWins(dayOf, sessions, menu);
    parsed := Some(menu);
  }
}
